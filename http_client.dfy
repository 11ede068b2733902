/** The axios instance every client request goes through, with its two interceptors, and the
    browser globals they touch. There is no refresh step: a 401 only clears the stored token
    and sends the page to /login, and every error is rejected to the caller as it came. */
module HttpClient {
  import opened Wrappers
  import opened JsText

  /** `localStorage.getItem('token')` and `window.location.href`. */
  class Browser {
    var token: Option<string>
    var href: string

    constructor (token: Option<string>, href: string)
      ensures this.token == token && this.href == href
    {
      this.token := token;
      this.href := href;
    }
  }

  /** The JSON values the client's request bodies hold. */
  datatype JsonValue = JString(str: string) | JBool(flag: bool) | JNumber(number: int)

  /** A JSON object sent as a request body. */
  type Payload = map<string, JsonValue>

  /** What axios is asked to send: the path, the headers, and the body if there is one. */
  datatype RequestConfig = RequestConfig(url: string, headers: map<string, string>, body: Option<Payload>)

  /** An axios rejection; `status` is `error.response?.status`, missing when no response came. */
  datatype HttpError = HttpError(status: Option<int>)

  const AUTHORIZATION := "Authorization"

  /** The request interceptor's header rule: with a truthy stored token the Authorization
      header becomes `'Bearer ' + token`; otherwise the headers are left as they are. */
  function WithBearer(headers: map<string, string>, token: Option<string>): (h: map<string, string>)
    ensures Truthy(token) ==> AUTHORIZATION in h && h[AUTHORIZATION] == "Bearer " + token.value
    ensures !Truthy(token) ==> h == headers
    ensures forall k | k != AUTHORIZATION :: (k in h <==> k in headers) && (k in h ==> h[k] == headers[k])
  {
    if Truthy(token) then headers[AUTHORIZATION := "Bearer " + token.value] else headers
  }

  /** Attaching the same token twice is attaching it once. */
  lemma WithBearerIdempotent(headers: map<string, string>, token: Option<string>)
    ensures WithBearer(WithBearer(headers, token), token) == WithBearer(headers, token)
  {
  }

  /** `interceptors.request.use`: the config with the bearer header rule applied. */
  method OnRequest(browser: Browser, config: RequestConfig) returns (c: RequestConfig)
    ensures c.url == config.url && c.body == config.body
    ensures c.headers == WithBearer(config.headers, browser.token)
  {
    c := config;
    var token := browser.token;
    if Truthy(token) {
      c := c.(headers := c.headers[AUTHORIZATION := "Bearer " + token.value]);
    }
  }

  /** Whether the interceptor treats an error as an expired session. */
  predicate IsUnauthorized(e: HttpError) {
    e.status == Some(401)
  }

  /** `interceptors.response.use`'s error handler: on 401 the token is removed and the page
      sent to /login; the error is rejected unchanged in every case. */
  method OnResponseError(browser: Browser, error: HttpError) returns (rejected: HttpError)
    modifies browser
    ensures rejected == error
    ensures IsUnauthorized(error) ==> browser.token == None && browser.href == "/login"
    ensures !IsUnauthorized(error) ==> browser.token == old(browser.token) && browser.href == old(browser.href)
  {
    if IsUnauthorized(error) {
      browser.token := None;
      browser.href := "/login";
    }
    rejected := error;
  }

  /** Whether an answer ends the session: a rejection with status 401. */
  predicate SessionExpired<T>(reply: Result<T, HttpError>) {
    reply.Failure? && IsUnauthorized(reply.error)
  }

  /** One request through the instance: `reply` is what the server answers. The request is
      dispatched once, with its url and body, under the interceptor's headers; a success is returned unchanged and a
      failure is rejected unchanged after the response interceptor ran. */
  method Send<T>(browser: Browser, config: RequestConfig, reply: Result<T, HttpError>)
    returns (sent: RequestConfig, r: Result<T, HttpError>)
    modifies browser
    ensures sent == config.(headers := WithBearer(config.headers, old(browser.token)))
    ensures r == reply
    ensures SessionExpired(reply) ==> browser.token == None && browser.href == "/login"
    ensures !SessionExpired(reply) ==> browser.token == old(browser.token) && browser.href == old(browser.href)
  {
    sent := OnRequest(browser, config);
    match reply {
      case Success(_) =>
        r := reply;
      case Failure(e) =>
        var rejected := OnResponseError(browser, e);
        r := Failure(rejected);
    }
  }
}
