/** The client's session: who is signed in, and the token kept in the browser's storage. */
module AuthContext {
  import opened Wrappers
  import opened JsText
  import opened Users
  import opened Auth
  import opened HttpClient

  /** What `user` holds once set: the server's verified user on mount, or `{ email }` after a
      login or signup. */
  datatype ClientUser = VerifiedUser(data: SafeUser) | EmailUser(email: string)

  /** A JSON response body as the client reads it: string-valued fields by name. */
  type Body = map<string, string>

  /** `response.data[name]`: missing fields read as `undefined`. */
  function Field(body: Body, name: string): (r: Option<string>)
    ensures r.Some? <==> name in body
    ensures r.Some? ==> r.value == body[name]
  {
    if name in body then Some(body[name]) else None
  }

  /** The body the server sends for a token pair: its fields are named `accessToken` and
      `refreshToken`. */
  function TokenPairBody(p: TokenPair): (b: Body)
    ensures b.Keys == {"accessToken", "refreshToken"}
  {
    map["accessToken" := p.accessToken, "refreshToken" := p.refreshToken]
  }

  /** The body login and signup post: `{ email, password }`. */
  function Credentials(email: string, password: string): (b: Payload)
    ensures b.Keys == {"email", "password"}
    ensures b["email"] == JString(email) && b["password"] == JString(password)
  {
    map["email" := JString(email), "password" := JString(password)]
  }

  /** The field the client reads the token from, as written, and the field the server fills. */
  const ACCESS_TOKEN_AS_WRITTEN := "access_token"
  const ACCESS_TOKEN := "accessToken"

  /** As written, login and signup store the string "undefined" whatever pair the server sent. */
  lemma StoredTokenIsUndefined(p: TokenPair)
    ensures StringOf(Field(TokenPairBody(p), ACCESS_TOKEN_AS_WRITTEN)) == "undefined"
  {
    assert ACCESS_TOKEN_AS_WRITTEN !in TokenPairBody(p);
  }

  /** Reading the field the server fills stores the access token it signed. */
  lemma CorrectedStoresAccessToken(p: TokenPair)
    ensures StringOf(Field(TokenPairBody(p), ACCESS_TOKEN)) == p.accessToken
  {
  }

  class AuthProvider {
    const browser: Browser
    var user: Option<ClientUser>

    constructor (browser: Browser)
      ensures this.browser == browser && user == None
    {
      this.browser := browser;
      user := None;
    }

    /** The mount effect: with a truthy stored token, GET /auth/verify-token with it as the
        bearer; a success sets the user to the server's answer and any failure removes the
        token (a 401 also sends the page to /login). Without a token nothing is sent. */
    method VerifyToken(reply: Result<SafeUser, HttpError>) returns (sent: Option<RequestConfig>)
      modifies this, browser
      ensures !Truthy(old(browser.token)) ==>
        sent == None && user == old(user)
        && browser.token == old(browser.token) && browser.href == old(browser.href)
      ensures Truthy(old(browser.token)) ==>
        && sent == Some(RequestConfig("/auth/verify-token", map[AUTHORIZATION := "Bearer " + old(browser.token).value], None))
        && (reply.Success? ==>
              user == Some(VerifiedUser(reply.value))
              && browser.token == old(browser.token) && browser.href == old(browser.href))
        && (reply.Failure? ==> user == old(user) && browser.token == None)
        && (SessionExpired(reply) ==> browser.href == "/login")
        && (reply.Failure? && !SessionExpired(reply) ==> browser.href == old(browser.href))
    {
      var token := browser.token;
      if !Truthy(token) {
        sent := None;
        return;
      }
      var headers := map[AUTHORIZATION := "Bearer " + token.value];
      assert WithBearer(headers, token) == headers;
      var config, answer := Send(browser, RequestConfig("/auth/verify-token", headers, None), reply);
      sent := Some(config);
      match answer {
        case Success(data) =>
          user := Some(VerifiedUser(data));
        case Failure(_) =>
          browser.token := None;
      }
    }

    /** POST `{ email, password }` to `url`; on success store `String(data[field])` as the token
        and set the user to `{ email }`. A failure is rethrown with the session left as the
        response interceptor left it. */
    method PostCredentials(url: string, field: string, email: string, password: string, reply: Result<Body, HttpError>)
      returns (sent: RequestConfig, r: Result<(), HttpError>)
      modifies this, browser
      ensures sent == RequestConfig(url, WithBearer(map[], old(browser.token)), Some(Credentials(email, password)))
      ensures reply.Success? ==>
        r.Success? && browser.token == Some(StringOf(Field(reply.value, field)))
        && user == Some(EmailUser(email)) && browser.href == old(browser.href)
      ensures reply.Failure? ==> r == Failure(reply.error) && user == old(user)
      ensures SessionExpired(reply) ==> browser.token == None && browser.href == "/login"
      ensures reply.Failure? && !SessionExpired(reply) ==>
        browser.token == old(browser.token) && browser.href == old(browser.href)
    {
      var answer;
      sent, answer := Send(browser, RequestConfig(url, map[], Some(Credentials(email, password))), reply);
      match answer {
        case Success(data) =>
          browser.token := Some(StringOf(Field(data, field)));
          user := Some(EmailUser(email));
          r := Success(());
        case Failure(e) =>
          r := Failure(e);
      }
    }

    /** `login` as written: posts the credentials and reads the token from `access_token`, so a
        token pair from the server leaves the string "undefined" in storage. */
    method Login(email: string, password: string, reply: Result<Body, HttpError>)
      returns (sent: RequestConfig, r: Result<(), HttpError>)
      modifies this, browser
      ensures sent == RequestConfig("/auth/login", WithBearer(map[], old(browser.token)), Some(Credentials(email, password)))
      ensures reply.Success? ==>
        r.Success? && browser.token == Some(StringOf(Field(reply.value, ACCESS_TOKEN_AS_WRITTEN)))
        && user == Some(EmailUser(email)) && browser.href == old(browser.href)
      ensures forall p: TokenPair | reply == Success(TokenPairBody(p)) :: browser.token == Some("undefined")
      ensures reply.Failure? ==> r == Failure(reply.error) && user == old(user)
      ensures SessionExpired(reply) ==> browser.token == None && browser.href == "/login"
      ensures reply.Failure? && !SessionExpired(reply) ==>
        browser.token == old(browser.token) && browser.href == old(browser.href)
    {
      sent, r := PostCredentials("/auth/login", ACCESS_TOKEN_AS_WRITTEN, email, password, reply);
      forall p: TokenPair | reply == Success(TokenPairBody(p)) ensures browser.token == Some("undefined") {
        StoredTokenIsUndefined(p);
      }
    }

    /** `signup` as written: posts the credentials and reads the token from `access_token`. */
    method Signup(email: string, password: string, reply: Result<Body, HttpError>)
      returns (sent: RequestConfig, r: Result<(), HttpError>)
      modifies this, browser
      ensures sent == RequestConfig("/auth/signup", WithBearer(map[], old(browser.token)), Some(Credentials(email, password)))
      ensures reply.Success? ==>
        r.Success? && browser.token == Some(StringOf(Field(reply.value, ACCESS_TOKEN_AS_WRITTEN)))
        && user == Some(EmailUser(email)) && browser.href == old(browser.href)
      ensures forall p: TokenPair | reply == Success(TokenPairBody(p)) :: browser.token == Some("undefined")
      ensures reply.Failure? ==> r == Failure(reply.error) && user == old(user)
      ensures SessionExpired(reply) ==> browser.token == None && browser.href == "/login"
      ensures reply.Failure? && !SessionExpired(reply) ==>
        browser.token == old(browser.token) && browser.href == old(browser.href)
    {
      sent, r := PostCredentials("/auth/signup", ACCESS_TOKEN_AS_WRITTEN, email, password, reply);
      forall p: TokenPair | reply == Success(TokenPairBody(p)) ensures browser.token == Some("undefined") {
        StoredTokenIsUndefined(p);
      }
    }

    /** `login` reading the field the server fills: a token pair from the server leaves its
        access token in storage. */
    method LoginCorrected(email: string, password: string, reply: Result<Body, HttpError>)
      returns (sent: RequestConfig, r: Result<(), HttpError>)
      modifies this, browser
      ensures sent == RequestConfig("/auth/login", WithBearer(map[], old(browser.token)), Some(Credentials(email, password)))
      ensures forall p: TokenPair | reply == Success(TokenPairBody(p)) ::
        r.Success? && browser.token == Some(p.accessToken) && user == Some(EmailUser(email))
      ensures reply.Success? ==> r.Success? && user == Some(EmailUser(email)) && browser.href == old(browser.href)
      ensures reply.Failure? ==> r == Failure(reply.error) && user == old(user)
      ensures SessionExpired(reply) ==> browser.token == None && browser.href == "/login"
      ensures reply.Failure? && !SessionExpired(reply) ==>
        browser.token == old(browser.token) && browser.href == old(browser.href)
    {
      sent, r := PostCredentials("/auth/login", ACCESS_TOKEN, email, password, reply);
      forall p: TokenPair | reply == Success(TokenPairBody(p)) ensures browser.token == Some(p.accessToken) {
        CorrectedStoresAccessToken(p);
      }
    }

    /** `signup` reading the field the server fills. */
    method SignupCorrected(email: string, password: string, reply: Result<Body, HttpError>)
      returns (sent: RequestConfig, r: Result<(), HttpError>)
      modifies this, browser
      ensures sent == RequestConfig("/auth/signup", WithBearer(map[], old(browser.token)), Some(Credentials(email, password)))
      ensures forall p: TokenPair | reply == Success(TokenPairBody(p)) ::
        r.Success? && browser.token == Some(p.accessToken) && user == Some(EmailUser(email))
      ensures reply.Success? ==> r.Success? && user == Some(EmailUser(email)) && browser.href == old(browser.href)
      ensures reply.Failure? ==> r == Failure(reply.error) && user == old(user)
      ensures SessionExpired(reply) ==> browser.token == None && browser.href == "/login"
      ensures reply.Failure? && !SessionExpired(reply) ==>
        browser.token == old(browser.token) && browser.href == old(browser.href)
    {
      sent, r := PostCredentials("/auth/signup", ACCESS_TOKEN, email, password, reply);
      forall p: TokenPair | reply == Success(TokenPairBody(p)) ensures browser.token == Some(p.accessToken) {
        CorrectedStoresAccessToken(p);
      }
    }

    /** Remove the token and forget the user; nothing is sent to the server. */
    method Logout()
      modifies this, browser
      ensures browser.token == None && user == None && browser.href == old(browser.href)
    {
      browser.token := None;
      user := None;
    }
  }
}
