/** The sign-in page: two inputs, a button enabled by the e-mail check alone, and one toast for
    every rejected login. */
module LoginPage {
  import opened Wrappers
  import opened JsText
  import opened Email
  import opened HttpClient
  import opened Auth
  import opened AuthContext

  const INVALID_CREDENTIALS := "Invalid email or password"

  class LoginForm {
    const auth: AuthProvider
    var email: string
    var password: string
    var toasts: seq<string>

    constructor (auth: AuthProvider)
      ensures this.auth == auth && email == "" && password == "" && toasts == []
    {
      this.auth := auth;
      email := "";
      password := "";
      toasts := [];
    }

    /** `disabled={!isEmailValid}`: the password plays no part. */
    function SignInDisabled(): (d: bool)
      reads this
      ensures d <==> !MatchesPattern(email)
    {
      CheckEmailMatchesPattern(email);
      !CheckEmail(email)
    }

    method SetEmail(value: string)
      modifies this
      ensures email == value && password == old(password) && toasts == old(toasts)
    {
      email := value;
    }

    method SetPassword(value: string)
      modifies this
      ensures password == value && email == old(email) && toasts == old(toasts)
    {
      password := value;
    }

    /** The login request with the current inputs; any rejection, whatever its status, shows the
        same toast. The inputs are kept either way. */
    method HandleSubmit(reply: Result<Body, HttpError>) returns (sent: RequestConfig)
      modifies this, auth, auth.browser
      ensures email == old(email) && password == old(password)
      ensures sent == RequestConfig("/auth/login", WithBearer(map[], old(auth.browser.token)), Some(Credentials(email, password)))
      ensures reply.Success? ==>
        toasts == old(toasts) && auth.user == Some(EmailUser(email))
        && auth.browser.token == Some(StringOf(Field(reply.value, ACCESS_TOKEN_AS_WRITTEN)))
        && auth.browser.href == old(auth.browser.href)
      ensures reply.Failure? ==> auth.user == old(auth.user)
      ensures SessionExpired(reply) ==> auth.browser.token == None && auth.browser.href == "/login"
      ensures reply.Failure? && !SessionExpired(reply) ==>
        auth.browser.token == old(auth.browser.token) && auth.browser.href == old(auth.browser.href)
      ensures forall p: TokenPair | reply == Success(TokenPairBody(p)) :: auth.browser.token == Some("undefined")
      ensures reply.Failure? ==> toasts == old(toasts) + [INVALID_CREDENTIALS]
    {
      var r;
      sent, r := auth.Login(email, password, reply);
      if r.Failure? {
        toasts := toasts + [INVALID_CREDENTIALS];
      }
    }
  }
}
