/** The sign-up page: two inputs, the derived validity and disabled flags, and the submit
    handler that reports failures as toasts. Each effect that recomputes `isDisabled` is folded
    into the change handler that triggers it. */
module SignupPage {
  import opened Wrappers
  import opened Errors
  import opened JsText
  import opened Email
  import opened HttpClient
  import opened Auth
  import opened AuthContext

  const EMAIL_EXISTS := "Email already exists"
  const SOMETHING_WRONG := "Something went wrong"

  /** The toast for a rejected signup, chosen by the response status. */
  function SignupErrorMessage(status: Option<int>): (m: string)
    ensures m == EMAIL_EXISTS <==> status == Some(409)
    ensures m == EMAIL_EXISTS || m == SOMETHING_WRONG
  {
    if status == Some(409) then EMAIL_EXISTS else SOMETHING_WRONG
  }

  /** The server's answer to an e-mail that is taken reaches the user as "Email already exists". */
  lemma ConflictToastsEmailExists(message: string)
    ensures SignupErrorMessage(Some(Status(Conflict(message)))) == EMAIL_EXISTS
  {
  }

  class SignupForm {
    const auth: AuthProvider
    var email: string
    var password: string
    var isEmailValid: bool
    var isDisabled: bool
    var isLoading: bool
    var toasts: seq<string>

    /** The derived flags agree with the inputs. */
    ghost predicate Valid()
      reads this
    {
      isEmailValid == CheckEmail(email) && isDisabled == !(isEmailValid && password != "")
    }

    /** `disabled={isDisabled || isLoading}`. */
    function ButtonDisabled(): (d: bool)
      reads this
      requires Valid()
      ensures d <==> !CheckEmail(email) || password == "" || isLoading
    {
      isDisabled || isLoading
    }

    constructor (auth: AuthProvider)
      ensures Valid() && this.auth == auth
      ensures email == "" && password == "" && !isLoading && toasts == []
      ensures isDisabled && !isEmailValid
    {
      this.auth := auth;
      email := "";
      password := "";
      isEmailValid := false;
      isDisabled := true;
      isLoading := false;
      toasts := [];
    }

    method HandleEmailChange(value: string)
      requires Valid()
      modifies this
      ensures Valid()
      ensures email == value && isEmailValid == CheckEmail(value)
      ensures password == old(password) && isLoading == old(isLoading) && toasts == old(toasts)
    {
      email := value;
      isEmailValid := CheckEmail(value);
      isDisabled := !(isEmailValid && password != "");
    }

    method HandlePasswordChange(value: string)
      requires Valid()
      modifies this
      ensures Valid()
      ensures password == value
      ensures email == old(email) && isEmailValid == old(isEmailValid)
      ensures isLoading == old(isLoading) && toasts == old(toasts)
    {
      password := value;
      isDisabled := !(isEmailValid && password != "");
    }

    /** The part of `handleSubmit` before the request settles: the button now shows it is
        loading and cannot be pressed again. */
    method HandleSubmit()
      requires Valid()
      modifies this
      ensures Valid() && isLoading && ButtonDisabled()
      ensures email == old(email) && password == old(password) && toasts == old(toasts)
    {
      isLoading := true;
    }

    /** The rest of `handleSubmit`: the signup request with the current inputs through the
        context's signup as written, a toast chosen by the status on failure, and the loading
        flag cleared either way. */
    method OnSignupSettled(reply: Result<Body, HttpError>) returns (sent: RequestConfig)
      requires Valid()
      modifies this, auth, auth.browser
      ensures Valid() && !isLoading
      ensures email == old(email) && password == old(password)
      ensures sent == RequestConfig("/auth/signup", WithBearer(map[], old(auth.browser.token)), Some(Credentials(email, password)))
      ensures reply.Success? ==>
        toasts == old(toasts) && auth.user == Some(EmailUser(email))
        && auth.browser.token == Some(StringOf(Field(reply.value, ACCESS_TOKEN_AS_WRITTEN)))
        && auth.browser.href == old(auth.browser.href)
      ensures reply.Failure? ==> auth.user == old(auth.user)
      ensures SessionExpired(reply) ==> auth.browser.token == None && auth.browser.href == "/login"
      ensures reply.Failure? && !SessionExpired(reply) ==>
        auth.browser.token == old(auth.browser.token) && auth.browser.href == old(auth.browser.href)
      ensures forall p: TokenPair | reply == Success(TokenPairBody(p)) :: auth.browser.token == Some("undefined")
      ensures reply.Failure? ==> toasts == old(toasts) + [SignupErrorMessage(reply.error.status)]
    {
      var r;
      sent, r := auth.Signup(email, password, reply);
      if r.Failure? {
        toasts := toasts + [SignupErrorMessage(r.error.status)];
      }
      isLoading := false;
    }
  }
}
