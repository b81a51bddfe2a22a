/** The login page: one form that signs in or registers. Registration is checked
    locally first (the two passwords match, then at least eight characters); the
    request itself goes through the session service. */
module LoginPage {
  import opened Wrappers
  import opened Json
  import opened LocalStorage
  import opened HttpClient
  import AuthService

  const PasswordMismatchMessage: string := "비밀번호가 일치하지 않습니다."
  const PasswordTooShortMessage: string := "비밀번호는 8자 이상이어야 합니다."
  /** Shown for a thrown value that is not an `Error`; every failure the session
      service produces is an `Error`, so the model never shows it. */
  const UnknownFailureMessage: string := "로그인 중 오류가 발생했습니다."
  const MinimumPasswordLength: nat := 8

  datatype FormField = Name | Email | Password | ConfirmPassword

  /** `error.message` of what the session service throws. */
  function FailureMessage(thrown: AuthService.Thrown): (m: string)
    ensures thrown.ApiError? ==> m == thrown.error.message
    ensures thrown.PlainError? ==> m == thrown.message
  {
    match thrown
    case ApiError(e) => e.message
    case PlainError(message) => message
  }

  /** The register pre-checks, in order: the mismatch first, then the length. */
  function RegisterCheck(password: string, confirmPassword: string): (error: Option<string>)
    ensures error == None <==> password == confirmPassword && |password| >= MinimumPasswordLength
    ensures password != confirmPassword ==> error == Some(PasswordMismatchMessage)
    ensures password == confirmPassword && |password| < MinimumPasswordLength ==> error == Some(PasswordTooShortMessage)
  {
    if password != confirmPassword then Some(PasswordMismatchMessage)
    else if |password| < MinimumPasswordLength then Some(PasswordTooShortMessage)
    else None
  }

  /** `LoginUserRequest` as JSON. */
  function Credentials(email: string, password: string): Json {
    JObject(map["email" := JString(email), "password" := JString(password)])
  }

  /** `RegisterUserRequest` as JSON. */
  function Registration(name: string, email: string, password: string): Json {
    JObject(map["name" := JString(name), "email" := JString(email), "password" := JString(password)])
  }

  class LoginPage {
    var isLogin: bool
    var loading: bool
    var error: Option<string>
    var name: string
    var email: string
    var password: string
    var confirmPassword: string
    var navigations: seq<string>
    const storage: Storage
    const codec: Codec
    const net: Network
    const baseUrl: string

    constructor (storage: Storage, codec: Codec, net: Network, baseUrl: string)
      ensures this.storage == storage && this.codec == codec && this.net == net && this.baseUrl == baseUrl
      ensures isLogin && !loading && error == None
      ensures name == "" && email == "" && password == "" && confirmPassword == "" && navigations == []
    {
      this.storage := storage;
      this.codec := codec;
      this.net := net;
      this.baseUrl := baseUrl;
      isLogin := true;
      loading := false;
      error := None;
      name := "";
      email := "";
      password := "";
      confirmPassword := "";
      navigations := [];
    }

    /** The mount effect: a signed-in visitor is sent home. */
    method Mount()
      modifies this
      ensures navigations == old(navigations) + (if AuthService.IsLoggedIn(storage) then ["/"] else [])
      ensures isLogin == old(isLogin) && loading == old(loading) && error == old(error)
      ensures name == old(name) && email == old(email) && password == old(password) && confirmPassword == old(confirmPassword)
    {
      if AuthService.IsLoggedIn(storage) {
        navigations := navigations + ["/"];
      }
    }

    /** The two tab buttons. The redirect effect depends on `isLogin`, so a tab that
        changes the mode runs it again: a signed-in visitor is then sent home. */
    method SetMode(login: bool)
      modifies this
      ensures isLogin == login
      ensures navigations == old(navigations) + (if login != old(isLogin) && AuthService.IsLoggedIn(storage) then ["/"] else [])
      ensures loading == old(loading) && error == old(error)
      ensures name == old(name) && email == old(email) && password == old(password) && confirmPassword == old(confirmPassword)
    {
      var changed := login != isLogin;
      isLogin := login;
      if changed && AuthService.IsLoggedIn(storage) {
        navigations := navigations + ["/"];
      }
    }

    /** `handleInputChange`: only the named field changes. */
    method InputChange(field: FormField, value: string)
      modifies this
      ensures name == (if field == Name then value else old(name))
      ensures email == (if field == Email then value else old(email))
      ensures password == (if field == Password then value else old(password))
      ensures confirmPassword == (if field == ConfirmPassword then value else old(confirmPassword))
      ensures isLogin == old(isLogin) && loading == old(loading) && error == old(error) && navigations == old(navigations)
    {
      match field
      case Name => name := value;
      case Email => email := value;
      case Password => password := value;
      case ConfirmPassword => confirmPassword := value;
    }

    /** `handleSubmit`. Signing in sends only the e-mail and password, with no local
        check. Registering sends nothing when a pre-check fails. A success goes home;
        a failure shows its message. `loading` is off afterwards on every path. */
    method Submit()
      modifies this, storage, net
      ensures !loading
      ensures isLogin == old(isLogin) && name == old(name) && email == old(email)
      ensures password == old(password) && confirmPassword == old(confirmPassword)
      ensures old(isLogin) ==>
        var r := AuthService.TokenCallResult(Normalize(codec, old(net.NextOutcome())), 401, AuthService.InvalidCredentialsMessage);
        net.sent == old(net.sent) + [SentRequest(RequestUrl(baseUrl, AuthService.LoginEndpoint),
          ConfigFor(AuthService.PostInit(Some(codec.stringify(Credentials(old(email), old(password))))), old(GetAccessToken(storage)), AuthService.LoginEndpoint))] &&
        storage.items == AuthService.TokenItems(old(storage.items), r) &&
        (r.Success? ==> error == None && navigations == old(navigations) + ["/"]) &&
        (r.Failure? ==> error == Some(FailureMessage(r.error)) && navigations == old(navigations))
      ensures !old(isLogin) && RegisterCheck(old(password), old(confirmPassword)).Some? ==>
        error == RegisterCheck(old(password), old(confirmPassword)) &&
        net.sent == old(net.sent) && net.pending == old(net.pending) && storage.items == old(storage.items) &&
        navigations == old(navigations)
      ensures !old(isLogin) && RegisterCheck(old(password), old(confirmPassword)).None? ==>
        var r := AuthService.TokenCallResult(Normalize(codec, old(net.NextOutcome())), 409, AuthService.UserExistsMessage);
        net.sent == old(net.sent) + [SentRequest(RequestUrl(baseUrl, AuthService.RegisterEndpoint),
          ConfigFor(AuthService.PostInit(Some(codec.stringify(Registration(old(name), old(email), old(password))))), old(GetAccessToken(storage)), AuthService.RegisterEndpoint))] &&
        storage.items == AuthService.TokenItems(old(storage.items), r) &&
        (r.Success? ==> error == None && navigations == old(navigations) + ["/"]) &&
        (r.Failure? ==> error == Some(FailureMessage(r.error)) && navigations == old(navigations))
    {
      error := None;
      loading := true;
      var r: Result<Json, AuthService.Thrown>;
      if isLogin {
        r := AuthService.LoginUser(storage, codec, net, baseUrl, Credentials(email, password));
      } else {
        if password != confirmPassword {
          error := Some(PasswordMismatchMessage);
          loading := false;
          return;
        }
        if |password| < MinimumPasswordLength {
          error := Some(PasswordTooShortMessage);
          loading := false;
          return;
        }
        r := AuthService.RegisterUser(storage, codec, net, baseUrl, Registration(name, email, password));
      }
      if r.Success? {
        navigations := navigations + ["/"];
      } else {
        error := Some(FailureMessage(r.error));
      }
      loading := false;
    }
  }
}
