/**
 * The trainer / learner login page: its two field validators, the
 * touched-then-validate discipline of blur and change, the submit guard
 * and the route chosen by role.
 */
module LoginPage {
  import opened Wrappers
  import opened Text
  import AdminLogin
  import LocalStorage
  import opened Jwt

  const ServerErrorDefault: string := "Login failed. Check credentials."
  const TrainerHome: string := "/trainer/home"
  const LearnerHome: string := "/learner/home"

  /** `validateEmail`: "" when accepted, otherwise the message. */
  function ValidateEmail(value: string): (err: string)
    ensures err in {[], AdminLogin.EmailRequired, AdminLogin.EmailInvalid}
  {
    if Trim(value) == [] then AdminLogin.EmailRequired
    else if !AdminLogin.MatchesEmail(value) then AdminLogin.EmailInvalid
    else ""
  }

  /** Blank after trimming is required; otherwise the pattern is matched against the untrimmed value. */
  lemma ValidateEmailMeaning(value: string)
    ensures ValidateEmail(value) == [] <==> !AllSpace(value) && AdminLogin.EmailPattern(value)
    ensures AllSpace(value) ==> ValidateEmail(value) == AdminLogin.EmailRequired
    ensures !AllSpace(value) && !AdminLogin.EmailPattern(value) ==> ValidateEmail(value) == AdminLogin.EmailInvalid
  {
    TrimEmpty(value);
    AdminLogin.MatchesEmailIff(value);
  }

  /** `validatePassword`: "" when accepted, otherwise the message; lengths are UTF-16 code units. */
  function ValidatePassword(value: string): (err: string)
    ensures err == [] <==> Utf16Length(value) >= 6
    ensures value == [] ==> err == AdminLogin.PasswordRequired
    ensures 0 < |value| && Utf16Length(value) < 6 ==> err == AdminLogin.PasswordTooShort
  {
    if value == [] then AdminLogin.PasswordRequired
    else if Utf16Length(value) < 6 then AdminLogin.PasswordTooShort
    else ""
  }

  /**
   * Three characters beyond U+FFFF are six code units, so a password of
   * three emoji is long enough.
   */
  lemma SurrogatePairsCount(p: string)
    requires p == "\U{1F600}\U{1F600}\U{1F600}"
    ensures |p| == 3 && ValidatePassword(p) == []
  {
    var e := p[2..];
    assert e == [p[2]] && e[1..] == [];
    assert Utf16Length(e) == 2;
    assert p[1..] == [p[1]] + e && p[1..][1..] == e;
    assert Utf16Length(p[1..]) == 4;
    assert Utf16Length(p) == 6;
  }

  /** The two login pages judge an email and a password alike, with the same messages. */
  lemma AgreesWithAdminLogin(email: string, password: string)
    ensures ValidateEmail(email) == AdminLogin.EmailError(email).GetOr("")
    ensures ValidatePassword(password) == AdminLogin.PasswordError(password).GetOr("")
    ensures (ValidateEmail(email) == [] && ValidatePassword(password) == []) <==>
            AdminLogin.LoginValid(email, password)
  {
    TrimEmpty(email);
    ValidateEmailMeaning(email);
  }

  /** The home page of a role: trainers to theirs, anything else to the learner's. */
  function HomeFor(role: string): (route: string)
    ensures route == TrainerHome <==> role == "Trainer"
    ensures route == LearnerHome <==> role != "Trainer"
  {
    if role == "Trainer" then TrainerHome else LearnerHome
  }

  /** The mount-time redirect, given what storage reads back for "token" and "role". */
  function AutoRedirect(token: Option<string>, storedRole: Option<string>): (route: Option<string>)
    ensures route.Some? <==>
      token.Some? && token.value != [] && (storedRole == Some("Trainer") || storedRole == Some("Learner"))
    ensures route.Some? ==> route.value == HomeFor(storedRole.value)
  {
    if token.Some? && token.value != [] && (storedRole == Some("Trainer") || storedRole == Some("Learner"))
    then Some(HomeFor(storedRole.value))
    else None
  }

  /** Coming back after a login that stored a token and a role sends the user where the login did. */
  lemma RevisitAfterLogin(store: map<string, string>, token: string, role: string)
    requires token != [] && (role == "Trainer" || role == "Learner")
    ensures var after := store["token" := token]["role" := role];
            AutoRedirect(LocalStorage.Lookup(after, "token"), LocalStorage.Lookup(after, "role")) == Some(HomeFor(role))
  {
    var after := store["token" := token]["role" := role];
    assert after["token"] == token && after["role"] == role;
  }

  /** Without a stored token nothing happens, whatever the role. */
  lemma NoTokenNoRedirect(store: map<string, string>)
    requires "token" !in store
    ensures AutoRedirect(LocalStorage.Lookup(store, "token"), LocalStorage.Lookup(store, "role")).None?
  {
  }

  /** The server's answer: a token, or an error carrying an optional message. */
  datatype LoginReply = Accepted(token: string) | Rejected(message: Option<string>)

  class LoginForm {
    var email: string
    var password: string
    var role: string
    var touchedEmail: bool
    var touchedPassword: bool
    var emailError: string
    var passwordError: string
    var serverError: string
    var loading: bool

    constructor()
      ensures email == [] && password == [] && role == "Trainer"
      ensures !touchedEmail && !touchedPassword && emailError == [] && passwordError == []
      ensures serverError == [] && !loading
    {
      email, password, role := [], [], "Trainer";
      touchedEmail, touchedPassword := false, false;
      emailError, passwordError, serverError := [], [], [];
      loading := false;
    }

    /** The role buttons. */
    method ChooseRole(r: string)
      requires r == "Trainer" || r == "Learner"
      modifies this`role
      ensures role == r
    {
      role := r;
    }

    /** Leaving the email field: it becomes touched and its error is recomputed. */
    method BlurEmail()
      modifies this`touchedEmail, this`emailError
      ensures touchedEmail && emailError == ValidateEmail(email)
    {
      touchedEmail := true;
      emailError := ValidateEmail(email);
    }

    method BlurPassword()
      modifies this`touchedPassword, this`passwordError
      ensures touchedPassword && passwordError == ValidatePassword(password)
    {
      touchedPassword := true;
      passwordError := ValidatePassword(password);
    }

    /** Typing in the email field re-validates it only once it has been touched. */
    method ChangeEmail(value: string)
      modifies this`email, this`emailError
      ensures email == value
      ensures emailError == if touchedEmail then ValidateEmail(value) else old(emailError)
    {
      email := value;
      if touchedEmail {
        emailError := ValidateEmail(value);
      }
    }

    method ChangePassword(value: string)
      modifies this`password, this`passwordError
      ensures password == value
      ensures passwordError == if touchedPassword then ValidatePassword(value) else old(passwordError)
    {
      password := value;
      if touchedPassword {
        passwordError := ValidatePassword(value);
      }
    }

    /**
     * `handleSubmit` with the server's `reply`: both fields touched and
     * validated; a failing field sends nothing; an accepted login writes
     * the token and the role to `storage` and yields the role's home; a
     * rejected one shows the server's message or the default.
     */
    method Submit(reply: LoginReply, storage: LocalStorage.LocalStorageMock) returns (sent: bool, route: Option<string>)
      modifies this`touchedEmail, this`touchedPassword, this`emailError, this`passwordError,
               this`serverError, this`loading, storage
      ensures touchedEmail && touchedPassword
      ensures emailError == ValidateEmail(email) && passwordError == ValidatePassword(password)
      ensures sent <==> emailError == [] && passwordError == []
      ensures !sent ==> route.None? && serverError == [] && loading == old(loading)
      ensures sent ==> !loading
      ensures sent && reply.Accepted? ==> route == Some(HomeFor(role)) && serverError == []
      ensures sent && reply.Rejected? ==>
        route.None? && serverError == AdminLogin.MessageOr(reply.message, ServerErrorDefault)
      ensures !sent ==> route.None?
      ensures sent && reply.Accepted? ==>
        storage.store == old(storage.store)["token" := reply.token]["role" := role]
      ensures !(sent && reply.Accepted?) ==> storage.store == old(storage.store)
    {
      serverError := [];
      touchedEmail, touchedPassword := true, true;
      var emailErr := ValidateEmail(email);
      var passwordErr := ValidatePassword(password);
      emailError, passwordError := emailErr, passwordErr;
      route := None;
      if emailErr != [] || passwordErr != [] {
        return false, None;
      }
      sent := true;
      loading := true;
      if reply.Accepted? {
        storage.SetItem("token", JStr(reply.token));
        storage.SetItem("role", JStr(role));
        route := Some(HomeFor(role));
      } else {
        serverError := AdminLogin.MessageOr(reply.message, ServerErrorDefault);
      }
      loading := false;
    }
  }
}
