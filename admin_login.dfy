/**
 * The administrator's two-step login: email and password, then a
 * six-digit one-time code; the validators and the step machine.
 */
module AdminLogin {
  import opened Wrappers
  import opened Seqs
  import opened Text
  import opened Jwt
  import LocalStorage

  datatype Field = Email | Password | Otp

  const EmailRequired: string := "Email is required."
  const EmailInvalid: string := "Enter a valid email address."
  const PasswordRequired: string := "Password is required."
  const PasswordTooShort: string := "Password must be at least 6 characters."
  const OtpRequired: string := "OTP is required."
  const OtpInvalid: string := "OTP must be exactly 6 digits."
  const OtpSentDefault: string := "OTP sent to your email"
  const LoginFailedDefault: string := "Login failed"
  const OtpFailedDefault: string := "OTP verification failed."
  const NetworkError: string := "Network error. Please try again."

  /** No white space and no '@' anywhere in `s`. */
  predicate Plain(s: string)
  {
    forall k :: 0 <= k < |s| ==> !IsSpace(s[k]) && s[k] != '@'
  }

  /** A run of the character class `[^\s@]+`: non-empty, no white space, no '@'. */
  predicate PlainPart(s: string)
  {
    |s| > 0 && Plain(s)
  }

  /** `/^[^\s@]+@[^\s@]+\.[^\s@]+$/`: local part, '@', domain, '.', top-level part. */
  ghost predicate EmailPattern(s: string)
  {
    exists i, j :: 0 <= i < j < |s| && s[i] == '@' && s[j] == '.' &&
      PlainPart(s[..i]) && PlainPart(s[i + 1..j]) && PlainPart(s[j + 1..])
  }

  /** The pattern decided without search: split at the first '@', then look for a '.' strictly inside the rest. */
  function MatchesEmail(s: string): bool
  {
    match FindIndex(s, (c: char) => c == '@')
    case None => false
    case Some(i) =>
      0 < i && i + 3 <= |s| && Plain(s[..i]) && Plain(s[i + 1..]) &&
      FindIndex(s[i + 2..|s| - 1], (c: char) => c == '.').Some?
  }

  /** A piece of the plain suffix `s[lo..]` is plain. */
  lemma PlainWithin(s: string, lo: int, a: int, b: int)
    requires 0 <= lo <= a <= b <= |s| && Plain(s[lo..])
    ensures Plain(s[a..b])
  {
    forall k | 0 <= k < b - a ensures !IsSpace(s[a..b][k]) && s[a..b][k] != '@' {
      assert s[a..b][k] == s[lo..][a - lo + k];
    }
  }

  lemma MatchesEmailSound(s: string)
    requires MatchesEmail(s)
    ensures EmailPattern(s)
  {
    var i := FindIndex(s, (c: char) => c == '@').value;
    var rest := s[i + 2..|s| - 1];
    var d := FindIndex(rest, (c: char) => c == '.').value;
    var j := i + 2 + d;
    assert s[j] == rest[d];
    PlainWithin(s, i + 1, i + 1, j);
    PlainWithin(s, i + 1, j + 1, |s|);
    assert s[j + 1..|s|] == s[j + 1..];
  }

  lemma PlainAppend(a: string, b: string)
    requires Plain(a) && Plain(b)
    ensures Plain(a + b)
  {
    forall k | 0 <= k < |a + b| ensures !IsSpace((a + b)[k]) && (a + b)[k] != '@' {
      if k < |a| { assert (a + b)[k] == a[k]; } else { assert (a + b)[k] == b[k - |a|]; }
    }
  }

  /** With no '@' before index `i` and one at `i`, the search for '@' finds `i`. */
  lemma FirstAt(s: string, i: int)
    requires 0 <= i < |s| && s[i] == '@' && Plain(s[..i])
    ensures FindIndex(s, (c: char) => c == '@') == Some(i)
  {
    assert forall k :: 0 <= k < i ==> s[k] == s[..i][k];
  }

  /** The domain, the '.' and the top-level part together contain no white space and no '@'. */
  lemma PlainAfterAt(s: string, i: int, j: int)
    requires 0 <= i < j < |s| && s[j] == '.' && Plain(s[i + 1..j]) && Plain(s[j + 1..])
    ensures Plain(s[i + 1..])
  {
    PlainAppend(s[i + 1..j], [s[j]]);
    PlainAppend(s[i + 1..j] + [s[j]], s[j + 1..]);
    assert s[i + 1..] == s[i + 1..j] + [s[j]] + s[j + 1..];
  }

  lemma MatchesEmailComplete(s: string)
    requires EmailPattern(s)
    ensures MatchesEmail(s)
  {
    var i, j :| 0 <= i < j < |s| && s[i] == '@' && s[j] == '.' &&
      PlainPart(s[..i]) && PlainPart(s[i + 1..j]) && PlainPart(s[j + 1..]);
    FirstAt(s, i);
    PlainAfterAt(s, i, j);
    var rest := s[i + 2..|s| - 1];
    assert rest[j - i - 2] == '.';
  }

  /** The regular expression and its executable reading accept the same strings. */
  lemma MatchesEmailIff(s: string)
    ensures MatchesEmail(s) <==> EmailPattern(s)
  {
    if MatchesEmail(s) { MatchesEmailSound(s); }
    if EmailPattern(s) { MatchesEmailComplete(s); }
  }

  function EmailError(email: string): Option<string>
  {
    if Trim(email) == [] then Some(EmailRequired)
    else if !MatchesEmail(email) then Some(EmailInvalid)
    else None
  }

  /** The password rule: required, then at least 6 UTF-16 code units (JavaScript's `length`). */
  function PasswordError(password: string): Option<string>
  {
    if password == [] then Some(PasswordRequired)
    else if Utf16Length(password) < 6 then Some(PasswordTooShort)
    else None
  }

  /** `/^\d{6}$/`: exactly six ASCII digits. */
  predicate SixDigits(s: string)
  {
    |s| == 6 && forall k :: 0 <= k < |s| ==> IsDigit(s[k])
  }

  function OtpError(otp: string): Option<string>
  {
    if Trim(otp) == [] then Some(OtpRequired)
    else if !SixDigits(otp) then Some(OtpInvalid)
    else None
  }

  function Put(errs: map<Field, string>, k: Field, e: Option<string>): map<Field, string>
  {
    if e.Some? then errs[k := e.value] else errs
  }

  /** `loginErrors`: an entry per failing field of step 1, with that field's message. */
  function LoginErrors(email: string, password: string): (errs: map<Field, string>)
    ensures errs.Keys <= {Email, Password}
    ensures Email in errs <==> EmailError(email).Some?
    ensures Email in errs ==> errs[Email] == EmailError(email).value
    ensures Password in errs <==> PasswordError(password).Some?
    ensures Password in errs ==> errs[Password] == PasswordError(password).value
  {
    Put(Put(map[], Email, EmailError(email)), Password, PasswordError(password))
  }

  /**
   * Email: blank after trimming is required, otherwise the pattern decides;
   * password: shorter than 6 code units fails, and empty is required.
   */
  lemma LoginErrorsMeaning(email: string, password: string)
    ensures var errs := LoginErrors(email, password);
      && (Email in errs <==> AllSpace(email) || !EmailPattern(email))
      && (Email in errs ==> errs[Email] == if AllSpace(email) then EmailRequired else EmailInvalid)
      && (Password in errs <==> Utf16Length(password) < 6)
      && (Password in errs ==> errs[Password] == if password == [] then PasswordRequired else PasswordTooShort)
  {
    TrimEmpty(email);
    MatchesEmailIff(email);
  }

  /** `otpErrors`: an entry for the code when it is blank or not six digits. */
  function OtpErrors(otp: string): (errs: map<Field, string>)
    ensures errs.Keys <= {Otp}
    ensures Otp in errs <==> !SixDigits(otp)
    ensures Otp in errs ==> errs[Otp] == if AllSpace(otp) then OtpRequired else OtpInvalid
  {
    TrimEmpty(otp);
    assert SixDigits(otp) ==> !IsSpace(otp[0]);
    Put(map[], Otp, OtpError(otp))
  }

  /** The validity flags: no key in the error object. */
  predicate LoginValid(email: string, password: string)
  {
    LoginErrors(email, password) == map[]
  }

  predicate OtpValid(otp: string)
  {
    OtpErrors(otp) == map[]
  }

  /** The code input's filter: only the digit characters of what was typed, in order. */
  function KeepDigits(s: string): (r: string)
    ensures forall k :: 0 <= k < |r| ==> IsDigit(r[k])
  {
    var r := Filter(s, IsDigit);
    assert forall k :: 0 <= k < |r| ==> r[k] in r;
    r
  }

  /** The filter keeps every digit as often as it occurs, drops everything else, and respects concatenation (so order). */
  lemma KeepDigitsContents(a: string, b: string, c: char)
    ensures multiset(KeepDigits(a))[c] == if IsDigit(c) then multiset(a)[c] else 0
    ensures KeepDigits(a + b) == KeepDigits(a) + KeepDigits(b)
  {
    FilterCount(a, IsDigit, c);
    FilterAppend(a, b, IsDigit);
  }

  lemma KeepDigitsIdempotent(s: string)
    ensures KeepDigits(KeepDigits(s)) == KeepDigits(s)
  {
    FilterIdempotent(s, IsDigit);
  }

  /** After the filter, the code is accepted exactly when six digits remain. */
  lemma FilteredOtpValid(raw: string)
    ensures OtpValid(KeepDigits(raw)) <==> |KeepDigits(raw)| == 6
  {
  }

  /** A word of lower-case ASCII letters is plain. */
  lemma LettersArePlain(w: string)
    requires forall k :: 0 <= k < |w| ==> 'a' <= w[k] <= 'z'
    ensures Plain(w)
  {
  }

  /** The address used by the login tests matches the pattern. */
  lemma ExampleAddressMatches()
    ensures EmailPattern("admin@example.com")
  {
    var s := "admin@example.com";
    assert s[..5] == "admin" && s[6..13] == "example" && s[14..] == "com";
    LettersArePlain("admin");
    LettersArePlain("example");
    LettersArePlain("com");
    assert s[5] == '@' && s[13] == '.';
  }

  /** "Send OTP" is disabled while both fields are empty and enabled for the tests' address and a six-character password. */
  lemma SendOtpButton(email: string, password: string)
    requires email == "admin@example.com" && password == "123456"
    ensures !LoginValid("", "")
    ensures LoginValid(email, password)
  {
    assert PasswordError("").Some?;
    ExampleAddressMatches();
    LoginErrorsMeaning(email, password);
    assert !AllSpace(email) by { assert !IsSpace(email[0]); }
  }

  /** What the server answered, if it answered with JSON at all. */
  datatype Response = Unreachable | Reply(ok: bool, message: Option<string>, token: string)

  /** `data.message || fallback`. */
  function MessageOr(m: Option<string>, fallback: string): (r: string)
    ensures m.Some? && m.value != [] ==> r == m.value
    ensures (m.None? || m.value == []) ==> r == fallback
  {
    if m.Some? && m.value != [] then m.value else fallback
  }

  /** What the code step writes to storage on success. */
  datatype Session = Session(token: string, role: string, email: string)

  class LoginForm {
    var step: int
    var email: string
    var password: string
    var otp: string
    var touchedEmail: bool
    var touchedPassword: bool
    var touchedOtp: bool
    var message: string
    var submitError: string

    /** The state with which step 1 is (re-)entered. */
    predicate StepOneClean()
      reads this
    {
      step == 1 && otp == [] && !touchedOtp && message == [] && submitError == []
    }

    constructor()
      ensures StepOneClean() && email == [] && password == [] && !touchedEmail && !touchedPassword
    {
      step := 1;
      email, password, otp := [], [], [];
      touchedEmail, touchedPassword, touchedOtp := false, false, false;
      message, submitError := [], [];
    }

    /** `setStep` together with the effect on `[step]`: entering step 1 from another step clears the code step. */
    method SetStep(next: int)
      modifies this`step, this`otp, this`touchedOtp, this`message, this`submitError
      ensures step == next
      ensures next != old(step) && next == 1 ==> StepOneClean()
      ensures !(next != old(step) && next == 1) ==>
        otp == old(otp) && touchedOtp == old(touchedOtp) && message == old(message) && submitError == old(submitError)
    {
      var changed := next != step;
      step := next;
      if changed && next == 1 {
        otp, touchedOtp, message, submitError := [], false, [], [];
      }
    }

    method ChangeEmail(value: string)
      modifies this`email
      ensures email == value
    {
      email := value;
    }

    method ChangePassword(value: string)
      modifies this`password
      ensures password == value
    {
      password := value;
    }

    /** The code input keeps only what the digit filter lets through. */
    method ChangeOtp(typed: string)
      modifies this`otp
      ensures otp == KeepDigits(typed)
      ensures forall k :: 0 <= k < |otp| ==> IsDigit(otp[k])
    {
      otp := KeepDigits(typed);
    }

    method Blur(field: Field)
      modifies this`touchedEmail, this`touchedPassword, this`touchedOtp
      ensures touchedEmail == (old(touchedEmail) || field == Email)
      ensures touchedPassword == (old(touchedPassword) || field == Password)
      ensures touchedOtp == (old(touchedOtp) || field == Otp)
    {
      match field
      case Email => touchedEmail := true;
      case Password => touchedPassword := true;
      case Otp => touchedOtp := true;
    }

    /**
     * Step 1's submit with the server's `response`: invalid fields send
     * nothing; an ok reply moves to step 2 with its message, any other
     * reply or a failure shows an error and stays on step 1.
     */
    method LoginSubmit(response: Response) returns (sent: bool)
      requires step == 1
      modifies this`step, this`otp, this`touchedOtp, this`message, this`submitError,
               this`touchedEmail, this`touchedPassword
      ensures touchedEmail && touchedPassword && otp == old(otp) && touchedOtp == old(touchedOtp)
      ensures sent <==> LoginValid(email, password)
      ensures !sent ==> step == 1 && submitError == [] && message == old(message)
      ensures sent && response.Reply? && response.ok ==>
        step == 2 && message == MessageOr(response.message, OtpSentDefault) && submitError == []
      ensures sent && response.Reply? && !response.ok ==>
        step == 1 && message == old(message) && submitError == MessageOr(response.message, LoginFailedDefault)
      ensures sent && response.Unreachable? ==>
        step == 1 && message == old(message) && submitError == NetworkError
    {
      submitError := [];
      touchedEmail, touchedPassword := true, true;
      if !LoginValid(email, password) {
        return false;
      }
      sent := true;
      match response
      case Unreachable =>
        submitError := NetworkError;
      case Reply(ok, msg, _) =>
        if ok {
          message := MessageOr(msg, OtpSentDefault);
          SetStep(2);
        } else {
          submitError := MessageOr(msg, LoginFailedDefault);
        }
    }

    /**
     * Step 2's submit: an invalid code sends nothing; an ok reply writes
     * the session (token, role "Admin", email) to `storage` and yields it
     * for the route to the admin home; otherwise an error and no session.
     */
    method OtpSubmit(response: Response, storage: LocalStorage.LocalStorageMock)
      returns (sent: bool, session: Option<Session>)
      requires step == 2
      modifies this`touchedOtp, this`submitError, storage
      ensures touchedOtp
      ensures sent <==> OtpValid(otp)
      ensures session.Some? <==> sent && response.Reply? && response.ok
      ensures session.Some? ==> session.value == Session(response.token, "Admin", email) && submitError == []
      ensures !sent ==> submitError == []
      ensures sent && response.Reply? && !response.ok ==> submitError == MessageOr(response.message, OtpFailedDefault)
      ensures sent && response.Unreachable? ==> submitError == NetworkError
      ensures session.Some? ==>
        storage.store == old(storage.store)["token" := response.token]["role" := "Admin"]["email" := email]
      ensures session.None? ==> storage.store == old(storage.store)
    {
      submitError := [];
      touchedOtp := true;
      session := None;
      if !OtpValid(otp) {
        return false, None;
      }
      sent := true;
      match response
      case Unreachable =>
        submitError := NetworkError;
      case Reply(ok, msg, token) =>
        if ok {
          storage.SetItem("token", JStr(token));
          storage.SetItem("role", JStr("Admin"));
          storage.SetItem("email", JStr(email));
          session := Some(Session(token, "Admin", email));
        } else {
          submitError := MessageOr(msg, OtpFailedDefault);
        }
    }

    /** `handleLogout`: the storage is cleared and the form goes back to an empty step 1. */
    method Logout(storage: LocalStorage.LocalStorageMock)
      modifies this`step, this`otp, this`touchedOtp, this`message, this`submitError,
               this`email, this`password, storage
      ensures storage.store == map[]
      ensures step == 1 && email == [] && password == [] && otp == [] && message == [] && submitError == []
      ensures touchedOtp == (old(touchedOtp) && old(step) == 1)
    {
      storage.Clear();
      SetStep(1);
      email, password, otp, message, submitError := [], [], [], [], [];
    }
  }
}
