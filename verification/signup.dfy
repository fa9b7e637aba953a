/**
 * The sign-up page of frontend/src/pages/signup.jsx: the controlled form,
 * its nine-step validation chain, the `signup/` request body and the
 * mapping from the server's status to the message shown.  The form, the
 * body and the status mapping are shared with the older sign-up page
 * (module SignupBasic).  The zod e-mail schema and DOMPurify's
 * `sanitizeInput` are parameters.
 */
module Signup {
  import opened Js
  import opened Text
  import Security
  import Validation

  datatype Form = Form(username: string, email: string, fullname: string, phoneNumber: string,
                       password: string, confirmPassword: string)

  const EmptyForm := Form("", "", "", "", "", "")

  /** The `name` attribute of each input. */
  datatype Field = Username | Email | Fullname | PhoneNumber | Password | ConfirmPassword

  function Get(f: Form, field: Field): string {
    match field
    case Username => f.username
    case Email => f.email
    case Fullname => f.fullname
    case PhoneNumber => f.phoneNumber
    case Password => f.password
    case ConfirmPassword => f.confirmPassword
  }

  /** `setFormData(prev => ({ ...prev, [name]: value }))`: one field replaced, the others kept. */
  function SetField(f: Form, field: Field, value: string): (r: Form)
    ensures Get(r, field) == value
    ensures forall other: Field :: other != field ==> Get(r, other) == Get(f, other)
  {
    match field
    case Username => f.(username := value)
    case Email => f.(email := value)
    case Fullname => f.(fullname := value)
    case PhoneNumber => f.(phoneNumber := value)
    case Password => f.(password := value)
    case ConfirmPassword => f.(confirmPassword := value)
  }

  /** The two fields whose input is stored exactly as typed. */
  predicate IsSecret(field: Field) {
    field == Password || field == ConfirmPassword
  }

  /**
   * `handleChange`: the typed value is sanitized unless it is one of the two
   * passwords; only the named field changes, and the error is cleared.
   */
  function Change(f: Form, field: Field, value: string, sanitize: string -> string): (r: (Form, string))
    ensures Get(r.0, field) == if IsSecret(field) then value else sanitize(value)
    ensures forall other: Field :: other != field ==> Get(r.0, other) == Get(f, other)
    ensures r.1 == ""
  {
    (SetField(f, field, if IsSecret(field) then value else sanitize(value)), "")
  }

  // ---------------------------------------------------------------- request body

  /** The body of the `signup/` request; `None` is `null`. */
  datatype Body = Body(username: string, email: string, fullname: string, password: string, phoneNumber: Option<string>)

  /** The three text fields trimmed, the password as typed, a blank phone number sent as `null`. */
  function BodyOf(f: Form): (b: Body)
    ensures b.username == Trim(f.username) && b.email == Trim(f.email) && b.fullname == Trim(f.fullname)
    ensures b.password == f.password
    ensures b.phoneNumber.None? <==> IsBlank(f.phoneNumber)
    ensures b.phoneNumber.Some? ==> b.phoneNumber.value == Trim(f.phoneNumber)
  {
    TrimEmptyIffBlank(f.phoneNumber);
    var phone := Trim(f.phoneNumber);
    Body(Trim(f.username), Trim(f.email), Trim(f.fullname), f.password, if phone == "" then None else Some(phone))
  }

  /** Trimming is already done: trimming any text field of a body again changes nothing, and a phone number sent is never empty. */
  lemma BodyIsTrimmed(f: Form)
    ensures var b := BodyOf(f);
            && Trim(b.username) == b.username && Trim(b.email) == b.email && Trim(b.fullname) == b.fullname
            && (b.phoneNumber.Some? ==> b.phoneNumber.value != "" && Trim(b.phoneNumber.value) == b.phoneNumber.value)
  {
    TrimIdempotent(f.username);
    TrimIdempotent(f.email);
    TrimIdempotent(f.fullname);
    TrimIdempotent(f.phoneNumber);
  }

  // ---------------------------------------------------------------- replies

  /** The reply to `signup/`: `response.ok`, `response.status` and the body's `message`; or an error thrown by `fetch` or `json()`. */
  datatype Reply = Response(ok: bool, status: int, message: Option<string>) | Threw

  const BadInput := "Please check your input data"
  const AlreadyExists := "Username or email already exists"
  const RegistrationFailed := "Registration failed"
  const CannotConnect := "Cannot connect to server. Please try again."

  /** The message for a reply that is not `ok`. */
  function StatusMessage(status: int, message: Option<string>): (r: string)
    ensures status == 409 ==> r == AlreadyExists
    ensures status == 400 ==> r == TextOr(message, BadInput)
    ensures status != 400 && status != 409 ==> r == TextOr(message, RegistrationFailed)
  {
    if status == 400 then TextOr(message, BadInput)
    else if status == 409 then AlreadyExists
    else TextOr(message, RegistrationFailed)
  }

  /** A conflict always reports the fixed message, whatever the server says; any other status prefers the server's message. */
  lemma ServerMessageWinsExceptConflict(status: int, message: string)
    requires message != ""
    ensures StatusMessage(409, Some(message)) == AlreadyExists
    ensures status != 409 ==> StatusMessage(status, Some(message)) == message
  {
  }

  /** What a submission did: the body it sent, the page it navigates to, and the error it shows (`""` for none). */
  datatype Outcome = Outcome(request: Option<Body>, navigateTo: Option<string>, error: string)

  /** The outcome once the body has been sent. */
  function AfterSend(b: Body, reply: Reply): (r: Outcome)
    ensures r.request == Some(b)
    ensures r.navigateTo.Some? <==> reply.Response? && reply.ok
    ensures r.navigateTo.Some? ==> r.navigateTo.value == "/verify" && r.error == ""
    ensures reply.Response? && !reply.ok ==> r.error == StatusMessage(reply.status, reply.message)
    ensures reply.Threw? ==> r.error == CannotConnect
  {
    match reply
    case Threw => Outcome(Some(b), None, CannotConnect)
    case Response(ok, status, message) =>
      if ok then Outcome(Some(b), Some("/verify"), "") else Outcome(Some(b), None, StatusMessage(status, message))
  }

  // ---------------------------------------------------------------- handleSubmit

  const TermsMessage := "You must agree to the Terms of Service and Privacy Policy"
  const UsernameRequired := "Username is required"
  const EmailRequired := "Email is required"
  const InvalidEmail := "Invalid email address"
  const PasswordRequired := "Password is required"
  const PasswordsMismatch := "Passwords do not match"
  const PhoneMessage := "Phone number must be entered in the format: '+999999999'. Up to 15 digits allowed."

  /** A check made from a validator that returns an error message or `null`. */
  function MessageCheck(error: Option<string>): (c: Validation.Check)
    ensures c.fails <==> error.Some?
    ensures error.Some? ==> c.message == error.value
  {
    Validation.Check(error.Some?, if error.Some? then error.value else "")
  }

  /** The nine checks of `handleSubmit`, in the order they run; `validEmail` is the zod e-mail schema. */
  function SubmitChecks(agreed: bool, f: Form, validEmail: string -> bool): seq<Validation.Check> {
    [Validation.Check(!agreed, TermsMessage),
     Validation.Check(IsBlank(f.username), UsernameRequired),
     MessageCheck(Security.ValidateUsername(Trim(f.username))),
     Validation.Check(IsBlank(f.email), EmailRequired),
     Validation.Check(!validEmail(Trim(f.email)), InvalidEmail),
     Validation.Check(f.password == "", PasswordRequired),
     MessageCheck(Security.ValidatePassword(f.password)),
     Validation.Check(f.password != f.confirmPassword, PasswordsMismatch),
     Validation.Check(!IsBlank(f.phoneNumber) && !Security.ValidatePhoneNumber(Trim(f.phoneNumber)), PhoneMessage)]
  }

  /**
   * `handleSubmit`.  The first failing check is shown and nothing is sent;
   * otherwise the body goes out and a successful reply leads to the
   * verification page.  (After an `ok` reply the page writes the `username`
   * cookie and reads it back; the read returns a promise, which is always
   * truthy, so the storage-error branch cannot be taken.)
   */
  function Submit(agreed: bool, f: Form, validEmail: string -> bool, reply: Reply): (r: Outcome)
    ensures Validation.FirstFailure(SubmitChecks(agreed, f, validEmail)).Some? ==>
              r == Outcome(None, None, Validation.FirstFailure(SubmitChecks(agreed, f, validEmail)).value)
    ensures r.request.Some? <==> Validation.FirstFailure(SubmitChecks(agreed, f, validEmail)).None?
    ensures r.request.Some? ==> r == AfterSend(BodyOf(f), reply)
  {
    var failure := Validation.FirstFailure(SubmitChecks(agreed, f, validEmail));
    if failure.Some? then Outcome(None, None, failure.value) else AfterSend(BodyOf(f), reply)
  }

  /**
   * Whatever is sent passes every client-side validator: the terms are
   * accepted, the trimmed username and e-mail are valid, the password meets
   * the five rules and was confirmed, and a phone number, when sent, has the
   * accepted shape.
   */
  lemma SentBodyIsValid(agreed: bool, f: Form, validEmail: string -> bool, reply: Reply)
    requires Submit(agreed, f, validEmail, reply).request.Some?
    ensures var b := BodyOf(f);
            && agreed
            && b.username != "" && Security.ValidateUsername(b.username).None?
            && b.email != "" && validEmail(b.email)
            && Security.ValidatePassword(b.password).None? && f.confirmPassword == b.password
            && (b.phoneNumber.Some? ==> Security.ValidatePhoneNumber(b.phoneNumber.value))
  {
    var checks := SubmitChecks(agreed, f, validEmail);
    assert !checks[0].fails && !checks[1].fails && !checks[2].fails && !checks[3].fails;
    assert !checks[4].fails && !checks[6].fails && !checks[7].fails && !checks[8].fails;
    TrimEmptyIffBlank(f.username);
    TrimEmptyIffBlank(f.email);
  }

  /** Without agreement to the terms nothing else is checked and nothing is sent. */
  lemma TermsCheckedFirst(f: Form, validEmail: string -> bool, reply: Reply)
    ensures Submit(false, f, validEmail, reply) == Outcome(None, None, TermsMessage)
  {
    var checks := SubmitChecks(false, f, validEmail);
    Validation.FirstFailureHead(checks[0], checks[1..]);
    assert checks == [checks[0]] + checks[1..];
  }

  /** A blank phone number is never validated and is sent as `null`. */
  lemma BlankPhoneSentAsNull(agreed: bool, f: Form, validEmail: string -> bool)
    requires IsBlank(f.phoneNumber)
    ensures !SubmitChecks(agreed, f, validEmail)[8].fails
    ensures BodyOf(f).phoneNumber.None?
  {
  }
}
