/**
 * The login page of frontend/src/pages/login.jsx: two presence checks, the
 * `login/` request body, and what a reply leads to.  The three token
 * cookies written on success are recorded by name and value; their expiry
 * arithmetic is not part of this model.
 */
module Login {
  import opened Js
  import opened Text
  import Validation

  datatype Form = Form(email: string, password: string)

  const EmailRequired := "Email is required"
  const PasswordRequired := "Password is required"
  const LoginFailed := "Login failed. Please check your credentials."
  const CannotConnect := "Cannot connect to server. Please try again."

  /** The checks of `handleSubmit`: the e-mail is checked before the password. */
  function SubmitChecks(f: Form): seq<Validation.Check> {
    [Validation.Check(IsBlank(f.email), EmailRequired),
     Validation.Check(f.password == "", PasswordRequired)]
  }

  /** The body of the `login/` request: the e-mail trimmed, the password exactly as typed. */
  datatype Body = Body(email: string, password: string)

  /** The reply: `response.ok`, the body's `message` and three tokens; or an error thrown by `fetch` or `json()`. */
  datatype Reply = Response(ok: bool, message: Option<string>, refreshToken: Value, idToken: Value, accessToken: Value)
                 | Threw

  /** What a submission did: the body sent, the cookies written in order, the page navigated to, the error shown. */
  datatype Outcome = Outcome(request: Option<Body>, cookies: seq<(string, Value)>, navigateTo: Option<string>, error: string)

  function Submit(f: Form, reply: Reply): (r: Outcome)
    ensures Validation.FirstFailure(SubmitChecks(f)).Some? ==>
              r == Outcome(None, [], None, Validation.FirstFailure(SubmitChecks(f)).value)
    ensures r.request.Some? <==> !IsBlank(f.email) && f.password != ""
    ensures r.request.Some? ==> r.request.value == Body(Trim(f.email), f.password)
    ensures r.navigateTo.Some? <==> r.request.Some? && reply.Response? && reply.ok
    ensures r.navigateTo.Some? ==>
              && r.navigateTo.value == "/dashboard" && r.error == ""
              && r.cookies == [("refreshToken", reply.refreshToken), ("idToken", reply.idToken), ("accessToken", reply.accessToken)]
    ensures r.navigateTo.None? ==> r.cookies == []
    ensures r.request.Some? && reply.Response? && !reply.ok ==> r.error == TextOr(reply.message, LoginFailed)
    ensures r.request.Some? && reply.Threw? ==> r.error == CannotConnect
  {
    var failure := Validation.FirstFailure(SubmitChecks(f));
    if failure.Some? then
      assert SubmitChecks(f)[0].fails || SubmitChecks(f)[1].fails;
      Outcome(None, [], None, failure.value)
    else
      assert !SubmitChecks(f)[0].fails && !SubmitChecks(f)[1].fails;
      var body := Body(Trim(f.email), f.password);
      match reply
      case Threw => Outcome(Some(body), [], None, CannotConnect)
      case Response(ok, message, refresh, id, access) =>
        if ok then Outcome(Some(body), [("refreshToken", refresh), ("idToken", id), ("accessToken", access)], Some("/dashboard"), "")
        else Outcome(Some(body), [], None, TextOr(message, LoginFailed))
  }

  /** A blank e-mail is reported whatever the password, so an empty password is only reported once an e-mail is given. */
  lemma EmailReportedFirst(f: Form, reply: Reply)
    ensures IsBlank(f.email) ==> Submit(f, reply).error == EmailRequired
    ensures !IsBlank(f.email) && f.password == "" ==> Submit(f, reply).error == PasswordRequired
  {
    Validation.FirstFailureHead(SubmitChecks(f)[0], SubmitChecks(f)[1..]);
    Validation.FirstFailureHead(SubmitChecks(f)[1], []);
  }

  /** The body sent always carries a non-empty e-mail with no surrounding whitespace. */
  lemma SentEmailIsTrimmed(f: Form, reply: Reply)
    requires Submit(f, reply).request.Some?
    ensures var e := Submit(f, reply).request.value.email; e != "" && Trim(e) == e
  {
    TrimEmptyIffBlank(f.email);
    TrimIdempotent(f.email);
  }
}
