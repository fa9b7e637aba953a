/**
 * The older sign-up page of frontend/src/pages/signup1.jsx: the same form,
 * request body and status mapping as module Signup, with a shorter
 * validation chain of presence checks and no sanitizing of the input.
 */
module SignupBasic {
  import opened Js
  import opened Text
  import Signup
  import Validation

  const FullnameRequired := "Full name is required"

  /** `handleChange`: the typed value is stored as is in the named field alone, and the error is cleared. */
  function Change(f: Signup.Form, field: Signup.Field, value: string): (r: (Signup.Form, string))
    ensures Signup.Get(r.0, field) == value
    ensures forall other: Signup.Field :: other != field ==> Signup.Get(r.0, other) == Signup.Get(f, other)
    ensures r.1 == ""
  {
    (Signup.SetField(f, field, value), "")
  }

  /** The five checks of `handleSubmit`, in the order they run. */
  function SubmitChecks(f: Signup.Form): seq<Validation.Check> {
    [Validation.Check(IsBlank(f.username), Signup.UsernameRequired),
     Validation.Check(IsBlank(f.email), Signup.EmailRequired),
     Validation.Check(IsBlank(f.fullname), FullnameRequired),
     Validation.Check(f.password == "", Signup.PasswordRequired),
     Validation.Check(f.password != f.confirmPassword, Signup.PasswordsMismatch)]
  }

  /**
   * `handleSubmit`: the first failing presence check is shown and nothing is
   * sent; otherwise the shared body goes out and an `ok` reply leads to the
   * verification page.
   */
  function Submit(f: Signup.Form, reply: Signup.Reply): (r: Signup.Outcome)
    ensures Validation.FirstFailure(SubmitChecks(f)).Some? ==>
              r == Signup.Outcome(None, None, Validation.FirstFailure(SubmitChecks(f)).value)
    ensures r.request.Some? <==> Validation.FirstFailure(SubmitChecks(f)).None?
    ensures r.request.Some? ==> r == Signup.AfterSend(Signup.BodyOf(f), reply)
  {
    var failure := Validation.FirstFailure(SubmitChecks(f));
    if failure.Some? then Signup.Outcome(None, None, failure.value) else Signup.AfterSend(Signup.BodyOf(f), reply)
  }

  /** A blank username is reported whatever else the form holds. */
  lemma UsernameCheckedFirst(f: Signup.Form, reply: Signup.Reply)
    requires IsBlank(f.username)
    ensures Submit(f, reply) == Signup.Outcome(None, None, Signup.UsernameRequired)
  {
    var checks := SubmitChecks(f);
    Validation.FirstFailureHead(checks[0], checks[1..]);
    assert checks == [checks[0]] + checks[1..];
  }

  /**
   * What this page sends has non-empty trimmed username, e-mail and full
   * name and a confirmed, non-empty password; none of the format rules of
   * the newer page is enforced.
   */
  lemma SentBodyIsPresent(f: Signup.Form, reply: Signup.Reply)
    requires Submit(f, reply).request.Some?
    ensures var b := Signup.BodyOf(f);
            b.username != "" && b.email != "" && b.fullname != "" && b.password != "" && b.password == f.confirmPassword
  {
    var checks := SubmitChecks(f);
    assert !checks[0].fails && !checks[1].fails && !checks[2].fails && !checks[3].fails && !checks[4].fails;
    TrimEmptyIffBlank(f.username);
    TrimEmptyIffBlank(f.email);
    TrimEmptyIffBlank(f.fullname);
  }
}
