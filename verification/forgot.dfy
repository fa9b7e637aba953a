/**
 * The password-reset page of frontend/src/pages/forgot.jsx: requesting the
 * reset email, editing the six-digit code one box at a time, and submitting
 * the code with a new password.
 */
module Forgot {
  import opened Js
  import opened Text
  import Validation

  const CodeLength := 6

  // ---------------------------------------------------------------- handleSubmit

  datatype ResetState = ResetState(emailSent: bool, showVerification: bool, error: Option<string>, isSubmitting: bool)

  /** The reply to `reset-password/`: whether `response.ok`, and the body's `message`; or a thrown error. */
  datatype HttpReply = Http(ok: bool, message: Option<string>) | HttpThrew

  const SendLinkFailed := "Failed to send reset link"

  /** `handleSubmit`: a successful request shows the code form; any failure reports an error. */
  function RequestReset(st: ResetState, reply: HttpReply): (r: ResetState)
    ensures !r.isSubmitting
    ensures reply.Http? && reply.ok ==> r.emailSent && r.showVerification && r.error.None?
    ensures reply.Http? && !reply.ok ==> r.error == Some(TextOr(reply.message, SendLinkFailed))
    ensures reply.HttpThrew? ==> r.error == Some(SendLinkFailed)
    ensures !(reply.Http? && reply.ok) ==> r.emailSent == st.emailSent && r.showVerification == st.showVerification
  {
    match reply
    case Http(true, _) => st.(emailSent := true, showVerification := true, error := None, isSubmitting := false)
    case Http(false, m) => st.(error := Some(TextOr(m, SendLinkFailed)), isSubmitting := false)
    case HttpThrew => st.(error := Some(SendLinkFailed), isSubmitting := false)
  }

  /**
   * Once the email has been sent and the code form shown, no later request,
   * failed or not, takes them back; and the outcome does not depend on the
   * error shown or the busy flag before the request.
   */
  lemma RequestResetKeepsProgress(st: ResetState, reply: HttpReply, error: Option<string>, busy: bool)
    ensures st.emailSent ==> RequestReset(st, reply).emailSent
    ensures st.showVerification ==> RequestReset(st, reply).showVerification
    ensures RequestReset(st.(error := error, isSubmitting := busy), reply) == RequestReset(st, reply)
  {
  }

  // ---------------------------------------------------------------- handleDigitChange

  /** `value === '' || /^[0-9]$/.test(value)`. */
  predicate AcceptedDigit(value: string) {
    value == "" || (|value| == 1 && IsDigit(value[0]))
  }

  /** `code.split('')`: one string per character. */
  function Split(code: string): (a: seq<Option<string>>)
    ensures |a| == |code|
    ensures forall i :: 0 <= i < |code| ==> a[i] == Some([code[i]])
  {
    seq(|code|, i requires 0 <= i < |code| => Some([code[i]]))
  }

  /** `k` array holes. */
  function Holes(k: nat): (h: seq<Option<string>>)
    ensures |h| == k && forall i :: 0 <= i < k ==> h[i].None?
  {
    seq(k, _ => None)
  }

  /** `a[index] = value`: past the end the array grows, leaving holes (`None`) in between. */
  function Assign(a: seq<Option<string>>, index: nat, value: string): (r: seq<Option<string>>)
    ensures |r| == if index < |a| then |a| else index + 1
    ensures r[index] == Some(value)
    ensures forall i :: 0 <= i < |r| && i != index ==> r[i] == if i < |a| then a[i] else None
  {
    if index < |a| then a[index := Some(value)]
    else a + Holes(index - |a|) + [Some(value)]
  }

  /** `a.join('')`: holes contribute the empty string. */
  function Join(a: seq<Option<string>>): (r: string)
    ensures |a| == 0 ==> r == ""
    decreases |a|
  {
    if |a| == 0 then "" else Join(a[..|a| - 1]) + (match a[|a| - 1] case None => "" case Some(s) => s)
  }

  lemma {:induction false} JoinSplit(code: string)
    ensures Join(Split(code)) == code
    decreases |code|
  {
    if |code| > 0 {
      var n := |code| - 1;
      assert Split(code)[..n] == Split(code[..n]);
      JoinSplit(code[..n]);
      assert code == code[..n] + [code[n]];
    }
  }

  lemma {:induction false} JoinConcat(a: seq<Option<string>>, b: seq<Option<string>>)
    ensures Join(a + b) == Join(a) + Join(b)
    decreases |b|
  {
    if |b| == 0 {
      assert a + b == a;
    } else {
      var n := |b| - 1;
      assert (a + b)[..|a + b| - 1] == a + b[..n];
      JoinConcat(a, b[..n]);
    }
  }

  lemma {:induction false} JoinHoles(k: nat)
    ensures Join(Holes(k)) == ""
    decreases k
  {
    if k > 0 {
      assert Holes(k)[..k - 1] == Holes(k - 1);
      JoinHoles(k - 1);
    }
  }

  /**
   * `handleDigitChange(index, value)`: anything but the empty string or one
   * ASCII digit is ignored.  Inside the code the character at `index` is
   * replaced (an empty value deletes it, shifting later digits left); at or
   * past the end the value is appended, since the holes join to nothing.
   */
  function DigitChange(code: string, index: nat, value: string): (r: string)
    ensures !AcceptedDigit(value) ==> r == code
    ensures AcceptedDigit(value) && index < |code| ==> r == code[..index] + value + code[index + 1..]
    ensures AcceptedDigit(value) && index >= |code| ==> r == code + value
  {
    if !AcceptedDigit(value) then code
    else
      if index < |code| then AssignInside(code, index, value); Join(Assign(Split(code), index, value))
      else AssignBeyond(code, index, value); Join(Assign(Split(code), index, value))
  }

  lemma AssignInside(code: string, index: nat, value: string)
    requires index < |code|
    ensures Join(Assign(Split(code), index, value)) == code[..index] + value + code[index + 1..]
  {
    var pre, post := code[..index], code[index + 1..];
    assert Assign(Split(code), index, value) == Split(pre) + [Some(value)] + Split(post);
    JoinConcat(Split(pre) + [Some(value)], Split(post));
    JoinConcat(Split(pre), [Some(value)]);
    assert Join([Some(value)]) == Join([]) + value;
    JoinSplit(pre);
    JoinSplit(post);
  }

  lemma AssignBeyond(code: string, index: nat, value: string)
    requires index >= |code|
    ensures Join(Assign(Split(code), index, value)) == code + value
  {
    var a := Split(code);
    JoinConcat(a + Holes(index - |a|), [Some(value)]);
    JoinConcat(a, Holes(index - |a|));
    JoinHoles(index - |a|);
    JoinSplit(code);
    assert Join([Some(value)]) == Join([]) + value;
  }

  /** Every character is an ASCII digit and there are at most six of them. */
  predicate WellFormedCode(code: string) {
    |code| <= CodeLength && forall i :: 0 <= i < |code| ==> IsDigit(code[i])
  }

  /**
   * The six boxes only ever pass indices 0 to 5, so a well-formed code stays
   * well-formed whatever is typed.
   */
  lemma DigitChangeKeepsCode(code: string, index: nat, value: string)
    requires WellFormedCode(code) && index < CodeLength
    ensures WellFormedCode(DigitChange(code, index, value))
  {
    if AcceptedDigit(value) && index < |code| {
      var front, back := code[..index], code[index + 1..];
      assert forall i :: 0 <= i < |front| ==> front[i] == code[i];
      assert forall i :: 0 <= i < |back| ==> back[i] == code[index + 1 + i];
      DigitsJoin(front, value);
      DigitsJoin(front + value, back);
    } else if AcceptedDigit(value) {
      DigitsJoin(code, value);
    }
  }

  lemma DigitsJoin(a: string, b: string)
    requires forall i :: 0 <= i < |a| ==> IsDigit(a[i])
    requires forall i :: 0 <= i < |b| ==> IsDigit(b[i])
    ensures forall i :: 0 <= i < |a + b| ==> IsDigit((a + b)[i])
  {
  }

  /** Typing a digit into every box in order fills the code. */
  lemma DigitsInOrderFillCode(d: seq<char>)
    requires |d| == CodeLength && forall i :: 0 <= i < |d| ==> IsDigit(d[i])
    ensures DigitChange(DigitChange(DigitChange(DigitChange(DigitChange(DigitChange(
              "", 0, [d[0]]), 1, [d[1]]), 2, [d[2]]), 3, [d[3]]), 4, [d[4]]), 5, [d[5]]) == d
  {
    assert d[..0] == "";
    var c1 := DigitChange("", 0, [d[0]]);
    TypeNextDigit(d, 0);
    assert c1 == d[..1];
    var c2 := DigitChange(c1, 1, [d[1]]);
    TypeNextDigit(d, 1);
    assert c2 == d[..2];
    var c3 := DigitChange(c2, 2, [d[2]]);
    TypeNextDigit(d, 2);
    assert c3 == d[..3];
    var c4 := DigitChange(c3, 3, [d[3]]);
    TypeNextDigit(d, 3);
    assert c4 == d[..4];
    var c5 := DigitChange(c4, 4, [d[4]]);
    TypeNextDigit(d, 4);
    assert c5 == d[..5];
    TypeNextDigit(d, 5);
    assert d[..6] == d;
  }

  /** Typing the next digit into the first empty box extends the code by that digit. */
  lemma TypeNextDigit(d: seq<char>, k: nat)
    requires k < |d| && IsDigit(d[k])
    ensures DigitChange(d[..k], k, [d[k]]) == d[..k + 1]
  {
    assert AcceptedDigit([d[k]]);
    assert d[..k] + [d[k]] == d[..k + 1];
  }

  /** The reset button: `disabled={isSubmitting || verificationCode.length !== 6}`. */
  predicate ResetEnabled(isSubmitting: bool, code: string) {
    !isSubmitting && |code| == CodeLength
  }

  /**
   * Clearing any box of a well-formed code disables the reset button.  Since
   * clearing shifts the later digits left, typing the digit back into the
   * same box re-enables it only for the last box.
   */
  lemma ClearedBoxDisablesReset(isSubmitting: bool, code: string, index: nat)
    requires WellFormedCode(code) && index < |code|
    ensures !ResetEnabled(isSubmitting, DigitChange(code, index, ""))
    ensures ResetEnabled(false, code) ==> ResetEnabled(false, DigitChange(DigitChange(code, index, ""), index, [code[index]])) == (index == CodeLength - 1)
  {
  }

  // ---------------------------------------------------------------- handleVerificationSubmit

  const PasswordsMismatch := "Passwords do not match"
  const PasswordTooShort := "Password must be at least 8 characters long"
  const InvalidCode := "Invalid verification code"
  const VerifyFailed := "Failed to verify code"
  const ResetDone := "Password reset successfully! You can now login with your new password."

  datatype ConfirmBody = ConfirmBody(email: string, confirmationCode: string, newPassword: string)

  /** Either the validation error, or the body of the `confirm-reset-password/` request. */
  datatype Submission = Invalid(message: string) | Send(body: ConfirmBody)

  function VerificationChecks(password: string, confirm: string): seq<Validation.Check> {
    [Validation.Check(password != confirm, PasswordsMismatch),
     Validation.Check(|password| < 8, PasswordTooShort)]
  }

  /**
   * The checks of `handleVerificationSubmit`: a mismatch is reported before a
   * short password, and either stops the request.
   */
  function SubmitVerification(email: string, code: string, password: string, confirm: string): (r: Submission)
    ensures r.Invalid? <==> Validation.FirstFailure(VerificationChecks(password, confirm)).Some?
    ensures r.Invalid? ==> Some(r.message) == Validation.FirstFailure(VerificationChecks(password, confirm))
    ensures r.Send? ==> r.body == ConfirmBody(email, code, password) && password == confirm && |password| >= 8
  {
    if password != confirm then Invalid(PasswordsMismatch)
    else if |password| < 8 then Invalid(PasswordTooShort)
    else Send(ConfirmBody(email, code, password))
  }

  /** Where the page goes after the confirmation request: to login with a message, or back with an error. */
  datatype AfterConfirm = ToLogin(message: string) | ShowError(error: string)

  function ConfirmOutcome(reply: HttpReply): (r: AfterConfirm)
    ensures reply.Http? && reply.ok <==> r.ToLogin?
    ensures r.ToLogin? ==> r.message == ResetDone
    ensures reply.Http? && !reply.ok ==> r == ShowError(TextOr(reply.message, InvalidCode))
    ensures reply.HttpThrew? ==> r == ShowError(VerifyFailed)
  {
    match reply
    case Http(true, _) => ToLogin(ResetDone)
    case Http(false, m) => ShowError(TextOr(m, InvalidCode))
    case HttpThrew => ShowError(VerifyFailed)
  }
}
