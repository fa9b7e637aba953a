/**
 * The new-payment modal of frontend/src/pages/newpayment.jsx: the form's
 * validation chain, the `create-expense/` request body for a group or a
 * friend payment, the reset after a successful reply, and the submit
 * button's enable rule.  `parseFloat`, `encodeURIComponent`, the cookie and
 * the server's reply are parameters.
 */
module NewPayment {
  import opened Js
  import opened Text
  import Validation

  datatype PayMode = GroupPayment | FriendPayment

  /** The form's state: the two text fields, the tab, the two selections and the deadline date. */
  datatype Form = Form(amount: string, description: string, mode: PayMode,
                       groupId: Value, friendId: Value, deadline: string)

  const InvalidAmount := "Please enter a valid amount"
  const MissingDescription := "Please provide a description"
  const MissingGroup := "Please select a group"
  const MissingFriend := "Please select a friend"
  const AuthRequired := "Authentication required"
  const CreateFailed := "Failed to create payment"
  const ProcessFailed := "Failed to process payment"

  /**
   * `!amount || isNaN(parseFloat(amount)) || parseFloat(amount) <= 0`, with
   * `parse` standing for `parseFloat` (`None` where it gives `NaN`).
   */
  predicate BadAmount(amount: string, parse: string -> Option<int>) {
    amount == "" || parse(amount).None? || parse(amount).value <= 0
  }

  /** The four checks of `handleSubmit`, in the order they run. */
  function SubmitChecks(f: Form, parse: string -> Option<int>): seq<Validation.Check> {
    [Validation.Check(BadAmount(f.amount, parse), InvalidAmount),
     Validation.Check(IsBlank(f.description), MissingDescription),
     Validation.Check(f.mode == GroupPayment && !Truthy(f.groupId), MissingGroup),
     Validation.Check(f.mode == FriendPayment && !Truthy(f.friendId), MissingFriend)]
  }

  /** A payment to a group names only the group; a payment to a friend names only the friend. */
  datatype Payee = GroupPayee(groupId: Value) | FriendPayee(friendId: Value)

  /** The body of the `create-expense/` request. */
  datatype ExpenseBody = ExpenseBody(payee: Payee, totalAmount: int, description: string, paidBy: string, deadline: string)

  /** The reply to `create-expense/`: its `status` and `message`, or an error thrown by `fetch` or `json()`. */
  datatype Reply = Replied(status: Value, message: Option<string>) | Threw

  /** The form after a submission, the request it made, whether it succeeded, and the error it shows (`''` for none). */
  datatype Outcome = Outcome(form: Form, request: Option<ExpenseBody>, success: bool, error: string)

  /** The form after a successful payment: both fields and both selections empty, the deadline a week out again. */
  function Cleared(f: Form, nextDeadline: string): (r: Form)
    ensures r.amount == "" && r.description == "" && r.groupId == Str("") && r.friendId == Str("")
    ensures r.mode == f.mode && r.deadline == nextDeadline
  {
    f.(amount := "", description := "", groupId := Str(""), friendId := Str(""), deadline := nextDeadline)
  }

  /**
   * `handleSubmit`.  The first failing check is reported and nothing is sent;
   * with no token nothing is sent either.  Otherwise the body names the group
   * or the friend of the current tab, carries the description untrimmed, and
   * pays with the raw token for a group but the URI-encoded token for a friend.
   */
  function Submit(f: Form, error: string, token: Option<string>, parse: string -> Option<int>,
                  encode: string -> string, reply: Reply, nextDeadline: string): (r: Outcome)
    ensures Validation.FirstFailure(SubmitChecks(f, parse)).Some? ==>
              r == Outcome(f, None, false, Validation.FirstFailure(SubmitChecks(f, parse)).value)
    ensures Validation.FirstFailure(SubmitChecks(f, parse)).None? && !TruthyText(token) ==>
              r == Outcome(f, None, false, AuthRequired)
    ensures r.request.Some? <==> Validation.FirstFailure(SubmitChecks(f, parse)).None? && TruthyText(token)
    ensures r.request.Some? ==>
              && parse(f.amount).Some? && r.request.value.totalAmount == parse(f.amount).value > 0
              && r.request.value.description == f.description
              && r.request.value.deadline == f.deadline
              && (f.mode == GroupPayment ==> r.request.value.payee == GroupPayee(f.groupId) && r.request.value.paidBy == token.value)
              && (f.mode == FriendPayment ==> r.request.value.payee == FriendPayee(f.friendId) && r.request.value.paidBy == encode(token.value))
              && (r.success <==> reply.Replied? && reply.status == Str("SUCCESS"))
              && (r.success ==> r.form == Cleared(f, nextDeadline) && r.error == "")
              && (!r.success ==> r.form == f)
              && (reply.Replied? && !r.success ==> r.error == TextOr(reply.message, CreateFailed))
              && (reply.Threw? ==> r.error == ProcessFailed)
  {
    var failure := Validation.FirstFailure(SubmitChecks(f, parse));
    if failure.Some? then Outcome(f, None, false, failure.value)
    else if !TruthyText(token) then Outcome(f, None, false, AuthRequired)
    else
      var body :=
        if f.mode == GroupPayment then ExpenseBody(GroupPayee(f.groupId), parse(f.amount).value, f.description, token.value, f.deadline)
        else ExpenseBody(FriendPayee(f.friendId), parse(f.amount).value, f.description, encode(token.value), f.deadline);
      match reply
      case Threw => Outcome(f, Some(body), false, ProcessFailed)
      case Replied(status, message) =>
        if status == Str("SUCCESS") then Outcome(Cleared(f, nextDeadline), Some(body), true, "")
        else Outcome(f, Some(body), false, TextOr(message, CreateFailed))
  }

  /** `disabled={submitting || (groups && !selectedGroupId) || (friends && !selectedFriendId)}`, negated. */
  predicate SubmitEnabled(submitting: bool, f: Form) {
    && !submitting
    && !(f.mode == GroupPayment && !Truthy(f.groupId))
    && !(f.mode == FriendPayment && !Truthy(f.friendId))
  }

  /**
   * A disabled button only ever guards against a submission the checks would
   * reject: when nothing is in flight and the button is disabled, the form
   * fails validation and no request would go out.
   */
  lemma DisabledSubmitIsRejected(f: Form, parse: string -> Option<int>)
    requires !SubmitEnabled(false, f)
    ensures Validation.FirstFailure(SubmitChecks(f, parse)).Some?
  {
    assert SubmitChecks(f, parse)[2].fails || SubmitChecks(f, parse)[3].fails;
  }

  /** After a successful payment the cleared form cannot be submitted again: its button is disabled and its amount is rejected first. */
  lemma ClearedFormIsRejected(f: Form, nextDeadline: string, parse: string -> Option<int>)
    ensures !SubmitEnabled(false, Cleared(f, nextDeadline))
    ensures Validation.FirstFailure(SubmitChecks(Cleared(f, nextDeadline), parse)) == Some(InvalidAmount)
  {
    Validation.FirstFailureHead(SubmitChecks(Cleared(f, nextDeadline), parse)[0], SubmitChecks(Cleared(f, nextDeadline), parse)[1..]);
  }

  // ---------------------------------------------------------------- rendering

  /**
   * The part of the rendered modal the logic decides: the confirmation shown
   * while `success` holds, or the form with its submit button's label and
   * whether it is disabled.
   */
  datatype View = SuccessView | FormView(submitLabel: string, submitDisabled: bool)

  /**
   * `if (!isOpen) return null;`: a closed modal renders nothing; an open one
   * shows the confirmation in place of the form, submit button included,
   * while `success` holds (the two seconds before the modal closes).
   */
  function Render(isOpen: bool, submitting: bool, success: bool, f: Form): (r: Option<View>)
    ensures r.None? <==> !isOpen
    ensures r.Some? ==> (r.value.SuccessView? <==> success)
    ensures r.Some? && !success ==> r.value.submitDisabled == !SubmitEnabled(submitting, f)
    ensures r.Some? && !success && !submitting ==>
              r.value.submitLabel == (if f.mode == GroupPayment then "Pay & Split" else "Pay Friend")
    ensures r.Some? && !success && submitting ==> r.value.submitLabel == "Processing..."
  {
    if !isOpen then None
    else if success then Some(SuccessView)
    else Some(FormView(if submitting then "Processing..." else if f.mode == GroupPayment then "Pay & Split" else "Pay Friend",
                       !SubmitEnabled(submitting, f)))
  }

  /**
   * After a successful payment the open modal shows the confirmation, and
   * once the confirmation is gone the cleared form's submit button is
   * disabled; after a failed one the form is shown again as it was.
   */
  lemma RenderAfterSubmit(f: Form, error: string, token: Option<string>, parse: string -> Option<int>,
                          encode: string -> string, reply: Reply, nextDeadline: string)
    ensures var o := Submit(f, error, token, parse, encode, reply, nextDeadline);
            && (o.success ==> Render(true, false, o.success, o.form) == Some(SuccessView))
            && (o.success ==> Render(true, false, false, o.form).value.submitDisabled)
            && (!o.success ==> Render(true, false, o.success, o.form) == Render(true, false, false, f))
  {
    var o := Submit(f, error, token, parse, encode, reply, nextDeadline);
    if o.success {
      ClearedFormIsRejected(f, nextDeadline, parse);
    }
  }
}
