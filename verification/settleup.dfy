/**
 * The settle-up modal of frontend/src/pages/settleup.jsx: loading the
 * settlements and splitting them into friend and group settlements,
 * selecting one entity, and confirming, which records one payment per
 * settlement ('all' tab) or one payment to the selected friend or group.
 * The `idToken` cookie and every server reply are parameters.
 */
module SettleUp {
  import opened Js
  import opened Text
  import Seqs

  /**
   * One entry of `settlements`: who is paid, how much, and the `group_id` of
   * each of its expenses (`undefined` where the expense has none).
   */
  datatype Settlement = Settlement(id: Value, name: string, amount: int, expenseGroups: seq<Value>)

  /** `settlement.expenses.some(e => e.group_id !== undefined && e.group_id !== null)`. */
  predicate HasGroupExpenses(s: Settlement) {
    exists i :: 0 <= i < |s.expenseGroups| && !Nullish(s.expenseGroups[i])
  }

  function IsGroupSettlement(): Settlement -> bool {
    (s: Settlement) => HasGroupExpenses(s)
  }

  function IsFriendSettlement(): Settlement -> bool {
    (s: Settlement) => !HasGroupExpenses(s)
  }

  // ---------------------------------------------------------------- fetchSettlementData

  /**
   * The `forEach` of `fetchSettlementData`: each settlement is pushed onto the
   * group list when one of its expenses belongs to a group, onto the friend
   * list otherwise.
   */
  method Partition(ss: seq<Settlement>) returns (friends: seq<Settlement>, groups: seq<Settlement>)
    ensures friends == Seqs.Filter(ss, IsFriendSettlement())
    ensures groups == Seqs.Filter(ss, IsGroupSettlement())
  {
    friends, groups := [], [];
    var i := 0;
    while i < |ss|
      invariant 0 <= i <= |ss|
      invariant friends == Seqs.Filter(ss[..i], IsFriendSettlement())
      invariant groups == Seqs.Filter(ss[..i], IsGroupSettlement())
    {
      Seqs.FilterSnoc(ss, i, IsFriendSettlement());
      Seqs.FilterSnoc(ss, i, IsGroupSettlement());
      if HasGroupExpenses(ss[i]) {
        groups := groups + [ss[i]];
      } else {
        friends := friends + [ss[i]];
      }
      i := i + 1;
    }
    assert ss[..|ss|] == ss;
  }

  /**
   * Every settlement lands in exactly one of the two lists, which together
   * are a rearrangement of the settlements.
   */
  lemma PartitionExact(ss: seq<Settlement>)
    ensures var friends, groups := Seqs.Filter(ss, IsFriendSettlement()), Seqs.Filter(ss, IsGroupSettlement());
            && multiset(friends) + multiset(groups) == multiset(ss)
            && |friends| + |groups| == |ss|
            && (forall s :: s in groups <==> s in ss && HasGroupExpenses(s))
            && (forall s :: s in friends <==> s in ss && !HasGroupExpenses(s))
  {
    Seqs.FilterPartition(ss, IsFriendSettlement(), IsGroupSettlement());
  }

  /** The body of the `get-settlement-data/` reply, or an error thrown by `fetch` or `json()`. */
  datatype LoadReply = LoadReplied(status: Value, settlements: seq<Settlement>, totalToPay: Option<int>) | LoadThrew

  datatype Loaded = Loaded(friends: seq<Settlement>, groups: seq<Settlement>, settlements: seq<Settlement>, totalAmount: int)

  const AuthRequired := "Authentication required"
  const LoadFailed := "Failed to load settlement data"
  const ConnectFailed := "Could not connect to the server"

  /**
   * `fetchSettlementData`: only a reply whose status is the upper-case
   * 'SUCCESS' fills the lists; the total falls back to 0.
   */
  function Load(token: Option<string>, reply: LoadReply): (r: Result<Loaded>)
    ensures !TruthyText(token) ==> r == Err(AuthRequired)
    ensures TruthyText(token) ==>
              (r.Ok? <==> reply.LoadReplied? && reply.status == Str("SUCCESS"))
    ensures TruthyText(token) && reply.LoadReplied? && reply.status != Str("SUCCESS") ==> r == Err(LoadFailed)
    ensures TruthyText(token) && reply.LoadThrew? ==> r == Err(ConnectFailed)
    ensures r.Ok? ==>
              && r.value.settlements == reply.settlements
              && r.value.totalAmount == CountOrZero(reply.totalToPay)
              && (forall s :: s in r.value.groups <==> s in reply.settlements && HasGroupExpenses(s))
              && (forall s :: s in r.value.friends <==> s in reply.settlements && !HasGroupExpenses(s))
              && multiset(r.value.friends) + multiset(r.value.groups) == multiset(reply.settlements)
  {
    if !TruthyText(token) then Err(AuthRequired)
    else match reply
      case LoadThrew => Err(ConnectFailed)
      case LoadReplied(status, ss, total) =>
        if status == Str("SUCCESS") then
          PartitionExact(ss);
          Ok(Loaded(Seqs.Filter(ss, IsFriendSettlement()), Seqs.Filter(ss, IsGroupSettlement()), ss, CountOrZero(total)))
        else Err(LoadFailed)
  }

  // ---------------------------------------------------------------- selection

  datatype Mode = All | Friends | Groups

  /** The entity picked on the friends or groups tab, and the amount shown and sent. */
  datatype Selection = Selection(selected: Value, totalAmount: int)

  /**
   * Clicking a friend or group card, as written: a different card is
   * selected with its amount; clicking the selected card clears the
   * selection and then reads `data`, which is not in scope, so the click
   * handler throws before the amount is reset.
   */
  function Toggle(sel: Selection, id: Value, amount: int): (r: Selection)
    ensures sel.selected != id ==> r == Selection(id, amount)
    ensures sel.selected == id ==> r.selected == Str("") && r.totalAmount == sel.totalAmount
  {
    if sel.selected == id then sel.(selected := Str("")) else Selection(id, amount)
  }

  /**
   * Selecting a card and deselecting it again leaves the card's amount in
   * place of the total that was shown before.
   */
  lemma ToggleTwiceKeepsCardAmount(total: int, id: Value, amount: int)
    requires id != Str("") && amount != total
    ensures Toggle(Toggle(Selection(Str(""), total), id, amount), id, amount) == Selection(Str(""), amount)
    ensures Toggle(Toggle(Selection(Str(""), total), id, amount), id, amount) != Selection(Str(""), total)
  {
  }

  /** Clicking a card as the comments beside it describe: deselecting restores the loaded total. */
  function ToggleIntended(sel: Selection, id: Value, amount: int, totalToPay: int): (r: Selection)
    ensures sel.selected != id ==> r == Selection(id, amount)
    ensures sel.selected == id ==> r == Selection(Str(""), totalToPay)
  {
    if sel.selected == id then Selection(Str(""), totalToPay) else Selection(id, amount)
  }

  /** With the intended handler, a second click on the same card undoes the first. */
  lemma ToggleIntendedTwiceRestores(total: int, id: Value, amount: int)
    requires id != Str("")
    ensures ToggleIntended(ToggleIntended(Selection(Str(""), total), id, amount, total), id, amount, total)
            == Selection(Str(""), total)
  {
  }

  // ---------------------------------------------------------------- handleConfirmSettlement

  datatype Target = ToUser(userId: Value) | ToGroup(groupId: Value)

  /** The body of one `record-payment/` request. */
  datatype Payment = Payment(idToken: string, target: Target, amount: int, description: string)

  /** What the confirmation does for the tab and selection: every settlement, one payment, or nothing. */
  datatype Dispatch = PayEach | PayOne(target: Target) | InvalidChoice

  function DispatchFor(mode: Mode, selected: Value): (d: Dispatch)
    ensures d.PayEach? <==> mode == All
    ensures d.InvalidChoice? <==> mode != All && !Truthy(selected)
    ensures d.PayOne? ==> (mode == Friends ==> d.target == ToUser(selected)) && (mode == Groups ==> d.target == ToGroup(selected))
  {
    match mode
    case All => PayEach
    case Friends => if Truthy(selected) then PayOne(ToUser(selected)) else InvalidChoice
    case Groups => if Truthy(selected) then PayOne(ToGroup(selected)) else InvalidChoice
  }

  /** `disabled={isProcessing || (settlementType !== 'all' && !selectedEntityId)}`, negated. */
  predicate ConfirmEnabled(isProcessing: bool, mode: Mode, selected: Value) {
    !isProcessing && (mode == All || Truthy(selected))
  }

  /** The button is enabled exactly when nothing is in flight and the confirmation would not be rejected as an invalid selection. */
  lemma ConfirmEnabledIffDispatches(isProcessing: bool, mode: Mode, selected: Value)
    ensures ConfirmEnabled(isProcessing, mode, selected) <==> !isProcessing && !DispatchFor(mode, selected).InvalidChoice?
  {
  }

  /**
   * Switching tabs keeps the selection, so a friend picked on the friends tab
   * is sent as the `group_id` after switching to the groups tab.
   */
  lemma SwitchedTabReusesSelection(selected: Value)
    requires Truthy(selected)
    ensures DispatchFor(Groups, selected) == PayOne(ToGroup(selected))
    ensures DispatchFor(Friends, selected) == PayOne(ToUser(selected))
  {
  }

  /** The reply to one `record-payment/` request: its `status` and `message`, or an error thrown by `fetch` or `json()`. */
  datatype Reply = Replied(status: Value, message: Option<string>) | Threw

  predicate Succeeded(r: Reply) {
    r.Replied? && r.status == Str("success")
  }

  const InvalidSelection := "Invalid selection"
  const PaymentFailed := "Failed to process payment"
  const CatchMessage := "Could not process payment. Please try again."
  const SettlingUp := "Settling up"

  /** The payment the 'all' tab records for one settlement. */
  function PaymentFor(token: string, s: Settlement): Payment {
    Payment(token, ToUser(s.id), s.amount, "Settling up with " + s.name)
  }

  /** How many of the first `n` requests succeeded; `reply(i)` answers the `i`-th request. */
  function Successes(reply: nat -> Reply, n: nat): (k: nat)
    ensures k <= n
    ensures k > 0 <==> exists j :: 0 <= j < n && Succeeded(reply(j))
    decreases n
  {
    if n == 0 then 0 else Successes(reply, n - 1) + (if Succeeded(reply(n - 1)) then 1 else 0)
  }

  /** `Successfully settled ${successCount} out of ${totalSettlements} payments`. */
  function SettledMessage(k: nat, n: nat): string {
    "Successfully settled " + NatToString(k) + " out of " + NatToString(n) + " payments"
  }

  /** What a confirmation did: the requests it made, whether it reached the success state, and the error it shows. */
  datatype Outcome = Outcome(sent: seq<Payment>, success: bool, error: Option<string>)

  /**
   * The 'all' tab.  The requests go out one per settlement, in order, each
   * with the settlement's own id and amount; a thrown error ends the loop at
   * the request that threw.  Without an error the confirmation succeeds when
   * at least one request succeeded, and otherwise shows the k-of-n message
   * (there is no `message || default` fallback to reach, since that message
   * is never empty).
   */
  ghost predicate SettledAll(token: string, ss: seq<Settlement>, reply: nat -> Reply, r: Outcome) {
    && |r.sent| <= |ss|
    && (forall j :: 0 <= j < |r.sent| ==> r.sent[j] == PaymentFor(token, ss[j]))
    && (forall j :: 0 <= j < |r.sent| - 1 ==> reply(j).Replied?)
    && (r.success ==> r.error.None?)
    && ((forall j :: 0 <= j < |ss| ==> reply(j).Replied?) ==>
          && |r.sent| == |ss|
          && (r.success <==> exists j :: 0 <= j < |ss| && Succeeded(reply(j)))
          && (!r.success ==> r.error == Some(SettledMessage(Successes(reply, |ss|), |ss|))))
    && ((exists j :: 0 <= j < |ss| && reply(j).Threw?) ==>
          && 0 < |r.sent| && reply(|r.sent| - 1).Threw?
          && !r.success && r.error == Some(CatchMessage))
  }

  method SettleAll(token: string, ss: seq<Settlement>, reply: nat -> Reply) returns (r: Outcome)
    ensures SettledAll(token, ss, reply, r)
  {
    var sent: seq<Payment> := [];
    var count := 0;
    var i := 0;
    while i < |ss|
      invariant 0 <= i <= |ss|
      invariant |sent| == i
      invariant forall j :: 0 <= j < i ==> sent[j] == PaymentFor(token, ss[j])
      invariant forall j :: 0 <= j < i ==> reply(j).Replied?
      invariant count == Successes(reply, i)
    {
      sent := sent + [PaymentFor(token, ss[i])];
      if reply(i).Threw? {
        return Outcome(sent, false, Some(CatchMessage));
      }
      if Succeeded(reply(i)) {
        count := count + 1;
      }
      i := i + 1;
    }
    if count > 0 {
      r := Outcome(sent, true, None);
    } else {
      r := Outcome(sent, false, Some(SettledMessage(count, |ss|)));
    }
  }

  /**
   * `handleConfirmSettlement`: no token, or a friends or groups tab without a
   * selection, sends nothing; a single payment succeeds exactly when its
   * reply's status is 'success'.
   */
  method Confirm(mode: Mode, sel: Selection, token: Option<string>, ss: seq<Settlement>, reply: nat -> Reply)
    returns (r: Outcome)
    ensures !TruthyText(token) ==> r == Outcome([], false, Some(AuthRequired))
    ensures TruthyText(token) && DispatchFor(mode, sel.selected).InvalidChoice? ==>
              r == Outcome([], false, Some(InvalidSelection))
    ensures TruthyText(token) && mode == All ==> SettledAll(token.value, ss, reply, r)
    ensures TruthyText(token) && DispatchFor(mode, sel.selected).PayOne? ==>
              && r.sent == [Payment(token.value, DispatchFor(mode, sel.selected).target, sel.totalAmount, SettlingUp)]
              && (r.success <==> Succeeded(reply(0)))
              && (r.success ==> r.error.None?)
              && (reply(0).Threw? ==> r.error == Some(CatchMessage))
              && (reply(0).Replied? && !Succeeded(reply(0)) ==> r.error == Some(TextOr(reply(0).message, PaymentFailed)))
  {
    if !TruthyText(token) {
      return Outcome([], false, Some(AuthRequired));
    }
    match DispatchFor(mode, sel.selected)
    case PayEach =>
      r := SettleAll(token.value, ss, reply);
    case InvalidChoice =>
      r := Outcome([], false, Some(InvalidSelection));
    case PayOne(target) =>
      var sent := [Payment(token.value, target, sel.totalAmount, SettlingUp)];
      match reply(0)
      case Threw =>
        r := Outcome(sent, false, Some(CatchMessage));
      case Replied(status, message) =>
        if status == Str("success") {
          r := Outcome(sent, true, None);
        } else {
          r := Outcome(sent, false, Some(TextOr(message, PaymentFailed)));
        }
  }

  /** With nothing to settle, the 'all' tab sends nothing and reports "0 out of 0" as its error. */
  lemma NothingToSettle(token: string, reply: nat -> Reply, r: Outcome)
    requires SettledAll(token, [], reply, r)
    ensures r == Outcome([], false, Some(SettledMessage(0, 0)))
  {
  }
}
