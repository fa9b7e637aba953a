/**
 * The friends page of frontend/src/pages/friends.jsx: sorting the
 * friendships the server reports into four lists, the optimistic
 * friend-request flow, accepting, declining, removing and cancelling, and
 * the "already requested" flag of a search result.  Each handler is a pure
 * function from the page state and the server's reply to the next state.
 */
module Friends {
  import opened Js
  import opened Text
  import Seqs
  import Models

  /**
   * One friendship as the page holds it.  Entries from the server carry the
   * id, the other party, status and initiator; the optimistic entries the page
   * makes itself carry only a name, an email and a temporary id.
   */
  datatype Entry = Entry(
    friendshipId: Value, friendId: Value, friendName: Option<string>, username: Option<string>,
    email: Option<string>, status: Value, initiator: Value, isPending: bool)

  datatype Page = Page(
    friends: seq<Entry>, requests: seq<Entry>, sent: seq<Entry>, blocked: seq<Entry>,
    requestedUsers: seq<string>, error: Option<string>, showRemoveModal: bool)

  // ---------------------------------------------------------------- sortFriendships

  datatype Bucket = FriendsList | Incoming | Outgoing | BlockedList

  predicate IsAccepted(status: Value) { status == Str("accepted") || status == Str("ACCEPTED") }
  predicate IsPending(status: Value) { status == Str("pending") || status == Str("PENDING") }
  predicate IsBlocked(status: Value) { status == Str("blocked") || status == Str("BLOCKED") }

  /**
   * The page routes every status the `Friendship` model declares, and nothing
   * but those three in lower or upper case.
   */
  lemma RoutedStatusesAreChoices(e: Entry, me: Value, s: string)
    ensures Models.IsStatusChoice(s) ==> Route(e.(status := Str(s)), me).Some?
    ensures Route(e.(status := Str(s)), me).Some? ==> Models.IsStatusChoice(ToLower(s))
  {
    assert ToLower("ACCEPTED") == "accepted";
    assert ToLower("PENDING") == "pending";
    assert ToLower("BLOCKED") == "blocked";
    assert ToLower("accepted") == "accepted";
    assert ToLower("pending") == "pending";
    assert ToLower("blocked") == "blocked";
  }

  /** The list a friendship goes to for the user `me`; `None` when its status is none of the three. */
  function Route(e: Entry, me: Value): Option<Bucket> {
    if IsAccepted(e.status) then Some(FriendsList)
    else if IsPending(e.status) then (if e.initiator == me then Some(Outgoing) else Some(Incoming))
    else if IsBlocked(e.status) then Some(BlockedList)
    else None
  }

  /** The friendships routed to `b`, in their original order. */
  function InBucket(fs: seq<Entry>, b: Option<Bucket>, me: Value): (r: seq<Entry>)
    ensures |r| <= |fs|
    decreases |fs|
  {
    if |fs| == 0 then []
    else
      var last := fs[|fs| - 1];
      InBucket(fs[..|fs| - 1], b, me) + (if Route(last, me) == b then [last] else [])
  }

  /** A list holds exactly the friendships routed to it. */
  lemma {:induction false} InBucketMembers(fs: seq<Entry>, b: Option<Bucket>, me: Value, x: Entry)
    ensures x in InBucket(fs, b, me) <==> x in fs && Route(x, me) == b
    decreases |fs|
  {
    if |fs| > 0 {
      var init := fs[..|fs| - 1];
      InBucketMembers(init, b, me, x);
      assert fs == init + [fs[|fs| - 1]];
    }
  }

  /** Extending the input by one friendship extends at most its own list by it. */
  lemma InBucketSnoc(fs: seq<Entry>, i: int, b: Option<Bucket>, me: Value)
    requires 0 <= i < |fs|
    ensures InBucket(fs[..i + 1], b, me) == InBucket(fs[..i], b, me) + (if Route(fs[i], me) == b then [fs[i]] else [])
  {
    assert fs[..i + 1][..i] == fs[..i];
  }

  /**
   * `sortFriendships`: one pass over the friendships, pushing each onto the
   * list its status selects.
   */
  method SortFriendships(fs: seq<Entry>, me: Value)
    returns (friends: seq<Entry>, requests: seq<Entry>, sent: seq<Entry>, blocked: seq<Entry>)
    ensures friends == InBucket(fs, Some(FriendsList), me)
    ensures requests == InBucket(fs, Some(Incoming), me)
    ensures sent == InBucket(fs, Some(Outgoing), me)
    ensures blocked == InBucket(fs, Some(BlockedList), me)
  {
    friends, requests, sent, blocked := [], [], [], [];
    var i := 0;
    while i < |fs|
      invariant 0 <= i <= |fs|
      invariant friends == InBucket(fs[..i], Some(FriendsList), me)
      invariant requests == InBucket(fs[..i], Some(Incoming), me)
      invariant sent == InBucket(fs[..i], Some(Outgoing), me)
      invariant blocked == InBucket(fs[..i], Some(BlockedList), me)
    {
      var f := fs[i];
      InBucketSnoc(fs, i, Some(FriendsList), me);
      InBucketSnoc(fs, i, Some(Incoming), me);
      InBucketSnoc(fs, i, Some(Outgoing), me);
      InBucketSnoc(fs, i, Some(BlockedList), me);
      if IsAccepted(f.status) {
        friends := friends + [f];
      } else if IsPending(f.status) {
        if f.initiator == me {
          sent := sent + [f];
        } else {
          requests := requests + [f];
        }
      } else if IsBlocked(f.status) {
        blocked := blocked + [f];
      }
      i := i + 1;
    }
    assert fs[..i] == fs;
  }

  /** Which list each friendship lands in, stated by its status and initiator. */
  lemma BucketMembership(fs: seq<Entry>, me: Value, x: Entry)
    ensures x in InBucket(fs, Some(FriendsList), me) <==> x in fs && IsAccepted(x.status)
    ensures x in InBucket(fs, Some(Outgoing), me) <==>
              x in fs && IsPending(x.status) && x.initiator == me
    ensures x in InBucket(fs, Some(Incoming), me) <==>
              x in fs && IsPending(x.status) && x.initiator != me
    ensures x in InBucket(fs, Some(BlockedList), me) <==>
              x in fs && IsBlocked(x.status) && !IsAccepted(x.status) && !IsPending(x.status)
    ensures x in InBucket(fs, None, me) <==>
              x in fs && !IsAccepted(x.status) && !IsPending(x.status) && !IsBlocked(x.status)
  {
    InBucketMembers(fs, Some(FriendsList), me, x);
    InBucketMembers(fs, Some(Outgoing), me, x);
    InBucketMembers(fs, Some(Incoming), me, x);
    InBucketMembers(fs, Some(BlockedList), me, x);
    InBucketMembers(fs, None, me, x);
  }

  /**
   * The four lists and the dropped friendships together are exactly the
   * input: nothing is lost and nothing lands in two lists.
   */
  lemma {:induction false} BucketsPartition(fs: seq<Entry>, me: Value)
    ensures multiset(InBucket(fs, Some(FriendsList), me)) + multiset(InBucket(fs, Some(Incoming), me))
          + multiset(InBucket(fs, Some(Outgoing), me)) + multiset(InBucket(fs, Some(BlockedList), me))
          + multiset(InBucket(fs, None, me)) == multiset(fs)
    decreases |fs|
  {
    if |fs| > 0 {
      var n := |fs| - 1;
      var x := fs[n];
      BucketsPartition(fs[..n], me);
      assert fs == fs[..n] + [x];
      BucketGrowth(fs, Some(FriendsList), me);
      BucketGrowth(fs, Some(Incoming), me);
      BucketGrowth(fs, Some(Outgoing), me);
      BucketGrowth(fs, Some(BlockedList), me);
      BucketGrowth(fs, None, me);
      var a, b, c, d, e := multiset(InBucket(fs[..n], Some(FriendsList), me)),
        multiset(InBucket(fs[..n], Some(Incoming), me)), multiset(InBucket(fs[..n], Some(Outgoing), me)),
        multiset(InBucket(fs[..n], Some(BlockedList), me)), multiset(InBucket(fs[..n], None, me));
      assert a + b + c + d + e == multiset(fs[..n]);
      assert multiset(fs) == multiset(fs[..n]) + multiset{x};
      Recombine(Route(x, me), a, b, c, d, e, multiset{x},
        multiset(InBucket(fs, Some(FriendsList), me)), multiset(InBucket(fs, Some(Incoming), me)),
        multiset(InBucket(fs, Some(Outgoing), me)), multiset(InBucket(fs, Some(BlockedList), me)),
        multiset(InBucket(fs, None, me)));
    }
  }

  /** One element added to the one of five parts its key selects adds it to their sum. */
  lemma Recombine(k: Option<Bucket>, a: multiset<Entry>, b: multiset<Entry>, c: multiset<Entry>,
                  d: multiset<Entry>, e: multiset<Entry>, one: multiset<Entry>,
                  a': multiset<Entry>, b': multiset<Entry>, c': multiset<Entry>,
                  d': multiset<Entry>, e': multiset<Entry>)
    requires a' == a + (if k == Some(FriendsList) then one else multiset{})
    requires b' == b + (if k == Some(Incoming) then one else multiset{})
    requires c' == c + (if k == Some(Outgoing) then one else multiset{})
    requires d' == d + (if k == Some(BlockedList) then one else multiset{})
    requires e' == e + (if k == None then one else multiset{})
    ensures a' + b' + c' + d' + e' == a + b + c + d + e + one
  {
    match k
    case None =>
    case Some(FriendsList) =>
    case Some(Incoming) =>
    case Some(Outgoing) =>
    case Some(BlockedList) =>
  }

  /** The multiset of one list grows by the last friendship exactly when that friendship is routed to it. */
  lemma BucketGrowth(fs: seq<Entry>, b: Option<Bucket>, me: Value)
    requires |fs| > 0
    ensures multiset(InBucket(fs, b, me)) == multiset(InBucket(fs[..|fs| - 1], b, me))
              + (if Route(fs[|fs| - 1], me) == b then multiset{fs[|fs| - 1]} else multiset{})
  {
  }

  /** The lists keep the server's order: sorting a concatenation concatenates the sorted parts. */
  lemma {:induction false} BucketConcat(a: seq<Entry>, b: seq<Entry>, k: Option<Bucket>, me: Value)
    ensures InBucket(a + b, k, me) == InBucket(a, k, me) + InBucket(b, k, me)
    decreases |b|
  {
    if |b| == 0 {
      assert a + b == a;
    } else {
      var init := b[..|b| - 1];
      assert (a + b)[..|a + b| - 1] == a + init;
      BucketConcat(a, init, k, me);
    }
  }

  /**
   * The server reports `initiator` as a boolean, while the page compares it
   * with the user's string id: no request is ever sorted as sent, and every
   * pending friendship is shown as incoming.
   */
  lemma BooleanInitiatorNeverSent(fs: seq<Entry>, me: Value)
    requires me.Str?
    requires forall i :: 0 <= i < |fs| ==> fs[i].initiator.Bool?
    ensures InBucket(fs, Some(Outgoing), me) == []
    ensures forall x :: x in fs && IsPending(x.status) ==> x in InBucket(fs, Some(Incoming), me)
  {
    var sent := InBucket(fs, Some(Outgoing), me);
    if sent != [] {
      InBucketMembers(fs, Some(Outgoing), me, sent[0]);
    }
    forall x | x in fs && IsPending(x.status) ensures x in InBucket(fs, Some(Incoming), me) {
      InBucketMembers(fs, Some(Incoming), me, x);
    }
  }

  // ---------------------------------------------------------------- shared reply shape

  const NoToken := "No authentication token found"

  /** What a request to the server came to: `SUCCESS`, another status with its message, or a thrown error. */
  datatype Reply = Success | Failure(message: Option<string>) | Threw

  /** Keeps the entries whose friendship id differs from `id`. */
  function NotId(id: Value): Entry -> bool {
    (e: Entry) => e.friendshipId != id
  }

  // ---------------------------------------------------------------- handleRequest

  datatype SearchUser = SearchUser(id: Value, username: string, fullName: Option<string>, email: Option<string>)

  /** The reply to `send-friend-request`: `SUCCESS` with the new friendship's id, another status, or a thrown error. */
  datatype SendReply = SendOk(friendshipId: Value) | SendRejected(message: Option<string>) | SendThrew

  const TempIdPrefix := "temp-"
  const SendFailed := "Failed to send friend request"
  /** `tempRequest` is declared inside the `try` block, so the `catch` block's queued updater cannot see it. */
  const TempRequestUnbound := "ReferenceError: tempRequest is not defined"

  function TempId(now: nat): Value {
    Str(TempIdPrefix + NatToString(now))
  }

  /** The optimistic entry for a request sent at time `now`. */
  function TempEntry(friend: SearchUser, now: nat): Entry {
    Entry(TempId(now), Undefined, friend.fullName, None, friend.email, Undefined, Undefined, true)
  }

  /** Every entry holding the temporary id becomes the temporary entry under the real id. */
  function Confirm(temp: Entry, realId: Value): Entry -> Entry {
    (e: Entry) => if e.friendshipId == temp.friendshipId then temp.(friendshipId := realId, isPending := false) else e
  }

  /**
   * `handleRequest`: the username is remembered as requested and an optimistic
   * entry is appended before the server answers.  On success with a truthy id
   * the entry takes the real id; on another status it is filtered out again;
   * when anything throws, the `catch` block queues an update that names the
   * out-of-scope `tempRequest`; applying it while rendering raises the
   * `ReferenceError`, and the error boundary replaces the page, which the
   * `Err` result stands for.
   */
  function HandleRequest(p: Page, token: Option<string>, friend: SearchUser, username: string,
                         now: nat, reply: SendReply): (r: Result<Page>)
    ensures !TruthyText(token) ==> r == Ok(p.(error := Some(NoToken)))
    ensures TruthyText(token) && reply.SendThrew? ==> r == Err(TempRequestUnbound)
    ensures TruthyText(token) && !reply.SendThrew? ==>
              && r.Ok?
              && r.value.requestedUsers == p.requestedUsers + [username]
              && r.value.(sent := p.sent, requestedUsers := p.requestedUsers, error := p.error) == p
    ensures TruthyText(token) && reply.SendRejected? ==>
              && r.value.error == Some(TextOr(reply.message, SendFailed))
              && forall x :: x in r.value.sent <==> x in p.sent && x.friendshipId != TempId(now)
    ensures TruthyText(token) && reply.SendOk? ==>
              && r.value.error == p.error
              && |r.value.sent| == |p.sent| + 1
              && r.value.sent[|p.sent|] ==
                   if Truthy(reply.friendshipId)
                   then TempEntry(friend, now).(friendshipId := reply.friendshipId, isPending := false)
                   else TempEntry(friend, now)
  {
    if !TruthyText(token) then Ok(p.(error := Some(NoToken)))
    else
      var temp := TempEntry(friend, now);
      var p1 := p.(requestedUsers := p.requestedUsers + [username], sent := p.sent + [temp]);
      match reply
      case SendOk(id) =>
        Ok(if Truthy(id) then p1.(sent := Seqs.Map(p1.sent, Confirm(temp, id))) else p1)
      case SendRejected(m) =>
        Ok(p1.(sent := Seqs.Filter(p1.sent, NotId(temp.friendshipId)), error := Some(TextOr(m, SendFailed))))
      case SendThrew =>
        Err(TempRequestUnbound)
  }

  /** No entry of the list holds the temporary id of a request sent at `now`. */
  predicate FreshTempId(sent: seq<Entry>, now: nat) {
    forall i :: 0 <= i < |sent| ==> sent[i].friendshipId != TempId(now)
  }

  /** A rejected request leaves the sent list exactly as it was before the click. */
  lemma RejectedRestoresSent(p: Page, token: Option<string>, friend: SearchUser, username: string,
                             now: nat, message: Option<string>)
    requires TruthyText(token) && FreshTempId(p.sent, now)
    ensures HandleRequest(p, token, friend, username, now, SendRejected(message)).value.sent == p.sent
  {
    var temp := TempEntry(friend, now);
    Seqs.FilterConcat(p.sent, [temp], NotId(temp.friendshipId));
    Seqs.FilterKeepsAll(p.sent, NotId(temp.friendshipId));
  }

  /** A confirmed request changes only the optimistic entry, in place at the end. */
  lemma ConfirmedReplacesInPlace(p: Page, token: Option<string>, friend: SearchUser, username: string,
                                 now: nat, id: Value)
    requires TruthyText(token) && FreshTempId(p.sent, now) && Truthy(id)
    ensures HandleRequest(p, token, friend, username, now, SendOk(id)).value.sent
            == p.sent + [TempEntry(friend, now).(friendshipId := id, isPending := false)]
  {
  }

  // ---------------------------------------------------------------- isRequested

  /**
   * The flag on a search result: its username was requested in this session,
   * or some sent request has the same full name (`undefined === undefined`
   * included).
   */
  predicate IsRequested(u: SearchUser, p: Page) {
    u.username in p.requestedUsers || exists i :: 0 <= i < |p.sent| && p.sent[i].friendName == u.fullName
  }

  /** After a request is sent with a token, its target shows as requested whatever the server said. */
  lemma RequestedAfterSend(p: Page, token: Option<string>, u: SearchUser, now: nat, reply: SendReply)
    requires TruthyText(token) && !reply.SendThrew?
    ensures IsRequested(u, HandleRequest(p, token, u, u.username, now, reply).value)
  {
    assert u.username in HandleRequest(p, token, u, u.username, now, reply).value.requestedUsers;
  }

  // ---------------------------------------------------------------- accept, decline, remove, cancel

  const AcceptFailed := "Failed to accept friend request"
  const DeclineFailed := "Failed to decline friend request"
  const RemoveFailed := "Failed to remove friend"
  const RemoveBlockFailed := "Failed to remove and block friend"
  const RemoveError := "Error removing friend"
  const RemoveBlockError := "Error removing and blocking friend"
  const CancelFailed := "Failed to cancel friend request"
  const CancelError := "Error canceling friend request"

  /**
   * `handleAcceptRequest`: on success the friend is appended to the friends
   * and every request with its friendship id leaves the requests; a thrown
   * error is only logged.
   */
  function Accept(p: Page, token: Option<string>, friend: Entry, reply: Reply): (r: Page)
    ensures !TruthyText(token) ==> r == p.(error := Some(NoToken))
    ensures TruthyText(token) && reply.Success? ==>
              && r.friends == p.friends + [friend]
              && (forall x :: x in r.requests <==> x in p.requests && x.friendshipId != friend.friendshipId)
              && r.(friends := p.friends, requests := p.requests) == p
    ensures TruthyText(token) && reply.Failure? ==> r == p.(error := Some(TextOr(reply.message, AcceptFailed)))
    ensures TruthyText(token) && reply.Threw? ==> r == p
  {
    if !TruthyText(token) then p.(error := Some(NoToken))
    else match reply
      case Success =>
        p.(friends := p.friends + [friend], requests := Seqs.Filter(p.requests, NotId(friend.friendshipId)))
      case Failure(m) => p.(error := Some(TextOr(m, AcceptFailed)))
      case Threw => p
  }

  /**
   * Accepting keeps the order of the remaining requests: over a concatenation
   * the result is the two parts' results joined, and a single request stays
   * exactly when its friendship id differs from the accepted one.
   */
  lemma AcceptKeepsRequestOrder(p: Page, token: Option<string>, friend: Entry, a: seq<Entry>, b: seq<Entry>, x: Entry)
    requires TruthyText(token)
    ensures Accept(p.(requests := a + b), token, friend, Success).requests
            == Accept(p.(requests := a), token, friend, Success).requests
               + Accept(p.(requests := b), token, friend, Success).requests
    ensures Accept(p.(requests := [x]), token, friend, Success).requests
            == if x.friendshipId != friend.friendshipId then [x] else []
  {
    Seqs.FilterConcat(a, b, NotId(friend.friendshipId));
    Seqs.FilterOne(x, NotId(friend.friendshipId));
  }

  /**
   * Accepting the request at position `i`, whose friendship id no other entry
   * of either list shares, moves it: the request leaves its place in the
   * requests, the others keep their order, and it becomes the last friend.
   */
  lemma AcceptMovesRequest(p: Page, token: Option<string>, i: int)
    requires TruthyText(token)
    requires 0 <= i < |p.requests|
    requires forall j :: 0 <= j < |p.requests| && j != i ==> p.requests[j].friendshipId != p.requests[i].friendshipId
    ensures var r := Accept(p, token, p.requests[i], Success);
            && r.requests == p.requests[..i] + p.requests[i + 1..]
            && r.friends == p.friends + [p.requests[i]]
            && multiset(r.friends + r.requests) == multiset(p.friends + p.requests)
  {
    var x := p.requests[i];
    DeclineRemovesOne(p, token, x, i);
    assert Accept(p, token, x, Success).requests == Decline(p, token, x, Success).requests;
    MoveKeepsMultiset(p.friends, p.requests, i);
  }

  lemma MoveKeepsMultiset(fs: seq<Entry>, rs: seq<Entry>, i: int)
    requires 0 <= i < |rs|
    ensures multiset((fs + [rs[i]]) + (rs[..i] + rs[i + 1..])) == multiset(fs + rs)
  {
    assert rs == rs[..i] + [rs[i]] + rs[i + 1..];
  }

  /** `handleDeclineRequest`: on success only the requests with that friendship id go. */
  function Decline(p: Page, token: Option<string>, friend: Entry, reply: Reply): (r: Page)
    ensures !TruthyText(token) ==> r == p.(error := Some(NoToken))
    ensures TruthyText(token) && reply.Success? ==>
              && (forall x :: x in r.requests <==> x in p.requests && x.friendshipId != friend.friendshipId)
              && r.(requests := p.requests) == p
    ensures TruthyText(token) && reply.Failure? ==> r == p.(error := Some(TextOr(reply.message, DeclineFailed)))
    ensures TruthyText(token) && reply.Threw? ==> r == p
  {
    if !TruthyText(token) then p.(error := Some(NoToken))
    else match reply
      case Success => p.(requests := Seqs.Filter(p.requests, NotId(friend.friendshipId)))
      case Failure(m) => p.(error := Some(TextOr(m, DeclineFailed)))
      case Threw => p
  }

  /** Declining a request whose id no other request shares removes exactly that one, keeping the order. */
  lemma DeclineRemovesOne(p: Page, token: Option<string>, friend: Entry, i: int)
    requires TruthyText(token)
    requires 0 <= i < |p.requests| && p.requests[i].friendshipId == friend.friendshipId
    requires forall j :: 0 <= j < |p.requests| && j != i ==> p.requests[j].friendshipId != friend.friendshipId
    ensures Decline(p, token, friend, Success).requests == p.requests[..i] + p.requests[i + 1..]
  {
    var keep := NotId(friend.friendshipId);
    assert p.requests == p.requests[..i] + ([p.requests[i]] + p.requests[i + 1..]);
    Seqs.FilterConcat(p.requests[..i], [p.requests[i]] + p.requests[i + 1..], keep);
    Seqs.FilterConcat([p.requests[i]], p.requests[i + 1..], keep);
    Seqs.FilterKeepsAll(p.requests[..i], keep);
    Seqs.FilterKeepsAll(p.requests[i + 1..], keep);
  }

  /** Keeps the friends whose `friend_id` differs from `id`. */
  function NotFriend(id: Value): Entry -> bool {
    (e: Entry) => e.friendId != id
  }

  /**
   * `handleRemoveFriend` (`block` false) and `handleRemoveAndBlockFriend`
   * (`block` true): on success every friend with the removed `friend_id`
   * goes and the dialog closes.
   */
  function Remove(p: Page, token: Option<string>, target: Option<Entry>, block: bool, reply: Reply): (r: Page)
    ensures target.None? ==> r == p
    ensures target.Some? && !TruthyText(token) ==> r == p.(error := Some(NoToken))
    ensures target.Some? && TruthyText(token) && reply.Success? ==>
              && (forall x :: x in r.friends <==> x in p.friends && x.friendId != target.value.friendId)
              && !r.showRemoveModal
              && r.(friends := p.friends, showRemoveModal := p.showRemoveModal) == p
    ensures target.Some? && TruthyText(token) && reply.Failure? ==>
              r == p.(error := Some(TextOr(reply.message, if block then RemoveBlockFailed else RemoveFailed)))
    ensures target.Some? && TruthyText(token) && reply.Threw? ==>
              r == p.(error := Some(if block then RemoveBlockError else RemoveError))
  {
    if target.None? then p
    else if !TruthyText(token) then p.(error := Some(NoToken))
    else match reply
      case Success =>
        p.(friends := Seqs.Filter(p.friends, NotFriend(target.value.friendId)), showRemoveModal := false)
      case Failure(m) => p.(error := Some(TextOr(m, if block then RemoveBlockFailed else RemoveFailed)))
      case Threw => p.(error := Some(if block then RemoveBlockError else RemoveError))
  }

  /**
   * Removing keeps the order of the remaining friends: over a concatenation
   * the result is the two parts' results joined, and a single friend stays
   * exactly when its `friend_id` differs from the target's.
   */
  lemma RemoveKeepsFriendOrder(p: Page, token: Option<string>, target: Entry, block: bool,
                               a: seq<Entry>, b: seq<Entry>, x: Entry)
    requires TruthyText(token)
    ensures Remove(p.(friends := a + b), token, Some(target), block, Success).friends
            == Remove(p.(friends := a), token, Some(target), block, Success).friends
               + Remove(p.(friends := b), token, Some(target), block, Success).friends
    ensures Remove(p.(friends := [x]), token, Some(target), block, Success).friends
            == if x.friendId != target.friendId then [x] else []
  {
    Seqs.FilterConcat(a, b, NotFriend(target.friendId));
    Seqs.FilterOne(x, NotFriend(target.friendId));
  }

  /** Removing the same friend again after a success changes nothing more. */
  lemma RemoveIdempotent(p: Page, token: Option<string>, target: Entry, block: bool)
    requires TruthyText(token)
    ensures var once := Remove(p, token, Some(target), block, Success);
            Remove(once, token, Some(target), block, Success) == once
  {
    var once := Remove(p, token, Some(target), block, Success);
    Seqs.FilterIdempotent(p.friends, NotFriend(target.friendId));
    assert once.friends == Seqs.Filter(p.friends, NotFriend(target.friendId));
  }

  predicate NotSpace(c: char) { !IsWhitespace(c) }

  /** `extractUsername`: the full name lower-cased with every whitespace character deleted. */
  function ExtractUsername(fullName: string): (r: string)
    ensures |r| <= |fullName|
    ensures forall i :: 0 <= i < |r| ==> !IsWhitespace(r[i]) && !IsUpper(r[i])
    ensures forall c :: c in r <==> c in ToLower(fullName) && !IsWhitespace(c)
  {
    Seqs.Filter(ToLower(fullName), NotSpace)
  }

  /** A derived username is its own derivation. */
  lemma ExtractUsernameIdempotent(fullName: string)
    ensures ExtractUsername(ExtractUsername(fullName)) == ExtractUsername(fullName)
  {
    var r := ExtractUsername(fullName);
    assert ToLower(r) == r;
    Seqs.FilterKeepsAll(r, NotSpace);
  }

  /**
   * The derivation works character by character: over a concatenation it
   * joins the two parts' usernames, and a single character is dropped when it
   * is whitespace and lower-cased otherwise.
   */
  lemma ExtractUsernameByParts(a: string, b: string, c: char)
    ensures ExtractUsername(a + b) == ExtractUsername(a) + ExtractUsername(b)
    ensures ExtractUsername([c]) == if IsWhitespace(c) then [] else [LowerChar(c)]
  {
    ToLowerConcat(a, b);
    Seqs.FilterConcat(ToLower(a), ToLower(b), NotSpace);
    var one := ToLower([c]);
    assert one == [LowerChar(c)];
    Seqs.FilterOne(LowerChar(c), NotSpace);
  }

  /** The username `handleCancelRequest` removes from the requested list: `''` when there is none. */
  function CancelledUsername(request: Entry): string {
    if TruthyText(request.username) then request.username.value
    else if TruthyText(request.friendName) then ExtractUsername(request.friendName.value)
    else ""
  }

  function NotName(name: string): string -> bool {
    (u: string) => u != name
  }

  /**
   * `handleCancelRequest`: on success the sent requests with that friendship
   * id go, and so does every requested username equal to the request's
   * username, or else to the name derived from its full name.
   */
  function Cancel(p: Page, token: Option<string>, request: Entry, reply: Reply): (r: Page)
    ensures !TruthyText(token) ==> r == p.(error := Some(NoToken))
    ensures TruthyText(token) && reply.Success? ==>
              && (forall x :: x in r.sent <==> x in p.sent && x.friendshipId != request.friendshipId)
              && (CancelledUsername(request) == "" ==> r.requestedUsers == p.requestedUsers)
              && (forall u :: u in r.requestedUsers <==>
                               u in p.requestedUsers && (CancelledUsername(request) == "" || u != CancelledUsername(request)))
              && r.(sent := p.sent, requestedUsers := p.requestedUsers) == p
    ensures TruthyText(token) && reply.Failure? ==> r == p.(error := Some(TextOr(reply.message, CancelFailed)))
    ensures TruthyText(token) && reply.Threw? ==> r == p.(error := Some(CancelError))
  {
    if !TruthyText(token) then p.(error := Some(NoToken))
    else match reply
      case Success =>
        var name := CancelledUsername(request);
        p.(sent := Seqs.Filter(p.sent, NotId(request.friendshipId)),
           requestedUsers := if name != "" then Seqs.Filter(p.requestedUsers, NotName(name)) else p.requestedUsers)
      case Failure(m) => p.(error := Some(TextOr(m, CancelFailed)))
      case Threw => p.(error := Some(CancelError))
  }

  /**
   * Cancelling keeps the order of what remains: over a concatenation of sent
   * requests, or of requested usernames, the result is the two parts' results
   * joined, and a single entry stays exactly when it does not match.
   */
  lemma CancelKeepsOrder(p: Page, token: Option<string>, request: Entry,
                         a: seq<Entry>, b: seq<Entry>, x: Entry, us: seq<string>, vs: seq<string>, u: string)
    requires TruthyText(token)
    ensures Cancel(p.(sent := a + b), token, request, Success).sent
            == Cancel(p.(sent := a), token, request, Success).sent + Cancel(p.(sent := b), token, request, Success).sent
    ensures Cancel(p.(sent := [x]), token, request, Success).sent
            == if x.friendshipId != request.friendshipId then [x] else []
    ensures Cancel(p.(requestedUsers := us + vs), token, request, Success).requestedUsers
            == Cancel(p.(requestedUsers := us), token, request, Success).requestedUsers
               + Cancel(p.(requestedUsers := vs), token, request, Success).requestedUsers
    ensures Cancel(p.(requestedUsers := [u]), token, request, Success).requestedUsers
            == if CancelledUsername(request) == "" || u != CancelledUsername(request) then [u] else []
  {
    Seqs.FilterConcat(a, b, NotId(request.friendshipId));
    Seqs.FilterOne(x, NotId(request.friendshipId));
    var name := CancelledUsername(request);
    Seqs.FilterConcat(us, vs, NotName(name));
    Seqs.FilterOne(u, NotName(name));
  }

  /** Cancelling the same request again after a success changes nothing more. */
  lemma CancelIdempotent(p: Page, token: Option<string>, request: Entry)
    requires TruthyText(token)
    ensures var once := Cancel(p, token, request, Success);
            Cancel(once, token, request, Success) == once
  {
    var once := Cancel(p, token, request, Success);
    var name := CancelledUsername(request);
    Seqs.FilterIdempotent(p.sent, NotId(request.friendshipId));
    Seqs.FilterIdempotent(p.requestedUsers, NotName(name));
    assert once.sent == Seqs.Filter(p.sent, NotId(request.friendshipId));
  }
}
