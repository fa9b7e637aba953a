/**
 * The chat list of frontend/src/components/chats/ChatsContainer.jsx
 * (`formatGroupData`, `handleGroupCreate`) and the unread badge of
 * frontend/src/components/chats/ChatNotifications.js (`getTotalUnreadCount`).
 * Date formatting is a parameter.
 */
module Chats {
  import opened Js
  import Seqs

  const PlaceholderAvatar := "/placeholder.svg?height=40&width=40"
  const NoMessages := "No messages yet"

  /** A group as `get-user-groups/` returns it; `None` is a property the server left out. */
  datatype RawGroup = RawGroup(groupId: Value, groupName: Value, photoUrl: Option<string>, lastMessage: Option<string>,
                               lastMessageTime: Option<string>, unreadCount: Option<int>, membersCount: Option<int>)

  /** One row of the chat list. */
  datatype ChatItem = ChatItem(id: Value, name: Value, avatarSrc: string, lastMessage: string,
                               lastMessageTime: string, unreadCount: int, participants: int)

  /** The `groups` property of the reply: `null`, `undefined` or some other non-array, or an array. */
  datatype GroupsValue = NotAnArray | AnArray(groups: seq<RawGroup>)

  /** One group formatted; `formatTime` renders a truthy `last_message_time` as a time of day or a short date. */
  function FormatOne(g: RawGroup, formatTime: string -> string): (c: ChatItem)
    ensures c.id == g.groupId && c.name == g.groupName
    ensures c.avatarSrc == TextOr(g.photoUrl, PlaceholderAvatar)
    ensures c.lastMessage == TextOr(g.lastMessage, NoMessages)
    ensures !TruthyText(g.lastMessageTime) ==> c.lastMessageTime == ""
    ensures c.unreadCount == CountOrZero(g.unreadCount)
    ensures c.participants == CountOrZero(g.membersCount)
  {
    ChatItem(
      g.groupId, g.groupName,
      TextOr(g.photoUrl, PlaceholderAvatar),
      TextOr(g.lastMessage, NoMessages),
      if TruthyText(g.lastMessageTime) then formatTime(g.lastMessageTime.value) else "",
      CountOrZero(g.unreadCount),
      CountOrZero(g.membersCount))
  }

  function FormatGroup(formatTime: string -> string): RawGroup -> ChatItem {
    (g: RawGroup) => FormatOne(g, formatTime)
  }

  /**
   * `formatGroupData`: nothing for a non-array; otherwise one row per group,
   * in the same order, with the id and name copied and every missing field
   * given its default.
   */
  function FormatGroupData(groups: GroupsValue, formatTime: string -> string): (r: seq<ChatItem>)
    ensures groups.NotAnArray? ==> r == []
    ensures groups.AnArray? ==> |r| == |groups.groups|
    ensures groups.AnArray? ==> forall i :: 0 <= i < |r| ==>
              r[i] == FormatOne(groups.groups[i], formatTime)
  {
    match groups
    case NotAnArray => []
    case AnArray(gs) =>
      var r := Seqs.Map(gs, FormatGroup(formatTime));
      r
  }

  /** The fields of the `create-group` reply the new row is built from. */
  datatype NewGroup = NewGroup(groupId: Value, groupName: Value, photoUrl: Option<string>)

  /**
   * `handleGroupCreate`: the new group goes first, with no messages, no
   * unread messages and its creator as the only participant; the rows
   * already listed follow unchanged.
   */
  function GroupCreate(chats: seq<ChatItem>, g: NewGroup): (r: seq<ChatItem>)
    ensures |r| == |chats| + 1 && r[1..] == chats
    ensures r[0] == ChatItem(g.groupId, g.groupName, TextOr(g.photoUrl, PlaceholderAvatar), NoMessages, "", 0, 1)
  {
    [ChatItem(g.groupId, g.groupName, TextOr(g.photoUrl, PlaceholderAvatar), NoMessages, "", 0, 1)] + chats
  }

  // ---------------------------------------------------------------- getTotalUnreadCount

  /** The `unreadCount` property of each chat, `None` where it is missing. */
  function Counts(chats: seq<ChatItem>): (r: seq<Option<int>>)
    ensures |r| == |chats| && forall i :: 0 <= i < |chats| ==> r[i] == Some(chats[i].unreadCount)
  {
    Seqs.Map(chats, (c: ChatItem) => Some(c.unreadCount))
  }

  /** The sum of the counts, a missing count adding nothing: the reference definition. */
  function Sum(counts: seq<Option<int>>): int
    decreases |counts|
  {
    if |counts| == 0 then 0 else CountOrZero(counts[0]) + Sum(counts[1..])
  }

  /** `counts.reduce((total, chat) => total + (chat.unreadCount || 0), acc)`: a left fold. */
  function Reduce(acc: int, counts: seq<Option<int>>): int
    decreases |counts|
  {
    if |counts| == 0 then acc else Reduce(acc + CountOrZero(counts[0]), counts[1..])
  }

  lemma {:induction false} ReduceIsSum(acc: int, counts: seq<Option<int>>)
    ensures Reduce(acc, counts) == acc + Sum(counts)
    decreases |counts|
  {
    if |counts| > 0 {
      ReduceIsSum(acc + CountOrZero(counts[0]), counts[1..]);
    }
  }

  /** `getTotalUnreadCount(groupChats, directChats)`: every count of both lists added up. */
  function TotalUnread(groupCounts: seq<Option<int>>, directCounts: seq<Option<int>>): (r: int)
    ensures r == Sum(groupCounts) + Sum(directCounts)
  {
    ReduceIsSum(0, groupCounts);
    ReduceIsSum(0, directCounts);
    Reduce(0, groupCounts) + Reduce(0, directCounts)
  }

  /** Two empty lists give no unread messages. */
  lemma TotalOfNothing()
    ensures TotalUnread([], []) == 0
  {
  }

  lemma {:induction false} SumConcat(a: seq<Option<int>>, b: seq<Option<int>>)
    ensures Sum(a + b) == Sum(a) + Sum(b)
    decreases |a|
  {
    if |a| == 0 {
      assert a + b == b;
    } else {
      assert (a + b)[1..] == a[1..] + b;
      SumConcat(a[1..], b);
    }
  }

  /** The total is additive: splitting either list in two splits the total accordingly. */
  lemma TotalConcat(g1: seq<Option<int>>, g2: seq<Option<int>>, d1: seq<Option<int>>, d2: seq<Option<int>>)
    ensures TotalUnread(g1 + g2, d1 + d2) == TotalUnread(g1, d1) + TotalUnread(g2, d2)
  {
    SumConcat(g1, g2);
    SumConcat(d1, d2);
  }

  /** Rearranging a list does not change its sum. */
  lemma {:induction false} SumPermutation(a: seq<Option<int>>, b: seq<Option<int>>)
    requires multiset(a) == multiset(b)
    ensures Sum(a) == Sum(b)
    decreases |a|
  {
    if |a| == 0 {
      assert |b| == |multiset(b)| == 0;
    } else {
      var x := a[0];
      assert x in multiset(b);
      var j :| 0 <= j < |b| && b[j] == x;
      var rest := b[..j] + b[j + 1..];
      assert b == b[..j] + [x] + b[j + 1..];
      SumConcat(b[..j] + [x], b[j + 1..]);
      SumConcat(b[..j], [x]);
      SumConcat(b[..j], b[j + 1..]);
      assert Sum([x]) == CountOrZero(x);
      assert a == [x] + a[1..];
      assert multiset(b) == multiset(b[..j]) + multiset{x} + multiset(b[j + 1..]);
      assert multiset(a) == multiset{x} + multiset(a[1..]);
      assert multiset(rest) == multiset(b[..j]) + multiset(b[j + 1..]);
      assert multiset(a[1..]) == multiset(a) - multiset{x};
      assert multiset(rest) == multiset(b) - multiset{x};
      SumPermutation(a[1..], rest);
    }
  }

  /** The total does not depend on the order of either list. */
  lemma TotalPermutation(g1: seq<Option<int>>, g2: seq<Option<int>>, d1: seq<Option<int>>, d2: seq<Option<int>>)
    requires multiset(g1) == multiset(g2) && multiset(d1) == multiset(d2)
    ensures TotalUnread(g1, d1) == TotalUnread(g2, d2)
  {
    SumPermutation(g1, g2);
    SumPermutation(d1, d2);
  }

  lemma {:induction false} SumNonNegative(counts: seq<Option<int>>)
    requires forall i :: 0 <= i < |counts| && counts[i].Some? ==> counts[i].value >= 0
    ensures Sum(counts) >= 0
    decreases |counts|
  {
    if |counts| > 0 {
      SumNonNegative(counts[1..]);
    }
  }

  /** With no negative count the total is never negative. */
  lemma TotalNonNegative(groupCounts: seq<Option<int>>, directCounts: seq<Option<int>>)
    requires forall i :: 0 <= i < |groupCounts| && groupCounts[i].Some? ==> groupCounts[i].value >= 0
    requires forall i :: 0 <= i < |directCounts| && directCounts[i].Some? ==> directCounts[i].value >= 0
    ensures TotalUnread(groupCounts, directCounts) >= 0
  {
    SumNonNegative(groupCounts);
    SumNonNegative(directCounts);
  }

  /** Creating a group leaves the unread badge where it was. */
  lemma GroupCreateKeepsTotal(chats: seq<ChatItem>, g: NewGroup, directCounts: seq<Option<int>>)
    ensures TotalUnread(Counts(GroupCreate(chats, g)), directCounts) == TotalUnread(Counts(chats), directCounts)
  {
    var r := GroupCreate(chats, g);
    assert Counts(r) == [Some(0)] + Counts(chats);
    SumConcat([Some(0)], Counts(chats));
  }
}
