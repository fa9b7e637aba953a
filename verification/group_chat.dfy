/**
 * frontend/src/components/chats/GroupChatContainer.jsx: choosing users to
 * invite and sending the invitations (`InviteMembersList`), paging the
 * group's messages in, sending a message, and applying a group update.
 */
module GroupChat {
  import opened Js
  import opened Text
  import Seqs

  // ---------------------------------------------------------------- InviteMembersList

  datatype Candidate = Candidate(userId: Value, fullName: Value, username: Value, profilePhoto: Value)

  /** Keeps the users whose `user_id` differs from `id`. */
  function NotUser(id: Value): Candidate -> bool {
    (c: Candidate) => c.userId != id
  }

  predicate Selected(sel: seq<Candidate>, id: Value) {
    exists i :: 0 <= i < |sel| && sel[i].userId == id
  }

  /** No two selected users share a `user_id`. */
  predicate DistinctIds(sel: seq<Candidate>) {
    forall i, j :: 0 <= i < j < |sel| ==> sel[i].userId != sel[j].userId
  }

  /**
   * `addUser`: a user not yet selected is appended to the selection and
   * removed from the search results; selecting someone twice changes nothing.
   */
  function AddUser(sel: seq<Candidate>, results: seq<Candidate>, user: Candidate): (r: (seq<Candidate>, seq<Candidate>))
    ensures Selected(sel, user.userId) ==> r == (sel, results)
    ensures !Selected(sel, user.userId) ==>
              && r.0 == sel + [user]
              && r.1 == RemoveUser(results, user.userId)
    ensures DistinctIds(sel) ==> DistinctIds(r.0)
  {
    if Selected(sel, user.userId) then (sel, results)
    else (sel + [user], Seqs.Filter(results, NotUser(user.userId)))
  }

  /** `removeUser`: every selected user with that id goes, the others keep their order. */
  function RemoveUser(sel: seq<Candidate>, id: Value): (r: seq<Candidate>)
    ensures forall c :: c in r <==> c in sel && c.userId != id
    ensures !Selected(r, id)
  {
    var r := Seqs.Filter(sel, NotUser(id));
    assert forall i :: 0 <= i < |r| ==> r[i] in r;
    r
  }

  /**
   * Removing keeps the order of the rest: over a concatenation the result is
   * the two parts' results joined, and a single user stays exactly when its
   * id differs.
   */
  lemma RemoveUserByParts(a: seq<Candidate>, b: seq<Candidate>, id: Value, c: Candidate)
    ensures RemoveUser(a + b, id) == RemoveUser(a, id) + RemoveUser(b, id)
    ensures RemoveUser([c], id) == if c.userId != id then [c] else []
  {
    Seqs.FilterConcat(a, b, NotUser(id));
    Seqs.FilterOne(c, NotUser(id));
  }

  /** Removing a user just added restores the selection. */
  lemma RemoveUndoesAdd(sel: seq<Candidate>, results: seq<Candidate>, user: Candidate)
    requires !Selected(sel, user.userId)
    ensures RemoveUser(AddUser(sel, results, user).0, user.userId) == sel
  {
    Seqs.FilterConcat(sel, [user], NotUser(user.userId));
    Seqs.FilterKeepsAll(sel, NotUser(user.userId));
  }

  /** The reply to one `group-invite/` request. */
  datatype InviteReply = InviteOk(inviteId: Value) | InviteRefused | InviteThrew

  datatype Invited = Invited(inviteId: Value, userId: Value, fullName: Value, profilePhoto: Value, username: Value)

  datatype InviteForm = InviteForm(
    selected: seq<Candidate>, query: string, results: seq<Candidate>, error: Option<string>)

  const InviteFailed := "Failed to invite users. Please try again."
  const InviteError := "An error occurred while inviting users"

  /** The invitation record kept for a user the server accepted. */
  function InvitedOf(c: Candidate, inviteId: Value): Invited {
    Invited(inviteId, c.userId, c.fullName, c.profilePhoto, c.username)
  }

  /** The users of `sel` whose invitation succeeded, in selection order. */
  function Accepted(sel: seq<Candidate>, replyTo: Value -> InviteReply): (r: seq<Invited>)
    ensures |r| <= |sel|
    decreases |sel|
  {
    if |sel| == 0 then []
    else
      var last := sel[|sel| - 1];
      Accepted(sel[..|sel| - 1], replyTo)
        + match replyTo(last.userId) case InviteOk(id) => [InvitedOf(last, id)] case _ => []
  }

  predicate AnyThrows(sel: seq<Candidate>, replyTo: Value -> InviteReply) {
    exists i :: 0 <= i < |sel| && replyTo(sel[i].userId).InviteThrew?
  }

  /**
   * `inviteUsers`: one request per selected user, in order, `replyTo` giving
   * the server's answer for each.  With at least one success the form is
   * cleared and the successful invitations are handed to `onInviteSuccess`
   * (the second result); with none the selection stays and an error is shown.
   * A thrown error abandons the loop.
   */
  method InviteUsers(form: InviteForm, replyTo: Value -> InviteReply)
    returns (r: InviteForm, handed: Option<seq<Invited>>)
    ensures |form.selected| == 0 ==> r == form && handed.None?
    ensures |form.selected| > 0 && AnyThrows(form.selected, replyTo) ==>
              r == form.(error := Some(InviteError)) && handed.None?
    ensures |form.selected| > 0 && !AnyThrows(form.selected, replyTo) ==>
              var ok := Accepted(form.selected, replyTo);
              && (|ok| > 0 ==> r == form.(selected := [], query := "", results := []) && handed == Some(ok))
              && (|ok| == 0 ==> r == form.(error := Some(InviteFailed)) && handed.None?)
  {
    if |form.selected| == 0 {
      return form, None;
    }
    var sel := form.selected;
    var successCount := 0;
    var newInvited: seq<Invited> := [];
    var i := 0;
    while i < |sel|
      invariant 0 <= i <= |sel|
      invariant !AnyThrows(sel[..i], replyTo)
      invariant newInvited == Accepted(sel[..i], replyTo)
      invariant successCount == |newInvited|
    {
      var reply := replyTo(sel[i].userId);
      assert sel[..i + 1][..i] == sel[..i];
      if reply.InviteThrew? {
        assert AnyThrows(sel, replyTo);
        return form.(error := Some(InviteError)), None;
      }
      if reply.InviteOk? {
        successCount := successCount + 1;
        newInvited := newInvited + [InvitedOf(sel[i], reply.inviteId)];
      }
      i := i + 1;
    }
    assert sel[..i] == sel;
    if successCount > 0 {
      r, handed := form.(selected := [], query := "", results := []), Some(newInvited);
    } else {
      r, handed := form.(error := Some(InviteFailed)), None;
    }
  }

  /** Every user handed to the parent was selected and got an `InviteOk` for exactly that invitation. */
  lemma {:induction false} AcceptedWereSelected(sel: seq<Candidate>, replyTo: Value -> InviteReply, k: int)
    requires 0 <= k < |Accepted(sel, replyTo)|
    ensures exists i :: 0 <= i < |sel| && replyTo(sel[i].userId) == InviteOk(Accepted(sel, replyTo)[k].inviteId)
              && sel[i].userId == Accepted(sel, replyTo)[k].userId
    decreases |sel|
  {
    var n := |sel| - 1;
    var init := Accepted(sel[..n], replyTo);
    if k < |init| {
      AcceptedWereSelected(sel[..n], replyTo, k);
      var i :| 0 <= i < n && replyTo(sel[..n][i].userId) == InviteOk(init[k].inviteId) && sel[..n][i].userId == init[k].userId;
      assert sel[i] == sel[..n][i];
    } else {
      assert replyTo(sel[n].userId).InviteOk?;
    }
  }

  // ---------------------------------------------------------------- messages

  datatype Message = Message(messageId: Value, content: string, senderId: Value, senderName: string, isRead: bool)

  datatype Pagination = Pagination(currentPage: int, totalPages: int, hasMore: bool)

  const PageSize := 50

  /**
   * The messages after page `page` arrives.  The server sends each page
   * newest first; the page is reversed, and a later page (older messages)
   * goes in front of what is shown.
   */
  function MergePage(prev: seq<Message>, page: int, server: seq<Message>): (r: seq<Message>)
    ensures page > 1 ==> |r| == |prev| + |server| && r[|server|..] == prev
    ensures page <= 1 ==> |r| == |server|
    ensures forall i :: 0 <= i < |server| ==> r[i] == server[|server| - 1 - i]
  {
    if page > 1 then Seqs.Reverse(server) + prev else Seqs.Reverse(server)
  }

  /**
   * Loading the first page and then the second shows both in chronological
   * order: exactly the reverse of the server's newest-first listing.
   */
  lemma TwoPagesChronological(prev: seq<Message>, p1: seq<Message>, p2: seq<Message>)
    ensures MergePage(MergePage(prev, 1, p1), 2, p2) == Seqs.Reverse(p1 + p2)
  {
    Seqs.ReverseConcat(p1, p2);
  }

  /**
   * The chat as the component holds it; `me` is the `userId` ref, the id the
   * user's own messages are sent under.
   */
  datatype Chat = Chat(messages: seq<Message>, pagination: Pagination, error: Option<string>, draft: string, me: Value)

  /** The reply to the `user-profile/` request that follows a non-empty page. */
  datatype ProfileReply = ProfileOk(userId: Value) | ProfileRefused | ProfileThrew

  /** The reply to `get-group-messages/`, with the profile read that follows a successful one. */
  datatype PageReply =
    | PageOk(messages: seq<Message>, pagination: Pagination, profile: ProfileReply)
    | PageFailed(message: Option<string>)
    | PageThrew

  const AuthRequired := "Authentication required"
  const LoadFailed := "Failed to load messages"
  const LoadError := "An error occurred while loading messages"

  /**
   * `fetchMessages(page)`: the merged messages and the server's pagination,
   * or an error.  After a non-empty page the user's profile is read: a
   * successful read sets `me`, and a throw there is caught by the same
   * handler, which sets the load error over the page already merged.
   */
  function FetchMessages(c: Chat, token: Option<string>, page: int, reply: PageReply): (r: Chat)
    ensures !TruthyText(token) ==> r == c.(error := Some(AuthRequired))
    ensures TruthyText(token) && reply.PageOk? ==>
              && r.messages == MergePage(c.messages, page, reply.messages)
              && r.pagination == reply.pagination
              && r.draft == c.draft
    ensures TruthyText(token) && reply.PageOk? && (|reply.messages| == 0 || reply.profile.ProfileRefused?) ==>
              r.error == c.error && r.me == c.me
    ensures TruthyText(token) && reply.PageOk? && |reply.messages| > 0 && reply.profile.ProfileOk? ==>
              r.error == c.error && r.me == reply.profile.userId
    ensures TruthyText(token) && reply.PageOk? && |reply.messages| > 0 && reply.profile.ProfileThrew? ==>
              r.error == Some(LoadError) && r.me == c.me
    ensures TruthyText(token) && reply.PageFailed? ==> r == c.(error := Some(TextOr(reply.message, LoadFailed)))
    ensures TruthyText(token) && reply.PageThrew? ==> r == c.(error := Some(LoadError))
  {
    if !TruthyText(token) then c.(error := Some(AuthRequired))
    else match reply
      case PageOk(ms, pg, profile) =>
        var merged := c.(messages := MergePage(c.messages, page, ms), pagination := pg);
        if |ms| == 0 then merged
        else (match profile
          case ProfileOk(id) => merged.(me := id)
          case ProfileRefused => merged
          case ProfileThrew => merged.(error := Some(LoadError)))
      case PageFailed(m) => c.(error := Some(TextOr(m, LoadFailed)))
      case PageThrew => c.(error := Some(LoadError))
  }

  /** `handleLoadMore`: the page to fetch next, only while the server says there is more. */
  function LoadMore(p: Pagination): (r: Option<int>)
    ensures r.Some? <==> p.hasMore
    ensures r.Some? ==> r.value == p.currentPage + 1
  {
    if p.hasMore then Some(p.currentPage + 1) else None
  }

  /**
   * Loading more past a page of at least 1 puts the older page, oldest first,
   * in front of every message already shown; from a page below 1 the next
   * page is the first, which replaces them.
   */
  lemma LoadMoreThenFetch(c: Chat, token: Option<string>, ms: seq<Message>, pg: Pagination, profile: ProfileReply)
    requires TruthyText(token) && c.pagination.hasMore
    ensures var next := LoadMore(c.pagination).value;
            var r := FetchMessages(c, token, next, PageOk(ms, pg, profile));
            && (c.pagination.currentPage >= 1 ==> r.messages == Seqs.Reverse(ms) + c.messages)
            && (c.pagination.currentPage < 1 ==> r.messages == Seqs.Reverse(ms))
  {
  }

  /** The reply to `send-group-message/`. */
  datatype SendReply = SendOk(messageId: Value) | SendFailed(message: Option<string>) | SendThrew

  const SendFailedText := "Failed to send message"
  const SendError := "Failed to send message. Please try again."

  /**
   * `handleSendMessage`: a blank draft sends nothing.  On success the draft,
   * untrimmed, is appended as a message from `me` (under the server's id, or
   * a temporary one) and the draft is cleared; nothing else changes.
   */
  function SendMessage(c: Chat, token: Option<string>, now: nat, reply: SendReply): (r: Chat)
    ensures Trim(c.draft) == "" ==> r == c
    ensures Trim(c.draft) != "" && !TruthyText(token) ==> r == c.(error := Some(AuthRequired))
    ensures Trim(c.draft) != "" && TruthyText(token) && reply.SendOk? ==>
              && |r.messages| == |c.messages| + 1
              && r.messages[..|c.messages|] == c.messages
              && r.messages[|c.messages|].content == c.draft
              && r.messages[|c.messages|].senderId == c.me
              && (Truthy(reply.messageId) ==> r.messages[|c.messages|].messageId == reply.messageId)
              && r.draft == ""
              && r.(messages := c.messages, draft := c.draft) == c
    ensures Trim(c.draft) != "" && TruthyText(token) && reply.SendFailed? ==>
              r == c.(error := Some(TextOr(reply.message, SendFailedText)))
    ensures Trim(c.draft) != "" && TruthyText(token) && reply.SendThrew? ==> r == c.(error := Some(SendError))
  {
    if Trim(c.draft) == "" then c
    else if !TruthyText(token) then c.(error := Some(AuthRequired))
    else match reply
      case SendOk(id) =>
        var mid := if Truthy(id) then id else Str("temp-" + NatToString(now));
        c.(messages := c.messages + [Message(mid, c.draft, c.me, "You", false)], draft := "")
      case SendFailed(m) => c.(error := Some(TextOr(m, SendFailedText)))
      case SendThrew => c.(error := Some(SendError))
  }

  /**
   * A message sent after a page whose profile read succeeded carries the
   * profile's id as its sender, whatever the chat held before.
   */
  lemma SentAfterProfileIsMine(c: Chat, token: Option<string>, page: int, ms: seq<Message>, pg: Pagination,
                               id: Value, now: nat, sent: Value)
    requires TruthyText(token) && |ms| > 0 && Trim(c.draft) != ""
    ensures var loaded := FetchMessages(c, token, page, PageOk(ms, pg, ProfileOk(id)));
            var r := SendMessage(loaded, token, now, SendOk(sent));
            r.messages[|r.messages| - 1].senderId == id
  {
  }

  /**
   * The refresh of page 1 that follows a send replaces the optimistic entry:
   * afterwards the messages are exactly the server's first page, oldest first.
   */
  lemma RefreshReplacesSent(c: Chat, token: Option<string>, now: nat, sent: SendReply,
                            ms: seq<Message>, pg: Pagination, profile: ProfileReply)
    requires TruthyText(token)
    ensures var r := FetchMessages(SendMessage(c, token, now, sent), token, 1, PageOk(ms, pg, profile));
            r.messages == Seqs.Reverse(ms)
  {
  }

  // ---------------------------------------------------------------- handleUpdateGroup

  datatype Invite = Invite(inviteId: Value, userId: Value)

  /**
   * The argument of `handleUpdateGroup`: its plain properties (group name,
   * description, photo url, `canceledInviteId`, ...) and its `newInvites` array.
   */
  datatype GroupUpdate = GroupUpdate(props: map<string, Value>, newInvites: Option<seq<Invite>>)

  datatype GroupView = GroupView(info: map<string, Value>, invited: seq<Invite>, refreshRequested: bool)

  function Prop(m: map<string, Value>, k: string): Value {
    if k in m then m[k] else Undefined
  }

  function NotInvite(id: Value): Invite -> bool {
    (v: Invite) => v.inviteId != id
  }

  /**
   * `handleUpdateGroup`: the properties are merged into the group info only
   * when a name, description or photo url is truthy; new invites are
   * appended and then a cancelled invite id filters out every matching
   * invite, new ones included; an empty update asks for a refresh.
   */
  function UpdateGroup(g: GroupView, u: GroupUpdate): (r: GroupView)
    ensures (Truthy(Prop(u.props, "group_name")) || Truthy(Prop(u.props, "description"))
             || Truthy(Prop(u.props, "photo_url"))) ==> r.info == g.info + u.props
    ensures !(Truthy(Prop(u.props, "group_name")) || Truthy(Prop(u.props, "description"))
              || Truthy(Prop(u.props, "photo_url")))
            ==> r.info == g.info
    ensures var added := if u.newInvites.Some? then g.invited + u.newInvites.value else g.invited;
            var cancel := Prop(u.props, "canceledInviteId");
            && (!Truthy(cancel) ==> r.invited == added)
            && (Truthy(cancel) ==> forall v :: v in r.invited <==> v in added && v.inviteId != cancel)
    ensures r.refreshRequested <==> |u.props| == 0 && u.newInvites.None?
  {
    var info := if Truthy(Prop(u.props, "group_name")) || Truthy(Prop(u.props, "description"))
                   || Truthy(Prop(u.props, "photo_url")) then g.info + u.props else g.info;
    var added := if u.newInvites.Some? && |u.newInvites.value| > 0 then g.invited + u.newInvites.value else g.invited;
    var cancel := Prop(u.props, "canceledInviteId");
    var invited := if Truthy(cancel) then Seqs.Filter(added, NotInvite(cancel)) else added;
    GroupView(info, invited, |u.props| == 0 && u.newInvites.None?)
  }

  /** An update that only cancels the invite `id`. */
  function CancelOnly(id: Value): GroupUpdate {
    GroupUpdate(map["canceledInviteId" := id], None)
  }

  /**
   * Cancelling keeps the order of the other invites: over a concatenation the
   * result is the two parts' results joined, and a single invite stays
   * exactly when its id differs from a truthy cancelled id.
   */
  lemma CancelKeepsInviteOrder(g: GroupView, id: Value, a: seq<Invite>, b: seq<Invite>, v: Invite)
    requires Truthy(id)
    ensures UpdateGroup(g.(invited := a + b), CancelOnly(id)).invited
            == UpdateGroup(g.(invited := a), CancelOnly(id)).invited
               + UpdateGroup(g.(invited := b), CancelOnly(id)).invited
    ensures UpdateGroup(g.(invited := [v]), CancelOnly(id)).invited == if v.inviteId != id then [v] else []
  {
    assert Prop(CancelOnly(id).props, "canceledInviteId") == id;
    Seqs.FilterConcat(a, b, NotInvite(id));
    Seqs.FilterOne(v, NotInvite(id));
  }

  /**
   * Cancelling an invite just added, whose id is truthy and new to the list,
   * gives back exactly the invites there were before.
   */
  lemma CancelUndoesInvite(g: GroupView, v: Invite)
    requires Truthy(v.inviteId)
    requires forall i :: 0 <= i < |g.invited| ==> g.invited[i].inviteId != v.inviteId
    ensures UpdateGroup(UpdateGroup(g, GroupUpdate(map[], Some([v]))), CancelOnly(v.inviteId)).invited == g.invited
  {
    var added := UpdateGroup(g, GroupUpdate(map[], Some([v])));
    assert Prop(map[], "canceledInviteId") == Undefined;
    assert added.invited == g.invited + [v];
    assert Prop(CancelOnly(v.inviteId).props, "canceledInviteId") == v.inviteId;
    Seqs.FilterConcat(g.invited, [v], NotInvite(v.inviteId));
    Seqs.FilterKeepsAll(g.invited, NotInvite(v.inviteId));
    Seqs.FilterOne(v, NotInvite(v.inviteId));
  }
}
