# CliquePay core, modelled in Dafny

CliquePay is a bill-splitting web application: a React front end talks to a
Django back end that stores users, friendships, groups and expenses and
delegates sign-in to AWS Cognito.  This project models the sequential logic of
that application that decides what is accepted, what is sent and what is
shown, as pure functions over immutable data, and proves what each of them
promises.

- **Validators.**  The password, username and phone rules, the rate-limit
  check, the cookie and CSRF checks and the hex token encoding of
  `frontend/src/utils/security.js` (module `Security`); the ordered
  validation chains of the sign-up pages (`Signup`, `SignupBasic`), the login
  page (`Login`), the password-reset page (`Forgot`), the new-payment modal
  (`NewPayment`) and the profile-photo picker (`ProfilePhoto`); and the
  request serializers of `backend/api/serializers.py` (`Serializers`).
- **The friendship graph.**  The canonical-pair and uniqueness constraints of
  `backend/cliquepay/models.py` (`Models`), the "other party plus initiator
  flag" projection and the user look-ups of `backend/cliquepay/db_service.py`
  over an abstract store (`DbService`), and the friends page's partition into
  friends, incoming, sent and blocked requests with its optimistic list
  updates (`Friends`).
- **List reducers.**  The notification queue (`Notifications`), the group
  chat's invite selection, message pages and group updates (`GroupChat`), the
  chat list and its unread badge (`Chats`).
- **Small decisions and state machines.**  The token-renewal decision
  (`RenewTokens`), the settle-up partition, dispatch and aggregation
  (`SettleUp`), the `Switch` toggle (`Switch`) and the loading dots
  (`Loading`).

Shared modules: `Js` (JavaScript values, truthiness, `a || fallback`),
`Seqs` (filter, map and reverse with their algebra), `Text` (whitespace,
`trim`, ASCII lower-casing, digits) and `Validation` (the first failing check
of an ordered chain).

Everything the code leaves to a library, the browser or the network is a
parameter of the function that uses it: the zod e-mail schema, DOMPurify's
`sanitizeInput`, `jwtDecode`, `parseFloat`, `encodeURIComponent`,
`URL.createObjectURL`, date formatting, the current time, the cookies that
were read, and the server's reply (for a loop of requests, a function from
the request's index to its reply).

### Where the code and its description differ

The model follows the code in each case.

- `Expense` declares both `group_id` and `friend_id` as required foreign keys
  (backend/cliquepay/models.py:112-122), so a row always names both, not
  exactly one of them.
- The client phone rule accepts `+1` followed by fifteen digits, 17
  characters, while the `User.phone_number` column allows at most 16
  (`Models.ClientAcceptsTooLongPhone`); the server does not check the number
  it stores (`DbService.CreateStoresUnvalidatedPhone`).  The field's own
  pattern, run by Python, is looser than the form's (see Findings).
- The group-update handler merges the new group information when its
  `group_name`, `description` or `photo_url` is truthy; the key it tests is
  `group_name`, not `name`.
- Settle-up treats the status `'SUCCESS'` as success when loading and
  `'success'` when paying.
- After a successful sign-up the page reads the stored username back through
  a function that returns a promise, which is always truthy, so its
  storage-error branch cannot be taken.

### Behaviour modelled as written

- `Friends.HandleRequest`: when sending a request throws, the catch block
  queues an updater that refers to `tempRequest`, which is not in scope
  there (frontend/src/pages/friends.jsx:318).  The handler itself sets its
  error and returns; the `ReferenceError` is raised when React applies the
  queued updater while rendering, and the error boundary around the router
  (frontend/src/App.jsx:15-17) then replaces the page.  The model's `Err`
  stands for that lost page.
- `Friends.BooleanInitiatorNeverSent`: the server sends `initiator` as a
  boolean (backend/cliquepay/db_service.py:96) and the page compares it with
  the user's id (frontend/src/pages/friends.jsx:202), so no server-supplied
  pending request is ever shown as sent.
- `Notifications.ShowBeyondWindowIsHidden`: the visible window keeps the
  oldest notifications, so a new one shown when the window is full is not
  displayed.
- `Models.ExpenseToString`: `Expense.__str__` reads attributes the model does
  not have and always raises.

## Model

| member | source | states |
|---|---|---|
| Security.ValidatePassword | frontend/src/utils/security.js:6-30 | no message exactly when the password has 8 or more characters and an upper-case letter, a lower-case letter, a digit and a special character; otherwise the message of the first rule broken, in the order length, upper, lower, digit, special |
| Security.ValidateUsername | frontend/src/utils/security.js:41-48 | no message exactly when the name has 3 to 20 characters, all letters, digits or `_`; otherwise always the one fixed message |
| Security.PhoneMatchesShape | frontend/src/utils/security.js:18-20 | the pattern `^\+?1?\d{9,15}$` accepts exactly an optional `+` followed by 9 to 15 digits, or by 16 digits of which the first is `1` |
| Security.ValidatePhoneNumber | frontend/src/utils/security.js:50-58 | an empty number is accepted; any other number is accepted exactly when it has the shape above |
| Security.PhoneLengthBound | frontend/src/utils/security.js:18-20 | no accepted number is longer than 17 characters |
| Security.RateLimitCheck | frontend/src/utils/security.js:146-157 | a non-number argument fails safe to "limited"; a missing delay means 3000 ms; otherwise limited exactly when fewer than `delay` ms passed since the last attempt |
| Security.RateLimitReleases | frontend/src/utils/security.js:146-157 | once an attempt is no longer limited it stays unlimited at every later time |
| Security.SetCookie | frontend/src/utils/security.js:105-121 | an empty or non-string name is rejected first, then a null or undefined value; otherwise the cookie is written with the given name and value, each attribute taken from the caller's options when given and from the defaults (365 days, `/`, `Strict`, secure on HTTPS) otherwise |
| Security.GetCsrfToken | frontend/src/utils/security.js:91-103 | the meta tag's content when it is present and non-empty, `null` otherwise |
| Security.ValidateCsrf | frontend/src/utils/security.js:161-172 | a token is accepted exactly when it is a non-empty string equal to the meta tag's content |
| Security.ByteToHex | frontend/src/utils/security.js:190 | `toString(16).padStart(2, '0')` of a byte is always its two hex digits, high then low |
| Security.EncodeHex | frontend/src/utils/security.js:190 | two lower-case hex characters per byte |
| Security.DecodeEncode | frontend/src/utils/security.js:187-191 | reading a token back two hex digits at a time recovers the bytes it was made from |
| Security.EncodeDecode | frontend/src/utils/security.js:187-191 | every string that reads back as bytes is exactly the encoding of those bytes, so the encoding is a bijection onto even-length lower-case hex |
| Security.GenerateToken | frontend/src/utils/security.js:187-191 | the token of 32 random bytes has 64 lower-case hex characters and decodes to those bytes |
| Security.CsrfAcceptsOnlyInitialisedToken | frontend/src/utils/security.js:194-214 | after the fresh token is put in the meta tag, validation accepts that token and nothing else |
| Security.CsrfCookieAlwaysSecure | frontend/src/utils/security.js:199-203 | the CSRF cookie is written secure and HTTP-only for 365 days whatever the page's protocol |
| Notifications.Show | frontend/src/components/ui/notifications.jsx:158-163 | the list grows by one at the end, the earlier entries untouched; the new entry has every given property plus `id`, which is the clock reading unless the caller passed an id; the clock reading is returned |
| Notifications.Update | frontend/src/components/ui/notifications.jsx:165-169 | same length; entries with another id unchanged in place; matching entries get the given properties over their own and keep the rest |
| Notifications.UpdateIdempotent | frontend/src/components/ui/notifications.jsx:165-169 | updating twice with the same properties equals updating once, when the properties do not rewrite `id` |
| Notifications.Hide | frontend/src/components/ui/notifications.jsx:171-173 | an entry survives exactly when its id differs; the list never grows |
| Notifications.HideIdempotent | frontend/src/components/ui/notifications.jsx:171-173 | hiding an id twice equals hiding it once |
| Notifications.HideConcat | frontend/src/components/ui/notifications.jsx:171-173 | hiding distributes over concatenation, so the survivors keep their relative order |
| Notifications.HideAfterShow | frontend/src/components/ui/notifications.jsx:158-173 | hiding the id a show returned gives back the list from before the show, when that id was new and not supplied by the caller |
| Notifications.HideAll | frontend/src/components/ui/notifications.jsx:175-177 | the list becomes empty |
| Notifications.ShowAfterHideAll | frontend/src/components/ui/notifications.jsx:127-177 | after hiding all, the next notification shown is the only one and is rendered |
| Notifications.ShowTyped | frontend/src/components/ui/notifications.jsx:186-189 | a shorthand appends one entry whose `type` is the shorthand's kind unless the caller passed a `type`, which then wins |
| Notifications.PositionClass | frontend/src/components/ui/notifications.jsx:117-129 | a known position gets its own class, any other the top-right class; the result is always one of the six classes |
| Notifications.PositionClassDistinguishes | frontend/src/components/ui/notifications.jsx:117-129 | the six known positions have six different classes, so the class tells which was asked for |
| Notifications.Visible | frontend/src/components/ui/notifications.jsx:132-134 | a list longer than the maximum is cut to its first (oldest) entries; a shorter one is shown whole |
| Notifications.ShowBeyondWindowIsHidden | frontend/src/components/ui/notifications.jsx:132-163 | once the window is full, showing another notification leaves the rendered list unchanged |
| Friends.SortFriendships | frontend/src/pages/friends.jsx:186-216 | the one-pass loop builds exactly the four lists the status and initiator select, each in the server's order |
| Friends.BucketMembership | frontend/src/pages/friends.jsx:195-211 | a friendship is among the friends iff accepted, among sent iff pending and initiated by the user, among incoming iff pending and not, among blocked iff blocked; any other status is dropped |
| Friends.RoutedStatusesAreChoices | frontend/src/pages/friends.jsx:198-210 | every status the `Friendship` model declares (backend/cliquepay/models.py:40-44) is sorted into a list, and every status that is sorted is one of them in lower or upper case |
| Friends.BucketsPartition | frontend/src/pages/friends.jsx:195-211 | the four lists and the dropped friendships together are the input as a multiset: nothing lost, nothing in two lists |
| Friends.BucketConcat | frontend/src/pages/friends.jsx:195-211 | sorting a concatenation concatenates the sorted parts, so each list keeps the input order |
| Friends.BooleanInitiatorNeverSent | frontend/src/pages/friends.jsx:201-207 | with the boolean `initiator` the server sends and a string user id, the sent list is always empty and every pending friendship shows as incoming |
| Friends.HandleRequest | frontend/src/pages/friends.jsx:268-322 | no token: only the error is set; otherwise the username is recorded and an optimistic entry appended; success with an id confirms it in place, another status filters it out and sets the message, and a thrown error loses the page to the `ReferenceError` the out-of-scope `tempRequest` raises when the queued update is applied |
| Friends.RejectedRestoresSent | frontend/src/pages/friends.jsx:311-314 | a rejected request leaves the sent list exactly as before the click |
| Friends.ConfirmedReplacesInPlace | frontend/src/pages/friends.jsx:302-310 | a confirmed request leaves the earlier sent entries alone and ends the list with the entry under its real id |
| Friends.RequestedAfterSend | frontend/src/pages/friends.jsx:694-697 | once a request went out with a token, its target shows as requested whatever the server replied |
| Friends.Accept | frontend/src/pages/friends.jsx:399-425 | on success the friend is appended to the friends and every request with its friendship id is dropped, nothing else changes; a failure sets the message; a thrown error changes nothing |
| Friends.AcceptKeepsRequestOrder | frontend/src/pages/friends.jsx:414-416 | accepting distributes over a concatenation of requests, and keeps a single request exactly when its friendship id differs, so the remaining requests keep their order |
| Friends.AcceptMovesRequest | frontend/src/pages/friends.jsx:414-416 | accepting a request whose id is unique moves it: it leaves its place in the requests, the others keep their order, it becomes the last friend, and the two lists together hold the same entries as before |
| Friends.Decline | frontend/src/pages/friends.jsx:427-450 | on success exactly the requests with that friendship id go, nothing else changes; a failure sets the message; a thrown error changes nothing |
| Friends.DeclineRemovesOne | frontend/src/pages/friends.jsx:442-443 | declining a request whose id is unique removes that one entry and keeps the others in order |
| Friends.Remove | frontend/src/pages/friends.jsx:329-397 | no target: nothing; on success every friend with that `friend_id` goes and the dialog closes; failure and thrown error set the remove or remove-and-block message |
| Friends.RemoveKeepsFriendOrder | frontend/src/pages/friends.jsx:352-388 | removing distributes over a concatenation of friends, and keeps a single friend exactly when its `friend_id` differs, so the remaining friends keep their order |
| Friends.RemoveIdempotent | frontend/src/pages/friends.jsx:352-388 | removing the same friend again after a success changes nothing |
| Friends.ExtractUsername | frontend/src/pages/friends.jsx:498-501 | the result is no longer than the name, has no whitespace and no upper-case letter, and holds exactly the non-whitespace characters of the lower-cased name |
| Friends.ExtractUsernameIdempotent | frontend/src/pages/friends.jsx:498-501 | deriving a username from a derived username changes nothing |
| Friends.ExtractUsernameByParts | frontend/src/pages/friends.jsx:498-501 | the derivation distributes over concatenation, dropping a whitespace character and lower-casing any other, so it keeps the name's characters in order |
| Friends.Cancel | frontend/src/pages/friends.jsx:456-496 | on success the sent requests with that id go, and the derived username (own username, else derived from the full name) leaves the requested list; a blank derivation leaves it alone |
| Friends.CancelKeepsOrder | frontend/src/pages/friends.jsx:473-486 | cancelling distributes over concatenations of the sent requests and of the requested usernames, and keeps a single entry exactly when it does not match, so what remains keeps its order |
| Friends.CancelIdempotent | frontend/src/pages/friends.jsx:473-486 | cancelling the same request again after a success changes nothing |
| Models.LexLessAsymmetric | backend/cliquepay/models.py:60-63 | the order `force_user_order` uses never holds both ways, so a pair has at most one canonical orientation |
| Models.LexLessTotal | backend/cliquepay/models.py:60-63 | any two distinct ids are ordered one way or the other, so every pair of distinct users can be stored |
| Models.NewUser | backend/cliquepay/models.py:4-31 | a new row keeps the given columns; a missing full name becomes `Unnamed User`, currency `USD`, the avatar the default picture; `created_at` and `updated_at` each take their own clock reading |
| Models.ServerPhoneAcceptedByClient | backend/cliquepay/models.py:14-24 | every phone number the intended field (whole-value match, ASCII digits) accepts is accepted by the sign-up form's validator |
| Models.PhoneFieldValidNarrows | backend/cliquepay/models.py:14-24 | the intended field accepts nothing the field as written (Python `re.search`, Unicode `\d`) rejects |
| Models.ServerAcceptsTrailingNewline | backend/cliquepay/models.py:14-24 | as written, the field accepts `123456789` followed by a newline, which both the intended field and the form reject |
| Models.ServerAcceptsArabicIndicDigits | backend/cliquepay/models.py:14-24 | as written, the field accepts nine Arabic-Indic digits, which both the intended field and the form reject |
| Models.NonDigitRejected | frontend/src/utils/security.js:18-20 | a value holding a character that is neither an ASCII digit nor `+` fails the form's pattern and the intended field |
| Models.ClientAcceptsTooLongPhone | backend/cliquepay/models.py:14-24 | `+1` followed by fifteen digits passes the form's validator but not the field, as written or as intended, whose 16-character limit it exceeds |
| Models.NewFriendship | backend/cliquepay/models.py:39-51 | a friendship created without a status is pending; the parties, actor and time are kept |
| Models.InsertFriendship | backend/cliquepay/models.py:39-64 | the insert succeeds exactly when the pair is in canonical order and new and `user1`, `user2` and `action_user` all name stored users; it then appends the row and keeps the table valid; an out-of-order pair is rejected by `force_user_order`, and a foreign-key rejection means some reference is unknown |
| Models.AtMostOneFriendshipPerPair | backend/cliquepay/models.py:56-63 | in a valid table any two users are joined by at most one friendship, whichever column each is in |
| Models.InsertMember | backend/cliquepay/models.py:84-105 | the insert succeeds exactly when the user is not yet in the group and both the user and the group exist; it then appends the row and keeps the table valid; otherwise it is rejected by `unique_group_membership` or, for an unknown user or group, by the foreign key |
| Models.MemberAtMostOnce | backend/cliquepay/models.py:100-105 | in a valid table a user is a member of a given group at most once |
| Models.DigitCountBound | backend/cliquepay/models.py:129-130 | a number has at most k digits exactly when it is below 10^k |
| Models.MoneyFieldBound | backend/cliquepay/models.py:129-130 | an amount fits a `DecimalField(max_digits=10, decimal_places=2)` exactly when its magnitude is below 10^10 cents |
| Models.ExpenseToString | backend/cliquepay/models.py:141-142 | `__str__` always fails, on the undeclared attribute `amount` |
| DbService.Lookup | backend/cliquepay/db_service.py:59 | a lookup finds nothing exactly when no row has the key, and otherwise a row of the table with that key |
| DbService.CreateUser | backend/cliquepay/db_service.py:20-45 | succeeds exactly when the new id, Cognito id and email are all unused and, on a database that enforces column lengths, no value exceeds its column's `max_length`; on success it appends the new row with its two clock readings and echoes the given name, full name, email and phone; on failure the store is unchanged and the message is the database error; a valid store stays valid |
| DbService.CreateStoresUnvalidatedPhone | backend/cliquepay/db_service.py:21-28 | `objects.create` skips field validators, so a phone number the field rejects, as written or as intended, is stored |
| DbService.GetUserByCognitoId | backend/cliquepay/db_service.py:58-76 | `User not found` exactly when no row has the Cognito id; otherwise the stored columns of a row that has it |
| DbService.CreateThenGet | backend/cliquepay/db_service.py:20-76 | a user just created is found by its Cognito id with the data it was created with and its two clock readings as timestamps |
| DbService.FriendshipsOf | backend/cliquepay/db_service.py:85-87 | the query selects exactly the friendships in which the user is either party |
| DbService.Project | backend/cliquepay/db_service.py:89-98 | one entry per friendship, in order: the other party's id and full name, the status verbatim, `initiator` exactly when the user made the last action, the creation time |
| DbService.GetUserFriends | backend/cliquepay/db_service.py:78-108 | `User not found` exactly when the user is unknown; otherwise one entry per friendship of the user |
| DbService.FriendEntriesDescribeFriendships | backend/cliquepay/db_service.py:85-98 | for a known user: the entries are exactly the user's friendships, each naming `user2` when the user is `user1` and `user1` otherwise, with status copied and initiator flag as above |
| DbService.FriendshipsOfValid | backend/cliquepay/db_service.py:85-87 | the friendships selected for one user still satisfy the canonical-order and uniqueness constraints |
| DbService.FriendIdsDistinct | backend/cliquepay/db_service.py:89-98 | in a valid store no friend is listed twice and the user is never listed as their own friend |
| RenewTokens.Seconds | frontend/src/utils/RenewTokens.jsx:19 | the whole number of seconds in a millisecond clock reading, rounded down |
| RenewTokens.Renew | frontend/src/utils/RenewTokens.jsx:4-53 | a missing cookie or a token that fails to decode gives false without asking the server; otherwise the server is asked exactly when either token expires within 300 seconds, and the answer is true exactly when no renewal was needed or the server replied `SUCCESS` (a thrown error gives false) |
| RenewTokens.RenewalMonotone | frontend/src/utils/RenewTokens.jsx:19-22 | tokens that need renewal at some time still need it at every later time |
| RenewTokens.FreshTokensSkipServer | frontend/src/utils/RenewTokens.jsx:28-48 | tokens valid beyond the window are accepted without a server call, whatever the server would say |
| Forgot.RequestReset | frontend/src/pages/forgot.jsx:22-49 | an `ok` reply shows the code form with no error; a failed reply or a thrown error sets the message and leaves the page where it was; submitting always ends |
| Forgot.RequestResetKeepsProgress | frontend/src/pages/forgot.jsx:22-49 | once the email is sent and the code form shown, no later request takes them back, and the outcome does not depend on the error or busy flag before it |
| Forgot.JoinSplit | frontend/src/pages/forgot.jsx:100-102 | splitting a code into characters and joining them again gives the code back |
| Forgot.AssignInside | frontend/src/pages/forgot.jsx:100-102 | assigning inside the array and joining replaces the one character at the index by the value |
| Forgot.AssignBeyond | frontend/src/pages/forgot.jsx:100-102 | assigning at or past the end leaves holes that join to nothing, so the value is appended |
| Forgot.DigitChange | frontend/src/pages/forgot.jsx:98-110 | a value other than `''` or one ASCII digit leaves the code alone; inside the code the character at the index is replaced (an empty value deletes it and shifts later digits left); at or past the end the value is appended |
| Forgot.DigitChangeKeepsCode | frontend/src/pages/forgot.jsx:228-235 | with the indices 0 to 5 of the six boxes, a code of at most six digits stays one whatever is typed |
| Forgot.DigitsInOrderFillCode | frontend/src/pages/forgot.jsx:98-110 | typing six digits into the six boxes in order yields exactly those digits |
| Forgot.ClearedBoxDisablesReset | frontend/src/pages/forgot.jsx:309 | clearing any box disables the reset button; typing the digit back into the same box re-enables it only for the last box |
| Forgot.SubmitVerification | frontend/src/pages/forgot.jsx:52-68 | a password mismatch is reported before a password shorter than 8, either stops the request, and otherwise the body carries the email, the code and the new password |
| Forgot.ConfirmOutcome | frontend/src/pages/forgot.jsx:70-95 | an `ok` reply leads to login with the fixed success message; a failed reply shows the server's message or `Invalid verification code`; a thrown error shows `Failed to verify code` |
| GroupChat.AddUser | frontend/src/components/chats/GroupChatContainer.jsx:78-85 | a user already selected changes nothing; otherwise the user is appended to the selection and the search results lose that user exactly as `removeUser` would drop it; distinct selected ids stay distinct |
| GroupChat.RemoveUser | frontend/src/components/chats/GroupChatContainer.jsx:88-90 | exactly the selected users with other ids remain, and the id is no longer selected |
| GroupChat.RemoveUserByParts | frontend/src/components/chats/GroupChatContainer.jsx:88-90 | removal distributes over a concatenation and keeps a single user exactly when its id differs, so the remaining selection keeps its order |
| GroupChat.RemoveUndoesAdd | frontend/src/components/chats/GroupChatContainer.jsx:78-90 | removing a user just added gives back the earlier selection |
| GroupChat.InviteUsers | frontend/src/components/chats/GroupChatContainer.jsx:93-146 | an empty selection does nothing; a thrown error leaves the form with the error message; otherwise one request per selected user, and with at least one success the selection, query and results are cleared and the successful invitations handed on in order, with none the selection stays and the failure message shows |
| GroupChat.AcceptedWereSelected | frontend/src/components/chats/GroupChatContainer.jsx:104-128 | every invitation handed on belongs to a selected user whose request succeeded with that invite id |
| GroupChat.MergePage | frontend/src/components/chats/GroupChatContainer.jsx:416-423 | the first page replaces the messages with the page reversed; a later page puts the reversed page in front of the messages already shown |
| GroupChat.TwoPagesChronological | frontend/src/components/chats/GroupChatContainer.jsx:416-423 | loading page 1 and then page 2 shows exactly the reverse of the server's newest-first listing of both, i.e. oldest first |
| GroupChat.FetchMessages | frontend/src/components/chats/GroupChatContainer.jsx:391-459 | without a token only the error is set; a successful reply merges the page and takes the server's pagination, and after a non-empty page the profile read sets the user's id, or, when it throws, sets the load error over the merged page; a failed reply or a thrown request sets the message and changes nothing else |
| GroupChat.LoadMore | frontend/src/components/chats/GroupChatContainer.jsx:546-550 | the next page is requested exactly when the server said there is more, and it is the current page plus one |
| GroupChat.LoadMoreThenFetch | frontend/src/components/chats/GroupChatContainer.jsx:416-423 | loading more past page 1 or later puts the older page, oldest first, in front of every message shown; below page 1 the fetched page replaces them |
| GroupChat.SendMessage | frontend/src/components/chats/GroupChatContainer.jsx:491-543 | a blank draft changes nothing; on success the untrimmed draft is appended after all earlier messages as a message from the stored user id, under the server's id when it is truthy, the draft is cleared and nothing else changes; failures only set the message |
| GroupChat.SentAfterProfileIsMine | frontend/src/components/chats/GroupChatContainer.jsx:432-446 | a message sent after a page whose profile read succeeded carries that profile's id as its sender |
| GroupChat.RefreshReplacesSent | frontend/src/components/chats/GroupChatContainer.jsx:528-535 | the page-1 refresh that follows a send leaves exactly the server's page, oldest first, so the optimistic entry does not survive it |
| GroupChat.UpdateGroup | frontend/src/components/chats/GroupChatContainer.jsx:564-589 | the info is merged only when a name, description or photo url is truthy; new invites are appended and a truthy cancelled id then removes exactly the matching invites; an empty update asks for a refresh |
| GroupChat.CancelKeepsInviteOrder | frontend/src/components/chats/GroupChatContainer.jsx:579-583 | a cancellation distributes over a concatenation of invites and keeps a single invite exactly when its id differs, so the remaining invites keep their order |
| GroupChat.CancelUndoesInvite | frontend/src/components/chats/GroupChatContainer.jsx:574-583 | cancelling an invite just added, under a truthy id new to the list, restores exactly the earlier invites |
| SettleUp.Partition | frontend/src/pages/settleup.jsx:164-174 | the loop builds the friend list and the group list as exactly the in-order selections of settlements without and with a group expense |
| SettleUp.PartitionExact | frontend/src/pages/settleup.jsx:164-174 | a settlement is in the group list iff one of its expenses has a `group_id` that is neither null nor undefined, in the friend list otherwise; the two lists together are a rearrangement of the input |
| SettleUp.Load | frontend/src/pages/settleup.jsx:137-192 | no token gives the authentication error; only the upper-case `SUCCESS` status fills the two lists, keeps all settlements and takes the total (0 when missing); another status and a thrown error give their own messages |
| SettleUp.Toggle | frontend/src/pages/settleup.jsx:304-315 | as written: another card becomes the selection with its amount; clicking the selected card clears the selection but keeps the amount, because the handler throws on the undefined `data` first |
| SettleUp.ToggleTwiceKeepsCardAmount | frontend/src/pages/settleup.jsx:352-364 | selecting and deselecting a card leaves the card's amount shown instead of the earlier total |
| SettleUp.ToggleIntended | frontend/src/pages/settleup.jsx:352-364 | as the comments describe: deselecting restores the loaded total |
| SettleUp.ToggleIntendedTwiceRestores | frontend/src/pages/settleup.jsx:352-364 | with the intended handler a second click on the same card restores the earlier selection and total |
| SettleUp.DispatchFor | frontend/src/pages/settleup.jsx:42-112 | the 'all' tab pays each settlement; the friends tab pays the selected user and the groups tab the selected group; either without a selection is an invalid choice |
| SettleUp.ConfirmEnabledIffDispatches | frontend/src/pages/settleup.jsx:408 | the confirm button is enabled exactly when nothing is in flight and the choice is not invalid |
| SettleUp.SwitchedTabReusesSelection | frontend/src/pages/settleup.jsx:78-106 | the selection survives a change of tab, so the same id is sent as `user_id` on the friends tab and as `group_id` on the groups tab |
| SettleUp.Successes | frontend/src/pages/settleup.jsx:44-69 | the count is at most the number of requests and positive exactly when some request succeeded |
| SettleUp.SettleAll | frontend/src/pages/settleup.jsx:42-76 | one request per settlement, in order, with that settlement's id, amount and name; success exactly when some request succeeded, else the k-of-n message; a thrown error stops at that request with the catch message |
| SettleUp.Confirm | frontend/src/pages/settleup.jsx:23-135 | no token or an invalid choice sends nothing and sets its message; a single payment carries the target and the shown amount and succeeds exactly when its status is lower-case `success`, otherwise the server's message, the default or the catch message |
| SettleUp.NothingToSettle | frontend/src/pages/settleup.jsx:42-76 | with no settlements the 'all' tab sends nothing and reports "0 out of 0" as an error |
| NewPayment.Cleared | frontend/src/pages/newpayment.jsx:171-181 | after a successful payment the amount, description and both selections are empty, the tab kept, the deadline reset |
| NewPayment.Submit | frontend/src/pages/newpayment.jsx:109-203 | the first failing check (amount, description, group, friend) is shown and nothing sent; no token sends nothing; otherwise the body names only the group or only the friend of the current tab, with the parsed positive amount, the description as typed and the deadline, paying with the raw token for a group and the encoded token for a friend; `SUCCESS` clears the form, other replies keep it and show a message |
| NewPayment.DisabledSubmitIsRejected | frontend/src/pages/newpayment.jsx:408 | whenever the button is disabled while idle, the checks would reject the form anyway |
| NewPayment.ClearedFormIsRejected | frontend/src/pages/newpayment.jsx:171-181 | the cleared form cannot be submitted again: its button is disabled and the amount check fails first |
| NewPayment.Render | frontend/src/pages/newpayment.jsx:228-418 | a closed modal renders nothing (the early return at line 38); an open one shows the confirmation instead of the form exactly while `success` holds; otherwise it disables the button exactly when submitting or the tab's selection is empty, and labels it "Processing..." while submitting, else by the tab |
| NewPayment.RenderAfterSubmit | frontend/src/pages/newpayment.jsx:171-191 | after a successful payment the modal shows the confirmation, and once it is gone the cleared form's button is disabled; after a failure the form renders as before |
| Signup.SetField | frontend/src/pages/signup.jsx:37-40 | the named field takes the value and every other field keeps its own |
| Signup.Change | frontend/src/pages/signup.jsx:30-42 | the named field takes the sanitized value, or the value as typed for the two password fields; the others are kept and the error is cleared |
| Signup.BodyOf | frontend/src/pages/signup.jsx:114-120 | username, email and full name trimmed, the password as typed, a blank phone number sent as `null` and any other trimmed |
| Signup.BodyIsTrimmed | frontend/src/pages/signup.jsx:114-120 | trimming any text field of the body again changes nothing, and a phone number sent is never empty |
| Signup.StatusMessage | frontend/src/pages/signup.jsx:163-169 | 409 gives the fixed conflict message; 400 the server's message or the input default; any other status the server's message or `Registration failed` |
| Signup.ServerMessageWinsExceptConflict | frontend/src/pages/signup.jsx:163-169 | a non-empty server message is shown for every status except 409, which always shows the fixed message |
| Signup.AfterSend | frontend/src/pages/signup.jsx:122-176 | once sent, the page goes to `/verify` exactly on an `ok` reply; otherwise the status message, or the connection message when the request threw |
| Signup.MessageCheck | frontend/src/pages/signup.jsx:63-69 | a validator's message fails the chain exactly when present, and is the message shown |
| Signup.Submit | frontend/src/pages/signup.jsx:44-177 | the first failing check of terms, username present, username format, email present, email format, password present, password rules, confirmation, phone format is shown and nothing is sent; otherwise the body goes out |
| Signup.TermsCheckedFirst | frontend/src/pages/signup.jsx:50-54 | without agreement to the terms nothing else is checked and nothing is sent |
| Signup.SentBodyIsValid | frontend/src/pages/signup.jsx:50-120 | whatever is sent has agreed terms, a valid non-empty trimmed username and email, a password meeting the five rules and confirmed, and a phone number, when sent, of the accepted shape |
| Signup.BlankPhoneSentAsNull | frontend/src/pages/signup.jsx:106-119 | a blank phone number skips the phone check and is sent as `null` |
| SignupBasic.Change | frontend/src/pages/signup1.jsx:19-27 | the named field takes the value unsanitized, the others are kept, and the error is cleared |
| SignupBasic.Submit | frontend/src/pages/signup1.jsx:29-107 | the first failing check of username, email, full name, password present and confirmation is shown and nothing is sent; otherwise the shared body goes out and the reply is mapped as on the newer page |
| SignupBasic.UsernameCheckedFirst | frontend/src/pages/signup1.jsx:35-39 | a blank username is reported whatever else the form holds |
| SignupBasic.SentBodyIsPresent | frontend/src/pages/signup1.jsx:35-71 | whatever is sent has a non-empty trimmed username, email and full name and a non-empty confirmed password |
| Login.Submit | frontend/src/pages/login.jsx:24-91 | a request is sent exactly when the email is not blank and the password not empty, with the email trimmed and the password as typed; an `ok` reply writes the refresh, id and access token cookies in that order and goes to `/dashboard`; otherwise the server's message, the login default or the connection message |
| Login.EmailReportedFirst | frontend/src/pages/login.jsx:29-39 | a blank email is reported whatever the password; an empty password only once an email is given |
| Login.SentEmailIsTrimmed | frontend/src/pages/login.jsx:48-51 | the email sent is non-empty and has no surrounding whitespace |
| Chats.FormatOne | frontend/src/components/chats/ChatsContainer.jsx:20-46 | id and name copied from `group_id` and `group_name`; a missing photo, last message, unread count or member count replaced by the placeholder avatar, "No messages yet", 0 and 0; no time shown without a last-message time |
| Chats.FormatGroupData | frontend/src/components/chats/ChatsContainer.jsx:17-47 | a null or non-array value gives no rows; an array gives one row per group, in the same order |
| Chats.GroupCreate | frontend/src/components/chats/ChatsContainer.jsx:82-95 | the new group goes first with no messages, no time, unread 0 and one participant; the rows already listed follow unchanged |
| Chats.ReduceIsSum | frontend/src/components/chats/ChatNotifications.js:2-3 | the left fold with a missing count as 0 equals the starting value plus the sum of the counts |
| Chats.TotalUnread | frontend/src/components/chats/ChatNotifications.js:1-5 | the badge is the sum of the group counts plus the sum of the direct counts, a missing count adding 0 |
| Chats.TotalOfNothing | frontend/src/components/chats/ChatNotifications.js:1-5 | two empty lists give 0 |
| Chats.SumConcat | frontend/src/components/chats/ChatNotifications.js:2-3 | the sum over a concatenation is the sum of the sums |
| Chats.TotalConcat | frontend/src/components/chats/ChatNotifications.js:1-5 | the badge is additive over splitting either list |
| Chats.SumPermutation | frontend/src/components/chats/ChatNotifications.js:2-3 | rearranging a list leaves its sum unchanged |
| Chats.TotalPermutation | frontend/src/components/chats/ChatNotifications.js:1-5 | the badge does not depend on the order of either list |
| Chats.SumNonNegative | frontend/src/components/chats/ChatNotifications.js:2-3 | with no negative count the sum is not negative |
| Chats.TotalNonNegative | frontend/src/components/chats/ChatNotifications.js:1-5 | with no negative count in either list the badge is not negative |
| Chats.GroupCreateKeepsTotal | frontend/src/components/chats/ChatsContainer.jsx:82-95 | creating a group leaves the unread badge unchanged |
| Chats.Counts | frontend/src/components/chats/ChatsContainer.jsx:37-45 | one count per chat, in order, each the chat's unread count (never missing once a chat has been formatted) |
| Switch.Initial | frontend/src/components/ui/switch.jsx:5 | the switch starts on exactly when `defaultChecked` or `checked` is passed as true |
| Switch.Sync | frontend/src/components/ui/switch.jsx:7-11 | a passed `checked` prop overwrites the state; without one the state is kept |
| Switch.Toggle | frontend/src/components/ui/switch.jsx:13-20 | a click flips an uncontrolled switch, leaves a controlled one alone, and calls `onChange` exactly when one is given |
| Switch.Render | frontend/src/components/ui/switch.jsx:26-30 | `aria-checked` is the state, and the track is purple when on and zinc when off |
| Switch.UncontrolledToggleTwice | frontend/src/components/ui/switch.jsx:13-20 | two clicks bring an uncontrolled switch back to where it was |
| Switch.ControlledFollowsProp | frontend/src/components/ui/switch.jsx:5-26 | a controlled switch shows its prop after any number of clicks, whatever `defaultChecked` said |
| Switch.ClicksControlled | frontend/src/components/ui/switch.jsx:13-16 | clicks never change a controlled switch |
| Switch.ClicksUncontrolled | frontend/src/components/ui/switch.jsx:13-16 | after `n` clicks an uncontrolled switch is as it started when `n` is even and flipped when `n` is odd |
| Loading.Step | frontend/src/components/Loading.jsx:8 | three or more dots wrap to none; fewer gain one more dot |
| Loading.StepKeepsDots | frontend/src/components/Loading.jsx:8 | from one of the four states '', '.', '..', '...' a tick stays among them |
| Loading.FourStepsReturn | frontend/src/components/Loading.jsx:8 | four ticks bring each of the four states back to itself |
| Loading.DotsAfter | frontend/src/components/Loading.jsx:4-8 | after `n` ticks from the start exactly `n mod 4` dots show |
| Loading.TicksSplit | frontend/src/components/Loading.jsx:7-9 | `m + n` ticks are `m` ticks followed by `n` ticks |
| ProfilePhoto.SelectFile | frontend/src/components/ProfilePhotoModal.jsx:12-27 | no file changes nothing; a file over 5 MiB gets the size message and one of another type the image message, each leaving the previous selection; an accepted file becomes the selection with its preview and no error |
| ProfilePhoto.SelectKeepsAcceptable | frontend/src/components/ProfilePhotoModal.jsx:15-25 | a selected file is always within the limit and an image |
| ProfilePhoto.SizeCheckedFirst | frontend/src/components/ProfilePhotoModal.jsx:15-22 | a file both too large and not an image gets the size message |
| ProfilePhoto.Close | frontend/src/components/ProfilePhotoModal.jsx:29-37 | closing clears the selection, the preview and the error |
| ProfilePhoto.CloseForgetsPicks | frontend/src/components/ProfilePhotoModal.jsx:12-37 | a pick followed by closing leaves the same state as a fresh modal |
| Serializers.SpecErrors | backend/api/serializers.py:5-93 | a field gets no complaint exactly when it is present if required and, when present, within its maximum length and of its format |
| Serializers.Errors | backend/api/serializers.py:5-93 | a payload gets no complaint exactly when every declared field is satisfied |
| Serializers.ConfirmationCodeAtMostSix | backend/api/serializers.py:18-49 | a valid sign-up verification or password-reset confirmation carries a code of at most six characters |
| Serializers.IdTokenRequired | backend/api/serializers.py:51-88 | without `id_token` the friends, profile, profile-update and friend-request payloads are all invalid |
| Serializers.ProfileUpdateLengths | backend/api/serializers.py:78-83 | a valid profile update has a name of at most 150, a phone of at most 16 and a currency of at most 10 characters, and a well-formed avatar URL |
| Serializers.ValidateFriendRequest | backend/api/serializers.py:90-93 | accepted, unchanged, exactly when a recipient username or e-mail is given; otherwise the one fixed message |
| Serializers.Validated | backend/api/serializers.py:85-88 | the validated data holds exactly the declared fields the payload carries, with their values |
| Serializers.CheckFriendRequest | backend/api/serializers.py:85-93 | field errors exactly when the field rules fail; accepted exactly when they pass and a recipient is named, with the token kept; otherwise the non-field message |
| Serializers.TokenAloneIsNotAFriendRequest | backend/api/serializers.py:85-93 | a payload with only a token passes the field rules and is rejected by `validate` |
| Serializers.ErrorsIgnoreUndeclared | backend/api/serializers.py:85-93 | the field rules look only at declared names: an entry under another key changes no complaint |
| Serializers.UndeclaredKeysIgnored | backend/api/serializers.py:85-93 | adding an entry under any key other than the three declared ones leaves the friend-request verdict, validated data included, unchanged |

## Left out

- Expense creation, splitting, rescaling and settlement on the server: the
  views behind `create-expense/` and the related routes are not part of this
  model's source, and there is no split model to follow; only the decimal
  bounds of `Expense` are modelled.
- `backend/cliquepay/aws_cognito.py` and `backend/cliquepay/storage_service.py`:
  calls into AWS Cognito (with an HMAC-SHA256 secret hash) and Google Cloud
  Storage; their results are parameters where the modelled code uses them.
- The zod e-mail schema and DOMPurify sanitisation: third-party code, passed
  in as `validEmail` and `sanitize`.
- Cookies, `fetch`, `jwtDecode`, `crypto.getRandomValues`, `Date.now`,
  `setTimeout` and `setInterval`: their values are parameters; the 500 ms
  period of the loading dots and the delays before navigation are not
  modelled.
- `parseFloat` and amounts: an amount is an integer given by a `parse`
  parameter; floating-point rounding and `toFixed` display are not modelled.
- Date and time formatting in the chat list and the payment deadline: a
  parameter.
- Strings are sequences of characters with no UTF-16 detail; upper- and
  lower-case letters are the ASCII ones only; `trim` removes the
  ECMAScript white-space and line-terminator characters.
- The DRF fields' own trimming of surrounding whitespace and rejection of
  blank strings, and the exact text of DRF's error messages: the serializers
  are modelled as field lists with presence, length and format rules.
- Profile-photo upload and reset (`uploadPhoto`, `resetPhoto`) and the modal's
  rendering: network calls and markup, not selection logic.
- React's state batching and re-rendering: each handler is modelled as one
  step from the state before it to the state after it.
- The order in which the ORM returns rows: the store is a sequence and its
  order is the order of the result.
- The login page's cookie expiry arithmetic and the navigation after login:
  cookie writes are side effects; only the validation order and request body
  are modelled.
- The `onChange` callback's own effects in `Switch`: the model records only
  whether it is called.
- GroupChat.UpdateGroup: the handler spreads the whole update, `newInvites`
  included, into the group information; the model keeps `newInvites` apart
  from the other properties and merges only those.
- DbService.CreateUser: when several constraints fail at once, which one the
  database reports is the backend's choice; the model returns the one error
  text `dbError` either way.
- Models.InsertFriendship: the `max_length` of the `id` (128) and `status`
  (8) columns is not checked, and the foreign keys are checked after the two
  table constraints, as PostgreSQL's deferred foreign keys are.
- Switch.Render: the caller's remaining props are spread after
  `aria-checked` (frontend/src/components/ui/switch.jsx:31), so a caller
  passing its own `aria-checked` would override the state; the model assumes
  none does.
- Notifications.PositionClass: `POSITIONS[position]` also finds the
  properties every JavaScript object inherits (`toString`, `constructor`),
  which would yield a function rather than a class; positions are modelled
  as plain strings looked up in the six declared entries only.
- The settle-up confirmation text for a friend payment reads `recipient`,
  which the component lists in its prop types but never receives
  (frontend/src/pages/settleup.jsx:235, 432), so rendering it would throw;
  the confirmation's markup is not modelled.
- The refresh after an empty group update calls `fetchGroupInfo()` with no
  token (frontend/src/components/chats/GroupChatContainer.jsx:587), so its
  request carries no `id_token`; `GroupChat.UpdateGroup` records only that a
  refresh is asked for.
- Presentation components, mock dashboard data, the canvas visualisations
  and the watchtower back end: no decision logic of the modelled core.

## Findings

| source | as written | input that shows it | evidently intended | confidence | as-written member | corrected member |
|---|---|---|---|---|---|---|
| frontend/src/pages/settleup.jsx:304-315 | clicking the selected card clears the selection and then reads `data`, which is not defined in the component, so the handler throws before the amount is reset; the card's amount stays on screen while confirming is disabled for lack of a selection | total 100, select a card of amount 40, click it again: nothing selected, amount 40 | deselecting restores the loaded total, as the comment beside the code says | high; not executed | SettleUp.ToggleTwiceKeepsCardAmount | SettleUp.ToggleIntendedTwiceRestores |
| backend/cliquepay/models.py:14-24 | `phone_regex` is checked with Python's `re.search`, whose `$` also matches before a final newline and whose `\d` is any Unicode decimal digit | `123456789` followed by a newline, or nine Arabic-Indic digits: the field accepts both, the sign-up form neither | the whole value is nine to fifteen ASCII digits after an optional `+` and `1`, as in the form's copy of the pattern | medium; not executed | Models.ServerAcceptsTrailingNewline | Models.ServerPhoneAcceptedByClient |
