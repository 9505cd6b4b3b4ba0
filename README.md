# A verified model of a chat application's core

This project models the core of a two-part chat application. The backend is `project-one`, an Express and socket.io
server over MongoDB. The web client is `chatapp`:

- **Socket coordinator** (`Socket.Coordinator`). It holds the registry from user ids to connections, plus the chat
  rooms that connections join. Every event the server emits is an entry of the outbox, and each entry records exactly
  which connections the event reaches.
- **REST controllers.** These cover the friendship state machine (`Friends`), group membership (`Groups`), message
  sending and read receipts (`Messages`), the chat list (`ChatList`) and the account verification lifecycle (`Auth`).
  Each works over a `Store.Database` of document sequences kept in collection order. Every guard is a pure function
  that returns the reply the handler sends: `Ok`, or `Err(status, text)` with the source's own status and text. Every
  handler that writes is a method. Its postcondition gives the whole new state on both the refusal path and the
  success path.
- **Server helpers** (`ServerUtils`). These are the `createMessage` and `createNotification` checks and field
  mapping, and the rule that picks the upload resource type.
- **Client helpers.** These are the call timer's clock text (`TimeFormat`), the verification countdown (`Countdown`)
  and the form rules (`Validation`).

Some inputs and effects are parameters or oracles:
- Times are integers in milliseconds, except the call timer, which counts seconds. The current time is a parameter.
- Ids that MongoDB would assign are parameters, and each is required to be fresh. A new group's id is also required
  to be an ObjectId. The friendship handlers that notify the other party require every stored party to be an
  ObjectId (`Friends.PartiesAreObjectIds`), because the schema casts both references. So the notice they post cannot
  fail its id checks.
- The blob store's answer to an upload is a parameter (a `Result`).
- The password-hash comparison is an oracle function. So is the random draw of a verification code: it is a parameter
  in [100000, 999999].

The model follows the code wherever the code and its documentation differ. The handlers run their guards as
written. Where a guard evidently misses a case, a corrected guard beside it carries the intended property (see
"## Findings"). Two more places stand out:
- `UpdateUserInfo` refuses an email that the caller's own account already holds. `Auth.OwnEmailRefused` proves this.
- `UnBlockFriend` answers 500 when a party unblocks an accepted friendship that nobody has blocked. The guard calls
  `toString` on `blockedBy`. That field is `undefined` on a record never blocked and `null` on one unblocked before,
  and the thrown message names which.

## Model

| member | source | states |
|---|---|---|
| Socket.Registered | project-one/src/lib/socket.ts:9-12 | after `set`, the key order lists the old keys plus the new one, keeps old keys in place, stays duplicate-free |
| Socket.Coordinator.UserOnline | project-one/src/lib/socket.ts:9-12 | the user maps to this connection, overwriting any earlier entry; every open connection receives the key list |
| Socket.Coordinator.OnlineSnapshot | project-one/src/lib/socket.ts:11 | the broadcast list names every registered user exactly once (its length is the number of keys) |
| Socket.MayJoin | project-one/src/lib/socket.ts:14-41 | a join is allowed only for a chat stored under that id |
| Socket.MayJoinMeaning | project-one/src/lib/socket.ts:14-41 | a join is allowed iff a stored group has the user as owner or member, or a stored friendship has them as sender or receiver; a missing chat refuses |
| Socket.Coordinator.JoinChat | project-one/src/lib/socket.ts:14-41 | the connection is added to the room exactly when the join is allowed; otherwise no room changes |
| Socket.Coordinator.AudienceIsOpen | project-one/src/lib/socket.ts:42-44 | a room delivery reaches only open connections |
| Socket.Coordinator.SendMessage | project-one/src/lib/socket.ts:42-44 | `receive-message` goes to the whole room, the sender included |
| Socket.Coordinator.Logout | project-one/src/lib/socket.ts:46-49 | only that user's key goes (an absent key changes nothing); every connection receives the new list |
| Socket.Coordinator.BlockFriend | project-one/src/lib/socket.ts:51-53 | `friend-blocked` goes to the whole room |
| Socket.Coordinator.UnblockFriend | project-one/src/lib/socket.ts:55-57 | `friend-unblocked` goes to the whole room |
| Socket.Coordinator.DeleteFriend | project-one/src/lib/socket.ts:59-61 | `friend-deleted` goes to the whole room |
| Socket.Coordinator.AddGroupMember | project-one/src/lib/socket.ts:63-73 | both listeners run: first the added user's connection, only if registered; then the room; the sender is excluded from both |
| Socket.Coordinator.RemoveGroupMember | project-one/src/lib/socket.ts:75-77 | `group-member-removed` goes to the whole room, the sender included |
| Socket.Coordinator.DeleteGroup | project-one/src/lib/socket.ts:79-81 | `group-deleted` goes to the room without the sender |
| Socket.Coordinator.UpdateGroup | project-one/src/lib/socket.ts:83-85 | `group-updated` goes to the whole room, the sender included |
| Socket.Coordinator.ChangeGroupAvatar | project-one/src/lib/socket.ts:87-89 | `group-avatar-changed` goes to the room without the sender |
| Socket.Coordinator.ChangeUserAvatar | project-one/src/lib/socket.ts:91-112 | nothing is emitted for an unknown user; otherwise one delivery per accepted, unblocked friendship, in collection order |
| Socket.AvatarFanout | project-one/src/lib/socket.ts:97-111 | one delivery per selected friendship |
| Socket.AvatarFanoutTargets | project-one/src/lib/socket.ts:97-111 | every accepted, unblocked friendship of the user gets a delivery to its room, and every delivery belongs to such a friendship |
| Socket.Coordinator.AcceptFriend | project-one/src/lib/socket.ts:114-120 | only the accepted user's registered connection receives the event; nothing happens when the user is not registered |
| Socket.Coordinator.UnblockUser | project-one/src/lib/socket.ts:122-128 | only the unblocked user's registered connection receives the event; nothing happens when the user is not registered |
| Socket.Coordinator.TypingChanged | project-one/src/lib/socket.ts:130-136 | typing and not-typing events go to the room without the sender |
| Socket.Coordinator.SeenMessage | project-one/src/lib/socket.ts:138-140 | `message-has-seen` goes to the room without the sender |
| Socket.FirstUserOn | project-one/src/lib/socket.ts:143-148 | the user found is registered on this connection; having none means no key maps to it |
| Socket.FirstUserOnIsEarliest | project-one/src/lib/socket.ts:143-148 | no key before the one found maps to the connection |
| Socket.Coordinator.Disconnect | project-one/src/lib/socket.ts:142-150 | the scan removes the first entry on the connection and keeps every other entry; no room keeps it; the remaining connections receive the list |
| Socket.Coordinator.Connect | project-one/src/index.ts:31-33 | a new connection opens; nothing else changes |
| Friends.GetFriendById | project-one/src/controllers/friend.ts:14-57 | found iff the id is valid and names an unblocked friendship of the caller's; 404 for a bad id or a missing or blocked record; 401 for a stranger |
| Friends.GetAllFriends | project-one/src/controllers/friend.ts:59-89 | at most one entry per stored friendship; each entry is either accepted or pending |
| Friends.GetAllFriendsListsVisible | project-one/src/controllers/friend.ts:59-89 | lists exactly the caller's unblocked friendships, each with the other party; accepted and pending are exclusive |
| Friends.GetPendingFriends | project-one/src/controllers/friend.ts:91-121 | at most one entry per stored friendship, each naming a stored friendship |
| Friends.GetPendingFriendsAreRequests | project-one/src/controllers/friend.ts:91-121 | lists exactly the pending requests the caller received, each naming its sender |
| Friends.GetBlockedFriends | project-one/src/controllers/friend.ts:123-153 | at most one entry per stored friendship, each naming a stored friendship |
| Friends.GetBlockedFriendsAreBlockedByCaller | project-one/src/controllers/friend.ts:123-153 | lists exactly the friendships the caller blocked |
| Friends.SendRequestCheck | project-one/src/controllers/friend.ts:155-197 | corrected guard: passes iff the receiver id is valid, registered, not the caller, and no friendship links the two in either direction; every refusal is 400 |
| Friends.SendRequestCheckAsWritten | project-one/src/controllers/friend.ts:170-173 | accepts a request to oneself: the self-check compares object references |
| Friends.SelfRequestSlipsThrough | project-one/src/controllers/friend.ts:170-173 | a user without friendships passes the as-written check with their own id, and the corrected check refuses it |
| Friends.SendRequestChecksAgree | project-one/src/controllers/friend.ts:155-197 | the two checks agree on every request that is not to oneself |
| Friends.SendRequest | project-one/src/controllers/friend.ts:155-197 | runs the guard as written: a refusal changes nothing; otherwise one pending record from the caller to the receiver is appended, a request to oneself included |
| Friends.SendRequestAsWrittenKeepsPairs | project-one/src/controllers/friend.ts:175-190 | under the guard as written, no two records link the same pair and every record stays well formed |
| Friends.SendRequestKeepsObjectIds | project-one/src/controllers/friend.ts:187-190 | a stored request names both parties by ObjectId, as the schema's references demand |
| Friends.NoticeToPartyCreated | project-one/src/controllers/friend.ts:230-241 | a notice to a party of a stored friendship passes every check of `createMessage` |
| Friends.SendRequestKeepsInvariants | project-one/src/controllers/friend.ts:175-190 | under the corrected guard, no two records link the same pair, nobody befriends themself, and every record is well formed |
| Friends.PendingRequestCheck | project-one/src/controllers/friend.ts:199-222 | passes iff the id is valid and names a pending request addressed to the caller |
| Friends.AcceptRequest | project-one/src/controllers/friend.ts:199-242 | a refusal changes nothing; otherwise the status becomes accepted, the sender is notified and the reply is the success text |
| Friends.RejectRequest | project-one/src/controllers/friend.ts:244-276 | a refusal changes nothing; otherwise the record is deleted |
| Friends.AcceptIsFinal | project-one/src/controllers/friend.ts:199-242 | an accepted request cannot be answered again |
| Friends.RejectIsFinal | project-one/src/controllers/friend.ts:244-276 | a rejected request is gone, so a second answer finds nothing |
| Friends.BlockCheck | project-one/src/controllers/friend.ts:278-310 | passes iff the friendship is accepted and the caller is a party |
| Friends.BlockFriend | project-one/src/controllers/friend.ts:278-328 | sets blocked and blocker, then notifies the other party; an accepted block answers the success text |
| Friends.UnblockCheck | project-one/src/controllers/friend.ts:330-365 | passes iff the friendship is accepted and the caller is its blocker; 500 iff a party unblocks an accepted friendship that is not blocked, with the `TypeError` text for `undefined` (never blocked) or for `null` (unblocked before); every other refusal is 400 |
| Friends.UnBlockFriend | project-one/src/controllers/friend.ts:330-382 | clears blocked and blocker, then notifies the other party; an accepted unblock answers the success text |
| Friends.BlockUnblockRoundTrip | project-one/src/controllers/friend.ts:278-382 | blocking then unblocking gives back the record with `blockedBy` set to null, so exactly the record when it was null already; blocking touches only the two blocking fields |
| Friends.OnlyBlockerUnblocks | project-one/src/controllers/friend.ts:359-365 | after one party blocks, the other party's unblock is refused |
| Friends.TransitionsKeepWellFormed | project-one/src/controllers/friend.ts:199-382 | accept, block and unblock keep every record well formed (blocked iff a blocker is named, a party of an accepted friendship) |
| Friends.DeleteCheck | project-one/src/controllers/friend.ts:384-410 | passes iff the id names a friendship of the caller's |
| Friends.DeleteFriend | project-one/src/controllers/friend.ts:384-422 | the friendship and all its messages are removed |
| Friends.DeleteFriendLeavesNoTrace | project-one/src/controllers/friend.ts:384-422 | exactly the friendship's messages go and every other message stays; the id no longer resolves |
| Groups.GetGroupById | project-one/src/controllers/group.ts:7-57 | found iff the id is valid, stored, and the caller owns or belongs to the group; 400 for anyone else |
| Groups.GetGroupMembers | project-one/src/controllers/group.ts:431-470 | answers iff the caller owns or belongs to the group |
| Groups.GetGroupMembersListsMembers | project-one/src/controllers/group.ts:431-470 | lists exactly the registered accounts among the members, never the owner while the invariant holds |
| Groups.NewGroup | project-one/src/controllers/group.ts:59-105 | a new group has the caller as owner and no members; an empty description is absent; the membership invariant holds |
| Groups.Create | project-one/src/controllers/group.ts:59-105 | 400 without a name or an avatar file; 500 on upload failure; otherwise the group and its notice are stored and the reply is the success text |
| Groups.AddMemberCheck | project-one/src/controllers/group.ts:107-174 | corrected guard: passes iff both ids are valid and stored, the caller owns the group, the user is neither listed nor the owner |
| Groups.AddMemberCheckAsWritten | project-one/src/controllers/group.ts:151-154 | lets the owner add themself: the self-check compares a string with an ObjectId |
| Groups.OwnerAddsSelf | project-one/src/controllers/group.ts:151-154 | the owner of a fresh group passes the as-written check for themself and breaks the invariant; the corrected check refuses |
| Groups.AddMember | project-one/src/controllers/group.ts:107-174 | runs the guard as written: a refusal changes nothing; otherwise the user, the owner included, is pushed onto the members and a notice is stored |
| Groups.AddMemberAsWrittenKeepsNoDup | project-one/src/controllers/group.ts:141-159 | under the guard as written, members stay duplicate-free, and the invariant breaks exactly when the owner adds themself |
| Groups.AddMemberKeepsInvariant | project-one/src/controllers/group.ts:107-174 | under the corrected guard, an accepted addition keeps members duplicate-free and the owner unlisted |
| Groups.RemoveMemberCheck | project-one/src/controllers/group.ts:176-238 | passes iff the caller owns the group and the user is listed |
| Groups.RemoveMember | project-one/src/controllers/group.ts:176-238 | a refusal changes nothing; otherwise the user is pulled from the members and a notice is stored |
| Groups.PullKeepsInvariant | project-one/src/controllers/group.ts:176-238 | pulling drops exactly that member and keeps the invariant |
| Groups.AddThenRemove | project-one/src/controllers/group.ts:107-238 | removing a member just added restores the member list |
| Groups.LeaveCheck | project-one/src/controllers/group.ts:240-288 | passes iff the group exists and the caller is listed as a member |
| Groups.OwnerCannotLeave | project-one/src/controllers/group.ts:240-288 | under the invariant the owner's leave is refused |
| Groups.LeaveGroup | project-one/src/controllers/group.ts:240-288 | a refusal changes nothing; otherwise the caller is pulled from the members and a notice is stored |
| Groups.LeaveIsFinal | project-one/src/controllers/group.ts:240-288 | a second leave is refused |
| Groups.UpdateCheck | project-one/src/controllers/group.ts:290-333 | passes iff the caller owns the group and a name or a description is given |
| Groups.UpdateGroup | project-one/src/controllers/group.ts:290-333 | writes both name and description as given |
| Groups.AvatarCheck | project-one/src/controllers/group.ts:335-392 | 404 refusals; the file is checked before the id's form; owner only |
| Groups.UpdateAvatar | project-one/src/controllers/group.ts:335-392 | a refusal or an upload failure changes nothing; otherwise the avatar is replaced and a notice is stored |
| Groups.EditsKeepMembership | project-one/src/controllers/group.ts:290-392 | edits leave owner and members as they were |
| Groups.DeleteCheck | project-one/src/controllers/group.ts:394-429 | passes iff the caller owns the group |
| Groups.DeleteGroup | project-one/src/controllers/group.ts:394-429 | the group's messages are removed, then the group |
| Groups.DeleteGroupLeavesNoTrace | project-one/src/controllers/group.ts:394-429 | exactly the group's messages go; the id no longer resolves |
| Messages.ValidateShape | project-one/src/controllers/messages.ts:106-124 | the four shape checks in order: a chat id, friend and receiver together, content or a file, at most five files |
| Messages.FriendRoute | project-one/src/controllers/messages.ts:131-182 | the friendship branch passes iff both ids are valid, the friendship is accepted and unblocked, the caller is a party, and the receiver is registered and not the caller |
| Messages.GroupRoute | project-one/src/controllers/messages.ts:186-210 | the group branch passes iff the id is valid and the caller owns or belongs to the group |
| Messages.SendCheck | project-one/src/controllers/messages.ts:106-210 | passes iff all three stages pass, refusing with the first failure; every refusal is 400 |
| Messages.SendCheckMeaning | project-one/src/controllers/messages.ts:131-210 | a passed check names only chats the caller may write to |
| Messages.ReceiverNeedNotBeTheOtherParty | project-one/src/controllers/messages.ts:169-181 | the receiver is never compared with the friendship's other party: a third user passes |
| Messages.UploadAll | project-one/src/controllers/messages.ts:217-237 | succeeds iff every upload succeeds, with one attachment per file in order; otherwise fails with the first error |
| Messages.CollectAttachments | project-one/src/controllers/messages.ts:217-237 | the upload loop computes exactly `UploadAll` |
| Messages.Compose | project-one/src/controllers/messages.ts:126-244 | the new message has the caller as sender, the given files, one receipt and no notification; it names a friendship exactly when it names a receiver |
| Messages.ComposedReadBySenderOnly | project-one/src/controllers/messages.ts:239-244 | a new message is read by its sender and by nobody else |
| Messages.PushKeepsLastIsLatest | project-one/src/controllers/messages.ts:248-258 | pushing makes the message the chat's last one and keeps the earlier list as a prefix |
| Messages.SendMessage | project-one/src/controllers/messages.ts:92-265 | a refusal changes nothing; an upload failure answers 500; otherwise the message is stored and pushed onto its chats |
| Messages.ErrorText | project-one/src/controllers/messages.ts:263 | a 500 text is the error's message, or the fallback text when that is empty |
| Messages.WithReceiptReads | project-one/src/controllers/messages.ts:303-308 | adding the receipt makes the message read by the caller |
| Messages.MarkRead | project-one/src/controllers/messages.ts:296-335 | the marking keeps every message in place under its id |
| Messages.MarkReadEffect | project-one/src/controllers/messages.ts:296-335 | every message in scope is read by the caller afterwards; out-of-scope and already-read messages are unchanged |
| Messages.MarkReadIdempotent | project-one/src/controllers/messages.ts:296-335 | marking twice equals marking once |
| Messages.ReadTarget | project-one/src/controllers/messages.ts:267-340 | a friendship with the id wins over a group; 404 for a bad id, no chat, or a non-participant |
| Messages.MarkAsRead | project-one/src/controllers/messages.ts:267-345 | a refusal changes nothing; otherwise the messages are marked in the chosen scope |
| Messages.GetMessages | project-one/src/controllers/messages.ts:9-90 | answers iff the id is valid and names the caller's friendship or a group they own or belong to; 404 otherwise |
| Messages.GetMessagesNewestFirst | project-one/src/controllers/messages.ts:45-51 | newest first, holding exactly the chat's messages the caller may see |
| ChatList.UnreadCount | project-one/src/controllers/chatList.ts:21-32 | the count of a chat's messages that someone else sent and the caller has not read, at most the list's length |
| ChatList.Merged | project-one/src/controllers/chatList.ts:37-91 | one entry per accepted friendship of the caller's and per group they own or belong to |
| ChatList.GetChatList | project-one/src/controllers/chatList.ts:4-104 | as many entries as the merged list |
| ChatList.MergedComplete | project-one/src/controllers/chatList.ts:9-88 | every accepted friendship (blocked or not) and every group of the caller's has an entry |
| ChatList.MergedSound | project-one/src/controllers/chatList.ts:37-88 | every entry comes from such a chat, naming the other party and carrying its unread count |
| ChatList.ChatListSorted | project-one/src/controllers/chatList.ts:91-101 | ordered by last-message time, newest first, holding each merged entry as often as before |
| ChatList.MarkedGroupHasNoUnread | project-one/src/controllers/chatList.ts:21-32 | after the caller marks a group read, its unread count is 0 |
| Sorting.SortDescCorrect | project-one/src/controllers/chatList.ts:91-101 | the sort is descending and a permutation |
| ServerUtils.UploadOptionsFor | project-one/src/lib/utils.ts:52-60 | folder and public id are fixed; a file is "raw" iff it is neither image nor video, otherwise "auto" |
| ServerUtils.MediaIsAuto | project-one/src/lib/utils.ts:52-53 | any image or video subtype is "auto" |
| ServerUtils.CreateMessage | project-one/src/lib/utils.ts:71-113 | the five checks in order, each refusing with its own text; success iff all pass; the stored fields are exactly the supplied references, no content, empty receipts |
| ServerUtils.FriendNoticeCreated | project-one/src/lib/utils.ts:79-97 | a friendship notice with valid ids is always created |
| ServerUtils.SaveMessage | project-one/src/lib/utils.ts:99-107 | on success the message is appended; on failure nothing changes and the error is passed on |
| ServerUtils.PostNotice | project-one/src/controllers/friend.ts:230-241 | a handler's closing notice either is stored with the success reply, or answers 500 with the thrown text |
| ServerUtils.CreateNotification | project-one/src/lib/utils.ts:115-139 | as written: refuses a bad belongs-to id, then a bad optional receiver; otherwise the saved notification holds the message, the belongs-to id and model, and no receiver |
| ServerUtils.CreateNotificationIntended | project-one/src/lib/utils.ts:115-139 | corrected: the same refusals, and the receiver is stored exactly when it was supplied |
| ServerUtils.NotificationReceiverDropped | project-one/src/lib/utils.ts:129-134 | a notification created for a receiver is saved without one as written, and with it when corrected |
| Auth.FindLogin | project-one/src/controllers/auth.ts:13-15 | the first account whose username or email is the login; having none means no account matches |
| Auth.SignIn | project-one/src/controllers/auth.ts:6-41 | succeeds iff both fields are present, an account matches, and the password matches it |
| Auth.SignInDoesNotRevealAccounts | project-one/src/controllers/auth.ts:16-25 | an unknown login and a wrong password get the same reply |
| Auth.SignUpCheck | project-one/src/controllers/auth.ts:43-56 | passes iff all three fields are present and the username is unused |
| Auth.SignUp | project-one/src/controllers/auth.ts:43-78 | a refusal changes nothing; otherwise the new account is appended and the reply is 201 |
| Auth.SignUpKeepsUsernamesUnique | project-one/src/controllers/auth.ts:51-62 | usernames stay unique; a new account is onboarding and unverified |
| Auth.IssueCode | project-one/src/controllers/auth.ts:287-293 | a six-digit code that expires one minute from now; nothing else changes |
| Auth.UpdateUserInfo | project-one/src/controllers/auth.ts:100-134 | passes iff a field is given and no account holds the email; writes name, email and a fresh code |
| Auth.OwnEmailRefused | project-one/src/controllers/auth.ts:111-115 | resubmitting one's own email is refused |
| Auth.FinishOnboarding | project-one/src/controllers/auth.ts:136-159 | passes iff onboarding is still open and avatar and email are filled; only the flag changes |
| Auth.OnboardingOnce | project-one/src/controllers/auth.ts:140-143 | a second finish is refused |
| Auth.VerifyCode | project-one/src/controllers/auth.ts:161-196 | passes iff the code is given, equals the stored one and has not expired; then verified, with code and expiry cleared |
| Auth.IssuedCodeVerifies | project-one/src/controllers/auth.ts:161-196 | an issued code verifies until its minute is over, and any other code is invalid |
| Auth.NoReplay | project-one/src/controllers/auth.ts:185-187 | after a verification every code is invalid |
| Auth.ResendCode | project-one/src/controllers/auth.ts:198-222 | refused iff the current expiry is still in the future; otherwise a fresh code is issued |
| Auth.ResendThrottled | project-one/src/controllers/auth.ts:198-222 | within a minute of issuing, resending is refused; afterwards it works and the old code is invalid |
| Auth.SaveCaller | project-one/src/controllers/auth.ts:118-124 | a refused step answers its refusal and changes nothing; otherwise only the caller's account is replaced |
| Auth.UpdateUserInfoHandler | project-one/src/controllers/auth.ts:100-134 | only the caller's account changes, and only on success |
| Auth.FinishOnboardingHandler | project-one/src/controllers/auth.ts:136-159 | only the caller's account changes, and only on success |
| Auth.VerifyCodeHandler | project-one/src/controllers/auth.ts:161-196 | only the caller's account changes, and only on success |
| Auth.ResendCodeHandler | project-one/src/controllers/auth.ts:198-222 | only the caller's account changes, and only on success |
| TimeFormat.FormatTimeCounterAsWritten | chatapp/src/lib/utils.ts:51-64 | below one hour the source's clock text reads back as the elapsed seconds |
| TimeFormat.FormatTimeCounter | chatapp/src/lib/utils.ts:51-64 | the corrected clock text always reads back as the elapsed seconds |
| TimeFormat.ClockTextReads | chatapp/src/lib/utils.ts:56-63 | with minutes and seconds below sixty, the filled-in template reads back as the time it stands for |
| TimeFormat.SameBelowOneHour | chatapp/src/lib/utils.ts:61-63 | below one hour the source's text and the corrected text agree |
| TimeFormat.MinutesNotReduced | chatapp/src/lib/utils.ts:54-60 | 3661 seconds show as "1:61:01", which no clock reading accepts; corrected, "1:01:01" |
| Countdown.TimeLeft | chatapp/src/hooks/countdown.ts:6-11 | 0 without an expiry, otherwise the positive part of the difference |
| Countdown.TimeLeftZero | chatapp/src/hooks/countdown.ts:6-11 | nothing is left iff there is no expiry or it has passed |
| Countdown.TimeLeftNonIncreasing | chatapp/src/hooks/countdown.ts:6-11 | the time left never grows as the clock moves on |
| Countdown.Seconds | chatapp/src/hooks/countdown.ts:29 | the seconds field is below 60 |
| Countdown.MinutesAndSeconds | chatapp/src/hooks/countdown.ts:28-29 | minutes and seconds together are the whole seconds left |
| Countdown.Formatted | chatapp/src/hooks/countdown.ts:33-36 | at least five characters, with the colon third from the end |
| Countdown.FormattedReadsBack | chatapp/src/hooks/countdown.ts:33-36 | the text is minutes, a colon and two seconds digits, padded to two, and reads back as the whole seconds |
| Countdown.FormattedWidth | chatapp/src/hooks/countdown.ts:33-36 | below an hour the text has five characters |
| Countdown.Timer.SetExpiry | chatapp/src/hooks/countdown.ts:23-25 | a new expiry recomputes the time left; expired iff there is no expiry or it has passed |
| Countdown.Timer.Tick | chatapp/src/hooks/countdown.ts:13-21 | a tick recomputes only while time is left, so an expired timer stays expired |
| Validation.SigninIssues | chatapp/src/lib/validation.ts:3-11 | at most three issues, each on the login or the password; a missing login is reported first |
| Validation.SigninAccepts | chatapp/src/lib/validation.ts:3-11 | sign-in accepts iff the login is present and the password has at least six characters |
| Validation.NameIssues | chatapp/src/lib/validation.ts:14-18 | at most three issues; a missing name is reported first |
| Validation.UsernameIssues | chatapp/src/lib/validation.ts:19-29 | at most five issues |
| Validation.PasswordIssues | chatapp/src/lib/validation.ts:30-38 | at most four issues |
| Validation.PasswordAccepts | chatapp/src/lib/validation.ts:30-38 | the password rules accept iff it has 6 to 30 characters, a lower-case letter, an upper-case letter, a digit and a symbol, and no line break |
| Validation.SignupIssues | chatapp/src/lib/validation.ts:13-39 | at most twelve issues, one per check |
| Validation.SignupAccepts | chatapp/src/lib/validation.ts:13-39 | sign-up accepts iff the name has 3 to 30 characters; the username has 3 to 30 word characters and not only digits; the password has 6 to 30 characters, with lower, upper, digit and symbol and no line break |
| Validation.SignupIssuePaths | chatapp/src/lib/validation.ts:13-39 | every issue is on one of the three fields |
| Validation.SignupImpliesSignin | chatapp/src/lib/validation.ts:3-39 | an accepted sign-up passes sign-in's password rule and the server's presence check |
| Validation.UsernameHasNonDigit | chatapp/src/lib/validation.ts:24-29 | an accepted username holds a letter or an underscore |
| Validation.GroupCreateIssues | chatapp/src/lib/validation.ts:41-69 | at most seven issues; without a file the last three are the three avatar messages |
| Validation.GroupUpdateIssues | chatapp/src/lib/validation.ts:71-80 | at most four issues, each on the name or the description |
| Validation.GroupUpdateAccepts | chatapp/src/lib/validation.ts:71-80 | the update form accepts iff the name has 1 to 50 characters and the description 1 to 90 |
| Validation.GroupCreateAccepts | chatapp/src/lib/validation.ts:41-69 | accepts iff the name has 1 to 50 characters, the description 1 to 90, and the file is at most 3 MiB of a listed type |
| Validation.GroupCreateExtendsUpdate | chatapp/src/lib/validation.ts:41-80 | creating asks everything updating asks; a missing file gets all three avatar messages |
| Validation.ResetIssues | chatapp/src/lib/validation.ts:89-107 | at most six issues; when the passwords differ the last one is the mismatch |
| Validation.ResetMismatch | chatapp/src/lib/validation.ts:89-107 | the mismatch issue, on the confirmation field, is reported iff the passwords differ; the form accepts iff the password meets the password rules and the two are equal |
| Validation.ResetAccepts | chatapp/src/lib/validation.ts:89-107 | the reset form accepts iff the password has 6 to 30 characters with the four character classes and no line break, and the confirmation equals it |

## Left out

- Transport and I/O are out: HTTP, cookies, socket.io transport, logging and the `index.ts` setup. A handler is its
  guards and its effect on the store or the outbox.
- Concurrency is out: every handler runs atomically, with no interleaving at `await` points.
- JWT signing and verification, bcrypt hashing, the upload stream and zod's `.email()` are foreign libraries. The
  password comparison and the upload answer are parameters.
- Mongoose schema validators and setters (lowercasing, required fields) are out. So are populate projections: the
  unread count is computed as the message ids resolve, whatever `.select("-messages")` would drop.
- Ids that name no stored document are left dangling, as MongoDB leaves them.
- Sorting.SortDescCorrect: states the order of the keys and the permutation, not the order of two entries with the
  same key.
- Common.IsObjectId: accepts the lower-case spelling only, while `isValid` also accepts upper-case hex digits. An
  upper-case id is refused in the model, where the source would look its document up.
- Groups.AddMemberKeepsInvariant: with upper-case ids the source can list a member twice, because group.ts:145 and
  group.ts:214 compare the request's string with the stored ids as raw text. The model does not capture this. The
  same holds for Groups.AddMemberAsWrittenKeepsNoDup, Groups.AddMember, Groups.RemoveMemberCheck and
  Groups.RemoveMember, and for Socket.MayJoin (socket.ts:22-30).
- Passwords are out: ForgotPassword, ResetPassword (server side), SignOut and LoggedInUser only deal in tokens,
  cookies and email.
- Calls are out: the client emits `call-user`, `call-accepted` and `leave-all-rooms`, but the server has no handlers
  for them.
- Auth.IssueCode: the expiry is exactly 60000 ms later, rather than local-time minute arithmetic. The code is a
  parameter in range, not a random draw.
- Auth.VerifyCode: the submitted code is a string. A non-string JSON code compares unequal in the source too.
- Socket.Coordinator.JoinChat: a lookup that throws is a lookup that finds nothing. Connection ids and chat ids do not
  collide.
- Validation.SignupAccepts: lengths are counted in code points, not UTF-16 units, as in every other length bound.
- Validation.SigninAccepts: the six-character password minimum is counted in code points, not UTF-16 units.
- Validation.GroupCreateAccepts: the name and description bounds are counted in code points, not UTF-16 units. The
  "5MB" refusal text is kept, while the bound is 3 MiB as the code checks.
- Validation.ResetMismatch: the password bounds are counted in code points, not UTF-16 units.
- Validation.ResetAccepts: the password bounds are counted in code points, not UTF-16 units.
- Validation.PasswordAccepts: the password bounds are counted in code points, not UTF-16 units.
- Validation.GroupUpdateAccepts: the name and description bounds are counted in code points, not UTF-16 units.
- Countdown.TimeLeft: an unreadable expiry text counts as no expiry, as NaN comparisons do. Dates are integers.
- `formatFileSize`, `formatRelativeDate`, `cn` and `parseError` are out: they need floating point and the calendar.

## Findings

| source | as written | input that shows it | evidently intended | confidence | as-written member | corrected member |
|---|---|---|---|---|---|---|
| project-one/src/controllers/friend.ts:170-173 | the self-check compares two ObjectId objects with `===`, which is never true | a registered user with no friendships sends a request to their own id | a request to oneself is refused with 400 | high, not executed | Friends.SelfRequestSlipsThrough | Friends.SendRequestCheck |
| project-one/src/controllers/group.ts:151-154 | the self-check compares a string with an ObjectId with `===`, which is never true | the owner of a fresh group adds their own id | the owner cannot add themself, so the owner stays outside the member list | high, not executed | Groups.OwnerAddsSelf | Groups.AddMemberCheck |
| chatapp/src/lib/utils.ts:54 | the minutes field is the total number of minutes | 3661 seconds give "1:61:01" | minutes reduced modulo 60, giving "1:01:01" | high, not executed | TimeFormat.MinutesNotReduced | TimeFormat.FormatTimeCounter |
| project-one/src/lib/utils.ts:129-134 | the receiver is passed under the key `receiver`, but the notification schema's path is `receiverId`, so strict mode drops it | a notification for a valid receiver id | the saved notification names its receiver | medium, not executed | ServerUtils.NotificationReceiverDropped | ServerUtils.CreateNotificationIntended |
