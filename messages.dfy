/** The messages controller (project-one/src/controllers/messages.ts):
    sending a message to a friendship or a group, marking a conversation
    as read, and reading a conversation newest first. */
module Messages {
  import opened Common
  import opened Store
  import opened Sorting

  /** The text of a 500 reply: the thrown error's message, or a fallback when it is empty. */
  function ErrorText(e: string): (t: string)
    ensures t != ""
    ensures e != "" ==> t == e
  {
    if e == "" then "Something went wrong" else e
  }

  // ---- SendMessage: the request and its validation ----

  /** A file received by the upload middleware. */
  datatype UploadedFile = UploadedFile(originalname: string, size: nat, mimetype: string)

  /** The body fields of a send request (an empty string is a field that was
      not sent) and the attached files. */
  datatype SendRequest = SendRequest(
    friendId: string,
    groupId: string,
    receiverId: string,
    content: string,
    files: seq<UploadedFile>)

  const NoChat := "Friend ID or Group ID is required"
  const PairMissing := "Both Friend ID and Receiver ID are required"
  const NothingToSend := "At least one attachment or content is required"
  const TooManyFiles := "Maximum 5 attachments allowed"
  const BadFriendOrReceiver := "Invalid Friend ID or Receiver ID"
  const FriendNotFound := "Friend not found"
  const CannotMessage := "You cannot send message to this friend"
  const NotEligible := "You are not eligible to send message to this friend"
  const MessageToSelf := "You cannot send message to yourself"
  const ReceiverNotFound := "Receiver not found"
  const BadGroup := "Invalid Group ID"
  const GroupNotFound := "Group not found"
  const NotAMember := "You are not a member of this group"

  /** The four request-shape checks, in order. */
  function ValidateShape(q: SendRequest): (r: Reply<()>)
    ensures r.Ok? <==>
              && (q.friendId != "" || q.groupId != "")
              && ((q.friendId == "") == (q.receiverId == ""))
              && (q.content != "" || |q.files| > 0)
              && |q.files| <= 5
    ensures q.friendId == "" && q.groupId == "" ==> r == Err(400, NoChat)
    ensures ((q.friendId != "" || q.groupId != "") && ((q.friendId == "") != (q.receiverId == "")))
              ==> r == Err(400, PairMissing)
    ensures ((q.friendId != "" || q.groupId != "") && ((q.friendId == "") == (q.receiverId == ""))
               && q.content == "" && |q.files| == 0) ==> r == Err(400, NothingToSend)
    ensures r.Err? ==> r.status == 400
  {
    if q.friendId == "" && q.groupId == "" then Err(400, NoChat)
    else if (q.friendId != "" && q.receiverId == "") || (q.friendId == "" && q.receiverId != "") then Err(400, PairMissing)
    else if q.content == "" && |q.files| == 0 then Err(400, NothingToSend)
    else if |q.files| > 5 then Err(400, TooManyFiles)
    else Ok(())
  }

  /** A friendship the caller may write to, addressed to a registered user other than the caller. */
  predicate FriendSendable(users: seq<Doc<User>>, f: Friendship, caller: Id, receiverId: Id) {
    !f.isBlocked && f.status == Accepted && IsParticipant(f, caller) && receiverId != caller && receiverId in Ids(users)
  }

  /** The friendship branch: nothing to check without a friend id. */
  function FriendRoute(users: seq<Doc<User>>, friends: seq<Doc<Friendship>>, caller: Id, q: SendRequest)
    : (r: Reply<Option<Doc<Friendship>>>)
    ensures q.friendId == "" ==> r == Ok(None)
    ensures q.friendId != "" ==>
              (r.Ok? <==>
                 IsObjectId(q.friendId) && IsObjectId(q.receiverId) && Find(friends, q.friendId).Some?
                 && FriendSendable(users, Find(friends, q.friendId).value, caller, q.receiverId))
    ensures q.friendId != "" && r.Ok? ==> r.value == Some(Doc(q.friendId, Find(friends, q.friendId).value))
    ensures r.Err? ==> r.status == 400
  {
    if q.friendId == "" then Ok(None)
    else if !IsObjectId(q.friendId) || !IsObjectId(q.receiverId) then Err(400, BadFriendOrReceiver)
    else match Find(friends, q.friendId)
      case None => Err(400, FriendNotFound)
      case Some(f) =>
        if f.isBlocked then Err(400, CannotMessage)
        else if f.status != Accepted then Err(400, CannotMessage)
        else if !IsParticipant(f, caller) then Err(400, NotEligible)
        else if q.receiverId == caller then Err(400, MessageToSelf)
        else if Find(users, q.receiverId).None? then Err(400, ReceiverNotFound)
        else Ok(Some(Doc(q.friendId, f)))
  }

  /** The group branch: nothing to check without a group id. */
  function GroupRoute(groups: seq<Doc<Group>>, caller: Id, q: SendRequest): (r: Reply<Option<Doc<Group>>>)
    ensures q.groupId == "" ==> r == Ok(None)
    ensures q.groupId != "" ==>
              (r.Ok? <==>
                 IsObjectId(q.groupId) && Find(groups, q.groupId).Some?
                 && IsOwnerOrMember(Find(groups, q.groupId).value, caller))
    ensures q.groupId != "" && r.Ok? ==> r.value == Some(Doc(q.groupId, Find(groups, q.groupId).value))
    ensures r.Err? ==> r.status == 400
  {
    if q.groupId == "" then Ok(None)
    else if !IsObjectId(q.groupId) then Err(400, BadGroup)
    else match Find(groups, q.groupId)
      case None => Err(400, GroupNotFound)
      case Some(g) =>
        if !IsOwnerOrMember(g, caller) then Err(400, NotAMember)
        else Ok(Some(Doc(q.groupId, g)))
  }

  /** The chats a message goes to; a request naming both a friendship and a
      group passes both branches and goes to both. */
  datatype Route = Route(friend: Option<Doc<Friendship>>, group: Option<Doc<Group>>)

  /** Every check of `SendMessage` before the uploads, in the source's order. */
  function SendCheck(users: seq<Doc<User>>, friends: seq<Doc<Friendship>>, groups: seq<Doc<Group>>, caller: Id,
                     q: SendRequest)
    : (r: Reply<Route>)
    ensures r.Ok? <==> ValidateShape(q).Ok? && FriendRoute(users, friends, caller, q).Ok? && GroupRoute(groups, caller, q).Ok?
    ensures r.Ok? ==> r.value == Route(FriendRoute(users, friends, caller, q).value, GroupRoute(groups, caller, q).value)
    ensures ValidateShape(q).Err? ==> r == Refuse(ValidateShape(q))
    ensures r.Err? ==> r.status == 400
  {
    match ValidateShape(q)
    case Err(s, t) => Err(s, t)
    case Ok(_) =>
      match FriendRoute(users, friends, caller, q)
      case Err(s, t) => Err(s, t)
      case Ok(f) =>
        match GroupRoute(groups, caller, q)
        case Err(s, t) => Err(s, t)
        case Ok(g) => Ok(Route(f, g))
  }

  /** Everything a passed check guarantees about the chats the message goes to. */
  lemma SendCheckMeaning(users: seq<Doc<User>>, friends: seq<Doc<Friendship>>, groups: seq<Doc<Group>>, caller: Id,
                         q: SendRequest)
    requires SendCheck(users, friends, groups, caller, q).Ok?
    ensures var route := SendCheck(users, friends, groups, caller, q).value;
            && (q.friendId != "" || q.groupId != "")
            && (q.content != "" || |q.files| > 0) && |q.files| <= 5
            && (route.friend.Some? <==> q.friendId != "")
            && (route.group.Some? <==> q.groupId != "")
            && (route.friend.Some? ==>
                  route.friend.value.id == q.friendId && route.friend.value in friends
                  && FriendSendable(users, route.friend.value.data, caller, q.receiverId))
            && (route.group.Some? ==>
                  route.group.value.id == q.groupId && route.group.value in groups
                  && IsOwnerOrMember(route.group.value.data, caller))
  {
  }

  /** The receiver is checked to be a registered user other than the
      caller, not to be the other party of the friendship: any third user
      passes. */
  lemma ReceiverNeedNotBeTheOtherParty()
    ensures var a := "aaaaaaaaaaaaaaaaaaaaaaaa";
            var b := "bbbbbbbbbbbbbbbbbbbbbbbb";
            var c := "cccccccccccccccccccccccc";
            var fid := "dddddddddddddddddddddddd";
            var u := User("U", "u", None, None, false, true, None, None);
            var users := [Doc(a, u), Doc(b, u), Doc(c, u)];
            var friends := [Doc(fid, Friendship(a, b, Accepted, false, Absent, [], None))];
            SendCheck(users, friends, [], a, SendRequest(fid, "", c, "hi", [])).Ok?
  {
    var a := "aaaaaaaaaaaaaaaaaaaaaaaa";
    var b := "bbbbbbbbbbbbbbbbbbbbbbbb";
    var c := "cccccccccccccccccccccccc";
    var fid := "dddddddddddddddddddddddd";
    var u := User("U", "u", None, None, false, true, None, None);
    var users := [Doc(a, u), Doc(b, u), Doc(c, u)];
    var friends := [Doc(fid, Friendship(a, b, Accepted, false, Absent, [], None))];
    assert Ids(users)[2] == c;
    assert Ids(friends)[0] == fid;
  }

  // ---- SendMessage: uploads ----

  /** The stored attachment for an uploaded file. */
  function AttachmentFor(file: UploadedFile, url: string): Attachment {
    Attachment(file.originalname, url, file.size, file.mimetype)
  }

  /** Uploading the files one after the other: `upload` is what the blob
      store answers for a file; the first rejection ends the loop. */
  function UploadAll(files: seq<UploadedFile>, upload: UploadedFile -> Result<string>): (r: Result<seq<Attachment>>)
    ensures r.Success? <==> forall i :: 0 <= i < |files| ==> upload(files[i]).Success?
    ensures r.Success? ==>
              |r.value| == |files|
              && forall i :: 0 <= i < |files| ==> r.value[i] == AttachmentFor(files[i], upload(files[i]).value)
    ensures r.Failure? ==>
              exists k :: 0 <= k < |files| && upload(files[k]) == Failure(r.error)
                          && forall i :: 0 <= i < k ==> upload(files[i]).Success?
  {
    if |files| == 0 then Success([])
    else match upload(files[0])
      case Failure(e) => Failure(e)
      case Success(url) =>
        match UploadAll(files[1..], upload)
        case Failure(e) =>
          assert forall i :: 1 <= i < |files| ==> files[1..][i - 1] == files[i];
          Failure(e)
        case Success(rest) =>
          assert forall i :: 1 <= i < |files| ==> files[1..][i - 1] == files[i];
          Success([AttachmentFor(files[0], url)] + rest)
  }

  /** The upload loop of `SendMessage`. */
  method CollectAttachments(files: seq<UploadedFile>, upload: UploadedFile -> Result<string>)
    returns (r: Result<seq<Attachment>>)
    ensures r == UploadAll(files, upload)
  {
    var uploaded: seq<Attachment> := [];
    var i := 0;
    while i < |files|
      invariant 0 <= i <= |files|
      invariant |uploaded| == i
      invariant forall j :: 0 <= j < i ==>
                  upload(files[j]).Success? && uploaded[j] == AttachmentFor(files[j], upload(files[j]).value)
    {
      var result := upload(files[i]);
      if result.Failure? {
        var k :| 0 <= k < |files| && upload(files[k]) == Failure(UploadAll(files, upload).error)
                 && forall j :: 0 <= j < k ==> upload(files[j]).Success?;
        assert k == i;
        return Failure(result.error);
      }
      uploaded := uploaded + [AttachmentFor(files[i], result.value)];
      i := i + 1;
    }
    assert UploadAll(files, upload).Success?;
    assert uploaded == UploadAll(files, upload).value;
    r := Success(uploaded);
  }

  // ---- SendMessage: the stored message and the chat updates ----

  /** The message `SendMessage` saves: read by its sender only. */
  function Compose(caller: Id, callerName: string, q: SendRequest, attachments: seq<Attachment>, now: int): (m: Message)
    ensures m.sender == caller && m.createdAt == now && m.attachments == attachments && |m.readBy| == 1
    ensures m.friend.Some? <==> m.receiver.Some?
    ensures m.notification.None?
  {
    Message(
      caller,
      if q.friendId != "" then Some(q.receiverId) else None,
      if q.friendId != "" then Some(q.friendId) else None,
      if q.groupId != "" then Some(q.groupId) else None,
      if q.content != "" then Some(q.content) else None,
      None,
      attachments,
      [ReadReceipt(caller, callerName)],
      now)
  }

  /** A sent message counts as read by its sender and by nobody else. */
  lemma ComposedReadBySenderOnly(caller: Id, callerName: string, q: SendRequest, attachments: seq<Attachment>,
                                 now: int, u: Id)
    ensures var m := Compose(caller, callerName, q, attachments, now);
            && m.sender == caller && m.createdAt == now
            && (ReadBy(m, u) <==> u == caller)
            && |m.readBy| == 1
  {
    var m := Compose(caller, callerName, q, attachments, now);
    if u == caller {
      assert m.readBy[0].userId == u;
    }
  }

  /** A chat's message list ends with its last message. */
  predicate LastIsLatest(messages: seq<Id>, lastMessage: Option<Id>) {
    lastMessage.Some? ==> |messages| > 0 && messages[|messages| - 1] == lastMessage.value
  }

  function PushToFriendship(f: Friendship, msgId: Id): Friendship {
    f.(messages := f.messages + [msgId], lastMessage := Some(msgId))
  }

  function PushToGroup(g: Group, msgId: Id): Group {
    g.(messages := g.messages + [msgId], lastMessage := Some(msgId))
  }

  /** Pushing a message makes it the chat's last message, keeps the earlier
      ones in order, and keeps the chat's own fields. */
  lemma PushKeepsLastIsLatest(f: Friendship, g: Group, msgId: Id)
    ensures var f2 := PushToFriendship(f, msgId);
            && LastIsLatest(f2.messages, f2.lastMessage) && f2.lastMessage == Some(msgId)
            && f2.messages[..|f.messages|] == f.messages
            && f2.sender == f.sender && f2.receiver == f.receiver && f2.status == f.status && f2.isBlocked == f.isBlocked
    ensures var g2 := PushToGroup(g, msgId);
            && LastIsLatest(g2.messages, g2.lastMessage) && g2.lastMessage == Some(msgId)
            && g2.messages[..|g.messages|] == g.messages
            && g2.owner == g.owner && g2.members == g.members
  {
  }

  method SendMessage(db: Database, caller: Id, callerName: string, q: SendRequest,
                     upload: UploadedFile -> Result<string>, now: int, msgId: Id)
    returns (r: Reply<string>)
    requires msgId !in Ids(db.messages)
    modifies db`messages, db`friends, db`groups
    ensures var c := SendCheck(old(db.users), old(db.friends), old(db.groups), caller, q);
            var up := UploadAll(q.files, upload);
            if c.Err? then
              r == Refuse(c) && unchanged(db)
            else if up.Failure? then
              r == Err(500, ErrorText(up.error)) && unchanged(db)
            else
              && r == Ok("Message sent.")
              && db.messages == old(db.messages) + [Doc(msgId, Compose(caller, callerName, q, up.value, now))]
              && db.groups == (if c.value.group.Some?
                               then Replace(old(db.groups), q.groupId, PushToGroup(c.value.group.value.data, msgId))
                               else old(db.groups))
              && db.friends == (if c.value.friend.Some?
                                then Replace(old(db.friends), q.friendId, PushToFriendship(c.value.friend.value.data, msgId))
                                else old(db.friends))
  {
    var c := SendCheck(db.users, db.friends, db.groups, caller, q);
    if c.Err? {
      return Refuse(c);
    }
    var up := CollectAttachments(q.files, upload);
    if up.Failure? {
      return Err(500, ErrorText(up.error));
    }
    db.messages := db.messages + [Doc(msgId, Compose(caller, callerName, q, up.value, now))];
    if c.value.group.Some? {
      db.groups := Replace(db.groups, q.groupId, PushToGroup(c.value.group.value.data, msgId));
    }
    if c.value.friend.Some? {
      db.friends := Replace(db.friends, q.friendId, PushToFriendship(c.value.friend.value.data, msgId));
    }
    r := Ok("Message sent.");
  }

  // ---- MarkAsRead ----

  /** The conversation a read marking applies to. */
  datatype ReadScope = InGroup(groupId: Id) | InFriendship(friendId: Id)

  /** The messages of the conversation that the marking is about: in a
      group those the caller did not send, in a friendship those addressed
      to the caller. */
  predicate InScope(scope: ReadScope, caller: Id, m: Message) {
    match scope
    case InGroup(g) => m.sender != caller && m.group == Some(g)
    case InFriendship(f) => m.receiver == Some(caller) && m.friend == Some(f)
  }

  predicate Unread(scope: ReadScope, caller: Id, m: Message) {
    InScope(scope, caller, m) && !ReadBy(m, caller)
  }

  function WithReceipt(m: Message, caller: Id, name: string): Message {
    m.(readBy := m.readBy + [ReadReceipt(caller, name)])
  }

  /** The `updateMany` with `$addToSet` over the conversation's unread messages. */
  function MarkRead(messages: seq<Doc<Message>>, scope: ReadScope, caller: Id, name: string): (r: seq<Doc<Message>>)
    ensures |r| == |messages| && forall i :: 0 <= i < |r| ==> r[i].id == messages[i].id
  {
    seq(|messages|, i requires 0 <= i < |messages| =>
      if Unread(scope, caller, messages[i].data)
      then Doc(messages[i].id, WithReceipt(messages[i].data, caller, name))
      else messages[i])
  }

  lemma WithReceiptReads(m: Message, caller: Id, name: string)
    ensures ReadBy(WithReceipt(m, caller, name), caller)
  {
    assert WithReceipt(m, caller, name).readBy[|m.readBy|].userId == caller;
  }

  /** After marking, every message in scope is read by the caller; a message
      gains one receipt exactly when it was unread, and nothing else changes. */
  lemma MarkReadEffect(messages: seq<Doc<Message>>, scope: ReadScope, caller: Id, name: string)
    ensures var after := MarkRead(messages, scope, caller, name);
            && Ids(after) == Ids(messages)
            && (forall i :: 0 <= i < |messages| && InScope(scope, caller, messages[i].data) ==> ReadBy(after[i].data, caller))
            && (forall i :: 0 <= i < |messages| && !Unread(scope, caller, messages[i].data) ==> after[i] == messages[i])
            && (forall i :: 0 <= i < |messages| && Unread(scope, caller, messages[i].data) ==>
                  after[i].data.readBy == messages[i].data.readBy + [ReadReceipt(caller, name)]
                  && after[i].data.(readBy := messages[i].data.readBy) == messages[i].data)
  {
    var after := MarkRead(messages, scope, caller, name);
    forall i | 0 <= i < |messages| && InScope(scope, caller, messages[i].data) ensures ReadBy(after[i].data, caller) {
      if !ReadBy(messages[i].data, caller) {
        WithReceiptReads(messages[i].data, caller, name);
      }
    }
  }

  /** Marking twice is marking once. */
  lemma MarkReadIdempotent(messages: seq<Doc<Message>>, scope: ReadScope, caller: Id, name: string)
    ensures MarkRead(MarkRead(messages, scope, caller, name), scope, caller, name) == MarkRead(messages, scope, caller, name)
  {
    var once := MarkRead(messages, scope, caller, name);
    var twice := MarkRead(once, scope, caller, name);
    forall i | 0 <= i < |messages| ensures twice[i] == once[i] {
      if Unread(scope, caller, messages[i].data) {
        WithReceiptReads(messages[i].data, caller, name);
        assert !Unread(scope, caller, once[i].data);
      }
    }
  }

  const InvalidId := "Invalid ID"
  const ConversationNotFound := "Conversation not found"

  /** The guards of `MarkAsRead`: a friendship with this id wins over a group;
      in a friendship only its parties, in a group only owner and members. */
  function ReadTarget(friends: seq<Doc<Friendship>>, groups: seq<Doc<Group>>, caller: Id, id: string)
    : (r: Reply<ReadScope>)
    ensures r.Ok? <==>
              IsObjectId(id) &&
              (if Find(friends, id).Some? then IsParticipant(Find(friends, id).value, caller)
               else Find(groups, id).Some? && IsOwnerOrMember(Find(groups, id).value, caller))
    ensures r.Ok? ==> r.value == if Find(friends, id).Some? then InFriendship(id) else InGroup(id)
    ensures r.Err? ==> r.status == 404
  {
    if !IsObjectId(id) then Err(404, InvalidId)
    else match Find(friends, id)
      case Some(f) => if IsParticipant(f, caller) then Ok(InFriendship(id)) else Err(404, ConversationNotFound)
      case None =>
        match Find(groups, id)
        case None => Err(404, ConversationNotFound)
        case Some(g) => if !IsOwnerOrMember(g, caller) then Err(404, NotAMember) else Ok(InGroup(id))
  }

  method MarkAsRead(db: Database, caller: Id, callerName: string, id: string) returns (r: Reply<string>)
    modifies db`messages
    ensures var c := ReadTarget(old(db.friends), old(db.groups), caller, id);
            if c.Err? then
              r == Refuse(c) && db.messages == old(db.messages)
            else
              r == Ok("Conversation marked as read") && db.messages == MarkRead(old(db.messages), c.value, caller, callerName)
  {
    var c := ReadTarget(db.friends, db.groups, caller, id);
    if c.Err? {
      return Refuse(c);
    }
    db.messages := MarkRead(db.messages, c.value, caller, callerName);
    r := Ok("Conversation marked as read");
  }

  // ---- GetMessages ----

  function MessageTime(d: Doc<Message>): int {
    d.data.createdAt
  }

  /** The messages of a friendship the caller sees: those the caller sent or received. */
  predicate InFriendView(friendId: Id, caller: Id, m: Message) {
    m.friend == Some(friendId) && (m.sender == caller || m.receiver == Some(caller))
  }

  function FriendViewFilter(friendId: Id, caller: Id): Message -> bool {
    m => InFriendView(friendId, caller, m)
  }

  predicate InGroupView(groupId: Id, m: Message) {
    m.group == Some(groupId)
  }

  function GroupViewFilter(groupId: Id): Message -> bool {
    m => InGroupView(groupId, m)
  }

  /** The chat shown beside the messages. The reply sends
      `friend.blockedBy || null`, so a `blockedBy` never set and one
      cleared to `null` both go out as `null` (`None`). */
  datatype ChatItem =
    | GroupItem(group: Doc<Group>)
    | FriendItem(user: Id, isBlocked: bool, blockedBy: Option<Id>, friendshipId: Id)

  datatype Conversation = Conversation(messages: seq<Doc<Message>>, chatItem: ChatItem)

  /** `GetMessages`: a friendship of the caller's with this id wins over a
      group; the messages come newest first. */
  function GetMessages(friends: seq<Doc<Friendship>>, groups: seq<Doc<Group>>, messages: seq<Doc<Message>>,
                       caller: Id, id: string)
    : (r: Reply<Conversation>)
    ensures r.Err? ==> r.status == 404
    ensures r.Ok? <==>
              IsObjectId(id) &&
              ((Find(friends, id).Some? && IsParticipant(Find(friends, id).value, caller))
               || (Find(groups, id).Some? && IsOwnerOrMember(Find(groups, id).value, caller)))
  {
    if !IsObjectId(id) then Err(404, InvalidId)
    else if Find(friends, id).Some? && IsParticipant(Find(friends, id).value, caller) then
      var f := Find(friends, id).value;
      Ok(Conversation(SortDesc(Select(messages, FriendViewFilter(id, caller)), MessageTime),
                      FriendItem(OtherParty(f, caller), f.isBlocked,
                                 if f.blockedBy.Blocker? then Some(f.blockedBy.user) else None, id)))
    else match Find(groups, id)
      case None => Err(404, ConversationNotFound)
      case Some(g) =>
        if !IsOwnerOrMember(g, caller) then Err(404, NotAMember)
        else Ok(Conversation(SortDesc(Select(messages, GroupViewFilter(id)), MessageTime), GroupItem(Doc(id, g))))
  }

  /** The conversation comes newest first and holds exactly the chat's
      messages the caller may see, each once. */
  lemma {:induction false} GetMessagesNewestFirst(friends: seq<Doc<Friendship>>, groups: seq<Doc<Group>>,
                                                  messages: seq<Doc<Message>>, caller: Id, id: string)
    requires GetMessages(friends, groups, messages, caller, id).Ok?
    ensures var conv := GetMessages(friends, groups, messages, caller, id).value;
            && SortedDesc(conv.messages, MessageTime)
            && (conv.chatItem.FriendItem? ==>
                  multiset(conv.messages) == multiset(Select(messages, FriendViewFilter(id, caller)))
                  && conv.chatItem.user == OtherParty(Find(friends, id).value, caller))
            && (conv.chatItem.GroupItem? ==> multiset(conv.messages) == multiset(Select(messages, GroupViewFilter(id))))
            && (forall d :: d in conv.messages ==>
                  d in messages
                  && (if conv.chatItem.FriendItem? then InFriendView(id, caller, d.data) else InGroupView(id, d.data)))
  {
    var conv := GetMessages(friends, groups, messages, caller, id).value;
    if Find(friends, id).Some? && IsParticipant(Find(friends, id).value, caller) {
      var sel := Select(messages, FriendViewFilter(id, caller));
      assert conv.messages == SortDesc(sel, MessageTime) && conv.chatItem.FriendItem?;
      SortDescCorrect(sel, MessageTime);
      SelectMembers(messages, FriendViewFilter(id, caller));
      forall d | d in conv.messages ensures d in messages && InFriendView(id, caller, d.data) {
        assert d in multiset(conv.messages);
        assert d in multiset(sel);
        var k :| 0 <= k < |sel| && sel[k] == d;
      }
    } else {
      var sel := Select(messages, GroupViewFilter(id));
      assert conv.messages == SortDesc(sel, MessageTime) && conv.chatItem.GroupItem?;
      SortDescCorrect(sel, MessageTime);
      SelectMembers(messages, GroupViewFilter(id));
      forall d | d in conv.messages ensures d in messages && InGroupView(id, d.data) {
        assert d in multiset(conv.messages);
        assert d in multiset(sel);
        var k :| 0 <= k < |sel| && sel[k] == d;
      }
    }
  }
}
