/** The server's helper library: the upload resource-type rule, and the
    argument checks and field mapping of `createMessage` and
    `createNotification` (project-one/src/lib/utils.ts). */
module ServerUtils {
  import opened Common
  import opened Store

  // ---- uploadBuffer ----

  predicate StartsWith(s: string, prefix: string) {
    |prefix| <= |s| && s[..|prefix|] == prefix
  }

  /** A file is uploaded as "raw" unless its MIME type is an image or a video type. */
  predicate IsRawFile(mimetype: string) {
    !StartsWith(mimetype, "image/") && !StartsWith(mimetype, "video/")
  }

  datatype UploadOptions = UploadOptions(folder: string, publicId: string, resourceType: string)

  /** The options `uploadBuffer` hands to the blob store. */
  function UploadOptionsFor(filename: string, mimetype: string): (o: UploadOptions)
    ensures o.folder == "messages" && o.publicId == filename
    ensures o.resourceType == "raw" <==> IsRawFile(mimetype)
    ensures o.resourceType == "auto" <==> !IsRawFile(mimetype)
  {
    UploadOptions("messages", filename, if IsRawFile(mimetype) then "raw" else "auto")
  }

  /** Every image and every video goes up as "auto", whatever follows the slash. */
  lemma MediaIsAuto(sub: string)
    ensures UploadOptionsFor("f", "image/" + sub).resourceType == "auto"
    ensures UploadOptionsFor("f", "video/" + sub).resourceType == "auto"
  {
    assert ("image/" + sub)[..|"image/"|] == "image/";
    assert ("video/" + sub)[..|"video/"|] == "video/";
  }

  // ---- createMessage ----

  /** The arguments of `createMessage`; an empty string is an argument that
      was not supplied (every check in the source tests it for falsiness). */
  datatype MessageParams = MessageParams(
    senderId: Id,
    friendId: string,
    groupId: string,
    receiverId: string,
    notification: string)

  function Supplied(s: string): Option<Id> {
    if s == "" then None else Some(s)
  }

  const NoChatError := "Friend ID or Group ID is required"
  const PairError := "Both Friend ID and Receiver ID are required"
  const BadFriendError := "Invalid friendId"
  const BadReceiverError := "Invalid receiverId"
  const BadGroupError := "Invalid groupId"

  /** The first two checks of `createMessage` pass: a chat is named, and a
      friendship comes with its receiver and only then. */
  predicate Paired(p: MessageParams) {
    (p.friendId != "" || p.groupId != "") && ((p.friendId == "") == (p.receiverId == ""))
  }

  /** What `createMessage` builds and saves, or the message of the error it throws. */
  function CreateMessage(p: MessageParams, now: int): (r: Result<Message>)
    // the checks, in the order the source runs them
    ensures p.friendId == "" && p.groupId == "" ==> r == Failure(NoChatError)
    ensures ((p.friendId != "" || p.groupId != "") && ((p.friendId == "") != (p.receiverId == "")))
              ==> r == Failure(PairError)
    ensures Paired(p) && p.friendId != "" && !IsObjectId(p.friendId) ==> r == Failure(BadFriendError)
    ensures (Paired(p) && (p.friendId != "" ==> IsObjectId(p.friendId)) && p.receiverId != "" && !IsObjectId(p.receiverId))
              ==> r == Failure(BadReceiverError)
    ensures (Paired(p) && (p.friendId != "" ==> IsObjectId(p.friendId)) && (p.receiverId != "" ==> IsObjectId(p.receiverId))
             && p.groupId != "" && !IsObjectId(p.groupId))
              ==> r == Failure(BadGroupError)
    ensures r.Success? <==>
              && Paired(p)
              && (p.friendId != "" ==> IsObjectId(p.friendId))
              && (p.receiverId != "" ==> IsObjectId(p.receiverId))
              && (p.groupId != "" ==> IsObjectId(p.groupId))
    // the saved document: each reference is present exactly when it was supplied
    ensures r.Success? ==>
              && r.value.sender == p.senderId
              && r.value.receiver == Supplied(p.receiverId)
              && r.value.friend == Supplied(p.friendId)
              && r.value.group == Supplied(p.groupId)
              && r.value.notification == Supplied(p.notification)
              && r.value.content.None? && r.value.attachments == [] && r.value.readBy == []
              && r.value.createdAt == now
  {
    if p.friendId == "" && p.groupId == "" then Failure(NoChatError)
    else if (p.friendId != "" && p.receiverId == "") || (p.friendId == "" && p.receiverId != "") then Failure(PairError)
    else if p.friendId != "" && !IsObjectId(p.friendId) then Failure(BadFriendError)
    else if p.receiverId != "" && !IsObjectId(p.receiverId) then Failure(BadReceiverError)
    else if p.groupId != "" && !IsObjectId(p.groupId) then Failure(BadGroupError)
    else
      Success(Message(
        p.senderId,
        Supplied(p.receiverId),
        Supplied(p.friendId),
        Supplied(p.groupId),
        None,
        Supplied(p.notification),
        [],
        [],
        now))
  }

  /** A friendship notification with well-formed ids is always created. */
  lemma FriendNoticeCreated(sender: Id, friendId: Id, receiverId: Id, text: string, now: int)
    requires IsObjectId(friendId) && IsObjectId(receiverId)
    ensures CreateMessage(MessageParams(sender, friendId, "", receiverId, text), now).Success?
  {
  }

  /** `createMessage(...)` followed by `message.save()`: the new message is
      appended to the messages collection under the id Mongo assigns. */
  method SaveMessage(db: Database, p: MessageParams, now: int, msgId: Id) returns (r: Result<Id>)
    requires msgId !in Ids(db.messages)
    modifies db`messages
    ensures CreateMessage(p, now).Success? ==>
              r == Success(msgId) && db.messages == old(db.messages) + [Doc(msgId, CreateMessage(p, now).value)]
    ensures CreateMessage(p, now).Failure? ==>
              r == Failure(CreateMessage(p, now).error) && db.messages == old(db.messages)
  {
    var m := CreateMessage(p, now);
    if m.Failure? {
      return Failure(m.error);
    }
    db.messages := db.messages + [Doc(msgId, m.value)];
    r := Success(msgId);
  }

  /** How a handler ends that saves a notification message with
      `createMessage` as its last step: the message is appended and the
      handler answers `okText`, or `createMessage` throws and the handler's
      catch block answers 500 with the thrown message (updates made before
      the call stay in place). */
  predicate NoticeOutcome(before: seq<Doc<Message>>, after: seq<Doc<Message>>, p: MessageParams,
                          now: int, msgId: Id, okText: string, r: Reply<string>)
  {
    match CreateMessage(p, now)
    case Success(m) => after == before + [Doc(msgId, m)] && r == Ok(okText)
    case Failure(e) => after == before && r == Err(500, e)
  }

  /** `await createMessage(...)` followed by the success reply. */
  method PostNotice(db: Database, p: MessageParams, now: int, msgId: Id, okText: string) returns (r: Reply<string>)
    requires msgId !in Ids(db.messages)
    modifies db`messages
    ensures NoticeOutcome(old(db.messages), db.messages, p, now, msgId, okText, r)
  {
    var saved := SaveMessage(db, p, now, msgId);
    if saved.Failure? {
      return Err(500, saved.error);
    }
    r := Ok(okText);
  }

  // ---- createNotification ----

  datatype BelongsToModel = UserModel | MessageModel | FriendModel | GroupModel

  /** The notification document, with the schema's `receiverId` path. */
  datatype Notification = Notification(
    message: string,
    belongsToId: Id,
    belongsToModel: BelongsToModel,
    receiverId: Option<Id>)

  const BadBelongsToError := "Invalid belongsToId"

  /** What `createNotification` builds as written, or the message of the
      error it throws. It passes the receiver under the key `receiver`,
      which the schema (whose path is `receiverId`) does not declare, so
      Mongoose's strict mode drops it and the saved document has no
      receiver. */
  function CreateNotification(message: string, belongsToId: string, model: BelongsToModel, receiverId: string)
    : (r: Result<Notification>)
    ensures !IsObjectId(belongsToId) ==> r == Failure(BadBelongsToError)
    ensures IsObjectId(belongsToId) && receiverId != "" && !IsObjectId(receiverId) ==> r == Failure(BadReceiverError)
    ensures r.Success? <==> IsObjectId(belongsToId) && (receiverId == "" || IsObjectId(receiverId))
    ensures r.Success? ==>
              && r.value.message == message && r.value.belongsToId == belongsToId
              && r.value.belongsToModel == model && r.value.receiverId.None?
  {
    if !IsObjectId(belongsToId) then Failure(BadBelongsToError)
    else if receiverId != "" && !IsObjectId(receiverId) then Failure(BadReceiverError)
    else Success(Notification(message, belongsToId, model, None))
  }

  /** `createNotification` as evidently intended: the receiver is stored under
      `receiverId`, present exactly when it was supplied. */
  function CreateNotificationIntended(message: string, belongsToId: string, model: BelongsToModel, receiverId: string)
    : (r: Result<Notification>)
    ensures r.Failure? <==> CreateNotification(message, belongsToId, model, receiverId).Failure?
    ensures r.Failure? ==> r == CreateNotification(message, belongsToId, model, receiverId)
    ensures r.Success? ==>
              && r.value.receiverId == Supplied(receiverId)
              && r.value == CreateNotification(message, belongsToId, model, receiverId).value.(receiverId := r.value.receiverId)
  {
    if !IsObjectId(belongsToId) then Failure(BadBelongsToError)
    else if receiverId != "" && !IsObjectId(receiverId) then Failure(BadReceiverError)
    else Success(Notification(message, belongsToId, model, Supplied(receiverId)))
  }

  /** A notification created for a receiver, as written, is saved without
      one; the corrected definition keeps it. */
  lemma NotificationReceiverDropped()
    ensures var id := "dddddddddddddddddddddddd";
            var to := "eeeeeeeeeeeeeeeeeeeeeeee";
            && CreateNotification("hi", id, FriendModel, to) == Success(Notification("hi", id, FriendModel, None))
            && CreateNotificationIntended("hi", id, FriendModel, to) == Success(Notification("hi", id, FriendModel, Some(to)))
  {
  }
}
