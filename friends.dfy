/** The friendship controller (project-one/src/controllers/friend.ts): a
    friendship record goes from pending to accepted, may be blocked by one
    of its parties and unblocked by that party only, and may be deleted by
    either party together with its messages. Every guard is a pure
    function answering the reply the handler would send; every handler
    that writes is a method over the database. */
module Friends {
  import opened Common
  import opened Store
  import opened ServerUtils

  // ---- invariants of the friendships collection ----

  /** A record is blocked exactly when it names its blocker, and only an
      accepted friendship is blocked, by one of its own two parties. */
  predicate WellFormed(f: Friendship) {
    && (f.isBlocked <==> f.blockedBy.Blocker?)
    && (f.isBlocked ==> f.status == Accepted && IsParticipant(f, f.blockedBy.user))
  }

  predicate AllWellFormed(friends: seq<Doc<Friendship>>) {
    forall i :: 0 <= i < |friends| ==> WellFormed(friends[i].data)
  }

  /** The schema types `sender` and `receiver` as ObjectId references, so
      every stored record names its two parties by ObjectId strings. */
  predicate PartiesAreObjectIds(friends: seq<Doc<Friendship>>) {
    forall i :: 0 <= i < |friends| ==> IsObjectId(friends[i].data.sender) && IsObjectId(friends[i].data.receiver)
  }

  /** `f` links `a` and `b`, in either direction. */
  predicate Between(f: Friendship, a: Id, b: Id) {
    (f.sender == a && f.receiver == b) || (f.sender == b && f.receiver == a)
  }

  predicate PairExists(friends: seq<Doc<Friendship>>, a: Id, b: Id) {
    exists i :: 0 <= i < |friends| && Between(friends[i].data, a, b)
  }

  /** No two records link the same two users. */
  predicate PairsUnique(friends: seq<Doc<Friendship>>) {
    forall i, j :: 0 <= i < j < |friends| ==> !Between(friends[i].data, friends[j].data.sender, friends[j].data.receiver)
  }

  predicate NoSelfFriendship(friends: seq<Doc<Friendship>>) {
    forall i :: 0 <= i < |friends| ==> friends[i].data.sender != friends[i].data.receiver
  }

  // ---- the record transitions ----

  function Accept(f: Friendship): Friendship {
    f.(status := Accepted)
  }

  function Block(f: Friendship, blocker: Id): Friendship {
    f.(isBlocked := true, blockedBy := Blocker(blocker))
  }

  /** `$set: { isBlocked: false, blockedBy: null }`. */
  function Unblock(f: Friendship): Friendship {
    f.(isBlocked := false, blockedBy := Cleared)
  }

  /** The record `Friend.create({ sender, receiver })` stores, with the schema's defaults. */
  function NewRequest(sender: Id, receiver: Id): Friendship {
    Friendship(sender, receiver, Pending, false, Absent, [], None)
  }

  // ---- reads ----

  const FriendIdRequired := "Friend ID is required"
  const InvalidFriendId := "Invalid Friend ID"
  const FriendNotFound := "Friend not found"
  const NotEligibleToView := "You are not eligible to view this friend"

  /** `GetFriendById`: only a record that is not blocked is found, and only
      one of its parties may see it. */
  function GetFriendById(friends: seq<Doc<Friendship>>, caller: Id, friendId: string): (r: Reply<Friendship>)
    ensures r.Ok? <==>
              && IsObjectId(friendId)
              && Find(friends, friendId).Some?
              && !Find(friends, friendId).value.isBlocked
              && IsParticipant(Find(friends, friendId).value, caller)
    ensures r.Ok? ==> Doc(friendId, r.value) in friends && !r.value.isBlocked && IsParticipant(r.value, caller)
    ensures r.Err? ==> r.status == 404 || r.status == 401
    ensures r.Err? && r.status == 401 <==>
              && IsObjectId(friendId)
              && Find(friends, friendId).Some?
              && !Find(friends, friendId).value.isBlocked
              && !IsParticipant(Find(friends, friendId).value, caller)
  {
    if friendId == "" then Err(404, FriendIdRequired)
    else if !IsObjectId(friendId) then Err(404, InvalidFriendId)
    else match Find(friends, friendId)
      case None => Err(404, FriendNotFound)
      case Some(f) =>
        if f.isBlocked then Err(404, FriendNotFound)
        else if !IsParticipant(f, caller) then Err(401, NotEligibleToView)
        else Ok(f)
  }

  /** One element of the `GetAllFriends` answer: the other party and the status flags. */
  datatype FriendEntry = FriendEntry(user: Id, isAccepted: bool, isPending: bool)

  predicate Visible(caller: Id, f: Friendship) {
    !f.isBlocked && IsParticipant(f, caller)
  }

  function VisibleTo(caller: Id): Friendship -> bool {
    f => Visible(caller, f)
  }

  function EntryOf(f: Friendship, caller: Id): FriendEntry {
    FriendEntry(OtherParty(f, caller), f.status == Accepted, f.status == Pending)
  }

  /** `GetAllFriends`: one entry per visible friendship, in collection order. */
  function GetAllFriends(friends: seq<Doc<Friendship>>, caller: Id): (r: seq<FriendEntry>)
    ensures |r| <= |friends|
    ensures forall e :: e in r ==> e.isAccepted != e.isPending
  {
    SelectMembers(friends, VisibleTo(caller));
    var sel := Select(friends, VisibleTo(caller));
    seq(|sel|, i requires 0 <= i < |sel| => EntryOf(sel[i].data, caller))
  }

  /** Every friendship of the caller that is not blocked yields an entry for
      its other party, every entry comes from one, and each entry is either
      accepted or pending. */
  lemma GetAllFriendsListsVisible(friends: seq<Doc<Friendship>>, caller: Id)
    ensures forall d :: d in friends && Visible(caller, d.data) ==> EntryOf(d.data, caller) in GetAllFriends(friends, caller)
    ensures forall e :: e in GetAllFriends(friends, caller) ==>
              exists d :: d in friends && Visible(caller, d.data) && e == EntryOf(d.data, caller)
    ensures forall e :: e in GetAllFriends(friends, caller) ==> e.isAccepted != e.isPending
    ensures |GetAllFriends(friends, caller)| <= |friends|
  {
    var sel := Select(friends, VisibleTo(caller));
    var out := GetAllFriends(friends, caller);
    SelectMembers(friends, VisibleTo(caller));
    forall d | d in friends && Visible(caller, d.data) ensures EntryOf(d.data, caller) in out {
      var k :| 0 <= k < |sel| && sel[k] == d;
      assert out[k] == EntryOf(d.data, caller);
    }
    forall e | e in out ensures exists d :: d in friends && Visible(caller, d.data) && e == EntryOf(d.data, caller) {
      var k :| 0 <= k < |out| && out[k] == e;
      assert sel[k] in friends && VisibleTo(caller)(sel[k].data);
    }
  }

  /** One element of the pending and blocked lists: the record's id and the other party. */
  datatype ListedFriendship = ListedFriendship(friendship: Id, user: Id)

  function ListOf(sel: seq<Doc<Friendship>>, caller: Id): (r: seq<ListedFriendship>)
    ensures |r| == |sel|
    ensures forall i :: 0 <= i < |sel| ==> r[i] == ListedFriendship(sel[i].id, OtherParty(sel[i].data, caller))
  {
    seq(|sel|, i requires 0 <= i < |sel| => ListedFriendship(sel[i].id, OtherParty(sel[i].data, caller)))
  }

  /** The listed entry at a position comes from a selected friendship. */
  lemma ListedAt(friends: seq<Doc<Friendship>>, keep: Friendship -> bool, caller: Id, e: ListedFriendship)
    returns (d: Doc<Friendship>)
    requires e in ListOf(Select(friends, keep), caller)
    ensures d in friends && keep(d.data) && e == ListedFriendship(d.id, OtherParty(d.data, caller))
  {
    var sel := Select(friends, keep);
    var out := ListOf(sel, caller);
    var k :| 0 <= k < |out| && out[k] == e;
    SelectMembers(friends, keep);
    d := sel[k];
  }

  /** Every selected friendship has its entry in the list. */
  lemma {:induction false} ListedHas(friends: seq<Doc<Friendship>>, keep: Friendship -> bool, caller: Id,
                                     d: Doc<Friendship>)
    requires d in friends && keep(d.data)
    ensures ListedFriendship(d.id, OtherParty(d.data, caller)) in ListOf(Select(friends, keep), caller)
  {
    var sel := Select(friends, keep);
    SelectMembers(friends, keep);
    var k :| 0 <= k < |sel| && sel[k] == d;
    assert ListOf(sel, caller)[k] == ListedFriendship(d.id, OtherParty(d.data, caller));
  }

  predicate PendingFor(caller: Id, f: Friendship) {
    f.status == Pending && f.receiver == caller
  }

  function PendingFilter(caller: Id): Friendship -> bool {
    f => PendingFor(caller, f)
  }

  /** `GetPendingFriends`: for each pending request to the caller, in collection order. */
  function GetPendingFriends(friends: seq<Doc<Friendship>>, caller: Id): (r: seq<ListedFriendship>)
    ensures |r| <= |friends|
    ensures forall i :: 0 <= i < |r| ==> r[i].friendship in Ids(friends)
  {
    SelectMembers(friends, PendingFilter(caller));
    ListOf(Select(friends, PendingFilter(caller)), caller)
  }

  /** Each listed request is a pending request to the caller, and the listed
      user is the one who sent it. */
  lemma GetPendingFriendsAreRequests(friends: seq<Doc<Friendship>>, caller: Id)
    ensures forall e :: e in GetPendingFriends(friends, caller) ==>
              exists d :: d in friends && d.id == e.friendship && PendingFor(caller, d.data) && e.user == d.data.sender
    ensures forall d :: d in friends && PendingFor(caller, d.data) ==>
              ListedFriendship(d.id, d.data.sender) in GetPendingFriends(friends, caller)
  {
    forall e | e in GetPendingFriends(friends, caller)
      ensures exists d :: d in friends && d.id == e.friendship && PendingFor(caller, d.data) && e.user == d.data.sender
    {
      var d := ListedAt(friends, PendingFilter(caller), caller, e);
      assert PendingFor(caller, d.data);
    }
    forall d | d in friends && PendingFor(caller, d.data)
      ensures ListedFriendship(d.id, d.data.sender) in GetPendingFriends(friends, caller)
    {
      assert PendingFilter(caller)(d.data);
      ListedHas(friends, PendingFilter(caller), caller, d);
    }
  }


  predicate BlockedByCaller(caller: Id, f: Friendship) {
    f.isBlocked && f.blockedBy == Blocker(caller) && IsParticipant(f, caller)
  }

  function BlockedFilter(caller: Id): Friendship -> bool {
    f => BlockedByCaller(caller, f)
  }

  /** `GetBlockedFriends`: for each friendship the caller has blocked, in collection order. */
  function GetBlockedFriends(friends: seq<Doc<Friendship>>, caller: Id): (r: seq<ListedFriendship>)
    ensures |r| <= |friends|
    ensures forall i :: 0 <= i < |r| ==> r[i].friendship in Ids(friends)
  {
    SelectMembers(friends, BlockedFilter(caller));
    ListOf(Select(friends, BlockedFilter(caller)), caller)
  }

  lemma GetBlockedFriendsAreBlockedByCaller(friends: seq<Doc<Friendship>>, caller: Id)
    ensures forall e :: e in GetBlockedFriends(friends, caller) ==>
              exists d :: d in friends && d.id == e.friendship && BlockedByCaller(caller, d.data)
                          && e.user == OtherParty(d.data, caller)
    ensures forall d :: d in friends && BlockedByCaller(caller, d.data) ==>
              ListedFriendship(d.id, OtherParty(d.data, caller)) in GetBlockedFriends(friends, caller)
  {
    forall e | e in GetBlockedFriends(friends, caller)
      ensures exists d :: d in friends && d.id == e.friendship && BlockedByCaller(caller, d.data)
                          && e.user == OtherParty(d.data, caller)
    {
      var d := ListedAt(friends, BlockedFilter(caller), caller, e);
      assert BlockedByCaller(caller, d.data);
    }
    forall d | d in friends && BlockedByCaller(caller, d.data)
      ensures ListedFriendship(d.id, OtherParty(d.data, caller)) in GetBlockedFriends(friends, caller)
    {
      assert BlockedFilter(caller)(d.data);
      ListedHas(friends, BlockedFilter(caller), caller, d);
    }
  }


  // ---- SendRequst ----

  const InvalidReceiver := "Invalid Receiver ID"
  const ReceiverNotFound := "Receiver not found"
  const SelfRequest := "You cannot send request to yourself"
  const FriendExists := "Friend already exists"

  /** The guards of `SendRequst` as evidently intended: the receiver must be
      a registered user other than the caller, and no friendship may link
      the two yet. The answer is the receiver's id. */
  function SendRequestCheck(users: seq<Doc<User>>, friends: seq<Doc<Friendship>>, caller: Id, receiverId: string)
    : (r: Reply<Id>)
    ensures r.Ok? <==>
              IsObjectId(receiverId) && receiverId in Ids(users) && receiverId != caller
              && !PairExists(friends, caller, receiverId)
    ensures r.Ok? ==> r.value == receiverId
    ensures r.Err? ==> r.status == 400
    ensures (IsObjectId(receiverId) && receiverId in Ids(users) && receiverId != caller
               && PairExists(friends, caller, receiverId)) ==> r == Err(400, FriendExists)
  {
    if receiverId == "" || !IsObjectId(receiverId) then Err(400, InvalidReceiver)
    else if Find(users, receiverId).None? then Err(400, ReceiverNotFound)
    else if receiverId == caller then Err(400, SelfRequest)
    else if PairExists(friends, caller, receiverId) then Err(400, FriendExists)
    else Ok(receiverId)
  }

  /** The guards of `SendRequst` as written: its self-check compares two
      ObjectId objects with `===`, which holds only for one and the same
      object, and the two ids come from two separate documents, so it never
      refuses. */
  function SendRequestCheckAsWritten(users: seq<Doc<User>>, friends: seq<Doc<Friendship>>, caller: Id, receiverId: string)
    : (r: Reply<Id>)
    ensures r.Ok? <==> IsObjectId(receiverId) && receiverId in Ids(users) && !PairExists(friends, caller, receiverId)
    ensures r.Ok? ==> r.value == receiverId
  {
    if receiverId == "" || !IsObjectId(receiverId) then Err(400, InvalidReceiver)
    else if Find(users, receiverId).None? then Err(400, ReceiverNotFound)
    else if PairExists(friends, caller, receiverId) then Err(400, FriendExists)
    else Ok(receiverId)
  }

  /** A registered user with no friendships can send a request to themself
      under the code as written, which the corrected guard refuses. */
  lemma SelfRequestSlipsThrough()
    ensures var me := "aaaaaaaaaaaaaaaaaaaaaaaa";
            var users := [Doc(me, User("Ann", "ann", None, None, true, false, None, None))];
            && SendRequestCheckAsWritten(users, [], me, me) == Ok(me)
            && SendRequestCheck(users, [], me, me) == Err(400, SelfRequest)
  {
    var me := "aaaaaaaaaaaaaaaaaaaaaaaa";
    var users := [Doc(me, User("Ann", "ann", None, None, true, false, None, None))];
    assert Ids(users)[0] == me;
    assert !PairExists([], me, me);
  }

  /** The two guards differ only on a request to oneself. */
  lemma SendRequestChecksAgree(users: seq<Doc<User>>, friends: seq<Doc<Friendship>>, caller: Id, receiverId: string)
    requires receiverId != caller
    ensures SendRequestCheck(users, friends, caller, receiverId) == SendRequestCheckAsWritten(users, friends, caller, receiverId)
  {
  }

  method SendRequest(db: Database, caller: Id, receiverId: string, newId: Id) returns (r: Reply<string>)
    requires newId !in Ids(db.friends)
    modifies db`friends
    ensures var c := SendRequestCheckAsWritten(old(db.users), old(db.friends), caller, receiverId);
            if c.Ok? then
              r == Ok("Send Request Successful") && db.friends == old(db.friends) + [Doc(newId, NewRequest(caller, receiverId))]
            else
              r == Refuse(c) && db.friends == old(db.friends)
  {
    var c := SendRequestCheckAsWritten(db.users, db.friends, caller, receiverId);
    if c.Err? {
      return Refuse(c);
    }
    db.friends := db.friends + [Doc(newId, NewRequest(caller, receiverId))];
    r := Ok("Send Request Successful");
  }

  /** A request the guard as written lets through still keeps the pairs
      unique and the records well formed; it may link a user to themself. */
  lemma {:induction false} SendRequestAsWrittenKeepsPairs(users: seq<Doc<User>>, friends: seq<Doc<Friendship>>,
                                                          caller: Id, receiverId: string, newId: Id)
    requires PairsUnique(friends) && AllWellFormed(friends)
    requires SendRequestCheckAsWritten(users, friends, caller, receiverId).Ok?
    ensures var after := friends + [Doc(newId, NewRequest(caller, receiverId))];
            PairsUnique(after) && AllWellFormed(after)
  {
    var after := friends + [Doc(newId, NewRequest(caller, receiverId))];
    forall i, j | 0 <= i < j < |after|
      ensures !Between(after[i].data, after[j].data.sender, after[j].data.receiver)
    {
      if j == |friends| {
        assert after[i] == friends[i];
        assert !Between(friends[i].data, caller, receiverId);
      } else {
        assert after[i] == friends[i] && after[j] == friends[j];
      }
    }
    forall i | 0 <= i < |after| ensures WellFormed(after[i].data) {
      if i < |friends| {
        assert after[i] == friends[i];
      }
    }
  }

  /** A request names the signed-in caller and a receiver the guard has
      checked, so the stored parties stay ObjectIds. */
  lemma SendRequestKeepsObjectIds(users: seq<Doc<User>>, friends: seq<Doc<Friendship>>,
                                  caller: Id, receiverId: string, newId: Id)
    requires PartiesAreObjectIds(friends) && IsObjectId(caller)
    requires SendRequestCheckAsWritten(users, friends, caller, receiverId).Ok?
    ensures PartiesAreObjectIds(friends + [Doc(newId, NewRequest(caller, receiverId))])
  {
    var after := friends + [Doc(newId, NewRequest(caller, receiverId))];
    forall i | 0 <= i < |after| ensures IsObjectId(after[i].data.sender) && IsObjectId(after[i].data.receiver) {
      if i < |friends| {
        assert after[i] == friends[i];
      }
    }
  }

  /** A request the corrected guard lets through keeps the collection free
      of duplicate pairs and of self-friendships, and well formed. */
  lemma {:induction false} SendRequestKeepsInvariants(users: seq<Doc<User>>, friends: seq<Doc<Friendship>>, caller: Id,
                                                      receiverId: string, newId: Id)
    requires PairsUnique(friends) && NoSelfFriendship(friends) && AllWellFormed(friends)
    requires SendRequestCheck(users, friends, caller, receiverId).Ok?
    ensures var after := friends + [Doc(newId, NewRequest(caller, receiverId))];
            PairsUnique(after) && NoSelfFriendship(after) && AllWellFormed(after)
  {
    var after := friends + [Doc(newId, NewRequest(caller, receiverId))];
    forall i, j | 0 <= i < j < |after|
      ensures !Between(after[i].data, after[j].data.sender, after[j].data.receiver)
    {
      if j == |friends| {
        assert after[i] == friends[i];
        assert !Between(friends[i].data, caller, receiverId);
      } else {
        assert after[i] == friends[i] && after[j] == friends[j];
      }
    }
    forall i | 0 <= i < |after| ensures after[i].data.sender != after[i].data.receiver && WellFormed(after[i].data) {
      if i < |friends| {
        assert after[i] == friends[i];
      }
    }
  }

  // ---- AcceptRequst and RejectRequest ----

  const NotReceiver := "You are not the receiver of this friend request"
  const AlreadyAccepted := "Friend request is already accepted"

  /** The guards `AcceptRequst` and `RejectRequest` share: only the receiver
      of a request still pending may answer it. The answer is the record. */
  function PendingRequestCheck(friends: seq<Doc<Friendship>>, caller: Id, friendshipId: string): (r: Reply<Friendship>)
    ensures r.Ok? <==>
              && IsObjectId(friendshipId)
              && Find(friends, friendshipId).Some?
              && Find(friends, friendshipId).value.receiver == caller
              && Find(friends, friendshipId).value.status == Pending
    ensures r.Ok? ==> Doc(friendshipId, r.value) in friends && r.value.receiver == caller && r.value.status == Pending
    ensures r.Err? ==> r.status == 400
  {
    if friendshipId == "" || !IsObjectId(friendshipId) then Err(400, InvalidFriendId)
    else match Find(friends, friendshipId)
      case None => Err(400, FriendNotFound)
      case Some(f) =>
        if f.receiver != caller then Err(400, NotReceiver)
        else if f.status != Pending then Err(400, AlreadyAccepted)
        else Ok(f)
  }

  /** The notification the handlers send to the other party. */
  function Notice(caller: Id, friendshipId: Id, to: Id, text: string): MessageParams {
    MessageParams(caller, friendshipId, "", to, text)
  }

  /** A stored record's parties are ObjectIds, so the notice a handler posts
      to one of them passes every check of `createMessage`. */
  lemma NoticeToPartyCreated(friends: seq<Doc<Friendship>>, friendshipId: Id, f: Friendship, caller: Id,
                             text: string, now: int)
    requires PartiesAreObjectIds(friends) && Doc(friendshipId, f) in friends && IsObjectId(friendshipId)
    ensures IsObjectId(f.sender) && IsObjectId(f.receiver)
    ensures IsParticipant(f, caller) ==> CreateMessage(Notice(caller, friendshipId, OtherParty(f, caller), text), now).Success?
    ensures CreateMessage(Notice(caller, friendshipId, f.sender, text), now).Success?
  {
    var i :| 0 <= i < |friends| && friends[i] == Doc(friendshipId, f);
  }

  method AcceptRequest(db: Database, caller: Id, callerName: string, friendshipId: string, now: int, msgId: Id)
    returns (r: Reply<string>)
    requires msgId !in Ids(db.messages) && PartiesAreObjectIds(db.friends)
    modifies db`friends, db`messages
    ensures PendingRequestCheck(old(db.friends), caller, friendshipId).Ok? ==> r == Ok("Accept Friend Request Successful")
    ensures var c := PendingRequestCheck(old(db.friends), caller, friendshipId);
            if c.Err? then
              r == Refuse(c) && db.friends == old(db.friends) && db.messages == old(db.messages)
            else
              && db.friends == Replace(old(db.friends), friendshipId, Accept(c.value))
              && NoticeOutcome(old(db.messages), db.messages,
                               Notice(caller, friendshipId, c.value.sender, callerName + " accepted your friend request"),
                               now, msgId, "Accept Friend Request Successful", r)
  {
    var c := PendingRequestCheck(db.friends, caller, friendshipId);
    if c.Err? {
      return Refuse(c);
    }
    NoticeToPartyCreated(db.friends, friendshipId, c.value, caller, callerName + " accepted your friend request", now);
    db.friends := Replace(db.friends, friendshipId, Accept(c.value));
    r := PostNotice(db, Notice(caller, friendshipId, c.value.sender, callerName + " accepted your friend request"),
                    now, msgId, "Accept Friend Request Successful");
  }

  method RejectRequest(db: Database, caller: Id, friendshipId: string) returns (r: Reply<string>)
    modifies db`friends
    ensures var c := PendingRequestCheck(old(db.friends), caller, friendshipId);
            if c.Err? then
              r == Refuse(c) && db.friends == old(db.friends)
            else
              r == Ok("Reject Friend Request Successful") && db.friends == Remove(old(db.friends), friendshipId)
  {
    var c := PendingRequestCheck(db.friends, caller, friendshipId);
    if c.Err? {
      return Refuse(c);
    }
    db.friends := Remove(db.friends, friendshipId);
    r := Ok("Reject Friend Request Successful");
  }

  /** A request cannot be answered twice: once accepted, the same caller's
      second accept or reject is refused. */
  lemma {:induction false} AcceptIsFinal(friends: seq<Doc<Friendship>>, caller: Id, friendshipId: string)
    requires PendingRequestCheck(friends, caller, friendshipId).Ok?
    ensures var after := Replace(friends, friendshipId, Accept(PendingRequestCheck(friends, caller, friendshipId).value));
            PendingRequestCheck(after, caller, friendshipId) == Err(400, AlreadyAccepted)
  {
    var f := PendingRequestCheck(friends, caller, friendshipId).value;
    FindReplaced(friends, friendshipId, Accept(f), friendshipId);
  }

  /** After a reject the record is gone, so a second answer finds nothing. */
  lemma RejectIsFinal(friends: seq<Doc<Friendship>>, caller: Id, friendshipId: string)
    requires PendingRequestCheck(friends, caller, friendshipId).Ok?
    ensures PendingRequestCheck(Remove(friends, friendshipId), caller, friendshipId) == Err(400, FriendNotFound)
  {
  }

  // ---- BlockFriend, UnBlockFriend ----

  const BlockNotAccepted := "You cannot block a friend that is not accepted"
  const NotEligibleToBlock := "You are not eligible to block this user"
  const NotEligibleToUnblock := "You are not eligible to unblock this user"
  /** The replies when the guard calls `toString` on a `blockedBy` that
      holds no blocker: the message of the `TypeError` thrown, which the
      catch block answers with 500. */
  const BlockedByUndefined := "Cannot read properties of undefined (reading 'toString')"
  const BlockedByNull := "Cannot read properties of null (reading 'toString')"

  /** The guards of `BlockFriend`: the friendship must be accepted and the
      caller one of its parties. A friendship already blocked by the other
      party passes, and the caller becomes the blocker. */
  function BlockCheck(friends: seq<Doc<Friendship>>, caller: Id, friendshipId: string): (r: Reply<Friendship>)
    ensures r.Ok? <==>
              && IsObjectId(friendshipId)
              && Find(friends, friendshipId).Some?
              && Find(friends, friendshipId).value.status == Accepted
              && IsParticipant(Find(friends, friendshipId).value, caller)
    ensures r.Ok? ==> Doc(friendshipId, r.value) in friends && r.value.status == Accepted && IsParticipant(r.value, caller)
    ensures r.Err? ==> r.status == 400
  {
    if friendshipId == "" || !IsObjectId(friendshipId) then Err(400, InvalidFriendId)
    else match Find(friends, friendshipId)
      case None => Err(400, FriendNotFound)
      case Some(f) =>
        if f.status != Accepted then Err(400, BlockNotAccepted)
        else if !IsParticipant(f, caller) then Err(400, NotEligibleToBlock)
        else Ok(f)
  }

  /** The guards of `UnBlockFriend`: accepted, the caller a party, and the
      caller the blocker. For a party of a friendship that is not blocked,
      the comparison calls `toString` on a `blockedBy` that is `undefined`
      (never blocked) or `null` (unblocked before), and the error it throws
      is answered with 500. */
  function UnblockCheck(friends: seq<Doc<Friendship>>, caller: Id, friendshipId: string): (r: Reply<Friendship>)
    ensures r.Ok? <==>
              && IsObjectId(friendshipId)
              && Find(friends, friendshipId).Some?
              && Find(friends, friendshipId).value.status == Accepted
              && Find(friends, friendshipId).value.blockedBy == Blocker(caller)
              && IsParticipant(Find(friends, friendshipId).value, caller)
    ensures r.Ok? ==> Doc(friendshipId, r.value) in friends && r.value.blockedBy == Blocker(caller)
    ensures r.Err? && r.status == 500 <==>
              && IsObjectId(friendshipId)
              && Find(friends, friendshipId).Some?
              && Find(friends, friendshipId).value.status == Accepted
              && IsParticipant(Find(friends, friendshipId).value, caller)
              && !Find(friends, friendshipId).value.blockedBy.Blocker?
    ensures r.Err? && r.status == 500 ==>
              r.text == if Find(friends, friendshipId).value.blockedBy.Absent? then BlockedByUndefined else BlockedByNull
    ensures r.Err? && r.status != 500 ==> r.status == 400
  {
    if friendshipId == "" || !IsObjectId(friendshipId) then Err(400, InvalidFriendId)
    else match Find(friends, friendshipId)
      case None => Err(400, FriendNotFound)
      case Some(f) =>
        if f.status != Accepted then Err(400, BlockNotAccepted)
        else if !IsParticipant(f, caller) then Err(400, NotEligibleToUnblock)
        else match f.blockedBy
          case Absent => Err(500, BlockedByUndefined)
          case Cleared => Err(500, BlockedByNull)
          case Blocker(b) => if b != caller then Err(400, NotEligibleToUnblock) else Ok(f)
  }

  method BlockFriend(db: Database, caller: Id, callerName: string, friendshipId: string, now: int, msgId: Id)
    returns (r: Reply<string>)
    requires msgId !in Ids(db.messages) && PartiesAreObjectIds(db.friends)
    modifies db`friends, db`messages
    ensures BlockCheck(old(db.friends), caller, friendshipId).Ok? ==> r == Ok("Block Friend Successful")
    ensures var c := BlockCheck(old(db.friends), caller, friendshipId);
            if c.Err? then
              r == Refuse(c) && db.friends == old(db.friends) && db.messages == old(db.messages)
            else
              && db.friends == Replace(old(db.friends), friendshipId, Block(c.value, caller))
              && NoticeOutcome(old(db.messages), db.messages,
                               Notice(caller, friendshipId, OtherParty(c.value, caller), callerName + " has blocked you"),
                               now, msgId, "Block Friend Successful", r)
  {
    var c := BlockCheck(db.friends, caller, friendshipId);
    if c.Err? {
      return Refuse(c);
    }
    NoticeToPartyCreated(db.friends, friendshipId, c.value, caller, callerName + " has blocked you", now);
    db.friends := Replace(db.friends, friendshipId, Block(c.value, caller));
    r := PostNotice(db, Notice(caller, friendshipId, OtherParty(c.value, caller), callerName + " has blocked you"),
                    now, msgId, "Block Friend Successful");
  }

  method UnBlockFriend(db: Database, caller: Id, callerName: string, friendshipId: string, now: int, msgId: Id)
    returns (r: Reply<string>)
    requires msgId !in Ids(db.messages) && PartiesAreObjectIds(db.friends)
    modifies db`friends, db`messages
    ensures UnblockCheck(old(db.friends), caller, friendshipId).Ok? ==> r == Ok("UnBlock Friend Successful")
    ensures var c := UnblockCheck(old(db.friends), caller, friendshipId);
            if c.Err? then
              r == Refuse(c) && db.friends == old(db.friends) && db.messages == old(db.messages)
            else
              && db.friends == Replace(old(db.friends), friendshipId, Unblock(c.value))
              && NoticeOutcome(old(db.messages), db.messages,
                               Notice(caller, friendshipId, OtherParty(c.value, caller), callerName + " has unblocked you"),
                               now, msgId, "UnBlock Friend Successful", r)
  {
    var c := UnblockCheck(db.friends, caller, friendshipId);
    if c.Err? {
      return Refuse(c);
    }
    NoticeToPartyCreated(db.friends, friendshipId, c.value, caller, callerName + " has unblocked you", now);
    db.friends := Replace(db.friends, friendshipId, Unblock(c.value));
    r := PostNotice(db, Notice(caller, friendshipId, OtherParty(c.value, caller), callerName + " has unblocked you"),
                    now, msgId, "UnBlock Friend Successful");
  }

  /** Block sets exactly the two blocking fields, and unblocking restores a
      record that was not blocked, except that a `blockedBy` never set
      comes back as `null`. */
  lemma BlockUnblockRoundTrip(f: Friendship, blocker: Id)
    requires WellFormed(f) && !f.isBlocked
    ensures Unblock(Block(f, blocker)) == f.(blockedBy := Cleared)
    ensures f.blockedBy.Cleared? ==> Unblock(Block(f, blocker)) == f
    ensures Block(f, blocker).sender == f.sender && Block(f, blocker).receiver == f.receiver && Block(f, blocker).status == f.status
    ensures Block(f, blocker).messages == f.messages && Block(f, blocker).lastMessage == f.lastMessage
  {
  }

  /** Only the blocker can lift a block: once `u` has blocked, the other party's unblock is refused. */
  lemma {:induction false} OnlyBlockerUnblocks(friends: seq<Doc<Friendship>>, u: Id, friendshipId: string)
    requires BlockCheck(friends, u, friendshipId).Ok?
    ensures var f := BlockCheck(friends, u, friendshipId).value;
            var after := Replace(friends, friendshipId, Block(f, u));
            && UnblockCheck(after, u, friendshipId).Ok?
            && (OtherParty(f, u) != u ==> UnblockCheck(after, OtherParty(f, u), friendshipId) == Err(400, NotEligibleToUnblock))
  {
    var f := BlockCheck(friends, u, friendshipId).value;
    FindReplaced(friends, friendshipId, Block(f, u), friendshipId);
  }

  lemma {:induction false} ReplaceKeepsWellFormed(friends: seq<Doc<Friendship>>, id: Id, v: Friendship)
    requires AllWellFormed(friends) && WellFormed(v)
    ensures AllWellFormed(Replace(friends, id, v))
  {
    var after := Replace(friends, id, v);
    forall i | 0 <= i < |after| ensures WellFormed(after[i].data) {
      assert after[i] == if friends[i].id == id then Doc(id, v) else friends[i];
    }
  }

  /** Every transition a guard lets through keeps the collection well formed. */
  lemma {:induction false} TransitionsKeepWellFormed(friends: seq<Doc<Friendship>>, caller: Id, friendshipId: string)
    requires AllWellFormed(friends)
    ensures PendingRequestCheck(friends, caller, friendshipId).Ok? ==>
              AllWellFormed(Replace(friends, friendshipId, Accept(PendingRequestCheck(friends, caller, friendshipId).value)))
    ensures BlockCheck(friends, caller, friendshipId).Ok? ==>
              AllWellFormed(Replace(friends, friendshipId, Block(BlockCheck(friends, caller, friendshipId).value, caller)))
    ensures UnblockCheck(friends, caller, friendshipId).Ok? ==>
              AllWellFormed(Replace(friends, friendshipId, Unblock(UnblockCheck(friends, caller, friendshipId).value)))
  {
    if PendingRequestCheck(friends, caller, friendshipId).Ok? {
      var f := PendingRequestCheck(friends, caller, friendshipId).value;
      var k :| 0 <= k < |friends| && friends[k] == Doc(friendshipId, f);
      assert WellFormed(friends[k].data);
      ReplaceKeepsWellFormed(friends, friendshipId, Accept(f));
    }
    if BlockCheck(friends, caller, friendshipId).Ok? {
      ReplaceKeepsWellFormed(friends, friendshipId, Block(BlockCheck(friends, caller, friendshipId).value, caller));
    }
    if UnblockCheck(friends, caller, friendshipId).Ok? {
      ReplaceKeepsWellFormed(friends, friendshipId, Unblock(UnblockCheck(friends, caller, friendshipId).value));
    }
  }

  // ---- DeleteFriend ----

  const NotEligibleToDelete := "You are not eligible to block this user"

  /** The guards of `DeleteFriend`: either party may delete. */
  function DeleteCheck(friends: seq<Doc<Friendship>>, caller: Id, friendId: string): (r: Reply<Friendship>)
    ensures r.Ok? <==>
              IsObjectId(friendId) && Find(friends, friendId).Some? && IsParticipant(Find(friends, friendId).value, caller)
    ensures r.Ok? ==> Doc(friendId, r.value) in friends
    ensures r.Err? ==> r.status == 400
  {
    if friendId == "" then Err(400, FriendIdRequired)
    else if !IsObjectId(friendId) then Err(400, InvalidFriendId)
    else match Find(friends, friendId)
      case None => Err(400, FriendNotFound)
      case Some(f) =>
        if !IsParticipant(f, caller) then Err(400, NotEligibleToDelete)
        else Ok(f)
  }

  predicate OutsideFriendship(id: Id, m: Message) {
    m.friend != Some(id)
  }

  function OutsideFriendshipFilter(id: Id): Message -> bool {
    m => OutsideFriendship(id, m)
  }

  method DeleteFriend(db: Database, caller: Id, friendId: string) returns (r: Reply<string>)
    modifies db`friends, db`messages
    ensures var c := DeleteCheck(old(db.friends), caller, friendId);
            if c.Err? then
              r == Refuse(c) && db.friends == old(db.friends) && db.messages == old(db.messages)
            else
              && r == Ok("Friend deleted successfully")
              && db.messages == Select(old(db.messages), OutsideFriendshipFilter(friendId))
              && db.friends == Remove(old(db.friends), friendId)
  {
    var c := DeleteCheck(db.friends, caller, friendId);
    if c.Err? {
      return Refuse(c);
    }
    db.messages := Select(db.messages, OutsideFriendshipFilter(friendId));
    db.friends := Remove(db.friends, friendId);
    r := Ok("Friend deleted successfully");
  }

  /** Deleting a friendship takes every one of its messages with it and
      keeps every other message and friendship. */
  lemma DeleteFriendLeavesNoTrace(messages: seq<Doc<Message>>, friends: seq<Doc<Friendship>>, friendId: Id)
    ensures forall d :: d in messages ==>
              (d in Select(messages, OutsideFriendshipFilter(friendId)) <==> d.data.friend != Some(friendId))
    ensures forall d :: d in friends ==> (d in Remove(friends, friendId) <==> d.id != friendId)
    ensures friendId !in Ids(Remove(friends, friendId))
  {
    SelectMembers(messages, OutsideFriendshipFilter(friendId));
  }
}
