/** The real-time coordinator (project-one/src/lib/socket.ts): a registry
    of which connection each online user is on, the chat rooms connections
    have joined, and the deliveries each event handler emits. A delivery
    records exactly which connections an event reaches. */
module Socket {
  import opened Common
  import opened Store

  /** A socket.io connection id. Every connection is also alone in a room
      named by its id; chat ids (ObjectIds) never collide with these. */
  type ConnId = string

  /** The events whose payload is just the chat id. */
  datatype Signal =
    | FriendBlocked | FriendUnblocked | FriendDeleted
    | GroupMemberAdded | GroupMemberRemoved | GroupDeleted | GroupUpdated | GroupAvatarChanged
    | UserAvatarChanged | FriendAccepted | UserUnblocked | MessageHasSeen

  datatype Event =
    | OnlineUsers(users: seq<Id>)
    | ReceiveMessage(chatId: Id, message: string)
    | ChatSignal(signal: Signal, chatId: Id)
    | Typing(chatId: Id, name: string, typing: bool)

  datatype Delivery = Delivery(recipients: set<ConnId>, event: Event)

  // ---- the registry's key order (a JavaScript Map keeps insertion order) ----

  /** The key order after `set(u, ...)`: an existing key keeps its place, a new one goes last. */
  function Registered(order: seq<Id>, u: Id): (r: seq<Id>)
    ensures forall x :: x in r <==> x in order || x == u
    ensures NoDup(order) ==> NoDup(r)
    ensures |order| <= |r| && r[..|order|] == order
  {
    if u in order then order else order + [u]
  }

  /** The users whose entry is on connection `c`, in key order: the first one
      is the entry `disconnect` removes. */
  function FirstUserOn(order: seq<Id>, online: map<Id, ConnId>, c: ConnId): (r: Option<Id>)
    ensures r.Some? ==> r.value in order && r.value in online && online[r.value] == c
    ensures r.None? ==> forall u :: u in order && u in online ==> online[u] != c
  {
    if |order| == 0 then None
    else if order[0] in online && online[order[0]] == c then Some(order[0])
    else FirstUserOn(order[1..], online, c)
  }

  /** The entry `disconnect` removes is the earliest one on that connection. */
  lemma {:induction false} FirstUserOnIsEarliest(order: seq<Id>, online: map<Id, ConnId>, c: ConnId, j: nat)
    requires FirstUserOn(order, online, c).Some?
    requires j < |order| && order[j] == FirstUserOn(order, online, c).value
    requires NoDup(order)
    ensures forall i :: 0 <= i < j && order[i] in online ==> online[order[i]] != c
  {
    if order[0] in online && online[order[0]] == c {
      assert j == 0;
    } else {
      assert NoDup(order[1..]) by {
        forall a, b | 0 <= a < b < |order[1..]| ensures order[1..][a] != order[1..][b] {
          assert order[1..][a] == order[a + 1] && order[1..][b] == order[b + 1];
        }
      }
      assert j > 0;
      FirstUserOnIsEarliest(order[1..], online, c, j - 1);
      forall i | 0 <= i < j && order[i] in online ensures online[order[i]] != c {
        if i > 0 {
          assert order[i] == order[1..][i - 1];
        }
      }
    }
  }

  // ---- who a room reaches ----

  /** `io.to(room)`: the connections that joined the room, plus the
      connection the room is named after while it is connected. */
  function RoomAudience(rooms: map<Id, set<ConnId>>, connected: set<ConnId>, room: Id): set<ConnId> {
    (if room in rooms then rooms[room] else {}) + (if room in connected then {room} else {})
  }

  // ---- change-user-avatar ----

  predicate AvatarFriendship(userId: Id, f: Friendship) {
    !f.isBlocked && f.status == Accepted && IsParticipant(f, userId)
  }

  function AvatarFilter(userId: Id): Friendship -> bool {
    f => AvatarFriendship(userId, f)
  }

  /** One `user-avatar-changed` to each listed friendship's room, in order. */
  function AvatarFanout(sel: seq<Doc<Friendship>>, rooms: map<Id, set<ConnId>>, connected: set<ConnId>)
    : (r: seq<Delivery>)
    ensures |r| == |sel|
  {
    if |sel| == 0 then []
    else [Delivery(RoomAudience(rooms, connected, sel[0].id), ChatSignal(UserAvatarChanged, sel[0].id))]
         + AvatarFanout(sel[1..], rooms, connected)
  }

  lemma {:induction false} AvatarFanoutAt(sel: seq<Doc<Friendship>>, rooms: map<Id, set<ConnId>>, connected: set<ConnId>,
                                          i: nat)
    requires i < |sel|
    ensures AvatarFanout(sel, rooms, connected)[i]
              == Delivery(RoomAudience(rooms, connected, sel[i].id), ChatSignal(UserAvatarChanged, sel[i].id))
  {
    if i > 0 {
      AvatarFanoutAt(sel[1..], rooms, connected, i - 1);
    }
  }

  lemma {:induction false} AvatarFanoutAppend(sel: seq<Doc<Friendship>>, d: Doc<Friendship>,
                                              rooms: map<Id, set<ConnId>>, connected: set<ConnId>)
    ensures AvatarFanout(sel + [d], rooms, connected)
              == AvatarFanout(sel, rooms, connected)
                 + [Delivery(RoomAudience(rooms, connected, d.id), ChatSignal(UserAvatarChanged, d.id))]
  {
    if |sel| == 0 {
      assert sel + [d] == [d];
    } else {
      assert (sel + [d])[1..] == sel[1..] + [d];
      AvatarFanoutAppend(sel[1..], d, rooms, connected);
    }
  }

  /** The deliveries for one more friendship of the selection. */
  lemma AvatarFanoutStep(sel: seq<Doc<Friendship>>, i: nat, rooms: map<Id, set<ConnId>>, connected: set<ConnId>)
    requires i < |sel|
    ensures AvatarFanout(sel[..i + 1], rooms, connected)
              == AvatarFanout(sel[..i], rooms, connected)
                 + [Delivery(RoomAudience(rooms, connected, sel[i].id), ChatSignal(UserAvatarChanged, sel[i].id))]
  {
    assert sel[..i + 1] == sel[..i] + [sel[i]];
    AvatarFanoutAppend(sel[..i], sel[i], rooms, connected);
  }

  /** The avatar change reaches the room of every accepted, unblocked
      friendship of the user, and nothing else: each delivery names such a
      friendship and carries that room's audience. */
  lemma AvatarFanoutTargets(friends: seq<Doc<Friendship>>, userId: Id, rooms: map<Id, set<ConnId>>,
                            connected: set<ConnId>)
    ensures var out := AvatarFanout(Select(friends, AvatarFilter(userId)), rooms, connected);
            && (forall d :: d in friends && AvatarFriendship(userId, d.data) ==>
                  Delivery(RoomAudience(rooms, connected, d.id), ChatSignal(UserAvatarChanged, d.id)) in out)
            && (forall k :: 0 <= k < |out| ==>
                  exists d :: d in friends && AvatarFriendship(userId, d.data)
                              && out[k] == Delivery(RoomAudience(rooms, connected, d.id), ChatSignal(UserAvatarChanged, d.id)))
  {
    var sel := Select(friends, AvatarFilter(userId));
    var out := AvatarFanout(sel, rooms, connected);
    SelectMembers(friends, AvatarFilter(userId));
    forall d | d in friends && AvatarFriendship(userId, d.data)
      ensures Delivery(RoomAudience(rooms, connected, d.id), ChatSignal(UserAvatarChanged, d.id)) in out
    {
      var k :| 0 <= k < |sel| && sel[k] == d;
      AvatarFanoutAt(sel, rooms, connected, k);
    }
    forall k | 0 <= k < |out|
      ensures exists d :: d in friends && AvatarFriendship(userId, d.data)
                          && out[k] == Delivery(RoomAudience(rooms, connected, d.id), ChatSignal(UserAvatarChanged, d.id))
    {
      AvatarFanoutAt(sel, rooms, connected, k);
      assert AvatarFilter(userId)(sel[k].data);
    }
  }

  // ---- join-chat ----

  /** The authorisation of `join-chat`: the user owns or belongs to the
      group, or is a party of the friendship. A missing chat refuses. */
  predicate MayJoin(friends: seq<Doc<Friendship>>, groups: seq<Doc<Group>>, userId: Id, chatId: Id, isGroup: bool)
    ensures MayJoin(friends, groups, userId, chatId, isGroup) && isGroup ==> chatId in Ids(groups)
    ensures MayJoin(friends, groups, userId, chatId, isGroup) && !isGroup ==> chatId in Ids(friends)
  {
    if isGroup then Find(groups, chatId).Some? && IsOwnerOrMember(Find(groups, chatId).value, userId)
    else Find(friends, chatId).Some? && IsParticipant(Find(friends, chatId).value, userId)
  }

  /** A join is allowed only for a stored chat the user takes part in, and,
      where ids are unique, always for such a chat. */
  lemma MayJoinMeaning(friends: seq<Doc<Friendship>>, groups: seq<Doc<Group>>, userId: Id, chatId: Id, isGroup: bool)
    requires NoDup(Ids(friends)) && NoDup(Ids(groups))
    ensures isGroup ==>
              (MayJoin(friends, groups, userId, chatId, isGroup) <==>
                 exists d :: d in groups && d.id == chatId && IsOwnerOrMember(d.data, userId))
    ensures !isGroup ==>
              (MayJoin(friends, groups, userId, chatId, isGroup) <==>
                 exists d :: d in friends && d.id == chatId && IsParticipant(d.data, userId))
  {
    if isGroup {
      if exists d :: d in groups && d.id == chatId && IsOwnerOrMember(d.data, userId) {
        var d :| d in groups && d.id == chatId && IsOwnerOrMember(d.data, userId);
        FindUnique(groups, d);
      }
      if MayJoin(friends, groups, userId, chatId, isGroup) {
        assert Doc(chatId, Find(groups, chatId).value) in groups;
      }
    } else {
      if exists d :: d in friends && d.id == chatId && IsParticipant(d.data, userId) {
        var d :| d in friends && d.id == chatId && IsParticipant(d.data, userId);
        FindUnique(friends, d);
      }
      if MayJoin(friends, groups, userId, chatId, isGroup) {
        assert Doc(chatId, Find(friends, chatId).value) in friends;
      }
    }
  }

  /** The state shared by every connection's handlers. */
  class Coordinator {
    /** The open connections. */
    var connected: set<ConnId>
    /** `onlineUsers`: user id to the connection it last announced itself on. */
    var online: map<Id, ConnId>
    /** The keys of `online` in the Map's iteration order. */
    var order: seq<Id>
    /** The chat rooms, by chat id, with the connections that joined them. */
    var rooms: map<Id, set<ConnId>>
    /** Every delivery emitted so far, oldest first. */
    var outbox: seq<Delivery>

    /** The key order lists the registry's keys once each, and rooms hold
        only open connections. Registry entries may name closed connections. */
    predicate Valid()
      reads this
    {
      && NoDup(order)
      && (forall u :: u in order ==> u in online)
      && (forall u :: u in online ==> u in order)
      && (forall r :: r in rooms ==> rooms[r] <= connected)
    }

    constructor ()
      ensures Valid()
      ensures connected == {} && online == map[] && order == [] && rooms == map[] && outbox == []
    {
      connected, online, order, rooms, outbox := {}, map[], [], map[], [];
    }

    function Audience(room: Id): set<ConnId>
      reads this
    {
      RoomAudience(rooms, connected, room)
    }

    /** Deliveries reach open connections only, and a room joined by no one
        but named after nothing reaches no one. */
    lemma AudienceIsOpen(room: Id)
      requires Valid()
      ensures Audience(room) <= connected
      ensures room !in rooms && room !in connected ==> Audience(room) == {}
    {
    }

    /** The `online-users` list names every registered user exactly once. */
    lemma OnlineSnapshot()
      requires Valid()
      ensures |order| == |online.Keys|
      ensures forall u :: u in order <==> u in online
    {
      NoDupSize(order, online.Keys);
    }

    /** `io.on("connection")`: a new connection opens. */
    method Connect(c: ConnId)
      requires Valid() && c !in connected
      modifies this
      ensures Valid()
      ensures connected == old(connected) + {c}
      ensures online == old(online) && order == old(order) && rooms == old(rooms) && outbox == old(outbox)
    {
      connected := connected + {c};
    }

    /** `user-online`: the user is now on connection `self`, replacing any
        earlier entry, and every connection hears the new list. */
    method UserOnline(self: ConnId, userId: Id)
      requires Valid() && self in connected
      modifies this
      ensures Valid()
      ensures online == old(online)[userId := self] && order == Registered(old(order), userId)
      ensures outbox == old(outbox) + [Delivery(connected, OnlineUsers(order))]
      ensures connected == old(connected) && rooms == old(rooms)
    {
      online := online[userId := self];
      order := Registered(order, userId);
      outbox := outbox + [Delivery(connected, OnlineUsers(order))];
    }

    /** `join-chat`: the connection joins the chat's room when `MayJoin`
        allows it, and nothing changes otherwise. */
    method JoinChat(self: ConnId, friends: seq<Doc<Friendship>>, groups: seq<Doc<Group>>,
                    userId: Id, chatId: Id, isGroup: bool)
      requires Valid() && self in connected
      modifies this
      ensures Valid()
      ensures rooms == if MayJoin(friends, groups, userId, chatId, isGroup)
                       then old(rooms)[chatId := old(RoomAudience(rooms, {}, chatId)) + {self}]
                       else old(rooms)
      ensures connected == old(connected) && online == old(online) && order == old(order) && outbox == old(outbox)
    {
      if MayJoin(friends, groups, userId, chatId, isGroup) {
        rooms := rooms[chatId := RoomAudience(rooms, {}, chatId) + {self}];
      }
    }

    /** `io.to(room).emit(event)`: every connection of the room, the sender's included. */
    method EmitToRoom(room: Id, event: Event)
      requires Valid()
      modifies this`outbox
      ensures outbox == old(outbox) + [Delivery(Audience(room), event)]
    {
      outbox := outbox + [Delivery(Audience(room), event)];
    }

    /** `socket.to(room).emit(event)`: the room without the sending connection. */
    method EmitToOthers(self: ConnId, room: Id, event: Event)
      requires Valid()
      modifies this`outbox
      ensures outbox == old(outbox) + [Delivery(Audience(room) - {self}, event)]
    {
      outbox := outbox + [Delivery(Audience(room) - {self}, event)];
    }

    method SendMessage(chatId: Id, message: string)
      requires Valid()
      modifies this`outbox
      ensures Valid()
      ensures outbox == old(outbox) + [Delivery(Audience(chatId), ReceiveMessage(chatId, message))]
    {
      EmitToRoom(chatId, ReceiveMessage(chatId, message));
    }

    /** `logout`: only the user's entry goes, and every connection hears the new list. */
    method Logout(userId: Id)
      requires Valid()
      modifies this`online, this`order, this`outbox
      ensures Valid()
      ensures online == old(online) - {userId} && order == Without(old(order), userId)
      ensures outbox == old(outbox) + [Delivery(connected, OnlineUsers(order))]
    {
      WithoutMembers(order, userId);
      WithoutNoDup(order, userId);
      online := online - {userId};
      order := Without(order, userId);
      outbox := outbox + [Delivery(connected, OnlineUsers(order))];
    }

    method BlockFriend(chatId: Id)
      requires Valid()
      modifies this`outbox
      ensures Valid()
      ensures outbox == old(outbox) + [Delivery(Audience(chatId), ChatSignal(FriendBlocked, chatId))]
    {
      EmitToRoom(chatId, ChatSignal(FriendBlocked, chatId));
    }

    method UnblockFriend(chatId: Id)
      requires Valid()
      modifies this`outbox
      ensures Valid()
      ensures outbox == old(outbox) + [Delivery(Audience(chatId), ChatSignal(FriendUnblocked, chatId))]
    {
      EmitToRoom(chatId, ChatSignal(FriendUnblocked, chatId));
    }

    method DeleteFriend(chatId: Id)
      requires Valid()
      modifies this`outbox
      ensures Valid()
      ensures outbox == old(outbox) + [Delivery(Audience(chatId), ChatSignal(FriendDeleted, chatId))]
    {
      EmitToRoom(chatId, ChatSignal(FriendDeleted, chatId));
    }

    /** `add-group-member` has two listeners and both run: the added user's
        connection hears it when the user is registered, then the group's
        room does; the sender hears neither. */
    method AddGroupMember(self: ConnId, chatId: Id, addedUserId: Id)
      requires Valid()
      modifies this`outbox
      ensures Valid()
      ensures outbox == old(outbox)
                        + (if addedUserId in online
                           then [Delivery(Audience(online[addedUserId]) - {self}, ChatSignal(GroupMemberAdded, chatId))]
                           else [])
                        + [Delivery(Audience(chatId) - {self}, ChatSignal(GroupMemberAdded, chatId))]
    {
      if addedUserId in online {
        EmitToOthers(self, online[addedUserId], ChatSignal(GroupMemberAdded, chatId));
      }
      EmitToOthers(self, chatId, ChatSignal(GroupMemberAdded, chatId));
    }

    method RemoveGroupMember(chatId: Id)
      requires Valid()
      modifies this`outbox
      ensures Valid()
      ensures outbox == old(outbox) + [Delivery(Audience(chatId), ChatSignal(GroupMemberRemoved, chatId))]
    {
      EmitToRoom(chatId, ChatSignal(GroupMemberRemoved, chatId));
    }

    method DeleteGroup(self: ConnId, chatId: Id)
      requires Valid()
      modifies this`outbox
      ensures Valid()
      ensures outbox == old(outbox) + [Delivery(Audience(chatId) - {self}, ChatSignal(GroupDeleted, chatId))]
    {
      EmitToOthers(self, chatId, ChatSignal(GroupDeleted, chatId));
    }

    method UpdateGroup(chatId: Id)
      requires Valid()
      modifies this`outbox
      ensures Valid()
      ensures outbox == old(outbox) + [Delivery(Audience(chatId), ChatSignal(GroupUpdated, chatId))]
    {
      EmitToRoom(chatId, ChatSignal(GroupUpdated, chatId));
    }

    method ChangeGroupAvatar(self: ConnId, chatId: Id)
      requires Valid()
      modifies this`outbox
      ensures Valid()
      ensures outbox == old(outbox) + [Delivery(Audience(chatId) - {self}, ChatSignal(GroupAvatarChanged, chatId))]
    {
      EmitToOthers(self, chatId, ChatSignal(GroupAvatarChanged, chatId));
    }

    /** `change-user-avatar`: nothing for an unknown user; otherwise one
        delivery per accepted, unblocked friendship of the user, in
        collection order, each to that friendship's room. */
    method ChangeUserAvatar(users: seq<Doc<User>>, friends: seq<Doc<Friendship>>, userId: Id)
      requires Valid()
      modifies this`outbox
      ensures Valid()
      ensures outbox == old(outbox)
                        + (if Find(users, userId).None? then []
                           else AvatarFanout(Select(friends, AvatarFilter(userId)), rooms, connected))
    {
      if Find(users, userId).None? {
        return;
      }
      var sel := Select(friends, AvatarFilter(userId));
      var i := 0;
      while i < |sel|
        invariant 0 <= i <= |sel|
        invariant outbox == old(outbox) + AvatarFanout(sel[..i], rooms, connected)
      {
        var chatId := sel[i].id;
        AvatarFanoutStep(sel, i, rooms, connected);
        EmitToRoom(chatId, ChatSignal(UserAvatarChanged, chatId));
        i := i + 1;
      }
      assert sel[..i] == sel;
    }

    /** `accept-friend`: only the accepted user's connection, and only when registered. */
    method AcceptFriend(chatId: Id, acceptedUserId: Id)
      requires Valid()
      modifies this`outbox
      ensures Valid()
      ensures outbox == old(outbox)
                        + if acceptedUserId in online
                          then [Delivery(Audience(online[acceptedUserId]), ChatSignal(FriendAccepted, chatId))]
                          else []
    {
      if acceptedUserId in online {
        EmitToRoom(online[acceptedUserId], ChatSignal(FriendAccepted, chatId));
      }
    }

    /** `unblock-user`: only the unblocked user's connection, and only when registered. */
    method UnblockUser(chatId: Id, unblockedUserId: Id)
      requires Valid()
      modifies this`outbox
      ensures Valid()
      ensures outbox == old(outbox)
                        + if unblockedUserId in online
                          then [Delivery(Audience(online[unblockedUserId]), ChatSignal(UserUnblocked, chatId))]
                          else []
    {
      if unblockedUserId in online {
        EmitToRoom(online[unblockedUserId], ChatSignal(UserUnblocked, chatId));
      }
    }

    /** `message-is-typing` (`typing`) and `message-is-not-typing` (`!typing`). */
    method TypingChanged(self: ConnId, chatId: Id, name: string, typing: bool)
      requires Valid()
      modifies this`outbox
      ensures Valid()
      ensures outbox == old(outbox) + [Delivery(Audience(chatId) - {self}, Typing(chatId, name, typing))]
    {
      EmitToOthers(self, chatId, Typing(chatId, name, typing));
    }

    method SeenMessage(self: ConnId, chatId: Id)
      requires Valid()
      modifies this`outbox
      ensures Valid()
      ensures outbox == old(outbox) + [Delivery(Audience(chatId) - {self}, ChatSignal(MessageHasSeen, chatId))]
    {
      EmitToOthers(self, chatId, ChatSignal(MessageHasSeen, chatId));
    }

    /** The connection closes and leaves every room. */
    method CloseConnection(self: ConnId)
      requires Valid()
      modifies this`connected, this`rooms
      ensures Valid()
      ensures connected == old(connected) - {self}
      ensures rooms == map r | r in old(rooms) :: old(rooms)[r] - {self}
      ensures forall r :: r in rooms ==> self !in rooms[r]
    {
      connected := connected - {self};
      rooms := map r | r in rooms :: rooms[r] - {self};
    }

    /** The scan of the registry in key order, stopping at the first entry
        on the connection and deleting it. */
    method DropFirstEntry(self: ConnId)
      requires Valid()
      modifies this`online, this`order
      ensures Valid()
      ensures var first := FirstUserOn(old(order), old(online), self);
              && online == (if first.Some? then old(online) - {first.value} else old(online))
              && order == (if first.Some? then Without(old(order), first.value) else old(order))
    {
      var i := 0;
      var found: Option<Id> := None;
      while i < |order|
        invariant 0 <= i <= |order|
        invariant found.None? ==> FirstUserOn(order, online, self) == FirstUserOn(order[i..], online, self)
        invariant found.Some? ==> found == FirstUserOn(order, online, self)
        decreases |order| - i, if found.None? then 1 else 0
      {
        if order[i] in online && online[order[i]] == self {
          found := Some(order[i]);
          break;
        }
        assert order[i..][1..] == order[i + 1..];
        i := i + 1;
      }
      if found.Some? {
        WithoutMembers(order, found.value);
        WithoutNoDup(order, found.value);
        online := online - {found.value};
        order := Without(order, found.value);
      }
    }

    /** `disconnect`: the connection has left every room and closed; the
        first registry entry on it, in key order, goes (any later entry on
        the same connection stays), and the remaining connections hear the
        new list. */
    method Disconnect(self: ConnId)
      requires Valid() && self in connected
      modifies this
      ensures Valid()
      ensures connected == old(connected) - {self}
      ensures rooms == map r | r in old(rooms) :: old(rooms)[r] - {self}
      ensures forall r :: r in rooms ==> self !in rooms[r]
      ensures var first := FirstUserOn(old(order), old(online), self);
              && online == (if first.Some? then old(online) - {first.value} else old(online))
              && order == (if first.Some? then Without(old(order), first.value) else old(order))
      ensures outbox == old(outbox) + [Delivery(connected, OnlineUsers(order))]
    {
      CloseConnection(self);
      DropFirstEntry(self);
      outbox := outbox + [Delivery(connected, OnlineUsers(order))];
    }
  }
}
