/** The group controller (project-one/src/controllers/group.ts): only the
    owner adds or removes members, edits or deletes the group; any member
    may leave; owner and members may view it. The group document's own
    schema (project-one/src/models/group.ts) is not part of this model; the
    `Store.Group` datatype holds the fields the controller reads and writes. */
module Groups {
  import opened Common
  import opened Store
  import opened ServerUtils

  /** The membership invariant: no member is listed twice and the owner is
      not listed as a member. */
  predicate GroupWellFormed(g: Group) {
    NoDup(g.members) && g.owner !in g.members
  }

  const GroupIdRequired := "Group ID is required"
  const InvalidGroupId := "Invalid Group ID"
  const GroupNotFound := "Group not found"
  const NotAMember := "You are not a member of this group"

  /** The id checks and the lookup every single-group handler starts with;
      `status` is the code that handler answers them with. */
  function LookupGroup(groups: seq<Doc<Group>>, groupId: string, status: nat): (r: Reply<Group>)
    ensures r.Ok? <==> IsObjectId(groupId) && Find(groups, groupId).Some?
    ensures r.Ok? ==> r.value == Find(groups, groupId).value && Doc(groupId, r.value) in groups
    ensures r.Err? ==> r.status == status
  {
    if groupId == "" then Err(status, GroupIdRequired)
    else if !IsObjectId(groupId) then Err(status, InvalidGroupId)
    else match Find(groups, groupId)
      case None => Err(status, GroupNotFound)
      case Some(g) => Ok(g)
  }

  // ---- GetGroupById, getGroupMembers ----

  /** `GetGroupById`: the owner and the members may see the group. */
  function GetGroupById(groups: seq<Doc<Group>>, caller: Id, groupId: string): (r: Reply<Group>)
    ensures r.Ok? <==>
              IsObjectId(groupId) && Find(groups, groupId).Some? && IsOwnerOrMember(Find(groups, groupId).value, caller)
    ensures r.Ok? ==> Doc(groupId, r.value) in groups
    ensures (IsObjectId(groupId) && Find(groups, groupId).Some? && !IsOwnerOrMember(Find(groups, groupId).value, caller))
              ==> r == Err(400, NotAMember)
  {
    match LookupGroup(groups, groupId, 404)
    case Err(s, t) => Err(s, t)
    case Ok(g) => if !IsOwnerOrMember(g, caller) then Err(400, NotAMember) else Ok(g)
  }

  /** The users whose id is listed in `ids`, in collection order (`find({ _id: { $in: ids } })`). */
  function UsersIn(users: seq<Doc<User>>, ids: seq<Id>): seq<Doc<User>> {
    if |users| == 0 then []
    else (if users[0].id in ids then [users[0]] else []) + UsersIn(users[1..], ids)
  }

  lemma {:induction false} UsersInMembers(users: seq<Doc<User>>, ids: seq<Id>)
    ensures forall d :: d in UsersIn(users, ids) <==> d in users && d.id in ids
  {
    if |users| > 0 {
      UsersInMembers(users[1..], ids);
      assert users == [users[0]] + users[1..];
    }
  }

  /** `getGroupMembers`: the owner and the members may list the members'
      accounts; the owner is listed only when also a member. */
  function GetGroupMembers(users: seq<Doc<User>>, groups: seq<Doc<Group>>, caller: Id, groupId: string)
    : (r: Reply<seq<Doc<User>>>)
    ensures r.Ok? <==>
              IsObjectId(groupId) && Find(groups, groupId).Some? && IsOwnerOrMember(Find(groups, groupId).value, caller)
    ensures r.Err? ==> r.status == 400
  {
    match LookupGroup(groups, groupId, 400)
    case Err(s, t) => Err(s, t)
    case Ok(g) => if !IsOwnerOrMember(g, caller) then Err(400, NotAMember) else Ok(UsersIn(users, g.members))
  }

  /** The listed accounts are exactly the registered members; under the
      membership invariant the owner is not among them. */
  lemma GetGroupMembersListsMembers(users: seq<Doc<User>>, groups: seq<Doc<Group>>, caller: Id, groupId: string)
    requires GetGroupMembers(users, groups, caller, groupId).Ok?
    ensures var g := Find(groups, groupId).value;
            forall d :: d in GetGroupMembers(users, groups, caller, groupId).value <==> d in users && d.id in g.members
    ensures var g := Find(groups, groupId).value;
            GroupWellFormed(g) ==> forall d :: d in GetGroupMembers(users, groups, caller, groupId).value ==> d.id != g.owner
  {
    UsersInMembers(users, Find(groups, groupId).value.members);
  }

  // ---- Create ----

  const NameRequired := "Group name is required"
  const AvatarRequired := "Avatar is required"

  /** The group `Create` saves: an empty description is stored as absent,
      the caller owns it and there are no members yet. */
  function NewGroup(name: string, description: string, avatarUrl: string, owner: Id): (g: Group)
    ensures g.owner == owner && g.members == [] && g.messages == [] && g.lastMessage.None?
    ensures g.description == Supplied(description)
    ensures GroupWellFormed(g)
  {
    Group(name, Supplied(description), avatarUrl, owner, [], [], None)
  }

  /** `Create`. `upload` is what the blob store answers for the avatar file:
      its secure URL, or the error it rejects with. */
  method Create(db: Database, caller: Id, callerName: string, name: string, description: string,
                hasAvatar: bool, upload: Result<string>, newId: Id, now: int, msgId: Id)
    returns (r: Reply<string>)
    requires newId !in Ids(db.groups) && msgId !in Ids(db.messages)
    requires IsObjectId(newId)  // Mongo assigns the new group an ObjectId
    modifies db`groups, db`messages
    ensures name != "" && hasAvatar && upload.Success? ==> r == Ok("Group created successfully")
    ensures name == "" ==> r == Err(400, NameRequired) && unchanged(db)
    ensures name != "" && !hasAvatar ==> r == Err(400, AvatarRequired) && unchanged(db)
    ensures name != "" && hasAvatar && upload.Failure? ==> r == Err(500, upload.error) && unchanged(db)
    ensures name != "" && hasAvatar && upload.Success? ==>
              && db.groups == old(db.groups) + [Doc(newId, NewGroup(name, description, upload.value, caller))]
              && NoticeOutcome(old(db.messages), db.messages,
                               MessageParams(caller, "", newId, "", "A new group is created by " + callerName),
                               now, msgId, "Group created successfully", r)
  {
    if name == "" {
      return Err(400, NameRequired);
    }
    if !hasAvatar {
      return Err(400, AvatarRequired);
    }
    if upload.Failure? {
      return Err(500, upload.error);
    }
    db.groups := db.groups + [Doc(newId, NewGroup(name, description, upload.value, caller))];
    r := PostNotice(db, MessageParams(caller, "", newId, "", "A new group is created by " + callerName),
                    now, msgId, "Group created successfully");
  }

  // ---- AddMember, RemoveMember ----

  /** What the member-editing guards answer with: the group and the user concerned. */
  datatype Target = Target(group: Group, user: User)

  const IdsRequired := "Group ID and User ID are required"
  const InvalidUserId := "Invalid User ID"
  const UserNotFound := "User not found"
  const OnlyAdminAdds := "Only admin can add members to this group"
  const AlreadyMember := "User is already a member of this group"
  const SelfAdd := "You cannot add yourself to this group"
  const OnlyAdminRemoves := "Only admin can remove members from this group"
  const NotMemberOfGroup := "User is not a member of this group"

  /** The checks `AddMember` and `RemoveMember` share, up to the two lookups. */
  function LookupTarget(users: seq<Doc<User>>, groups: seq<Doc<Group>>, groupId: string, userId: string)
    : (r: Reply<Target>)
    ensures r.Ok? <==>
              IsObjectId(groupId) && IsObjectId(userId) && Find(groups, groupId).Some? && Find(users, userId).Some?
    ensures r.Ok? ==> r.value == Target(Find(groups, groupId).value, Find(users, userId).value)
    ensures r.Err? ==> r.status == 400
  {
    if groupId == "" || userId == "" then Err(400, IdsRequired)
    else if !IsObjectId(groupId) then Err(400, InvalidGroupId)
    else if !IsObjectId(userId) then Err(400, InvalidUserId)
    else match Find(groups, groupId)
      case None => Err(400, GroupNotFound)
      case Some(g) =>
        match Find(users, userId)
        case None => Err(400, UserNotFound)
        case Some(u) => Ok(Target(g, u))
  }

  /** The guards of `AddMember` as evidently intended, in the source's
      order: owner only, then not yet a member, then not the caller. */
  function AddMemberCheck(users: seq<Doc<User>>, groups: seq<Doc<Group>>, caller: Id, groupId: string, userId: string)
    : (r: Reply<Target>)
    ensures r.Ok? <==>
              && LookupTarget(users, groups, groupId, userId).Ok?
              && Find(groups, groupId).value.owner == caller
              && userId !in Find(groups, groupId).value.members
              && userId != caller
    ensures r.Ok? ==> r == LookupTarget(users, groups, groupId, userId)
    ensures r.Err? ==> r.status == 400
  {
    match LookupTarget(users, groups, groupId, userId)
    case Err(s, t) => Err(s, t)
    case Ok(t) =>
      if t.group.owner != caller then Err(400, OnlyAdminAdds)
      else if userId in t.group.members then Err(400, AlreadyMember)
      else if userId == caller then Err(400, SelfAdd)
      else Ok(t)
  }

  /** The guards of `AddMember` as written: the self-check compares the
      request's string with the caller's ObjectId using `===`, which never
      holds, so the owner may add themself. */
  function AddMemberCheckAsWritten(users: seq<Doc<User>>, groups: seq<Doc<Group>>, caller: Id, groupId: string,
                                   userId: string)
    : (r: Reply<Target>)
    ensures r.Ok? <==>
              && LookupTarget(users, groups, groupId, userId).Ok?
              && Find(groups, groupId).value.owner == caller
              && userId !in Find(groups, groupId).value.members
  {
    match LookupTarget(users, groups, groupId, userId)
    case Err(s, t) => Err(s, t)
    case Ok(t) =>
      if t.group.owner != caller then Err(400, OnlyAdminAdds)
      else if userId in t.group.members then Err(400, AlreadyMember)
      else Ok(t)
  }

  /** The owner of a fresh group adds themself under the code as written and
      ends up listed as a member of their own group; the corrected guard
      refuses. */
  lemma OwnerAddsSelf()
    ensures var me := "bbbbbbbbbbbbbbbbbbbbbbbb";
            var gid := "cccccccccccccccccccccccc";
            var users := [Doc(me, User("Bo", "bo", None, None, false, true, None, None))];
            var g := Group("team", None, "url", me, [], [], None);
            var groups := [Doc(gid, g)];
            && AddMemberCheckAsWritten(users, groups, me, gid, me).Ok?
            && !GroupWellFormed(g.(members := g.members + [me]))
            && AddMemberCheck(users, groups, me, gid, me) == Err(400, SelfAdd)
  {
    var me := "bbbbbbbbbbbbbbbbbbbbbbbb";
    var gid := "cccccccccccccccccccccccc";
    var users := [Doc(me, User("Bo", "bo", None, None, false, true, None, None))];
    var g := Group("team", None, "url", me, [], [], None);
    var groups := [Doc(gid, g)];
    assert Ids(users)[0] == me && Ids(groups)[0] == gid;
    assert (g.members + [me])[0] == me;
  }

  method AddMember(db: Database, caller: Id, groupId: string, userId: string, now: int, msgId: Id)
    returns (r: Reply<string>)
    requires msgId !in Ids(db.messages)
    modifies db`groups, db`messages
    ensures var c := AddMemberCheckAsWritten(old(db.users), old(db.groups), caller, groupId, userId);
            if c.Err? then
              r == Refuse(c) && db.groups == old(db.groups) && db.messages == old(db.messages)
            else
              && db.groups == Replace(old(db.groups), groupId, c.value.group.(members := c.value.group.members + [userId]))
              && NoticeOutcome(old(db.messages), db.messages,
                               MessageParams(caller, "", groupId, "", "Added " + c.value.user.name + " to the group"),
                               now, msgId, "Member added successfully", r)
  {
    var c := AddMemberCheckAsWritten(db.users, db.groups, caller, groupId, userId);
    if c.Err? {
      return Refuse(c);
    }
    var g := c.value.group;
    db.groups := Replace(db.groups, groupId, g.(members := g.members + [userId]));
    r := PostNotice(db, MessageParams(caller, "", groupId, "", "Added " + c.value.user.name + " to the group"),
                    now, msgId, "Member added successfully");
  }

  /** An addition the guard as written lets through lists no member twice,
      and breaks the membership invariant exactly when the owner adds themself. */
  lemma {:induction false} AddMemberAsWrittenKeepsNoDup(users: seq<Doc<User>>, groups: seq<Doc<Group>>, caller: Id,
                                                        groupId: string, userId: string)
    requires AddMemberCheckAsWritten(users, groups, caller, groupId, userId).Ok?
    requires GroupWellFormed(Find(groups, groupId).value)
    ensures var g := Find(groups, groupId).value;
            NoDup(g.members + [userId]) && (GroupWellFormed(g.(members := g.members + [userId])) <==> userId != caller)
  {
    var g := Find(groups, groupId).value;
    var ms := g.members + [userId];
    forall i, j | 0 <= i < j < |ms| ensures ms[i] != ms[j] {
      if j == |g.members| {
        assert ms[i] == g.members[i] && ms[j] == userId;
      } else {
        assert ms[i] == g.members[i] && ms[j] == g.members[j];
      }
    }
    assert ms[|g.members|] == userId;
  }

  /** An accepted addition lists the user once more and keeps the membership invariant. */
  lemma {:induction false} AddMemberKeepsInvariant(users: seq<Doc<User>>, groups: seq<Doc<Group>>, caller: Id,
                                                   groupId: string, userId: string)
    requires AddMemberCheck(users, groups, caller, groupId, userId).Ok?
    requires GroupWellFormed(Find(groups, groupId).value)
    ensures var g := Find(groups, groupId).value;
            GroupWellFormed(g.(members := g.members + [userId])) && userId in g.members + [userId]
  {
    var g := Find(groups, groupId).value;
    var ms := g.members + [userId];
    forall i, j | 0 <= i < j < |ms| ensures ms[i] != ms[j] {
      if j == |g.members| {
        assert ms[i] == g.members[i] && ms[j] == userId;
      } else {
        assert ms[i] == g.members[i] && ms[j] == g.members[j];
      }
    }
    assert ms[|g.members|] == userId;
  }

  /** The guards of `RemoveMember`: owner only, and the user must be a member. */
  function RemoveMemberCheck(users: seq<Doc<User>>, groups: seq<Doc<Group>>, caller: Id, groupId: string,
                             userId: string)
    : (r: Reply<Target>)
    ensures r.Ok? <==>
              && LookupTarget(users, groups, groupId, userId).Ok?
              && Find(groups, groupId).value.owner == caller
              && userId in Find(groups, groupId).value.members
    ensures r.Ok? ==> r == LookupTarget(users, groups, groupId, userId)
    ensures r.Err? ==> r.status == 400
  {
    match LookupTarget(users, groups, groupId, userId)
    case Err(s, t) => Err(s, t)
    case Ok(t) =>
      if t.group.owner != caller then Err(400, OnlyAdminRemoves)
      else if userId !in t.group.members then Err(400, NotMemberOfGroup)
      else Ok(t)
  }

  method RemoveMember(db: Database, caller: Id, groupId: string, userId: string, now: int, msgId: Id)
    returns (r: Reply<string>)
    requires msgId !in Ids(db.messages)
    modifies db`groups, db`messages
    ensures var c := RemoveMemberCheck(old(db.users), old(db.groups), caller, groupId, userId);
            if c.Err? then
              r == Refuse(c) && db.groups == old(db.groups) && db.messages == old(db.messages)
            else
              && db.groups == Replace(old(db.groups), groupId, c.value.group.(members := Without(c.value.group.members, userId)))
              && NoticeOutcome(old(db.messages), db.messages,
                               MessageParams(caller, "", groupId, "", "Removed " + c.value.user.name + " from the group"),
                               now, msgId, "Member removed successfully", r)
  {
    var c := RemoveMemberCheck(db.users, db.groups, caller, groupId, userId);
    if c.Err? {
      return Refuse(c);
    }
    var g := c.value.group;
    db.groups := Replace(db.groups, groupId, g.(members := Without(g.members, userId)));
    r := PostNotice(db, MessageParams(caller, "", groupId, "", "Removed " + c.value.user.name + " from the group"),
                    now, msgId, "Member removed successfully");
  }

  /** `$pull` drops exactly the one listed occurrence and keeps the invariant. */
  lemma PullKeepsInvariant(g: Group, u: Id)
    requires GroupWellFormed(g)
    ensures var h := g.(members := Without(g.members, u));
            && GroupWellFormed(h)
            && u !in h.members
            && (forall v :: v != u ==> (v in h.members <==> v in g.members))
            && |h.members| == (if u in g.members then |g.members| - 1 else |g.members|)
  {
    WithoutMembers(g.members, u);
    WithoutNoDup(g.members, u);
    WithoutLength(g.members, u);
  }

  /** Removing a member just added gives back the members as they were. */
  lemma {:induction false} AddThenRemove(members: seq<Id>, u: Id)
    requires u !in members
    ensures Without(members + [u], u) == members
  {
    if |members| == 0 {
      assert [u][1..] == [];
    } else {
      assert (members + [u])[1..] == members[1..] + [u];
      AddThenRemove(members[1..], u);
      assert members == [members[0]] + members[1..];
    }
  }

  // ---- LeaveGroup ----

  /** The guards of `LeaveGroup`: the caller must be listed as a member, so
      an owner who is not listed cannot leave. */
  function LeaveCheck(groups: seq<Doc<Group>>, caller: Id, groupId: string): (r: Reply<Group>)
    ensures r.Ok? <==> LookupGroup(groups, groupId, 400).Ok? && caller in Find(groups, groupId).value.members
    ensures r.Ok? ==> r == LookupGroup(groups, groupId, 400)
    ensures r.Err? ==> r.status == 400
  {
    match LookupGroup(groups, groupId, 400)
    case Err(s, t) => Err(s, t)
    case Ok(g) => if caller !in g.members then Err(400, NotAMember) else Ok(g)
  }

  /** Under the membership invariant the owner can never leave. */
  lemma OwnerCannotLeave(groups: seq<Doc<Group>>, groupId: string)
    requires LookupGroup(groups, groupId, 400).Ok? && GroupWellFormed(Find(groups, groupId).value)
    ensures LeaveCheck(groups, Find(groups, groupId).value.owner, groupId) == Err(400, NotAMember)
  {
  }

  method LeaveGroup(db: Database, caller: Id, callerName: string, groupId: string, now: int, msgId: Id)
    returns (r: Reply<string>)
    requires msgId !in Ids(db.messages)
    modifies db`groups, db`messages
    ensures var c := LeaveCheck(old(db.groups), caller, groupId);
            if c.Err? then
              r == Refuse(c) && db.groups == old(db.groups) && db.messages == old(db.messages)
            else
              && db.groups == Replace(old(db.groups), groupId, c.value.(members := Without(c.value.members, caller)))
              && NoticeOutcome(old(db.messages), db.messages,
                               MessageParams(caller, "", groupId, "", callerName + " left the group"),
                               now, msgId, "Group left successfully", r)
  {
    var c := LeaveCheck(db.groups, caller, groupId);
    if c.Err? {
      return Refuse(c);
    }
    db.groups := Replace(db.groups, groupId, c.value.(members := Without(c.value.members, caller)));
    r := PostNotice(db, MessageParams(caller, "", groupId, "", callerName + " left the group"),
                    now, msgId, "Group left successfully");
  }

  /** Once left, the caller is no longer listed, so a second leave is refused. */
  lemma {:induction false} LeaveIsFinal(groups: seq<Doc<Group>>, caller: Id, groupId: string)
    requires LeaveCheck(groups, caller, groupId).Ok?
    ensures var g := LeaveCheck(groups, caller, groupId).value;
            LeaveCheck(Replace(groups, groupId, g.(members := Without(g.members, caller))), caller, groupId)
              == Err(400, NotAMember)
  {
    var g := LeaveCheck(groups, caller, groupId).value;
    FindReplaced(groups, groupId, g.(members := Without(g.members, caller)), groupId);
    WithoutMembers(g.members, caller);
  }

  // ---- UpdateGroup, UpdateAvatar ----

  const OnlyAdminEdits := "Only admin can Edit this group"
  const NameAndDescriptionRequired := "Name and description are required"

  /** The guards of `UpdateGroup`: owner only, and at least one of the two
      fields must be given. */
  function UpdateCheck(groups: seq<Doc<Group>>, caller: Id, groupId: string, name: string, description: string)
    : (r: Reply<Group>)
    ensures r.Ok? <==>
              LookupGroup(groups, groupId, 400).Ok? && Find(groups, groupId).value.owner == caller
              && (name != "" || description != "")
    ensures r.Ok? ==> r == LookupGroup(groups, groupId, 400)
    ensures (LookupGroup(groups, groupId, 400).Ok? && Find(groups, groupId).value.owner == caller
               && name == "" && description == "") ==> r == Err(400, NameAndDescriptionRequired)
  {
    match LookupGroup(groups, groupId, 400)
    case Err(s, t) => Err(s, t)
    case Ok(g) =>
      if g.owner != caller then Err(400, OnlyAdminEdits)
      else if name == "" && description == "" then Err(400, NameAndDescriptionRequired)
      else Ok(g)
  }

  /** `$set: { name, description }` writes both fields as given, even an empty one. */
  method UpdateGroup(db: Database, caller: Id, groupId: string, name: string, description: string)
    returns (r: Reply<string>)
    modifies db`groups
    ensures var c := UpdateCheck(old(db.groups), caller, groupId, name, description);
            if c.Err? then
              r == Refuse(c) && db.groups == old(db.groups)
            else
              && r == Ok("Group updated successfully")
              && db.groups == Replace(old(db.groups), groupId, c.value.(name := name, description := Some(description)))
  {
    var c := UpdateCheck(db.groups, caller, groupId, name, description);
    if c.Err? {
      return Refuse(c);
    }
    db.groups := Replace(db.groups, groupId, c.value.(name := name, description := Some(description)));
    r := Ok("Group updated successfully");
  }

  /** The guards of `UpdateAvatar`, with the file checked before the id's form. */
  function AvatarCheck(groups: seq<Doc<Group>>, caller: Id, groupId: string, hasAvatar: bool): (r: Reply<Group>)
    ensures r.Ok? <==>
              hasAvatar && LookupGroup(groups, groupId, 404).Ok? && Find(groups, groupId).value.owner == caller
    ensures r.Ok? ==> r == LookupGroup(groups, groupId, 404)
    ensures groupId != "" && !hasAvatar ==> r == Err(404, AvatarRequired)
    ensures (hasAvatar && LookupGroup(groups, groupId, 404).Ok? && Find(groups, groupId).value.owner != caller)
              ==> r == Err(400, OnlyAdminEdits)
  {
    if groupId == "" then Err(404, GroupIdRequired)
    else if !hasAvatar then Err(404, AvatarRequired)
    else match LookupGroup(groups, groupId, 404)
      case Err(s, t) => Err(s, t)
      case Ok(g) => if g.owner != caller then Err(400, OnlyAdminEdits) else Ok(g)
  }

  /** `UpdateAvatar`; `upload` is what the blob store answers for the file. */
  method UpdateAvatar(db: Database, caller: Id, groupId: string, hasAvatar: bool, upload: Result<string>,
                      now: int, msgId: Id)
    returns (r: Reply<string>)
    requires msgId !in Ids(db.messages)
    modifies db`groups, db`messages
    ensures var c := AvatarCheck(old(db.groups), caller, groupId, hasAvatar);
            if c.Err? then
              r == Refuse(c) && db.groups == old(db.groups) && db.messages == old(db.messages)
            else if upload.Failure? then
              r == Err(500, upload.error) && db.groups == old(db.groups) && db.messages == old(db.messages)
            else
              && db.groups == Replace(old(db.groups), groupId, c.value.(avatar := upload.value))
              && NoticeOutcome(old(db.messages), db.messages,
                               MessageParams(caller, "", groupId, "", "Admin changed the group avatar"),
                               now, msgId, "Avatar updated successfully", r)
  {
    var c := AvatarCheck(db.groups, caller, groupId, hasAvatar);
    if c.Err? {
      return Refuse(c);
    }
    if upload.Failure? {
      return Err(500, upload.error);
    }
    db.groups := Replace(db.groups, groupId, c.value.(avatar := upload.value));
    r := PostNotice(db, MessageParams(caller, "", groupId, "", "Admin changed the group avatar"),
                    now, msgId, "Avatar updated successfully");
  }

  /** Editing the name, description or avatar never touches who owns or belongs to the group. */
  lemma {:induction false} EditsKeepMembership(groups: seq<Doc<Group>>, caller: Id, groupId: string, name: string,
                                               description: string, url: string)
    requires UpdateCheck(groups, caller, groupId, name, description).Ok?
    ensures var g := Find(groups, groupId).value;
            var after := Replace(groups, groupId, g.(name := name, description := Some(description)));
            && Find(after, groupId).value.owner == g.owner
            && Find(after, groupId).value.members == g.members
            && Find(after, groupId).value.name == name
            && Find(Replace(groups, groupId, g.(avatar := url)), groupId).value.members == g.members
  {
    var g := Find(groups, groupId).value;
    FindReplaced(groups, groupId, g.(name := name, description := Some(description)), groupId);
    FindReplaced(groups, groupId, g.(avatar := url), groupId);
  }

  // ---- deleteGroup ----

  const OnlyAdminDeletes := "Only admin can delete this group"

  function DeleteCheck(groups: seq<Doc<Group>>, caller: Id, groupId: string): (r: Reply<Group>)
    ensures r.Ok? <==> LookupGroup(groups, groupId, 400).Ok? && Find(groups, groupId).value.owner == caller
    ensures r.Err? ==> r.status == 400
  {
    match LookupGroup(groups, groupId, 400)
    case Err(s, t) => Err(s, t)
    case Ok(g) => if g.owner != caller then Err(400, OnlyAdminDeletes) else Ok(g)
  }

  predicate OutsideGroup(id: Id, m: Message) {
    m.group != Some(id)
  }

  function OutsideGroupFilter(id: Id): Message -> bool {
    m => OutsideGroup(id, m)
  }

  /** `deleteGroup`: the group's messages go first, then the group. */
  method DeleteGroup(db: Database, caller: Id, groupId: string) returns (r: Reply<string>)
    modifies db`groups, db`messages
    ensures var c := DeleteCheck(old(db.groups), caller, groupId);
            if c.Err? then
              r == Refuse(c) && db.groups == old(db.groups) && db.messages == old(db.messages)
            else
              && r == Ok("Group deleted successfully")
              && db.messages == Select(old(db.messages), OutsideGroupFilter(groupId))
              && db.groups == Remove(old(db.groups), groupId)
  {
    var c := DeleteCheck(db.groups, caller, groupId);
    if c.Err? {
      return Refuse(c);
    }
    db.messages := Select(db.messages, OutsideGroupFilter(groupId));
    db.groups := Remove(db.groups, groupId);
    r := Ok("Group deleted successfully");
  }

  /** Deleting a group takes every one of its messages with it and keeps
      every other message and group. */
  lemma DeleteGroupLeavesNoTrace(messages: seq<Doc<Message>>, groups: seq<Doc<Group>>, groupId: Id)
    ensures forall d :: d in messages ==>
              (d in Select(messages, OutsideGroupFilter(groupId)) <==> d.data.group != Some(groupId))
    ensures forall d :: d in groups ==> (d in Remove(groups, groupId) <==> d.id != groupId)
    ensures Find(Remove(groups, groupId), groupId).None?
  {
    SelectMembers(messages, OutsideGroupFilter(groupId));
  }
}
