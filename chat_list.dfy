/** The chat list (project-one/src/controllers/chatList.ts): the caller's
    accepted friendships and groups, each with its unread count, merged and
    ordered by the time of the last message, newest first. */
module ChatList {
  import opened Common
  import opened Store
  import opened Sorting
  import Messages

  /** A message that counts as unread for `caller`: someone else sent it and
      it carries no receipt of the caller's. */
  predicate Unseen(caller: Id, m: Message) {
    m.sender != caller && !ReadBy(m, caller)
  }

  /** How many of a chat's listed messages are unread for the caller; ids
      that name no stored message are dropped, as `populate` drops them. */
  function UnreadCount(ids: seq<Id>, messages: seq<Doc<Message>>, caller: Id): (n: nat)
    ensures n <= |ids|
  {
    if |ids| == 0 then 0
    else
      (if Find(messages, ids[0]).Some? && Unseen(caller, Find(messages, ids[0]).value) then 1 else 0)
      + UnreadCount(ids[1..], messages, caller)
  }

  /** One element of the list. */
  datatype ChatEntry =
    | FriendChat(id: Id, friend: Id, isBlocked: bool, lastMessage: Option<Id>, unread: nat)
    | GroupChat(id: Id, name: string, avatar: string, lastMessage: Option<Id>, unread: nat)

  /** The sort key: the creation time of the last message, 0 when there is none. */
  function LastTime(messages: seq<Doc<Message>>, last: Option<Id>): int {
    if last.Some? && Find(messages, last.value).Some? then Find(messages, last.value).value.createdAt else 0
  }

  function EntryTime(messages: seq<Doc<Message>>): ChatEntry -> int {
    (e: ChatEntry) => LastTime(messages, e.lastMessage)
  }

  predicate AcceptedWith(caller: Id, f: Friendship) {
    f.status == Accepted && IsParticipant(f, caller)
  }

  function AcceptedFilter(caller: Id): Friendship -> bool {
    f => AcceptedWith(caller, f)
  }

  function MemberFilter(caller: Id): Group -> bool {
    g => IsOwnerOrMember(g, caller)
  }

  function FriendEntryOf(d: Doc<Friendship>, messages: seq<Doc<Message>>, caller: Id): ChatEntry {
    FriendChat(d.id, OtherParty(d.data, caller), d.data.isBlocked, d.data.lastMessage,
               UnreadCount(d.data.messages, messages, caller))
  }

  function GroupEntryOf(d: Doc<Group>, messages: seq<Doc<Message>>, caller: Id): ChatEntry {
    GroupChat(d.id, d.data.name, d.data.avatar, d.data.lastMessage, UnreadCount(d.data.messages, messages, caller))
  }

  function FriendChats(sel: seq<Doc<Friendship>>, messages: seq<Doc<Message>>, caller: Id): (r: seq<ChatEntry>)
    ensures |r| == |sel| && forall i :: 0 <= i < |sel| ==> r[i] == FriendEntryOf(sel[i], messages, caller)
  {
    seq(|sel|, i requires 0 <= i < |sel| => FriendEntryOf(sel[i], messages, caller))
  }

  function GroupChats(sel: seq<Doc<Group>>, messages: seq<Doc<Message>>, caller: Id): (r: seq<ChatEntry>)
    ensures |r| == |sel| && forall i :: 0 <= i < |sel| ==> r[i] == GroupEntryOf(sel[i], messages, caller)
  {
    seq(|sel|, i requires 0 <= i < |sel| => GroupEntryOf(sel[i], messages, caller))
  }

  /** The friendships' entries followed by the groups', before sorting. */
  function Merged(friends: seq<Doc<Friendship>>, groups: seq<Doc<Group>>, messages: seq<Doc<Message>>, caller: Id)
    : (r: seq<ChatEntry>)
    ensures |r| == |Select(friends, AcceptedFilter(caller))| + |Select(groups, MemberFilter(caller))|
  {
    FriendChats(Select(friends, AcceptedFilter(caller)), messages, caller)
      + GroupChats(Select(groups, MemberFilter(caller)), messages, caller)
  }

  /** `GetChatList`: the merged entries ordered by `LastTime`, newest first. */
  function GetChatList(friends: seq<Doc<Friendship>>, groups: seq<Doc<Group>>, messages: seq<Doc<Message>>, caller: Id)
    : (r: seq<ChatEntry>)
    ensures |r| == |Select(friends, AcceptedFilter(caller))| + |Select(groups, MemberFilter(caller))|
  {
    SortDescCorrect(Merged(friends, groups, messages, caller), EntryTime(messages));
    SortDesc(Merged(friends, groups, messages, caller), EntryTime(messages))
  }

  lemma {:induction false} FriendsInMerged(friends: seq<Doc<Friendship>>, groups: seq<Doc<Group>>,
                                           messages: seq<Doc<Message>>, caller: Id)
    ensures forall d :: d in friends && AcceptedWith(caller, d.data) ==>
              FriendEntryOf(d, messages, caller) in Merged(friends, groups, messages, caller)
  {
    var fsel := Select(friends, AcceptedFilter(caller));
    var fs := FriendChats(fsel, messages, caller);
    var gs := GroupChats(Select(groups, MemberFilter(caller)), messages, caller);
    var merged := Merged(friends, groups, messages, caller);
    assert merged == fs + gs;
    SelectMembers(friends, AcceptedFilter(caller));
    forall d | d in friends && AcceptedWith(caller, d.data) ensures FriendEntryOf(d, messages, caller) in merged {
      assert AcceptedFilter(caller)(d.data);
      var k :| 0 <= k < |fsel| && fsel[k] == d;
      assert merged[k] == fs[k];
    }
  }

  lemma {:induction false} GroupsInMerged(friends: seq<Doc<Friendship>>, groups: seq<Doc<Group>>,
                                          messages: seq<Doc<Message>>, caller: Id)
    ensures forall d :: d in groups && IsOwnerOrMember(d.data, caller) ==>
              GroupEntryOf(d, messages, caller) in Merged(friends, groups, messages, caller)
  {
    var gsel := Select(groups, MemberFilter(caller));
    var fs := FriendChats(Select(friends, AcceptedFilter(caller)), messages, caller);
    var gs := GroupChats(gsel, messages, caller);
    var merged := Merged(friends, groups, messages, caller);
    assert merged == fs + gs;
    SelectMembers(groups, MemberFilter(caller));
    forall d | d in groups && IsOwnerOrMember(d.data, caller) ensures GroupEntryOf(d, messages, caller) in merged {
      assert MemberFilter(caller)(d.data);
      var k :| 0 <= k < |gsel| && gsel[k] == d;
      assert merged[|fs| + k] == gs[k];
    }
  }

  /** Every accepted friendship (blocked or not) and every group of the
      caller's has its entry among the merged entries. */
  lemma {:induction false} MergedComplete(friends: seq<Doc<Friendship>>, groups: seq<Doc<Group>>,
                                          messages: seq<Doc<Message>>, caller: Id)
    ensures forall d :: d in friends && AcceptedWith(caller, d.data) ==>
              FriendEntryOf(d, messages, caller) in Merged(friends, groups, messages, caller)
    ensures forall d :: d in groups && IsOwnerOrMember(d.data, caller) ==>
              GroupEntryOf(d, messages, caller) in Merged(friends, groups, messages, caller)
  {
    FriendsInMerged(friends, groups, messages, caller);
    GroupsInMerged(friends, groups, messages, caller);
  }

  /** The entry at a friendship position of the merged list. */
  lemma {:induction false} FriendEntryAt(friends: seq<Doc<Friendship>>, groups: seq<Doc<Group>>,
                                         messages: seq<Doc<Message>>, caller: Id, k: nat)
    requires k < |Select(friends, AcceptedFilter(caller))|
    ensures var d := Select(friends, AcceptedFilter(caller))[k];
            && d in friends && AcceptedWith(caller, d.data)
            && Merged(friends, groups, messages, caller)[k] == FriendEntryOf(d, messages, caller)
  {
    var fsel := Select(friends, AcceptedFilter(caller));
    var fs := FriendChats(fsel, messages, caller);
    var gs := GroupChats(Select(groups, MemberFilter(caller)), messages, caller);
    assert Merged(friends, groups, messages, caller) == fs + gs;
    SelectMembers(friends, AcceptedFilter(caller));
    assert AcceptedFilter(caller)(fsel[k].data);
  }

  /** The entry at a group position of the merged list. */
  lemma {:induction false} GroupEntryAt(friends: seq<Doc<Friendship>>, groups: seq<Doc<Group>>,
                                        messages: seq<Doc<Message>>, caller: Id, k: nat)
    requires k < |Select(groups, MemberFilter(caller))|
    ensures var d := Select(groups, MemberFilter(caller))[k];
            && d in groups && IsOwnerOrMember(d.data, caller)
            && Merged(friends, groups, messages, caller)[|Select(friends, AcceptedFilter(caller))| + k]
               == GroupEntryOf(d, messages, caller)
  {
    var gsel := Select(groups, MemberFilter(caller));
    var fs := FriendChats(Select(friends, AcceptedFilter(caller)), messages, caller);
    var gs := GroupChats(gsel, messages, caller);
    assert Merged(friends, groups, messages, caller) == fs + gs;
    SelectMembers(groups, MemberFilter(caller));
    assert MemberFilter(caller)(gsel[k].data);
    assert (fs + gs)[|fs| + k] == gs[k];
  }

  /** The entry is that of an accepted friendship of the caller's: the same
      id, the caller's other party, the blocked flag and the unread count. */
  predicate FriendSourced(friends: seq<Doc<Friendship>>, messages: seq<Doc<Message>>, caller: Id, e: ChatEntry)
    requires e.FriendChat?
  {
    exists d :: d in friends && AcceptedWith(caller, d.data) && e.id == d.id
                && e.friend == OtherParty(d.data, caller) && e.isBlocked == d.data.isBlocked
                && e.unread == UnreadCount(d.data.messages, messages, caller)
  }

  /** The entry is that of a group the caller owns or belongs to, with its unread count. */
  predicate GroupSourced(groups: seq<Doc<Group>>, messages: seq<Doc<Message>>, caller: Id, e: ChatEntry)
    requires e.GroupChat?
  {
    exists d :: d in groups && IsOwnerOrMember(d.data, caller) && e.id == d.id
                && e.unread == UnreadCount(d.data.messages, messages, caller)
  }

  lemma {:induction false} FriendEntrySound(friends: seq<Doc<Friendship>>, groups: seq<Doc<Group>>,
                                            messages: seq<Doc<Message>>, caller: Id, k: nat, e: ChatEntry)
    requires k < |Select(friends, AcceptedFilter(caller))|
    requires Merged(friends, groups, messages, caller)[k] == e
    ensures e.FriendChat?
    ensures FriendSourced(friends, messages, caller, e)
  {
    FriendEntryAt(friends, groups, messages, caller, k);
    var d := Select(friends, AcceptedFilter(caller))[k];
    assert e == FriendEntryOf(d, messages, caller);
  }

  lemma {:induction false} GroupEntrySound(friends: seq<Doc<Friendship>>, groups: seq<Doc<Group>>,
                                           messages: seq<Doc<Message>>, caller: Id, k: nat, e: ChatEntry)
    requires k < |Select(groups, MemberFilter(caller))|
    requires Merged(friends, groups, messages, caller)[|Select(friends, AcceptedFilter(caller))| + k] == e
    ensures e.GroupChat?
    ensures GroupSourced(groups, messages, caller, e)
  {
    GroupEntryAt(friends, groups, messages, caller, k);
    var d := Select(groups, MemberFilter(caller))[k];
    assert e == GroupEntryOf(d, messages, caller);
  }

  /** The position of an entry of the merged list. */
  lemma MergedIndex(friends: seq<Doc<Friendship>>, groups: seq<Doc<Group>>,
                    messages: seq<Doc<Message>>, caller: Id, e: ChatEntry) returns (k: nat)
    requires e in Merged(friends, groups, messages, caller)
    ensures k < |Select(friends, AcceptedFilter(caller))| + |Select(groups, MemberFilter(caller))|
    ensures Merged(friends, groups, messages, caller)[k] == e
  {
    var merged := Merged(friends, groups, messages, caller);
    k :| 0 <= k < |merged| && merged[k] == e;
  }

  /** Every merged entry comes from an accepted friendship or a group of the
      caller's, and a friendship's entry names its other party. */
  lemma {:induction false} MergedSound(friends: seq<Doc<Friendship>>, groups: seq<Doc<Group>>,
                                       messages: seq<Doc<Message>>, caller: Id, e: ChatEntry)
    requires e in Merged(friends, groups, messages, caller)
    ensures e.FriendChat? ==> FriendSourced(friends, messages, caller, e)
    ensures e.GroupChat? ==> GroupSourced(groups, messages, caller, e)
  {
    var nf := |Select(friends, AcceptedFilter(caller))|;
    var k := MergedIndex(friends, groups, messages, caller, e);
    if k < nf {
      FriendEntrySound(friends, groups, messages, caller, k, e);
    } else {
      GroupEntrySound(friends, groups, messages, caller, k - nf, e);
    }
  }

  /** The list is newest first and holds exactly the merged entries, each as often. */
  lemma ChatListSorted(friends: seq<Doc<Friendship>>, groups: seq<Doc<Group>>, messages: seq<Doc<Message>>, caller: Id)
    ensures SortedDesc(GetChatList(friends, groups, messages, caller), EntryTime(messages))
    ensures multiset(GetChatList(friends, groups, messages, caller)) == multiset(Merged(friends, groups, messages, caller))
    ensures forall e :: e in GetChatList(friends, groups, messages, caller) <==> e in Merged(friends, groups, messages, caller)
  {
    var merged := Merged(friends, groups, messages, caller);
    var list := GetChatList(friends, groups, messages, caller);
    SortDescCorrect(merged, EntryTime(messages));
    forall e ensures e in list <==> e in merged {
      assert e in list <==> e in multiset(list);
      assert e in merged <==> e in multiset(merged);
    }
  }

  // ---- how marking a group as read shows in the list ----

  /** `MarkRead` keeps every id in place and changes a message only by adding the receipt. */
  lemma {:induction false} FindMarked(messages: seq<Doc<Message>>, scope: Messages.ReadScope, caller: Id, name: string, id: Id)
    ensures var after := Messages.MarkRead(messages, scope, caller, name);
            && (Find(after, id).Some? <==> Find(messages, id).Some?)
            && (Find(messages, id).Some? ==>
                  Find(after, id).value ==
                    if Messages.Unread(scope, caller, Find(messages, id).value)
                    then Messages.WithReceipt(Find(messages, id).value, caller, name)
                    else Find(messages, id).value)
  {
    if |messages| > 0 {
      var after := Messages.MarkRead(messages, scope, caller, name);
      assert after[1..] == Messages.MarkRead(messages[1..], scope, caller, name);
      FindMarked(messages[1..], scope, caller, name, id);
    }
  }

  /** Once the caller has marked a group as read, none of the group's
      messages is unread for them (the group lists only its own messages,
      as `SendMessage` keeps it). */
  lemma {:induction false} MarkedGroupHasNoUnread(ids: seq<Id>, messages: seq<Doc<Message>>, groupId: Id, caller: Id,
                                                  name: string)
    requires forall i :: 0 <= i < |ids| && Find(messages, ids[i]).Some? ==> Find(messages, ids[i]).value.group == Some(groupId)
    ensures UnreadCount(ids, Messages.MarkRead(messages, Messages.InGroup(groupId), caller, name), caller) == 0
  {
    if |ids| > 0 {
      var after := Messages.MarkRead(messages, Messages.InGroup(groupId), caller, name);
      FindMarked(messages, Messages.InGroup(groupId), caller, name, ids[0]);
      if Find(messages, ids[0]).Some? {
        var m := Find(messages, ids[0]).value;
        if Messages.Unread(Messages.InGroup(groupId), caller, m) {
          Messages.WithReceiptReads(m, caller, name);
        }
      }
      assert forall i :: 0 <= i < |ids[1..]| ==> ids[1..][i] == ids[i + 1];
      MarkedGroupHasNoUnread(ids[1..], messages, groupId, caller, name);
    }
  }
}
