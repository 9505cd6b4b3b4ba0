/** The database as the controllers see it: one collection per model
    (users, friendships, groups, messages), each an ordered sequence of
    documents with their ids (a collection's natural order, which is the
    order `find` returns). The Mongoose schemas become datatypes; an
    optional field is an `Option`, a reference is the referenced id. */
module Store {
  import opened Common

  datatype FriendStatus = Pending | Accepted

  /** The `blockedBy` reference, which has no schema default: absent
      (`undefined`) on a record never blocked, the blocker's id while
      blocked, and `null` once an unblock has cleared it. */
  datatype BlockedBy = Absent | Blocker(user: Id) | Cleared

  datatype Friendship = Friendship(
    sender: Id,
    receiver: Id,
    status: FriendStatus,
    isBlocked: bool,
    blockedBy: BlockedBy,
    messages: seq<Id>,
    lastMessage: Option<Id>)

  datatype Group = Group(
    name: string,
    description: Option<string>,
    avatar: string,
    owner: Id,
    members: seq<Id>,
    messages: seq<Id>,
    lastMessage: Option<Id>)

  datatype ReadReceipt = ReadReceipt(userId: Id, name: string)

  datatype Attachment = Attachment(name: string, url: string, size: nat, mimetype: string)

  /** A message; `createdAt` is the creation time in milliseconds. */
  datatype Message = Message(
    sender: Id,
    receiver: Option<Id>,
    friend: Option<Id>,
    group: Option<Id>,
    content: Option<string>,
    notification: Option<string>,
    attachments: seq<Attachment>,
    readBy: seq<ReadReceipt>,
    createdAt: int)

  /** A user account; the password hash is left to the hashing library.
      `tokenExpires` is a time in milliseconds. */
  datatype User = User(
    name: string,
    username: string,
    email: Option<string>,
    avatar: Option<string>,
    onBoarding: bool,
    isEmailVerified: bool,
    verifiedToken: Option<string>,
    tokenExpires: Option<int>)

  datatype Doc<T> = Doc(id: Id, data: T)

  // ---- relations every controller uses ----

  predicate IsParticipant(f: Friendship, u: Id) {
    f.sender == u || f.receiver == u
  }

  /** The party of `f` that is not `u` (`isSender ? receiver : sender`). */
  function OtherParty(f: Friendship, u: Id): Id {
    if f.sender == u then f.receiver else f.sender
  }

  predicate IsOwnerOrMember(g: Group, u: Id) {
    g.owner == u || u in g.members
  }

  predicate ReadBy(m: Message, u: Id) {
    exists k :: 0 <= k < |m.readBy| && m.readBy[k].userId == u
  }

  // ---- collection primitives ----

  function Ids<T>(docs: seq<Doc<T>>): (r: seq<Id>)
    ensures |r| == |docs|
    ensures forall i :: 0 <= i < |docs| ==> r[i] == docs[i].id
  {
    seq(|docs|, i requires 0 <= i < |docs| => docs[i].id)
  }

  /** `findById`: the first document with this id. */
  function Find<T>(docs: seq<Doc<T>>, id: Id): (r: Option<T>)
    ensures r.None? <==> id !in Ids(docs)
    ensures r.Some? ==> Doc(id, r.value) in docs
  {
    if |docs| == 0 then None
    else if docs[0].id == id then Some(docs[0].data)
    else
      assert Ids(docs) == [docs[0].id] + Ids(docs[1..]);
      Find(docs[1..], id)
  }

  /** The document at position `k` is the one found when no earlier document has its id. */
  lemma {:induction false} FindAt<T>(docs: seq<Doc<T>>, k: nat)
    requires k < |docs|
    requires forall i :: 0 <= i < k ==> docs[i].id != docs[k].id
    ensures Find(docs, docs[k].id) == Some(docs[k].data)
  {
    if k > 0 {
      assert docs[0].id != docs[k].id;
      assert docs[1..][k - 1] == docs[k];
      FindAt(docs[1..], k - 1);
    }
  }

  /** Where ids are unique, `findById` answers the one document with that id. */
  lemma {:induction false} FindUnique<T>(docs: seq<Doc<T>>, d: Doc<T>)
    requires NoDup(Ids(docs)) && d in docs
    ensures Find(docs, d.id) == Some(d.data)
  {
    var ids := Ids(docs);
    var k :| 0 <= k < |docs| && docs[k] == d;
    forall i | 0 <= i < k ensures docs[i].id != docs[k].id {
      assert ids[i] == docs[i].id && ids[k] == docs[k].id;
    }
    FindAt(docs, k);
  }

  /** `findOneAndUpdate({_id: id}, ...)` / `save()`: the document with this id now holds `v`. */
  function Replace<T>(docs: seq<Doc<T>>, id: Id, v: T): (r: seq<Doc<T>>)
    ensures |r| == |docs| && Ids(r) == Ids(docs)
    ensures forall i :: 0 <= i < |docs| ==> r[i] == if docs[i].id == id then Doc(id, v) else docs[i]
  {
    seq(|docs|, i requires 0 <= i < |docs| => if docs[i].id == id then Doc(id, v) else docs[i])
  }

  lemma {:induction false} FindReplaced<T>(docs: seq<Doc<T>>, id: Id, v: T, other: Id)
    ensures Find(Replace(docs, id, v), other) == if other == id && id in Ids(docs) then Some(v) else Find(docs, other)
  {
    if |docs| > 0 {
      var r := Replace(docs, id, v);
      assert r[1..] == Replace(docs[1..], id, v);
      assert Ids(docs) == [docs[0].id] + Ids(docs[1..]);
      FindReplaced(docs[1..], id, v, other);
    }
  }

  /** `findByIdAndDelete(id)`. */
  function Remove<T>(docs: seq<Doc<T>>, id: Id): (r: seq<Doc<T>>)
    ensures forall d :: d in docs ==> (d in r <==> d.id != id)
    ensures forall i :: 0 <= i < |r| ==> r[i] in docs && r[i].id != id
    ensures id !in Ids(r)
  {
    if |docs| == 0 then []
    else if docs[0].id == id then Remove(docs[1..], id)
    else
      assert docs == [docs[0]] + docs[1..];
      [docs[0]] + Remove(docs[1..], id)
  }

  /** The documents for which `keep` holds, in collection order
      (`find(filter)`, and what `deleteMany` leaves behind with the negated filter). */
  function Select<T>(docs: seq<Doc<T>>, keep: T -> bool): seq<Doc<T>> {
    if |docs| == 0 then []
    else (if keep(docs[0].data) then [docs[0]] else []) + Select(docs[1..], keep)
  }

  lemma {:induction false} SelectMembers<T>(docs: seq<Doc<T>>, keep: T -> bool)
    ensures forall d :: d in docs ==> (d in Select(docs, keep) <==> keep(d.data))
    ensures forall i :: 0 <= i < |Select(docs, keep)| ==> Select(docs, keep)[i] in docs && keep(Select(docs, keep)[i].data)
    ensures |Select(docs, keep)| <= |docs|
  {
    if |docs| > 0 {
      SelectMembers(docs[1..], keep);
      assert docs == [docs[0]] + docs[1..];
    }
  }

  /** Selecting keeps the collection's order: the selected documents form a
      subsequence of the collection. */
  lemma {:induction false} SelectAppend<T>(docs: seq<Doc<T>>, d: Doc<T>, keep: T -> bool)
    ensures Select(docs + [d], keep) == Select(docs, keep) + (if keep(d.data) then [d] else [])
  {
    if |docs| == 0 {
      assert docs + [d] == [d];
    } else {
      var head := if keep(docs[0].data) then [docs[0]] else [];
      var tail := if keep(d.data) then [d] else [];
      assert (docs + [d])[0] == docs[0];
      assert (docs + [d])[1..] == docs[1..] + [d];
      SelectAppend(docs[1..], d, keep);
      assert Select(docs + [d], keep) == head + (Select(docs[1..], keep) + tail);
      assert Select(docs, keep) == head + Select(docs[1..], keep);
    }
  }

  /** The database of the controllers. */
  class Database {
    var users: seq<Doc<User>>
    var friends: seq<Doc<Friendship>>
    var groups: seq<Doc<Group>>
    var messages: seq<Doc<Message>>

    constructor ()
      ensures users == [] && friends == [] && groups == [] && messages == []
    {
      users, friends, groups, messages := [], [], [], [];
    }
  }
}
