/** The database the three route files share: the messages, users and
    password-reset collections, updated in place by the handlers, with the
    invariant the unique indexes and identifier allocation keep; and the
    store-side operations more than one handler uses (ordering by creation
    time, and the soft-delete update). */
module Store {
  import opened Common
  import opened Models

  class Db {
    var messages: seq<Message>
    var users: seq<User>
    var resets: seq<ResetRequest>
    /** The next identifier to hand out; every stored document's is below it. */
    var nextId: nat

    ghost predicate Valid()
      reads this
    {
      && UsersUnique(users)
      && (forall i :: 0 <= i < |users| ==> users[i].id < nextId)
      && (forall i :: 0 <= i < |messages| ==> messages[i].id < nextId)
      && (forall i, j :: 0 <= i < j < |messages| ==> messages[i].id != messages[j].id)
      && (forall i :: 0 <= i < |resets| ==> resets[i].id < nextId)
      && (forall i, j :: 0 <= i < j < |resets| ==> resets[i].id != resets[j].id)
    }

    constructor ()
      ensures Valid()
      ensures messages == [] && users == [] && resets == []
    {
      messages, users, resets, nextId := [], [], [], 0;
    }
  }

  /** Appending records numbered from the next free id keeps every id
      distinct and below the advanced counter. */
  lemma AppendFresh(ms: seq<Message>, added: seq<Message>, next: nat)
    requires forall i :: 0 <= i < |ms| ==> ms[i].id < next
    requires forall i, j :: 0 <= i < j < |ms| ==> ms[i].id != ms[j].id
    requires forall i :: 0 <= i < |added| ==> added[i].id == next + i
    ensures forall i :: 0 <= i < |ms + added| ==> (ms + added)[i].id < next + |added|
    ensures forall i, j :: 0 <= i < j < |ms + added| ==> (ms + added)[i].id != (ms + added)[j].id
  {
    var all := ms + added;
    forall i, j | 0 <= i < j < |all| ensures all[i].id != all[j].id {
      if j >= |ms| {
        assert all[j] == added[j - |ms|];
        if i >= |ms| {
          assert all[i] == added[i - |ms|];
        } else {
          assert all[i] == ms[i];
        }
      } else {
        assert all[i] == ms[i] && all[j] == ms[j];
      }
    }
  }

  // ---------------------------------------------------------------------
  // Ordering by `created_at`

  /** `a` may come before `b` under `sort({created_at: 1})` (oldest first)
      or `sort({created_at: -1})` (newest first). */
  predicate Precedes(a: Message, b: Message, newestFirst: bool) {
    if newestFirst then a.createdAt >= b.createdAt else a.createdAt <= b.createdAt
  }

  predicate SortedByTime(s: seq<Message>, newestFirst: bool) {
    forall i, j :: 0 <= i < j < |s| ==> Precedes(s[i], s[j], newestFirst)
  }

  function InsertByTime(m: Message, s: seq<Message>, newestFirst: bool): (r: seq<Message>)
    requires SortedByTime(s, newestFirst)
    ensures SortedByTime(r, newestFirst)
    ensures multiset(r) == multiset(s) + multiset{m}
  {
    if s == [] then [m]
    else if Precedes(m, s[0], newestFirst) then [m] + s
    else
      var rest := InsertByTime(m, s[1..], newestFirst);
      HeadPrecedesInsert(m, s, newestFirst, rest);
      assert s == [s[0]] + s[1..];
      [s[0]] + rest
  }

  lemma HeadPrecedesInsert(m: Message, s: seq<Message>, newestFirst: bool, rest: seq<Message>)
    requires s != [] && SortedByTime(s, newestFirst) && !Precedes(m, s[0], newestFirst)
    requires multiset(rest) == multiset(s[1..]) + multiset{m}
    ensures forall j :: 0 <= j < |rest| ==> Precedes(s[0], rest[j], newestFirst)
  {
    forall j | 0 <= j < |rest| ensures Precedes(s[0], rest[j], newestFirst) {
      var x := rest[j];
      assert x in multiset(rest);
      if x != m {
        assert x in multiset(s[1..]);
        var k :| 0 <= k < |s[1..]| && s[1..][k] == x;
        assert s[k + 1] == x;
      }
    }
  }

  /** The query results in the order the sort stage yields them. */
  function SortByTime(s: seq<Message>, newestFirst: bool): (r: seq<Message>)
    ensures SortedByTime(r, newestFirst)
    ensures multiset(r) == multiset(s)
  {
    if s == [] then []
    else
      assert s == [s[0]] + s[1..];
      InsertByTime(s[0], SortByTime(s[1..], newestFirst), newestFirst)
  }

  lemma SortedElements(s: seq<Message>, newestFirst: bool)
    ensures |SortByTime(s, newestFirst)| == |s|
    ensures forall m :: m in SortByTime(s, newestFirst) <==> m in s
  {
    var r := SortByTime(s, newestFirst);
    assert |r| == |multiset(r)| == |multiset(s)| == |s|;
    forall m ensures m in r <==> m in s {
      assert m in r <==> m in multiset(r);
      assert m in s <==> m in multiset(s);
    }
  }

  // ---------------------------------------------------------------------
  // Soft delete

  /** `updateMany({_id: {$in: ids}}, {$set: {is_deleted_by_admin: true}})`:
      every listed message is marked deleted by the moderator, and nothing
      else about any message changes; no message is removed. */
  function SoftDeleted(ms: seq<Message>, ids: seq<MsgId>): (r: seq<Message>)
    ensures |r| == |ms|
    ensures forall i :: 0 <= i < |ms| ==>
      && r[i].isDeletedByAdmin == (ms[i].isDeletedByAdmin || ms[i].id in ids)
      && r[i].(isDeletedByAdmin := ms[i].isDeletedByAdmin) == ms[i]
  {
    seq(|ms|, i requires 0 <= i < |ms| =>
      if ms[i].id in ids then ms[i].(isDeletedByAdmin := true) else ms[i])
  }

  lemma SoftDeletedIdempotent(ms: seq<Message>, ids: seq<MsgId>)
    ensures SoftDeleted(SoftDeleted(ms, ids), ids) == SoftDeleted(ms, ids)
  {
    var once := SoftDeleted(ms, ids);
    var twice := SoftDeleted(once, ids);
    forall i | 0 <= i < |ms| ensures twice[i] == once[i] {
      assert once[i].id == ms[i].id;
    }
  }
}
