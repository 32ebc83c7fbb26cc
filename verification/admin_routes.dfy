/** The moderator routes: the user list with flag counts, approval with a
    login id, the password-reset queue, deleting users and chats, the bulk
    soft-delete, and the three chat-review queries (contacts, the days a
    conversation spans, and one day of a conversation). Password hashing and
    e-mail are not modelled: the hash is a parameter. */
module AdminRoutes {
  import opened Common
  import opened Models
  import opened Store
  import ChatRoutes

  // ---------------------------------------------------------------------
  // GET /users

  /** The query `{user_id: userId, is_flagged: true}`. */
  function FlaggedBy(userId: UserId): Message -> bool {
    (m: Message) => m.userId == userId && m.isFlagged
  }

  function FlaggedCount(messages: seq<Message>, userId: UserId): nat {
    Count(messages, FlaggedBy(userId))
  }

  /** A user as listed to the moderator, with their flagged-message count. */
  datatype UserRow = UserRow(user: User, flaggedCount: nat)

  /** `/users`: every user in stored order, without the password hash
      (`select('-password')`), each with the number of their messages that
      are flagged. */
  function UsersWithFlags(users: seq<User>, messages: seq<Message>): (r: seq<UserRow>)
    ensures |r| == |users|
    ensures forall i :: 0 <= i < |users| ==>
      && r[i].user.password.None?
      && r[i].user.(password := users[i].password) == users[i]
      && r[i].flaggedCount == |Filter(messages, FlaggedBy(users[i].id))|
  {
    seq(|users|, i requires 0 <= i < |users| =>
      UserRow(users[i].(password := None), FlaggedCount(messages, users[i].id)))
  }

  /** A `/send` that stores its records raises the sender's flagged count
      by one exactly when the content is flagged, and leaves every other
      user's count unchanged. */
  lemma {:induction false} SendUpdatesFlaggedCount(messages: seq<Message>, req: ChatRoutes.SendRequest,
                                                   ai: ChatRoutes.Completion, pdfReadable: bool, castError: string,
                                                   id: MsgId, sentAt: int, repliedAt: int, who: UserId)
    requires ChatRoutes.SendRoute(req, ai, pdfReadable, castError, id, sentAt, repliedAt).reply.Sent?
    ensures var out := ChatRoutes.SendRoute(req, ai, pdfReadable, castError, id, sentAt, repliedAt);
      FlaggedCount(messages + out.stored, who)
        == FlaggedCount(messages, who)
           + (if who == req.userId.value && ChatRoutes.IsFlagged(req.content) then 1 else 0)
  {
    var out := ChatRoutes.SendRoute(req, ai, pdfReadable, castError, id, sentAt, repliedAt);
    CountAppend(messages, out.stored, FlaggedBy(who));
    var s := out.stored;
    if req.content == Some("") {
      assert Filter(s, FlaggedBy(who)) == [];
    } else {
      assert s == [s[0]] + [s[1]];
      CountAppend([s[0]], [s[1]], FlaggedBy(who));
      assert Filter([s[1]], FlaggedBy(who)) == [];
    }
  }

  // ---------------------------------------------------------------------
  // POST /approve

  datatype ApproveRequest = ApproveRequest(userId: Option<UserId>, loginId: Option<string>, password: Option<string>)

  predicate HasLoginId(u: User, loginId: string) { u.loginId == Some(loginId) }

  function WithLoginId(loginId: string): User -> bool {
    (u: User) => HasLoginId(u, loginId)
  }

  /** The user record after approval: new password hash, login id and status. */
  function ApprovedAs(u: User, loginId: string, hash: string): User {
    u.(password := Some(hash), loginId := Some(loginId), status := Approved)
  }

  /** `/approve`: refused when a field is missing or when the login id
      already belongs to another user; otherwise the user with that id (if
      any) gets the password, the login id and the approved status. */
  function ApproveRoute(users: seq<User>, req: ApproveRequest, hash: string): (r: (Response, seq<User>))
    ensures req.userId.None? || Falsy(req.password) || Falsy(req.loginId)
            ==> r == (Fail(400, "Missing userId, loginId or password"), users)
    ensures r.0.Fail? ==> r.1 == users
    ensures r.0.Done? ==> req.userId.Some? && !Falsy(req.password) && !Falsy(req.loginId)
    ensures req.userId.Some? && !Falsy(req.password) && !Falsy(req.loginId)
            && (forall v :: v in users && HasLoginId(v, req.loginId.value) ==> v.id == req.userId.value)
            ==> r.0.Done?
    ensures UsersUnique(users) && req.userId.Some? && !Falsy(req.password) && !Falsy(req.loginId)
            ==> (r.0 == Fail(400, "Login ID already taken")
                 <==> exists v :: v in users && HasLoginId(v, req.loginId.value) && v.id != req.userId.value)
    ensures r.0.Done? ==> |r.1| == |users| && forall i :: 0 <= i < |users| ==>
      r.1[i] == if users[i].id == req.userId.value then ApprovedAs(users[i], req.loginId.value, hash) else users[i]
  {
    if req.userId.None? || Falsy(req.password) || Falsy(req.loginId) then
      (Fail(400, "Missing userId, loginId or password"), users)
    else
      var existing := First(users, WithLoginId(req.loginId.value));
      if existing.Some? && existing.value.id != req.userId.value then
        (Fail(400, "Login ID already taken"), users)
      else
        assert UsersUnique(users) ==> forall v :: v in users && HasLoginId(v, req.loginId.value) ==> v.id == req.userId.value by {
          if UsersUnique(users) && existing.Some? {
            forall v | v in users && HasLoginId(v, req.loginId.value) ensures v.id == req.userId.value {
              LoginIdOwner(users, v, existing.value);
            }
          }
        }
        (Done("User approved with Login ID and Password"),
         seq(|users|, i requires 0 <= i < |users| =>
           if users[i].id == req.userId.value then ApprovedAs(users[i], req.loginId.value, hash) else users[i]))
  }

  /** Approval keeps the unique indexes intact, including the sparse
      `login_id` one, so a request handled on its own never trips a
      duplicate-key error. */
  lemma ApprovePreservesUnique(users: seq<User>, req: ApproveRequest, hash: string)
    requires UsersUnique(users)
    ensures UsersUnique(ApproveRoute(users, req, hash).1)
  {
    var r := ApproveRoute(users, req, hash);
    if r.0.Done? {
      var after := r.1;
      var login := req.loginId.value;
      forall i, j | 0 <= i < j < |after|
        ensures && after[i].id != after[j].id
                && after[i].email != after[j].email
                && after[i].mobile != after[j].mobile
                && (after[i].loginId.Some? && after[j].loginId.Some? ==> after[i].loginId != after[j].loginId)
      {
        assert after[i].id == users[i].id && after[j].id == users[j].id;
        if users[i].id == req.userId.value {
          assert users[j] in users;
        } else if users[j].id == req.userId.value {
          assert users[i] in users;
        }
      }
    }
  }

  /** Under the sparse unique index, a login id names at most one user. */
  lemma LoginIdOwner(users: seq<User>, v: User, w: User)
    requires UsersUnique(users) && v in users && w in users
    requires v.loginId.Some? && v.loginId == w.loginId
    ensures v == w
  {
    var i :| 0 <= i < |users| && users[i] == v;
    var j :| 0 <= j < |users| && users[j] == w;
    assert i == j;
  }

  method Approve(db: Db, req: ApproveRequest, hash: string) returns (reply: Response)
    requires db.Valid()
    modifies db
    ensures db.Valid()
    ensures (reply, db.users) == ApproveRoute(old(db.users), req, hash)
    ensures db.messages == old(db.messages) && db.resets == old(db.resets)
  {
    ApprovePreservesUnique(db.users, req, hash);
    var r := ApproveRoute(db.users, req, hash);
    reply, db.users := r.0, r.1;
  }

  // ---------------------------------------------------------------------
  // GET /resets, POST /reset-password

  /** A pending reset request joined with its user's name and e-mail. */
  datatype ResetRow = ResetRow(id: nat, userId: UserId, name: string, email: string, createdAt: int)

  function ById(id: UserId): User -> bool {
    (u: User) => u.id == id
  }

  /** A pending request joined with its user, or nothing when the user no
      longer exists. */
  function Row(q: ResetRequest, users: seq<User>): (r: Option<ResetRow>)
    ensures r.None? <==> forall u :: u in users ==> u.id != q.userId
    ensures r.Some? ==> && r.value.id == q.id && r.value.userId == q.userId && r.value.createdAt == q.createdAt
                        && exists u :: u in users && u.id == q.userId && u.name == r.value.name && u.email == r.value.email
  {
    var owner := First(users, ById(q.userId));
    if owner.None? then None
    else Some(ResetRow(q.id, q.userId, owner.value.name, owner.value.email, q.createdAt))
  }

  function Rows(qs: seq<ResetRequest>, users: seq<User>): (r: seq<ResetRow>)
    ensures |r| <= |qs|
    ensures forall x :: x in r <==> exists q :: q in qs && Row(q, users) == Some(x)
  {
    if qs == [] then []
    else
      var rest := Rows(qs[1..], users);
      assert forall x :: x in qs <==> x == qs[0] || x in qs[1..];
      var row := Row(qs[0], users);
      if row.None? then rest else [row.value] + rest
  }

  function IsPending(q: ResetRequest): bool {
    q.status == ResetPending
  }

  /** The pending requests, in order, with those whose user no longer
      exists dropped. */
  function PendingResets(resets: seq<ResetRequest>, users: seq<User>): (r: seq<ResetRow>)
    ensures |r| <= |resets|
    ensures forall x :: x in r ==> exists q :: q in resets && q.status == ResetPending && Row(q, users) == Some(x)
    ensures forall q :: q in resets && q.status == ResetPending && (exists u :: u in users && u.id == q.userId)
                        ==> Row(q, users).Some? && Row(q, users).value in r
  {
    var pending := Filter(resets, IsPending);
    Rows(pending, users)
  }

  datatype ResetPasswordRequest = ResetPasswordRequest(requestId: Option<nat>, userId: Option<UserId>, newPassword: Option<string>)

  /** `/reset-password`: refused when the user id or the new password is
      missing; otherwise that user's password hash is replaced and, when a
      request id is given, that request is marked resolved. */
  function ResetPasswordRoute(users: seq<User>, resets: seq<ResetRequest>, req: ResetPasswordRequest, hash: string)
    : (r: (Response, seq<User>, seq<ResetRequest>))
    ensures req.userId.None? || Falsy(req.newPassword) ==> r == (Fail(400, "Missing userId or newPassword"), users, resets)
    ensures req.userId.Some? && !Falsy(req.newPassword) ==> r.0 == Done("Password updated")
    ensures r.0.Done? ==> |r.1| == |users| && |r.2| == |resets|
    ensures r.0.Done? ==> forall i :: 0 <= i < |users| ==>
      r.1[i] == if users[i].id == req.userId.value then users[i].(password := Some(hash)) else users[i]
    ensures r.0.Done? ==> forall i :: 0 <= i < |resets| ==>
      r.2[i] == if req.requestId == Some(resets[i].id) then resets[i].(status := Resolved) else resets[i]
  {
    if req.userId.None? || Falsy(req.newPassword) then (Fail(400, "Missing userId or newPassword"), users, resets)
    else
      (Done("Password updated"),
       seq(|users|, i requires 0 <= i < |users| =>
         if users[i].id == req.userId.value then users[i].(password := Some(hash)) else users[i]),
       seq(|resets|, i requires 0 <= i < |resets| =>
         if req.requestId == Some(resets[i].id) then resets[i].(status := Resolved) else resets[i]))
  }

  method ResetPassword(db: Db, req: ResetPasswordRequest, hash: string) returns (reply: Response)
    requires db.Valid()
    modifies db
    ensures db.Valid()
    ensures (reply, db.users, db.resets) == ResetPasswordRoute(old(db.users), old(db.resets), req, hash)
    ensures db.messages == old(db.messages)
  {
    var r := ResetPasswordRoute(db.users, db.resets, req, hash);
    reply, db.users, db.resets := r.0, r.1, r.2;
  }

  /** The position of the first request with that id, or -1. */
  function RequestIndex(resets: seq<ResetRequest>, id: nat): (k: int)
    ensures -1 <= k < |resets|
    ensures k >= 0 ==> resets[k].id == id
    ensures forall j :: 0 <= j < |resets| && (k < 0 || j < k) ==> resets[j].id != id
  {
    if resets == [] then -1
    else if resets[0].id == id then 0
    else
      var k := RequestIndex(resets[1..], id);
      if k < 0 then -1 else k + 1
  }

  /** `findByIdAndDelete`: the first request with that id is removed, and
      the list is unchanged when there is none. */
  function WithoutRequest(resets: seq<ResetRequest>, id: nat): (r: seq<ResetRequest>)
    ensures (forall q :: q in resets ==> q.id != id) ==> r == resets
    ensures (exists q :: q in resets && q.id == id) ==>
      exists k :: 0 <= k < |resets| && resets[k].id == id && (forall j :: 0 <= j < k ==> resets[j].id != id)
                  && r == resets[..k] + resets[k + 1..]
  {
    var k := RequestIndex(resets, id);
    if k < 0 then
      assert forall q :: q in resets ==> q.id != id;
      resets
    else
      assert resets[k] in resets;
      resets[..k] + resets[k + 1..]
  }

  method DeleteReset(db: Db, id: nat) returns (reply: Response)
    requires db.Valid()
    modifies db
    ensures db.Valid()
    ensures reply == Done("Request deleted")
    ensures db.resets == WithoutRequest(old(db.resets), id)
    ensures db.users == old(db.users) && db.messages == old(db.messages)
  {
    var before := db.resets;
    db.resets := WithoutRequest(db.resets, id);
    assert forall q :: q in db.resets ==> q in before;
    reply := Done("Request deleted");
  }

  // ---------------------------------------------------------------------
  // DELETE /user/:id, DELETE /chat/:userId, DELETE /chat/messages/delete

  function NotOwnedBy(userId: UserId): Message -> bool {
    (m: Message) => m.userId != userId
  }

  function NotRequestedBy(userId: UserId): ResetRequest -> bool {
    (q: ResetRequest) => q.userId != userId
  }

  function NotUser(userId: UserId): User -> bool {
    (u: User) => u.id != userId
  }

  /** Deleting a user removes the messages they wrote, their reset
      requests and their account; messages others sent them remain. */
  method DeleteUser(db: Db, userId: UserId) returns (reply: Response)
    requires db.Valid()
    modifies db
    ensures db.Valid()
    ensures reply == Done("User deleted")
    ensures db.messages == Filter(old(db.messages), NotOwnedBy(userId))
    ensures db.resets == Filter(old(db.resets), NotRequestedBy(userId))
    ensures db.users == Filter(old(db.users), NotUser(userId))
    ensures forall u :: u in db.users <==> u in old(db.users) && u.id != userId
  {
    db.messages := Filter(db.messages, NotOwnedBy(userId));
    FilterKeepsDistinctIds(old(db.messages), NotOwnedBy(userId));
    db.resets := Filter(db.resets, NotRequestedBy(userId));
    FilterKeepsPairwise(old(db.resets), NotRequestedBy(userId), DifferentIds);
    db.users := Filter(db.users, NotUser(userId));
    FilterKeepsUnique(old(db.users), NotUser(userId));
    reply := Done("User deleted");
  }

  method DeleteChat(db: Db, userId: UserId) returns (reply: Response)
    requires db.Valid()
    modifies db
    ensures db.Valid()
    ensures reply == Done("Chat history deleted")
    ensures db.messages == Filter(old(db.messages), NotOwnedBy(userId))
    ensures db.users == old(db.users) && db.resets == old(db.resets)
  {
    db.messages := Filter(db.messages, NotOwnedBy(userId));
    FilterKeepsDistinctIds(old(db.messages), NotOwnedBy(userId));
    reply := Done("Chat history deleted");
  }

  predicate DifferentIds(a: ResetRequest, b: ResetRequest) {
    a.id != b.id
  }

  predicate DistinctIds(ms: seq<Message>) {
    forall i, j :: 0 <= i < j < |ms| ==> ms[i].id != ms[j].id
  }

  lemma {:induction false} FilterKeepsDistinctIds(ms: seq<Message>, p: Message -> bool)
    requires DistinctIds(ms)
    ensures DistinctIds(Filter(ms, p))
  {
    if ms != [] {
      DistinctSplit(ms);
      FilterKeepsDistinctIds(ms[1..], p);
      if p(ms[0]) {
        DistinctCons(ms[0], Filter(ms[1..], p));
      }
    }
  }

  /** A list with distinct ids: its tail has distinct ids, none equal to the head's. */
  lemma DistinctSplit(ms: seq<Message>)
    requires ms != [] && DistinctIds(ms)
    ensures DistinctIds(ms[1..])
    ensures forall x :: x in ms[1..] ==> x.id != ms[0].id
  {
    forall i, j | 0 <= i < j < |ms| - 1 ensures ms[1..][i].id != ms[1..][j].id {
      assert ms[1..][i] == ms[i + 1] && ms[1..][j] == ms[j + 1];
    }
    forall x | x in ms[1..] ensures x.id != ms[0].id {
      var m :| 0 <= m < |ms[1..]| && ms[1..][m] == x;
      assert ms[m + 1] == x;
    }
  }

  lemma DistinctCons(m: Message, rest: seq<Message>)
    requires DistinctIds(rest)
    requires forall x :: x in rest ==> x.id != m.id
    ensures DistinctIds([m] + rest)
  {
    var r := [m] + rest;
    forall i, j | 0 <= i < j < |r| ensures r[i].id != r[j].id {
      assert r[j] == rest[j - 1];
      if i > 0 {
        assert r[i] == rest[i - 1];
      }
    }
  }

  lemma {:induction false} FilterKeepsUnique(users: seq<User>, p: User -> bool)
    ensures UsersUnique(users) ==> UsersUnique(Filter(users, p))
  {
    if users != [] && UsersUnique(users) {
      UniqueSplit(users);
      FilterKeepsUnique(users[1..], p);
      if p(users[0]) {
        UniqueCons(users[0], Filter(users[1..], p));
      }
    }
  }

  /** Two users that no unique index would let coexist with each other. */
  predicate Apart(u: User, v: User) {
    && u.id != v.id && u.email != v.email && u.mobile != v.mobile
    && (u.loginId.Some? && v.loginId.Some? ==> u.loginId != v.loginId)
  }

  lemma UniqueSplit(users: seq<User>)
    requires users != [] && UsersUnique(users)
    ensures UsersUnique(users[1..])
    ensures forall v :: v in users[1..] ==> Apart(users[0], v)
  {
    var rest := users[1..];
    forall i, j | 0 <= i < j < |rest| ensures Apart(rest[i], rest[j]) {
      assert rest[i] == users[i + 1] && rest[j] == users[j + 1];
    }
    forall v | v in rest ensures Apart(users[0], v) {
      var m :| 0 <= m < |rest| && rest[m] == v;
      assert users[m + 1] == v;
    }
  }

  lemma UniqueCons(u: User, rest: seq<User>)
    requires UsersUnique(rest)
    requires forall v :: v in rest ==> Apart(u, v)
    ensures UsersUnique([u] + rest)
  {
    var r := [u] + rest;
    forall i, j | 0 <= i < j < |r| ensures Apart(r[i], r[j]) {
      assert r[j] == rest[j - 1];
      if i > 0 {
        assert r[i] == rest[i - 1];
      }
    }
  }

  /** The `messageIds` body field: absent, present but not an array, or a list. */
  datatype IdsBody = Missing | NotAnArray | Ids(ids: seq<MsgId>)

  /** Bulk soft-delete: refused unless `messageIds` is an array; otherwise
      the listed messages are marked deleted and none is removed. */
  method BulkSoftDelete(db: Db, body: IdsBody) returns (reply: Response)
    requires db.Valid()
    modifies db
    ensures db.Valid()
    ensures !body.Ids? ==> reply == Fail(400, "Invalid message IDs") && db.messages == old(db.messages)
    ensures body.Ids? ==> reply == Done("Messages soft-deleted") && db.messages == SoftDeleted(old(db.messages), body.ids)
    ensures |db.messages| == |old(db.messages)|
    ensures db.users == old(db.users) && db.resets == old(db.resets)
  {
    if !body.Ids? {
      reply := Fail(400, "Invalid message IDs");
    } else {
      db.messages := SoftDeleted(db.messages, body.ids);
      reply := Done("Messages soft-deleted");
    }
  }

  // ---------------------------------------------------------------------
  // Chat review: whom a user talked to

  /** The other party of a review query: a user, or the assistant (`'ai'`). */
  datatype Peer = AiPeer | UserPeer(id: UserId)

  /** Everyone the user sent a message to, and everyone who sent the user
      one, each once. */
  function ContactIds(messages: seq<Message>, userId: UserId): set<UserId> {
    (set m | m in messages && m.userId == userId && m.receiverId.Some? :: m.receiverId.value)
    + (set m | m in messages && m.receiverId == Some(userId) :: m.userId)
  }

  predicate HasAi(messages: seq<Message>, userId: UserId) {
    exists m :: m in messages && m.userId == userId && m.receiverId.None?
  }

  datatype Contact = AiAssistant | Person(id: UserId, name: string, email: string)

  function AsContact(u: User): Contact {
    Person(u.id, u.name, u.email)
  }

  function IdIn(ids: set<UserId>): User -> bool {
    (u: User) => u.id in ids
  }

  /** `User.find({_id: {$in: ids}})`: the users whose id is listed, in
      collection order, as contacts. */
  function People(users: seq<User>, ids: set<UserId>): (r: seq<Contact>)
    ensures forall k :: 0 <= k < |r| ==> r[k].Person? && r[k].id in ids
    ensures forall k :: 0 <= k < |r| ==> exists u :: u in users && r[k] == AsContact(u)
    ensures forall u :: u in users && u.id in ids ==> AsContact(u) in r
    ensures UsersUnique(users) ==> forall i, j :: 0 <= i < j < |r| ==> r[i].id != r[j].id
  {
    var found := Filter(users, IdIn(ids));
    FilterKeepsUnique(users, IdIn(ids));
    var r := seq(|found|, i requires 0 <= i < |found| => AsContact(found[i]));
    assert forall k :: 0 <= k < |r| ==> found[k] in users && r[k] == AsContact(found[k]);
    forall u | u in users && u.id in ids ensures AsContact(u) in r {
      assert u in found;
      var i :| 0 <= i < |found| && found[i] == u;
      assert r[i] == AsContact(u);
    }
    r
  }

  /** The review contact list: the assistant first when the user has
      assistant messages, then every existing user they exchanged a
      message with. */
  function Contacts(messages: seq<Message>, users: seq<User>, userId: UserId): (r: seq<Contact>)
    ensures (|r| > 0 && r[0] == AiAssistant) <==> HasAi(messages, userId)
    ensures forall k :: 0 < k < |r| ==> r[k].Person?
    ensures forall k :: 0 <= k < |r| && r[k].Person? ==> r[k].id in ContactIds(messages, userId)
    ensures forall k :: 0 <= k < |r| && r[k].Person? ==> exists u :: u in users && r[k] == AsContact(u)
    ensures forall u :: u in users && u.id in ContactIds(messages, userId) ==> Person(u.id, u.name, u.email) in r
    ensures UsersUnique(users)
            ==> forall i, j :: 0 <= i < j < |r| && r[i].Person? && r[j].Person? ==> r[i].id != r[j].id
  {
    var people := People(users, ContactIds(messages, userId));
    if HasAi(messages, userId) then
      var r := [AiAssistant] + people;
      assert forall k :: 0 < k < |r| ==> r[k] == people[k - 1];
      r
    else people
  }

  // ---------------------------------------------------------------------
  // Chat review: the conversation between a user and a peer

  /** The conversation query: with the assistant, the user's messages that
      have no receiver; with a user, the messages either of them sent to
      the other. */
  predicate InConversation(m: Message, userId: UserId, peer: Peer) {
    match peer
    case AiPeer => m.userId == userId && m.receiverId.None?
    case UserPeer(other) =>
      (m.userId == userId && m.receiverId == Some(other)) || (m.userId == other && m.receiverId == Some(userId))
  }

  function Between(userId: UserId, peer: Peer): Message -> bool {
    (m: Message) => InConversation(m, userId, peer)
  }

  /** The messages of one conversation, in stored order. */
  function Conversation(messages: seq<Message>, userId: UserId, peer: Peer): (r: seq<Message>)
    ensures forall m :: m in r <==> m in messages && InConversation(m, userId, peer)
  {
    Filter(messages, Between(userId, peer))
  }

  /** Swapping the two users selects the same messages, in the same order. */
  lemma ConversationSymmetric(messages: seq<Message>, a: UserId, b: UserId)
    ensures Conversation(messages, a, UserPeer(b)) == Conversation(messages, b, UserPeer(a))
  {
    FilterCongruent(messages, Between(a, UserPeer(b)), Between(b, UserPeer(a)));
  }

  const MsPerDay := 86400000

  /** The calendar day (UTC) of a timestamp in milliseconds: the date part of
      its ISO-8601 form, as a day number. */
  function DayOf(t: int): int {
    t / MsPerDay
  }

  lemma DayOfMonotone(a: int, b: int)
    requires a <= b
    ensures DayOf(a) <= DayOf(b)
  {
  }

  /** `[...new Set(s)]`: the first occurrence of each value, in order. */
  function Distinct(s: seq<int>): (r: seq<int>)
    ensures forall x :: x in r <==> x in s
    ensures forall i, j :: 0 <= i < j < |r| ==> r[i] != r[j]
  {
    if s == [] then []
    else
      var init := s[..|s| - 1];
      var r := Distinct(init);
      assert s == init + [s[|s| - 1]];
      if s[|s| - 1] in r then r else r + [s[|s| - 1]]
  }

  predicate NonIncreasing(s: seq<int>) {
    forall i, j :: 0 <= i < j < |s| ==> s[i] >= s[j]
  }

  predicate Decreasing(s: seq<int>) {
    forall i, j :: 0 <= i < j < |s| ==> s[i] > s[j]
  }

  /** Removing repeats from a non-increasing list gives a strictly
      decreasing one. */
  lemma {:induction false} DistinctOfNonIncreasing(s: seq<int>)
    requires NonIncreasing(s)
    ensures Decreasing(Distinct(s))
  {
    if s != [] {
      var init := s[..|s| - 1];
      var last := s[|s| - 1];
      assert NonIncreasing(init) by {
        forall i, j | 0 <= i < j < |init| ensures init[i] >= init[j] {
          assert init[i] == s[i] && init[j] == s[j];
        }
      }
      DistinctOfNonIncreasing(init);
      var r := Distinct(init);
      if last in r {
        assert Distinct(s) == r;
      } else {
        forall k | 0 <= k < |r| ensures r[k] > last {
          assert r[k] in init;
          var m :| 0 <= m < |init| && init[m] == r[k];
          assert s[m] == init[m] && r[k] != last;
        }
        var t := r + [last];
        assert Distinct(s) == t;
        forall i, j | 0 <= i < j < |t| ensures t[i] > t[j] {
          assert t[i] == r[i];
          if j < |r| { assert t[j] == r[j]; }
        }
      }
    }
  }

  function Days(ms: seq<Message>): (r: seq<int>)
    ensures |r| == |ms| && forall i :: 0 <= i < |ms| ==> r[i] == DayOf(ms[i].createdAt)
  {
    seq(|ms|, i requires 0 <= i < |ms| => DayOf(ms[i].createdAt))
  }

  lemma DaysOf(ms: seq<Message>, d: int)
    ensures d in Days(ms) <==> exists m :: m in ms && DayOf(m.createdAt) == d
  {
    var days := Days(ms);
    if d in days {
      var i :| 0 <= i < |days| && days[i] == d;
      assert ms[i] in ms;
    }
    if exists m :: m in ms && DayOf(m.createdAt) == d {
      var m :| m in ms && DayOf(m.createdAt) == d;
      var i :| 0 <= i < |ms| && ms[i] == m;
      assert days[i] == d;
    }
  }

  lemma DaysOfSorted(ms: seq<Message>)
    requires SortedByTime(ms, true)
    ensures NonIncreasing(Days(ms))
  {
    var days := Days(ms);
    forall i, j | 0 <= i < j < |days| ensures days[i] >= days[j] {
      DayOfMonotone(ms[j].createdAt, ms[i].createdAt);
    }
  }

  /** The days on which the conversation has messages, newest first, each once. */
  function ConversationDays(messages: seq<Message>, userId: UserId, peer: Peer): (r: seq<int>)
    ensures Decreasing(r)
    ensures forall d :: d in r <==> exists m :: m in messages && InConversation(m, userId, peer) && DayOf(m.createdAt) == d
  {
    var conversation := Conversation(messages, userId, peer);
    var sorted := SortByTime(conversation, true);
    DaysOfSorted(sorted);
    DistinctOfNonIncreasing(Days(sorted));
    SortedElements(conversation, true);
    forall d ensures d in Days(sorted) <==> exists m :: m in messages && InConversation(m, userId, peer) && DayOf(m.createdAt) == d {
      DaysOf(sorted, d);
    }
    Distinct(Days(sorted))
  }

  /** One day of a conversation, oldest first. The day is given as the
      window `[start, end]` of local time that the route derives from it. */
  function HistoryFiltered(messages: seq<Message>, userId: Option<UserId>, peer: Option<Peer>,
                           day: Option<(int, int)>): (r: Result<seq<Message>>)
    ensures r.Err? <==> userId.None? || peer.None? || day.None?
    ensures r.Err? ==> r.error == "Missing parameters"
    ensures r.Ok? ==> SortedByTime(r.value, false)
    ensures r.Ok? ==> multiset(r.value) == multiset(Filter(messages, InWindow(userId.value, peer.value, day.value)))
    ensures r.Ok? ==> forall m :: m in r.value <==>
      m in messages && InConversation(m, userId.value, peer.value) && day.value.0 <= m.createdAt <= day.value.1
  {
    if userId.None? || peer.None? || day.None? then Err("Missing parameters")
    else
      var selected := Filter(messages, InWindow(userId.value, peer.value, day.value));
      SortedElements(selected, false);
      Ok(SortByTime(selected, false))
  }

  /** The query of `history-filtered`: the conversation's messages created
      between the day's first and last millisecond. */
  function InWindow(userId: UserId, peer: Peer, day: (int, int)): Message -> bool {
    (m: Message) => day.0 <= m.createdAt <= day.1 && InConversation(m, userId, peer)
  }
}
