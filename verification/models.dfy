/** The two stored record shapes: a chat message and a user account, with
    the enumerations, defaults, required fields and unique indexes their
    schemas declare, and the password-reset request the admin screens list. */
module Models {
  import opened Common

  type MsgId = nat
  type UserId = nat

  // ---------------------------------------------------------------------
  // Messages

  datatype Kind = Text | Image | File

  function KindName(k: Kind): string {
    match k
    case Text => "text"
    case Image => "image"
    case File => "file"
  }

  /** The `type` enumeration check: only the three names are accepted. */
  function ParseKind(s: string): (r: Option<Kind>)
    ensures r.Some? ==> KindName(r.value) == s
    ensures r.None? ==> forall k :: KindName(k) != s
  {
    if s == "text" then Some(Text)
    else if s == "image" then Some(Image)
    else if s == "file" then Some(File)
    else None
  }

  lemma {:induction false} ParseKindName(k: Kind)
    ensures ParseKind(KindName(k)) == Some(k)
  {
    match k
    case Text =>
    case Image => assert KindName(k) != "text";
    case File => assert KindName(k) != "text" && KindName(k) != "image";
  }

  /** A stored message. `receiverId` is not a schema path: documents written
      through the schema never carry it, so it is None for them. */
  datatype Message = Message(
    id: MsgId,
    userId: UserId,
    receiverId: Option<UserId>,
    role: string,
    content: Option<string>,
    kind: Kind,
    filePath: Option<string>,
    replyTo: Option<MsgId>,
    isPinned: bool,
    isStarred: bool,
    isDeletedByAdmin: bool,
    isFlagged: bool,
    createdAt: int)

  /** The fields a `Message.create` call supplies; absent ones take defaults. */
  datatype MessageFields = MessageFields(
    userId: Option<UserId>,
    role: Option<string>,
    content: Option<string>,
    kind: Option<string>,
    filePath: Option<string>,
    replyTo: Option<MsgId>,
    isFlagged: Option<bool>)

  /** Schema validation and defaults of `Message.create`: `user_id` and a
      non-empty `role` are required, `type` must name one of the three kinds
      and defaults to text, the four flags default to false, `reply_to` to
      null and `created_at` to the creation time. */
  function CreateMessage(f: MessageFields, id: MsgId, now: int): (r: Result<Message>)
    ensures r.Ok? <==> (f.userId.Some? && f.role.Some? && f.role.value != ""
                        && (f.kind.None? || ParseKind(f.kind.value).Some?))
    ensures r.Ok? ==> var m := r.value;
      && m.id == id && m.userId == f.userId.value && m.role == f.role.value
      && m.receiverId.None? && m.content == f.content && m.filePath == f.filePath
      && (f.kind.None? ==> m.kind == Text)
      && (f.kind.Some? ==> KindName(m.kind) == f.kind.value)
      && m.replyTo == f.replyTo
      && !m.isPinned && !m.isStarred && !m.isDeletedByAdmin
      && m.isFlagged == (f.isFlagged == Some(true))
      && m.createdAt == now
  {
    if f.userId.None? then Err("Path `user_id` is required.")
    else if f.role.None? || f.role.value == "" then Err("Path `role` is required.")
    else
      var kind := if f.kind.None? then Some(Text) else ParseKind(f.kind.value);
      if kind.None? then Err("`type` is not a valid enum value for path `type`.")
      else Ok(Message(id, f.userId.value, None, f.role.value, f.content, kind.value,
                      f.filePath, f.replyTo, false, false, false, f.isFlagged == Some(true), now))
  }

  // ---------------------------------------------------------------------
  // Users

  datatype Role = UserRole | AdminRole
  datatype Status = Pending | Approved

  datatype User = User(
    id: UserId,
    name: string,
    email: string,
    mobile: string,
    designation: Option<string>,
    loginId: Option<string>,
    password: Option<string>,
    role: Role,
    status: Status,
    createdAt: int)

  datatype UserFields = UserFields(
    name: Option<string>,
    email: Option<string>,
    mobile: Option<string>,
    designation: Option<string>,
    loginId: Option<string>,
    password: Option<string>,
    role: Option<Role>,
    status: Option<Status>)

  /** The unique indexes of the users collection: `_id`, `email` and
      `mobile` are unique, and `login_id` is unique among the users that have
      one (a sparse index: any number of users may lack it). */
  ghost predicate UsersUnique(users: seq<User>) {
    forall i, j :: 0 <= i < j < |users| ==>
      && users[i].id != users[j].id
      && users[i].email != users[j].email
      && users[i].mobile != users[j].mobile
      && (users[i].loginId.Some? && users[j].loginId.Some? ==> users[i].loginId != users[j].loginId)
  }

  /** Changing password hashes keeps every unique index and every id. */
  lemma PasswordsAsideKeepsUnique(users: seq<User>, after: seq<User>)
    requires |after| == |users|
    requires forall i :: 0 <= i < |users| ==> after[i].(password := users[i].password) == users[i]
    ensures forall i :: 0 <= i < |users| ==> after[i].id == users[i].id
    ensures UsersUnique(users) ==> UsersUnique(after)
  {
    forall i | 0 <= i < |users| ensures after[i].id == users[i].id {
      assert after[i].(password := users[i].password).id == after[i].id;
    }
  }

  /** Whether a new user would violate one of the unique indexes. */
  predicate Clashes(users: seq<User>, u: User) {
    exists v :: v in users && (v.id == u.id || v.email == u.email || v.mobile == u.mobile
                               || (v.loginId.Some? && v.loginId == u.loginId))
  }

  /** `User.create`: `name`, `email` and `mobile` are required (an empty
      string fails `required`), `role` defaults to user and `status` to
      pending, and the insert is refused when it would break a unique index. */
  function CreateUser(users: seq<User>, f: UserFields, id: UserId, now: int): (r: Result<seq<User>>)
    ensures r.Ok? <==> (!Falsy(f.name) && !Falsy(f.email) && !Falsy(f.mobile)
                        && !Clashes(users, NewUser(f, id, now)))
    ensures r.Ok? ==> r.value == users + [NewUser(f, id, now)]
    ensures r.Ok? && UsersUnique(users) ==> UsersUnique(r.value)
  {
    if Falsy(f.name) || Falsy(f.email) || Falsy(f.mobile) then Err("User validation failed")
    else
      var u := NewUser(f, id, now);
      if Clashes(users, u) then Err("E11000 duplicate key error")
      else
        assert forall v :: v in users ==> v.id != u.id && v.email != u.email && v.mobile != u.mobile;
        Ok(users + [u])
  }

  /** The document `User.create` builds from the supplied fields. */
  function NewUser(f: UserFields, id: UserId, now: int): User
    requires !Falsy(f.name) && !Falsy(f.email) && !Falsy(f.mobile)
  {
    User(id, f.name.value, f.email.value, f.mobile.value, f.designation, f.loginId, f.password,
         if f.role.Some? then f.role.value else UserRole,
         if f.status.Some? then f.status.value else Pending,
         now)
  }

  // ---------------------------------------------------------------------
  // Password-reset requests

  datatype ResetStatus = ResetPending | Resolved

  datatype ResetRequest = ResetRequest(id: nat, userId: UserId, status: ResetStatus, createdAt: int)
}
