/** The account routes: self-registration (pending until a moderator
    approves it), login, the forgotten-password request, and the two
    secret-key protected admin routes. Hashing compares and produces opaque
    strings: the hash of a new password and whether a password matches a
    stored hash are parameters. */
module AuthRoutes {
  import opened Common
  import opened Models
  import opened Store
  import opened Validation
  import AdminRoutes

  // ---------------------------------------------------------------------
  // POST /register

  datatype RegisterRequest = RegisterRequest(name: Option<string>, email: Option<string>,
                                             mobile: Option<string>, designation: Option<string>)

  const NameError := "Name must check contain only alphabets and spaces."
  const MobileError := "Mobile number must be exactly 10 digits."
  const EmailError := "Email must be from @gmail.com, @outlook.com, @vignan.ac.in, or .edu domains."

  /** The duplicate query `{$or: [{email}, {mobile}, {name}]}`. */
  predicate SameDetails(u: User, name: string, email: string, mobile: string) {
    u.email == email || u.mobile == mobile || u.name == name
  }

  /** Some stored user shares the e-mail, the mobile or the name. */
  predicate Duplicate(users: seq<User>, name: string, email: string, mobile: string) {
    exists u :: u in users && SameDetails(u, name, email, mobile)
  }

  function Registered(req: RegisterRequest, id: UserId, now: int): User
    requires !Falsy(req.name) && !Falsy(req.email) && !Falsy(req.mobile)
  {
    NewUser(UserFields(req.name, req.email, req.mobile, req.designation, None, None, None, Some(Pending)), id, now)
  }

  /** `/register`: the missing-field check, then the name, mobile and e-mail
      formats in that order, then the duplicate check on e-mail, mobile or
      name; a request that passes them all is stored as a pending user. */
  function RegisterRoute(users: seq<User>, req: RegisterRequest, id: UserId, now: int): (r: (Response, seq<User>))
    ensures r.0.Fail? ==> r.1 == users
    ensures Falsy(req.name) || Falsy(req.email) || Falsy(req.mobile) ==> r.0 == Fail(400, "All fields are required")
    ensures !Falsy(req.name) && !Falsy(req.email) && !Falsy(req.mobile) ==>
      && (!NameOk(req.name.value) ==> r.0 == Fail(400, NameError))
      && (NameOk(req.name.value) && !MobileOk(req.mobile.value) ==> r.0 == Fail(400, MobileError))
      && (NameOk(req.name.value) && MobileOk(req.mobile.value) && !RegisterEmailOk(req.email.value)
          ==> r.0 == Fail(400, EmailError))
    ensures r.0 == Fail(400, "User with these details already exists") <==>
      && !Falsy(req.name) && !Falsy(req.email) && !Falsy(req.mobile)
      && NameOk(req.name.value) && MobileOk(req.mobile.value) && RegisterEmailOk(req.email.value)
      && Duplicate(users, req.name.value, req.email.value, req.mobile.value)
    ensures r.0.Done? ==>
      && r.0.message == "Registration requested. Wait for admin approval."
      && (forall u :: u in users ==> !SameDetails(u, req.name.value, req.email.value, req.mobile.value))
      && r.1 == users + [Registered(req, id, now)]
    ensures r.0.Done? && UsersUnique(users) ==> UsersUnique(r.1)
    ensures r.0.Fail? && r.0.status == 500 ==> exists u :: u in users && u.id == id
    ensures && !Falsy(req.name) && !Falsy(req.email) && !Falsy(req.mobile)
            && FormatError(req.name.value, req.email.value, req.mobile.value).None?
            && !Duplicate(users, req.name.value, req.email.value, req.mobile.value)
            && (forall u :: u in users ==> u.id != id)
            ==> r.0.Done?
  {
    if Falsy(req.name) || Falsy(req.email) || Falsy(req.mobile) then (Fail(400, "All fields are required"), users)
    else
      var error := FormatError(req.name.value, req.email.value, req.mobile.value);
      if error.Some? then (Fail(400, error.value), users)
      else Admit(users, req, id, now)
  }

  /** The first format check that fails, if any: name, mobile, e-mail. */
  function FormatError(name: string, email: string, mobile: string): (r: Option<string>)
    ensures !NameOk(name) ==> r == Some(NameError)
    ensures NameOk(name) && !MobileOk(mobile) ==> r == Some(MobileError)
    ensures NameOk(name) && MobileOk(mobile) && !RegisterEmailOk(email) ==> r == Some(EmailError)
    ensures r.None? <==> NameOk(name) && MobileOk(mobile) && RegisterEmailOk(email)
    ensures r != Some("User with these details already exists")
  {
    if !NameOk(name) then Some(NameError)
    else if !MobileOk(mobile) then Some(MobileError)
    else if !RegisterEmailOk(email) then Some(EmailError)
    else None
  }

  /** The part of `/register` after the format checks: the duplicate check,
      then the insert. */
  function Admit(users: seq<User>, req: RegisterRequest, id: UserId, now: int): (r: (Response, seq<User>))
    requires !Falsy(req.name) && !Falsy(req.email) && !Falsy(req.mobile)
    ensures r.0.Fail? ==> r.1 == users
    ensures r.0 == Fail(400, "User with these details already exists") <==>
      Duplicate(users, req.name.value, req.email.value, req.mobile.value)
    ensures r.0.Done? ==>
      && r.0.message == "Registration requested. Wait for admin approval."
      && (forall u :: u in users ==> !SameDetails(u, req.name.value, req.email.value, req.mobile.value))
      && r.1 == users + [Registered(req, id, now)]
    ensures r.0.Done? && UsersUnique(users) ==> UsersUnique(r.1)
    ensures r.0.Fail? ==> r.0.status == 400 || exists u :: u in users && u.id == id
    ensures !Duplicate(users, req.name.value, req.email.value, req.mobile.value) && (forall u :: u in users ==> u.id != id)
            ==> r.0.Done?
  {
    var existing := First(users, (u: User) => SameDetails(u, req.name.value, req.email.value, req.mobile.value));
    if existing.Some? then (Fail(400, "User with these details already exists"), users)
    else
      var fields := UserFields(req.name, req.email, req.mobile, req.designation, None, None, None, Some(Pending));
      var created := CreateUser(users, fields, id, now);
      if created.Err? then (Fail(500, created.error), users)
      else (Done("Registration requested. Wait for admin approval."), created.value)
  }

  /** With every stored id below `id`, the insert cannot clash on the id,
      and the new list stays below `id + 1`. */
  lemma RegisterTakesFreshId(users: seq<User>, req: RegisterRequest, id: UserId, now: int)
    requires forall i :: 0 <= i < |users| ==> users[i].id < id
    ensures var r := RegisterRoute(users, req, id, now);
      && (r.0.Fail? ==> r.0.status == 400)
      && (forall i :: 0 <= i < |r.1| ==> r.1[i].id < id + 1)
  {
    assert forall u :: u in users ==> u.id != id;
  }

  method Register(db: Db, req: RegisterRequest, now: int) returns (reply: Response)
    requires db.Valid()
    modifies db
    ensures db.Valid()
    ensures (reply, db.users) == RegisterRoute(old(db.users), req, old(db.nextId), now)
    ensures reply.Fail? ==> reply.status == 400
    ensures db.messages == old(db.messages) && db.resets == old(db.resets)
  {
    var r := RegisterRoute(db.users, req, db.nextId, now);
    RegisterTakesFreshId(db.users, req, db.nextId, now);
    if r.0.Done? {
      db.users, db.nextId := r.1, db.nextId + 1;
    }
    reply := r.0;
  }

  // ---------------------------------------------------------------------
  // POST /login

  datatype LoginRequest = LoginRequest(email: Option<string>, loginId: Option<string>, password: Option<string>)

  datatype LoginReply = LoggedIn(user: User) | Denied(status: nat, error: string)

  /** The login query: by e-mail when one is given, otherwise by login id. */
  datatype LoginKey = ByEmail(email: string) | ByLoginId(loginId: string)

  function LoginKeyOf(req: LoginRequest): (r: Option<LoginKey>)
    ensures r.None? <==> Falsy(req.email) && Falsy(req.loginId)
    ensures !Falsy(req.email) ==> r == Some(ByEmail(req.email.value))
    ensures Falsy(req.email) && !Falsy(req.loginId) ==> r == Some(ByLoginId(req.loginId.value))
  {
    if !Falsy(req.email) then Some(ByEmail(req.email.value))
    else if !Falsy(req.loginId) then Some(ByLoginId(req.loginId.value))
    else None
  }

  predicate KeyMatches(key: LoginKey, u: User) {
    match key
    case ByEmail(e) => u.email == e
    case ByLoginId(l) => u.loginId == Some(l)
  }

  function MatchingKey(key: LoginKey): User -> bool {
    (u: User) => KeyMatches(key, u)
  }

  /** `/login`. `matches(password, hash)` is the hash comparison; it throws
      (a 500) when either argument is absent. */
  function LoginRoute(users: seq<User>, req: LoginRequest, matches: (string, string) -> bool): (r: LoginReply)
    ensures LoginKeyOf(req).None? ==> r == Denied(400, "Missing Login ID or Email")
    ensures LoginKeyOf(req).Some? && (forall u :: u in users ==> !KeyMatches(LoginKeyOf(req).value, u))
            ==> r == Denied(400, "User not found")
    ensures r == Denied(403, "Account not approved yet") ==>
      exists u :: u in users && KeyMatches(LoginKeyOf(req).value, u) && u.status == Pending
    ensures LoginKeyOf(req).Some? ==>
      var found := First(users, MatchingKey(LoginKeyOf(req).value));
      found.Some? ==>
        && (found.value.status == Pending ==> r == Denied(403, "Account not approved yet"))
        && (found.value.status == Approved && (req.password.None? || found.value.password.None?)
            ==> r == Denied(500, "data and hash arguments required"))
        && (found.value.status == Approved && req.password.Some? && found.value.password.Some?
            && !matches(req.password.value, found.value.password.value)
            ==> r == Denied(400, "Invalid credentials"))
        && (found.value.status == Approved && req.password.Some? && found.value.password.Some?
            && matches(req.password.value, found.value.password.value)
            ==> r == LoggedIn(found.value))
    ensures r.LoggedIn? ==>
      && r.user in users && KeyMatches(LoginKeyOf(req).value, r.user)
      && r.user.status == Approved
      && req.password.Some? && r.user.password.Some? && matches(req.password.value, r.user.password.value)
  {
    var key := LoginKeyOf(req);
    if key.None? then Denied(400, "Missing Login ID or Email")
    else
      var found := First(users, MatchingKey(key.value));
      if found.None? then Denied(400, "User not found")
      else
        var u := found.value;
        if u.status != Approved then
          assert u in users && KeyMatches(key.value, u) && u.status == Pending;
          Denied(403, "Account not approved yet")
        else if req.password.None? || u.password.None? then Denied(500, "data and hash arguments required")
        else if !matches(req.password.value, u.password.value) then Denied(400, "Invalid credentials")
        else LoggedIn(u)
  }

  /** Someone who has just registered cannot log in: the account is
      pending until a moderator approves it. */
  lemma {:induction false} RegisteredCannotLogIn(users: seq<User>, req: RegisterRequest, id: UserId, now: int,
                                                 password: Option<string>, matches: (string, string) -> bool)
    requires RegisterRoute(users, req, id, now).0.Done?
    ensures LoginRoute(RegisterRoute(users, req, id, now).1, LoginRequest(req.email, None, password), matches)
            == Denied(403, "Account not approved yet")
  {
    var after := RegisterRoute(users, req, id, now).1;
    var u := Registered(req, id, now);
    var key := ByEmail(req.email.value);
    assert after[|users|] == u;
    var found := First(after, MatchingKey(key));
    assert found.Some? && found.value == u by {
      assert u in after && KeyMatches(key, u);
      forall j | 0 <= j < |users| ensures !KeyMatches(key, after[j]) {
        assert after[j] == users[j] && users[j] in users;
      }
      var i :| 0 <= i < |after| && after[i] == found.value && forall j :: 0 <= j < i ==> !KeyMatches(key, after[j]);
    }
  }

  /** Approval opens the login door: once a moderator has approved a user
      with a login id and password, logging in with that id and a matching
      password succeeds. */
  lemma {:induction false} ApprovedCanLogIn(users: seq<User>, req: AdminRoutes.ApproveRequest, hash: string,
                                            password: string, matches: (string, string) -> bool)
    requires UsersUnique(users)
    requires AdminRoutes.ApproveRoute(users, req, hash).0.Done?
    requires exists u :: u in users && u.id == req.userId.value
    requires matches(password, hash)
    ensures var after := AdminRoutes.ApproveRoute(users, req, hash).1;
            LoginRoute(after, LoginRequest(None, req.loginId, Some(password)), matches).LoggedIn?
  {
    var after := AdminRoutes.ApproveRoute(users, req, hash).1;
    AdminRoutes.ApprovePreservesUnique(users, req, hash);
    var login := req.loginId.value;
    var u :| u in users && u.id == req.userId.value;
    var i :| 0 <= i < |users| && users[i] == u;
    var v := after[i];
    assert v == AdminRoutes.ApprovedAs(u, login, hash);
    assert v in after;
    forall w | w in after && KeyMatches(ByLoginId(login), w) ensures w == v {
      AdminRoutes.LoginIdOwner(after, w, v);
    }
    LoginAsOwner(after, LoginRequest(None, req.loginId, Some(password)), matches, v);
  }

  /** Logging in as the one approved user the key names, with a password
      that matches, succeeds. */
  lemma LoginAsOwner(users: seq<User>, req: LoginRequest, matches: (string, string) -> bool, v: User)
    requires LoginKeyOf(req).Some? && v in users && KeyMatches(LoginKeyOf(req).value, v)
    requires forall w :: w in users && KeyMatches(LoginKeyOf(req).value, w) ==> w == v
    requires v.status == Approved && req.password.Some? && v.password.Some?
    requires matches(req.password.value, v.password.value)
    ensures LoginRoute(users, req, matches) == LoggedIn(v)
  {
    var found := First(users, MatchingKey(LoginKeyOf(req).value));
    assert found.Some?;
  }

  // ---------------------------------------------------------------------
  // POST /forgot-password

  datatype ForgotRequest = ForgotRequest(email: Option<string>, loginId: Option<string>)

  /** `/forgot-password`: refused without an e-mail or login id, or when no
      user matches; otherwise a pending reset request is filed for the user. */
  function ForgotRoute(users: seq<User>, resets: seq<ResetRequest>, req: ForgotRequest, id: nat, now: int)
    : (r: (Response, seq<ResetRequest>))
    ensures Falsy(req.email) && Falsy(req.loginId) ==> r == (Fail(400, "Email or Login ID required"), resets)
    ensures r.0.Fail? ==> r.1 == resets
    ensures var key := LoginKeyOf(LoginRequest(req.email, req.loginId, None));
      key.Some? ==>
        && ((forall u :: u in users ==> !KeyMatches(key.value, u)) <==> r.0 == Fail(400, "User not found"))
        && (r.0.Done? ==> exists u :: u in users && KeyMatches(key.value, u)
                                      && r.1 == resets + [ResetRequest(id, u.id, ResetPending, now)])
    ensures r.0.Done? ==> r.0.message == "Reset request sent to admin"
    ensures var key := LoginKeyOf(LoginRequest(req.email, req.loginId, None));
      key.Some? && (exists u :: u in users && KeyMatches(key.value, u)) ==>
        r == (Done("Reset request sent to admin"),
              resets + [ResetRequest(id, First(users, MatchingKey(key.value)).value.id, ResetPending, now)])
  {
    var key := LoginKeyOf(LoginRequest(req.email, req.loginId, None));
    if key.None? then (Fail(400, "Email or Login ID required"), resets)
    else
      var found := First(users, MatchingKey(key.value));
      if found.None? then (Fail(400, "User not found"), resets)
      else (Done("Reset request sent to admin"), resets + [ResetRequest(id, found.value.id, ResetPending, now)])
  }

  /** The filed request takes the next id. */
  lemma ForgotTakesFreshId(users: seq<User>, resets: seq<ResetRequest>, req: ForgotRequest, id: nat, now: int)
    requires forall i :: 0 <= i < |resets| ==> resets[i].id < id
    ensures var r := ForgotRoute(users, resets, req, id, now);
      forall i :: 0 <= i < |r.1| ==> r.1[i].id < id + 1
  {
  }

  method ForgotPassword(db: Db, req: ForgotRequest, now: int) returns (reply: Response)
    requires db.Valid()
    modifies db
    ensures db.Valid()
    ensures (reply, db.resets) == ForgotRoute(old(db.users), old(db.resets), req, old(db.nextId), now)
    ensures db.users == old(db.users) && db.messages == old(db.messages)
  {
    var r := ForgotRoute(db.users, db.resets, req, db.nextId, now);
    ForgotTakesFreshId(db.users, db.resets, req, db.nextId, now);
    if r.0.Done? {
      db.resets, db.nextId := r.1, db.nextId + 1;
    }
    reply := r.0;
  }

  /** A request filed through `/forgot-password` shows up in the
      moderator's reset list, joined with its user. */
  lemma ForgotIsListed(users: seq<User>, resets: seq<ResetRequest>, req: ForgotRequest, id: nat, now: int)
    requires ForgotRoute(users, resets, req, id, now).0.Done?
    ensures var after := ForgotRoute(users, resets, req, id, now).1;
      exists x :: x in AdminRoutes.PendingResets(after, users) && x.id == id
  {
    var after := ForgotRoute(users, resets, req, id, now).1;
    var q := after[|after| - 1];
    assert q in after && q.status == ResetPending && q.id == id;
    assert exists u :: u in users && u.id == q.userId;
    var x := AdminRoutes.Row(q, users).value;
    assert x in AdminRoutes.PendingResets(after, users);
  }

  // ---------------------------------------------------------------------
  // POST /admin/register, POST /admin/reset

  /** The master key: the configured one when set and non-empty, else the
      built-in default. */
  function MasterKey(configured: Option<string>): (r: string)
    ensures r != ""
    ensures !Falsy(configured) ==> r == configured.value
    ensures Falsy(configured) ==> r == "neural_master_key"
  {
    if Falsy(configured) then "neural_master_key" else configured.value
  }

  datatype AdminRegisterRequest = AdminRegisterRequest(name: Option<string>, email: Option<string>,
                                                       password: Option<string>, secretKey: Option<string>)

  /** The placeholder mobile number an admin account is created with:
      ten zeros followed by the creation time in milliseconds. */
  function DummyMobile(now: nat): (r: string)
    ensures |r| > 10 && r[..10] == "0000000000"
    ensures forall i :: 0 <= i < |r| ==> IsAsciiDigit(r[i])
    ensures DigitsValue(r[10..]) == now && (|r| > 11 ==> r[10] != '0')
  {
    var digits := DecimalString(now);
    assert ("0000000000" + digits)[10..] == digits;
    "0000000000" + digits
  }

  function WithEmail(email: string): User -> bool {
    (u: User) => u.email == email
  }

  /** `/admin/register`: the secret key is checked first (403), then the
      required fields, then that the e-mail is free; the account is created
      approved, with the admin role and a placeholder mobile number. */
  function AdminRegisterRoute(users: seq<User>, req: AdminRegisterRequest, masterKey: string, hash: string,
                              id: UserId, now: nat): (r: (Response, seq<User>))
    ensures r.0.Fail? ==> r.1 == users
    ensures req.secretKey != Some(masterKey) ==> r.0 == Fail(403, "Invalid Admin Secret Key")
    ensures req.secretKey == Some(masterKey) && (Falsy(req.name) || Falsy(req.email) || Falsy(req.password))
            ==> r.0 == Fail(400, "All fields required")
    ensures req.secretKey == Some(masterKey) && !Falsy(req.name) && !Falsy(req.email) && !Falsy(req.password)
            ==> ((exists u :: u in users && u.email == req.email.value) <==> r.0 == Fail(400, "Email already exists"))
    ensures r.0.Done? ==>
      && r.0.message == "Admin account created successfully"
      && |r.1| == |users| + 1 && r.1[..|users|] == users
      && var a := r.1[|users|];
         && a.id == id && a.name == req.name.value && a.email == req.email.value
         && a.password == Some(hash) && a.role == AdminRole && a.status == Approved
         && a.mobile == DummyMobile(now) && a.loginId.None?
    ensures r.0.Fail? && r.0.status == 500 ==>
      exists u :: u in users && (u.id == id || u.mobile == DummyMobile(now))
    ensures && req.secretKey == Some(masterKey) && !Falsy(req.name) && !Falsy(req.email) && !Falsy(req.password)
            && (forall u :: u in users ==> u.email != req.email.value && u.id != id && u.mobile != DummyMobile(now))
            ==> r.0.Done?
  {
    if req.secretKey != Some(masterKey) then (Fail(403, "Invalid Admin Secret Key"), users)
    else if Falsy(req.name) || Falsy(req.email) || Falsy(req.password) then (Fail(400, "All fields required"), users)
    else if First(users, WithEmail(req.email.value)).Some? then (Fail(400, "Email already exists"), users)
    else
      var fields := UserFields(req.name, req.email, Some(DummyMobile(now)), None, None, Some(hash),
                               Some(AdminRole), Some(Approved));
      var created := CreateUser(users, fields, id, now);
      if created.Err? then (Fail(500, created.error), users)
      else (Done("Admin account created successfully"), created.value)
  }

  method AdminRegister(db: Db, req: AdminRegisterRequest, masterKey: string, hash: string, now: nat)
    returns (reply: Response)
    requires db.Valid()
    modifies db
    ensures db.Valid()
    ensures (reply, db.users) == AdminRegisterRoute(old(db.users), req, masterKey, hash, old(db.nextId), now)
    ensures db.messages == old(db.messages) && db.resets == old(db.resets)
  {
    var r := AdminRegisterRoute(db.users, req, masterKey, hash, db.nextId, now);
    if r.0.Done? {
      db.users, db.nextId := r.1, db.nextId + 1;
    }
    reply := r.0;
  }

  datatype AdminResetRequest = AdminResetRequest(email: Option<string>, newPassword: Option<string>,
                                                 secretKey: Option<string>)

  predicate IsAdminWithEmail(u: User, email: Option<string>) {
    email == Some(u.email) && u.role == AdminRole
  }

  function AdminWithEmail(email: Option<string>): User -> bool {
    (u: User) => IsAdminWithEmail(u, email)
  }

  /** `/admin/reset`: the secret key is checked first (403); hashing an
      absent password throws (500); otherwise the first admin with that
      e-mail gets the new hash, and with no such admin the answer is 404. */
  function AdminResetRoute(users: seq<User>, req: AdminResetRequest, masterKey: string, hash: string)
    : (r: (Response, seq<User>))
    ensures r.0.Fail? ==> r.1 == users
    ensures req.secretKey != Some(masterKey) ==> r.0 == Fail(403, "Invalid Admin Secret Key")
    ensures req.secretKey == Some(masterKey) && req.newPassword.Some? ==>
      ((forall u :: u in users ==> !IsAdminWithEmail(u, req.email)) <==> r.0 == Fail(404, "Admin email not found"))
    ensures r.0.Done? ==>
      && r.0.message == "Password reset successful"
      && |r.1| == |users|
      && exists k :: 0 <= k < |users| && IsAdminWithEmail(users[k], req.email)
                     && (forall j :: 0 <= j < k ==> !IsAdminWithEmail(users[j], req.email))
                     && r.1 == users[k := users[k].(password := Some(hash))]
    ensures req.secretKey == Some(masterKey) && req.newPassword.None?
            ==> r.0 == Fail(500, "data and salt arguments required")
    ensures req.secretKey == Some(masterKey) && req.newPassword.Some?
            && (exists u :: u in users && IsAdminWithEmail(u, req.email))
            ==> r.0 == Done("Password reset successful")
  {
    if req.secretKey != Some(masterKey) then (Fail(403, "Invalid Admin Secret Key"), users)
    else if req.newPassword.None? then (Fail(500, "data and salt arguments required"), users)
    else
      var found := First(users, AdminWithEmail(req.email));
      if found.None? then (Fail(404, "Admin email not found"), users)
      else
        var k := FirstIndex(users, AdminWithEmail(req.email));
        (Done("Password reset successful"), users[k := users[k].(password := Some(hash))])
  }

  /** The index of the first element satisfying `p`, when there is one. */
  function FirstIndex(s: seq<User>, p: User -> bool): (k: nat)
    requires exists x :: x in s && p(x)
    ensures k < |s| && p(s[k]) && forall j :: 0 <= j < k ==> !p(s[j])
  {
    if p(s[0]) then 0
    else
      assert exists x :: x in s[1..] && p(x) by {
        var x :| x in s && p(x);
        var i :| 0 <= i < |s| && s[i] == x;
        assert s[1..][i - 1] == x;
      }
      1 + FirstIndex(s[1..], p)
  }

  /** `/admin/reset` changes password hashes and nothing else. */
  lemma AdminResetChangesOnlyPasswords(users: seq<User>, req: AdminResetRequest, masterKey: string, hash: string)
    ensures var after := AdminResetRoute(users, req, masterKey, hash).1;
      && |after| == |users|
      && forall i :: 0 <= i < |users| ==> after[i].(password := users[i].password) == users[i]
  {
  }

  method AdminReset(db: Db, req: AdminResetRequest, masterKey: string, hash: string) returns (reply: Response)
    requires db.Valid()
    modifies db
    ensures db.Valid()
    ensures (reply, db.users) == AdminResetRoute(old(db.users), req, masterKey, hash)
    ensures db.messages == old(db.messages) && db.resets == old(db.resets)
  {
    var r := AdminResetRoute(db.users, req, masterKey, hash);
    AdminResetChangesOnlyPasswords(db.users, req, masterKey, hash);
    PasswordsAsideKeepsUnique(db.users, r.1);
    reply, db.users := r.0, r.1;
  }
}
