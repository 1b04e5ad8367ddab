/**
 * backend/routes/users.js: who may create, list, read, update and
 * deactivate which accounts, and what each does to the user store.
 */
module Users {
  import opened Wrappers
  import opened Domain
  import opened Query
  import opened Store
  import opened Auth

  const UserNotFound: string := "User not found"
  const Insufficient: string := "Insufficient privileges"
  const UserInvalid: string := "User validation failed"
  const DuplicateEmail: string := "E11000 duplicate key error"
  /** What the password hasher throws when no password is given. */
  const NoPassword: string := "Illegal arguments: undefined, number"

  /** Body of `POST /users`; the fields after `role` are the spread rest. */
  datatype NewUser = NewUser(
    email: Option<string>, password: Option<string>, role: Option<string>,
    organizationId: Option<Id>, firstName: string, lastName: string,
    studentDetails: StudentDetails, children: seq<Id>, rfidCard: Option<RfidCard>,
    isActive: Option<bool>)

  /** Body of `PATCH /users/:id`: every key present is copied onto the user. */
  datatype UserPatch = UserPatch(
    email: Option<string>, firstName: Option<string>, lastName: Option<string>,
    role: Option<string>, organizationId: Option<Id>, studentDetails: Option<StudentDetails>,
    children: Option<seq<Id>>, rfidCard: Option<RfidCard>, isActive: Option<bool>)

  /** `['superAdmin', 'admin'].includes(role)`. */
  predicate NamesElevatedRole(role: Option<string>) {
    role == Some("superAdmin") || role == Some("admin")
  }

  predicate EmailTaken(us: seq<User>, email: string) {
    exists j :: 0 <= j < |us| && us[j].email == email
  }

  /** Some user other than the one at index `k` already has this email. */
  predicate EmailTakenByOther(us: seq<User>, k: int, email: string) {
    exists j :: 0 <= j < |us| && j != k && us[j].email == email
  }

  /**
   * `POST /users`, as the user it would store under id `id`: an admin may
   * create neither admins nor super admins and always creates in their own
   * organization; the password must be given, the email non-empty and
   * unused, the role one of the five.
   */
  function Creation(us: seq<User>, caller: User, body: NewUser, id: Id): (r: Outcome<User>)
    ensures r.Created? || r.Forbidden? || r.BadRequest?
    ensures caller.role == Admin && NamesElevatedRole(body.role) ==> r == Forbidden(Insufficient)
    ensures r.Created? <==>
      && !(caller.role == Admin && NamesElevatedRole(body.role))
      && body.password.Some? && Truthy(body.email) && body.role.Some? && ParseRole(body.role.value).Some?
      && !EmailTaken(us, body.email.value)
    ensures r.Created? ==>
      && r.value.id == id && r.value.email == body.email.value && RoleName(r.value.role) == body.role.value
      && r.value.organizationId == (if caller.role == Admin then caller.organizationId else body.organizationId)
      && r.value.isActive == body.isActive.GetOr(true)
      && r.value.firstName == body.firstName && r.value.lastName == body.lastName
      && r.value.studentDetails == body.studentDetails && r.value.children == body.children
      && r.value.rfidCard == body.rfidCard && r.value.updatedAt.None?
  {
    if caller.role == Admin && NamesElevatedRole(body.role) then Forbidden(Insufficient)
    else if body.password.None? then BadRequest(NoPassword)
    else if !Truthy(body.email) || body.role.None? || ParseRole(body.role.value).None? then BadRequest(UserInvalid)
    else if EmailTaken(us, body.email.value) then BadRequest(DuplicateEmail)
    else
      var org := if caller.role == Admin then caller.organizationId else body.organizationId;
      Created(User(id, org, body.email.value, body.firstName, body.lastName, ParseRole(body.role.value).value,
        body.studentDetails, body.children, body.rfidCard, body.isActive.GetOr(true), None))
  }

  /** An admin never creates an account that could administer. */
  lemma AdminCreatesNoAdmins(us: seq<User>, caller: User, body: NewUser, id: Id)
    requires caller.role == Admin && Creation(us, caller, body, id).Created?
    ensures Creation(us, caller, body, id).value.role !in {Admin, SuperAdmin}
    ensures Creation(us, caller, body, id).value.organizationId == caller.organizationId
  {
    var u := Creation(us, caller, body, id).value;
    assert RoleName(u.role) == body.role.value;
  }

  method CreateUser(db: Db, caller: User, body: NewUser) returns (r: Outcome<User>)
    requires db.Valid() && Admitted(caller, [SuperAdmin, Admin])
    modifies db`users, db`nextId
    ensures db.Valid()
    ensures r == Creation(old(db.users), caller, body, old(db.nextId))
    ensures r.Created? ==> db.users == old(db.users) + [r.value] && db.nextId == old(db.nextId) + 1
    ensures !r.Created? ==> unchanged(db`users, db`nextId)
  {
    r := Creation(db.users, caller, body, db.nextId);
    if r.Created? {
      var id := db.FreshId();
      forall j | 0 <= j < |db.users| ensures db.users[j].email != r.value.email {
        assert !EmailTaken(db.users, body.email.value);
      }
      db.users := db.users + [r.value];
    }
  }

  /** `GET /users`: active users, all of them for a super admin, the own organization's non-super-admins for an admin. */
  function ListUsers(us: seq<User>, caller: User): (r: Outcome<seq<User>>)
    ensures r.Ok? <==> caller.role == SuperAdmin || caller.role == Admin
    ensures !r.Ok? ==> r == Forbidden("Forbidden")
    ensures r.Ok? && caller.role == SuperAdmin ==> forall u :: u in r.value <==> u in us && u.isActive
    ensures r.Ok? && caller.role == Admin ==>
      forall u :: u in r.value <==> u in us && u.isActive && u.organizationId == caller.organizationId && u.role != SuperAdmin
  {
    if caller.role == SuperAdmin then Ok(Filter(us, (u: User) => u.isActive))
    else if caller.role == Admin then
      Ok(Filter(us, (u: User) => u.isActive && u.organizationId == caller.organizationId && u.role != SuperAdmin))
    else Forbidden("Forbidden")
  }

  /** `GET /users/:id`: a missing or inactive user fails; an admin reads their own organization, other non-super roles only themselves. */
  function GetUser(us: seq<User>, caller: User, id: Id): (r: Outcome<User>)
    ensures r.Ok? || r == BadRequest(UserNotFound) || r == Forbidden("Forbidden")
    ensures r == BadRequest(UserNotFound) <==> UserById(us, id).None? || !UserById(us, id).value.isActive
    ensures r.Ok? ==> r.value == UserById(us, id).value && r.value.isActive
    ensures r.Ok? && caller.role == Admin ==> r.value.organizationId.Some? && r.value.organizationId == caller.organizationId
    ensures r.Ok? && caller.role in {Teacher, Student, Parent} ==> r.value.id == caller.id
    ensures UserById(us, id).Some? && UserById(us, id).value.isActive && caller.role == SuperAdmin ==> r.Ok?
  {
    var u := UserById(us, id);
    if u.None? || !u.value.isActive then BadRequest(UserNotFound)
    else if caller.role == Admin && (u.value.organizationId.None? || u.value.organizationId != caller.organizationId) then
      Forbidden("Forbidden")
    else if caller.role in {Teacher, Student, Parent} && caller.id != u.value.id then Forbidden("Forbidden")
    else Ok(u.value)
  }

  /**
   * The admin's checks on a target of update or delete, in the handler's
   * order: never a super admin, an admin only of the same organization
   * (an admin target without an organization makes `.equals` throw), and
   * nobody outside the organization.
   */
  function AdminDenial<T>(caller: User, target: User): (d: Option<Outcome<T>>)
    requires caller.organizationId.Some?
    ensures d.None? <==> target.role != SuperAdmin && target.organizationId == caller.organizationId
    ensures target.role == SuperAdmin ==> d == Some(Forbidden(Insufficient))
    ensures target.role == Admin && target.organizationId.None? ==> d == Some(BadRequest(ReadOfUndefined))
  {
    if target.role == SuperAdmin then Some(Forbidden(Insufficient))
    else if target.role == Admin && target.organizationId.None? then Some(BadRequest(ReadOfUndefined))
    else if target.role == Admin && target.organizationId != caller.organizationId then Some(Forbidden(Insufficient))
    else if target.organizationId.None? || target.organizationId != caller.organizationId then Some(Forbidden("Forbidden"))
    else None
  }

  /** `Object.assign(user, body)`, then the update time. */
  function Patched(u: User, p: UserPatch, now: int): (u': User)
    requires p.role.Some? ==> ParseRole(p.role.value).Some?
    ensures u'.id == u.id && u'.updatedAt == Some(now)
    ensures u'.email == p.email.GetOr(u.email)
    ensures p.role.Some? ==> RoleName(u'.role) == p.role.value
    ensures p.role.None? ==> u'.role == u.role
    ensures u'.organizationId == (if p.organizationId.Some? then p.organizationId else u.organizationId)
    ensures u'.isActive == p.isActive.GetOr(u.isActive)
    ensures u'.children == p.children.GetOr(u.children)
    ensures u'.studentDetails == p.studentDetails.GetOr(u.studentDetails)
    ensures u'.firstName == p.firstName.GetOr(u.firstName) && u'.lastName == p.lastName.GetOr(u.lastName)
    ensures u'.rfidCard == (if p.rfidCard.Some? then p.rfidCard else u.rfidCard)
  {
    User(u.id,
      if p.organizationId.Some? then p.organizationId else u.organizationId,
      p.email.GetOr(u.email), p.firstName.GetOr(u.firstName), p.lastName.GetOr(u.lastName),
      if p.role.Some? then ParseRole(p.role.value).value else u.role,
      p.studentDetails.GetOr(u.studentDetails), p.children.GetOr(u.children),
      if p.rfidCard.Some? then p.rfidCard else u.rfidCard,
      p.isActive.GetOr(u.isActive), Some(now))
  }

  /** Why `PATCH /users/:id` is refused, or None when the update goes through. */
  function UpdateDenial(us: seq<User>, caller: User, id: Id, p: UserPatch): (d: Option<Outcome<User>>)
    requires caller.role != SuperAdmin ==> caller.organizationId.Some?
    ensures d.None? ==> UserById(us, id).Some? && UserById(us, id).value.isActive
    ensures (UserById(us, id).None? || !UserById(us, id).value.isActive) ==> d == Some(BadRequest(UserNotFound))
    ensures d.None? && caller.role == Admin ==>
      var t := UserById(us, id).value;
      t.role != SuperAdmin && t.organizationId == caller.organizationId && !NamesElevatedRole(p.role)
    ensures d.None? && caller.role != Admin ==> UserById(us, id).value.id == caller.id
    ensures d.None? ==> p.role.Some? ==> ParseRole(p.role.value).Some?
    ensures d.None? ==> p.email.Some? ==> p.email.value != "" && !EmailTakenByOther(us, UserIndex(us, id), p.email.value)
    ensures d.None? <==>
      && UserById(us, id).Some? && UserById(us, id).value.isActive
      && (caller.role == Admin ==>
            && UserById(us, id).value.role != SuperAdmin
            && UserById(us, id).value.organizationId == caller.organizationId
            && !NamesElevatedRole(p.role))
      && (caller.role != Admin ==> UserById(us, id).value.id == caller.id)
      && (p.role.Some? ==> ParseRole(p.role.value).Some?)
      && (p.email.Some? ==> p.email.value != "" && !EmailTakenByOther(us, UserIndex(us, id), p.email.value))
  {
    var t := UserById(us, id);
    if t.None? || !t.value.isActive then Some(BadRequest(UserNotFound))
    else
      var admin := if caller.role == Admin then AdminDenial(caller, t.value) else None;
      if admin.Some? then admin
      else if caller.role == Admin && Truthy(p.role) && NamesElevatedRole(p.role) then Some(Forbidden(Insufficient))
      else if caller.role != Admin && caller.id != t.value.id then Some(Forbidden("Forbidden"))
      else if p.role.Some? && ParseRole(p.role.value).None? then Some(BadRequest(UserInvalid))
      else if p.email.Some? && p.email.value == "" then Some(BadRequest(UserInvalid))
      else if p.email.Some? && EmailTakenByOther(us, UserIndex(us, id), p.email.value) then Some(BadRequest(DuplicateEmail))
      else None
  }

  method UpdateUser(db: Db, caller: User, id: Id, p: UserPatch, now: int) returns (r: Outcome<User>)
    requires db.Valid() && Admitted(caller, [])
    modifies db`users
    ensures db.Valid()
    ensures UpdateDenial(old(db.users), caller, id, p).Some? ==>
      r == UpdateDenial(old(db.users), caller, id, p).value && db.users == old(db.users)
    ensures UpdateDenial(old(db.users), caller, id, p).None? ==>
      var k := UserIndex(old(db.users), id);
      && r == Ok(Patched(old(db.users)[k], p, now))
      && db.users == old(db.users)[k := r.value]
  {
    var d := UpdateDenial(db.users, caller, id, p);
    if d.Some? {
      return d.value;
    }
    var k := UserIndex(db.users, id);
    var u' := Patched(db.users[k], p, now);
    ghost var us := db.users;
    db.users := db.users[k := u'];
    forall i, j | 0 <= i < j < |db.users| ensures db.users[i].email != db.users[j].email {
      if i == k || j == k {
        var o := if i == k then j else i;
        assert db.users[o] == us[o];
        if p.email.Some? {
          assert !EmailTakenByOther(us, k, p.email.value);
        }
      }
    }
    r := Ok(u');
  }

  /**
   * A self-update is not restricted by field: a student who names
   * themself may set their own role to super admin.
   */
  lemma SelfUpdateMayRaiseRole(us: seq<User>, caller: User, now: int)
    requires caller.role == Student && caller.organizationId.Some?
    requires UserById(us, caller.id) == Some(caller) && caller.isActive
    ensures
      var p := UserPatch(None, None, None, Some("superAdmin"), None, None, None, None, None);
      UpdateDenial(us, caller, caller.id, p).None? && Patched(caller, p, now).role == SuperAdmin
  {
  }

  /** An admin's update leaves the target outside the administering roles unless it already was one. */
  lemma AdminUpdateRaisesNoRole(us: seq<User>, caller: User, id: Id, p: UserPatch, now: int)
    requires caller.role == Admin && caller.organizationId.Some?
    requires UpdateDenial(us, caller, id, p).None?
    ensures
      var t := UserById(us, id).value;
      var t' := Patched(t, p, now);
      t'.role == t.role || t'.role !in {Admin, SuperAdmin}
  {
    var t := UserById(us, id).value;
    if p.role.Some? {
      assert RoleName(Patched(t, p, now).role) == p.role.value;
    }
  }

  /** Why `DELETE /users/:id` is refused, or None when the user is deactivated. */
  function DeleteDenial(us: seq<User>, caller: User, id: Id): (d: Option<Outcome<()>>)
    requires caller.organizationId.Some? || caller.role == SuperAdmin
    ensures d.None? <==>
      && UserById(us, id).Some? && UserById(us, id).value.isActive
      && (caller.role == Admin ==>
            UserById(us, id).value.role != SuperAdmin && UserById(us, id).value.organizationId == caller.organizationId)
    ensures (UserById(us, id).None? || !UserById(us, id).value.isActive) ==> d == Some(BadRequest(UserNotFound))
  {
    var t := UserById(us, id);
    if t.None? || !t.value.isActive then Some(BadRequest(UserNotFound))
    else if caller.role == Admin then AdminDenial(caller, t.value)
    else None
  }

  /** `DELETE /users/:id`: the account stays, deactivated. */
  method DeleteUser(db: Db, caller: User, id: Id, now: int) returns (r: Outcome<()>)
    requires db.Valid() && Admitted(caller, [SuperAdmin, Admin])
    modifies db`users
    ensures db.Valid()
    ensures DeleteDenial(old(db.users), caller, id).Some? ==>
      r == DeleteDenial(old(db.users), caller, id).value && db.users == old(db.users)
    ensures DeleteDenial(old(db.users), caller, id).None? ==>
      var k := UserIndex(old(db.users), id);
      && r == Ok(())
      && db.users == old(db.users)[k := old(db.users)[k].(isActive := false, updatedAt := Some(now))]
  {
    var d := DeleteDenial(db.users, caller, id);
    if d.Some? {
      return d.value;
    }
    var k := UserIndex(db.users, id);
    ghost var us := db.users;
    db.users := db.users[k := db.users[k].(isActive := false, updatedAt := Some(now))];
    assert forall j :: 0 <= j < |db.users| ==> db.users[j].id == us[j].id && db.users[j].email == us[j].email;
    r := Ok(());
  }

  /** A deactivated account signs in no more: no token naming it gets past the middleware. */
  lemma {:induction false} DeactivatedUserLockedOut(us: seq<User>, k: nat, now: int, req: HttpRequest, roles: seq<Role>, verify: string -> Option<Id>)
    requires k < |us| && DistinctUserIds(us)
    requires !IsRfidScan(req) && BearerToken(req).Some? && verify(BearerToken(req).value) == Some(us[k].id)
    ensures Gate(req, roles, verify, us[k := us[k].(isActive := false, updatedAt := Some(now))]) == Unauthorized
  {
    var us' := us[k := us[k].(isActive := false, updatedAt := Some(now))];
    forall u | u in us' ensures !(u.id == us[k].id && u.isActive) {
      var j :| 0 <= j < |us'| && us'[j] == u;
      if j != k {
        assert us[j].id != us[k].id;
      }
    }
  }
}
