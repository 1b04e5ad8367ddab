/**
 * backend/routes/organizations.js: the tenants themselves, managed by the
 * super admin and, for their own organization, by its admins.
 */
module Organizations {
  import opened Wrappers
  import opened Domain
  import opened Query
  import opened Store
  import opened Auth

  const OrgNotFound: string := "Organization not found"
  const OrgInvalid: string := "Organization validation failed"
  const DuplicateSlug: string := "E11000 duplicate key error"
  /** What `organization._id` throws when no organization was found. */
  const ReadIdOfNull: string := "Cannot read properties of null (reading '_id')"
  /** What `Object.assign(null, body)` throws. */
  const AssignToNull: string := "Cannot convert undefined or null to object"

  /** Body of `POST /organizations` and `PATCH /organizations/:id`; contact details and settings are not modelled. */
  datatype OrgBody = OrgBody(name: Option<string>, slug: Option<string>, isActive: Option<bool>)

  /** `Organization.findById(id)`. */
  function OrgIndex(os: seq<Organization>, id: Id): (k: int)
    ensures -1 <= k < |os|
    ensures k >= 0 ==> os[k].id == id
    ensures k == -1 <==> forall j :: 0 <= j < |os| ==> os[j].id != id
  {
    FindFirst(os, (o: Organization) => o.id == id)
  }

  /** Some organization other than the one at `k` has this slug (an absent one included). */
  predicate SlugTakenByOther(os: seq<Organization>, k: int, slug: Option<string>) {
    exists j :: 0 <= j < |os| && j != k && os[j].slug == slug
  }

  /** `POST /organizations` (super admins): a named organization whose slug no other one has. */
  function NewOrganization(os: seq<Organization>, body: OrgBody, id: Id): (r: Outcome<Organization>)
    ensures r.Created? || r == BadRequest(OrgInvalid) || r == BadRequest(DuplicateSlug)
    ensures r.Created? <==> Truthy(body.name) && !SlugTakenByOther(os, -1, body.slug)
    ensures r.Created? ==> r.value == Organization(id, body.name.value, body.slug, body.isActive.GetOr(true), None)
  {
    if !Truthy(body.name) then BadRequest(OrgInvalid)
    else if SlugTakenByOther(os, -1, body.slug) then BadRequest(DuplicateSlug)
    else Created(Organization(id, body.name.value, body.slug, body.isActive.GetOr(true), None))
  }

  /** Once one organization has no slug, no second one without a slug can be created. */
  lemma SecondSluglessOrganizationRefused(os: seq<Organization>, k: nat, body: OrgBody, id: Id)
    requires k < |os| && os[k].slug.None? && Truthy(body.name) && body.slug.None?
    ensures NewOrganization(os, body, id) == BadRequest(DuplicateSlug)
  {
    assert os[k].slug == body.slug;
  }

  method CreateOrganization(db: Db, caller: User, body: OrgBody) returns (r: Outcome<Organization>)
    requires db.Valid() && Admitted(caller, [SuperAdmin])
    modifies db`organizations, db`nextId
    ensures db.Valid()
    ensures r == NewOrganization(old(db.organizations), body, old(db.nextId))
    ensures r.Created? ==> db.organizations == old(db.organizations) + [r.value] && db.nextId == old(db.nextId) + 1
    ensures !r.Created? ==> unchanged(db`organizations, db`nextId)
  {
    r := NewOrganization(db.organizations, body, db.nextId);
    if r.Created? {
      var _ := db.FreshId();
      db.organizations := db.organizations + [r.value];
    }
  }

  /** `GET /organizations` (super admins): every organization, active or not. */
  function ListOrganizations(os: seq<Organization>): Outcome<seq<Organization>> {
    Ok(os)
  }

  /**
   * `GET /organizations/:id` (super admins and admins).  The admin's
   * check runs before the existence check, so an admin asking for a
   * missing organization hits a null dereference.
   */
  function GetOrganization(os: seq<Organization>, caller: User, id: Id): (r: Outcome<Organization>)
    requires caller.role == Admin ==> caller.organizationId.Some?
    ensures r.Ok? <==> OrgIndex(os, id) >= 0 && (caller.role == Admin ==> caller.organizationId == Some(id))
    ensures r.Ok? ==> r.value == os[OrgIndex(os, id)] && r.value.id == id
    ensures OrgIndex(os, id) < 0 ==> r == (if caller.role == Admin then BadRequest(ReadIdOfNull) else BadRequest(OrgNotFound))
    ensures OrgIndex(os, id) >= 0 && caller.role == Admin && caller.organizationId != Some(id) ==> r == Forbidden("Forbidden")
  {
    var k := OrgIndex(os, id);
    if caller.role == Admin && k < 0 then BadRequest(ReadIdOfNull)
    else if caller.role == Admin && caller.organizationId != Some(os[k].id) then Forbidden("Forbidden")
    else if k < 0 then BadRequest(OrgNotFound)
    else Ok(os[k])
  }

  /** `Object.assign(organization, body)`, then the update time. */
  function AssignOrg(o: Organization, body: OrgBody, now: int): (o': Organization)
    ensures o'.id == o.id && o'.updatedAt == Some(now)
    ensures o'.name == body.name.GetOr(o.name) && o'.isActive == body.isActive.GetOr(o.isActive)
    ensures o'.slug == (if body.slug.Some? then body.slug else o.slug)
  {
    Organization(o.id, body.name.GetOr(o.name), if body.slug.Some? then body.slug else o.slug,
      body.isActive.GetOr(o.isActive), Some(now))
  }

  /** Why `PATCH /organizations/:id` is refused, in the handler's order, or None. */
  function PatchDenial(os: seq<Organization>, caller: User, id: Id, body: OrgBody): (d: Option<Outcome<Organization>>)
    requires caller.role == Admin ==> caller.organizationId.Some?
    ensures d.None? <==>
      var k := OrgIndex(os, id);
      && k >= 0 && (caller.role == Admin ==> caller.organizationId == Some(id))
      && (body.name.Some? ==> body.name.value != "")
      && !SlugTakenByOther(os, k, AssignOrg(os[k], body, 0).slug)
    ensures OrgIndex(os, id) < 0 ==> d.Some? && d.value.BadRequest?
    ensures OrgIndex(os, id) < 0 ==>
      d == Some(BadRequest(if caller.role == Admin then ReadIdOfNull else AssignToNull))
    ensures OrgIndex(os, id) >= 0 && caller.role == Admin && caller.organizationId != Some(id) ==> d == Some(Forbidden("Forbidden"))
    ensures OrgIndex(os, id) >= 0 && (caller.role == Admin ==> caller.organizationId == Some(id)) ==>
      body.name.Some? && body.name.value == "" ==> d == Some(BadRequest(OrgInvalid))
  {
    var k := OrgIndex(os, id);
    if caller.role == Admin && k < 0 then Some(BadRequest(ReadIdOfNull))
    else if caller.role == Admin && caller.organizationId != Some(os[k].id) then Some(Forbidden("Forbidden"))
    else if k < 0 then Some(BadRequest(AssignToNull))
    else if body.name.Some? && body.name.value == "" then Some(BadRequest(OrgInvalid))
    else if SlugTakenByOther(os, k, AssignOrg(os[k], body, 0).slug) then Some(BadRequest(DuplicateSlug))
    else None
  }

  /** `PATCH /organizations/:id` (super admins, and admins for their own organization). */
  method PatchOrganization(db: Db, caller: User, id: Id, body: OrgBody, now: int) returns (r: Outcome<Organization>)
    requires db.Valid() && Admitted(caller, [SuperAdmin, Admin])
    modifies db`organizations
    ensures db.Valid()
    ensures PatchDenial(old(db.organizations), caller, id, body).Some? ==>
      r == PatchDenial(old(db.organizations), caller, id, body).value && db.organizations == old(db.organizations)
    ensures PatchDenial(old(db.organizations), caller, id, body).None? ==>
      var k := OrgIndex(old(db.organizations), id);
      r == Ok(AssignOrg(old(db.organizations)[k], body, now)) && db.organizations == old(db.organizations)[k := r.value]
  {
    var d := PatchDenial(db.organizations, caller, id, body);
    if d.Some? {
      return d.value;
    }
    var k := OrgIndex(db.organizations, id);
    var o' := AssignOrg(db.organizations[k], body, now);
    assert o'.slug == AssignOrg(db.organizations[k], body, 0).slug;
    ghost var os := db.organizations;
    db.organizations := db.organizations[k := o'];
    forall i, j | 0 <= i < j < |db.organizations| ensures db.organizations[i].slug != db.organizations[j].slug {
      if i == k || j == k {
        var other := if i == k then j else i;
        assert db.organizations[other] == os[other];
        assert !SlugTakenByOther(os, k, o'.slug);
      }
    }
    r := Ok(o');
  }

  /** `User.updateMany({organizationId: id}, {isActive: false})`. */
  function DeactivateMembers(us: seq<User>, id: Id): (r: seq<User>)
    ensures |r| == |us|
    ensures forall i :: 0 <= i < |us| ==> r[i] == (if us[i].organizationId == Some(id) then us[i].(isActive := false) else us[i])
  {
    seq(|us|, i requires 0 <= i < |us| => if us[i].organizationId == Some(id) then us[i].(isActive := false) else us[i])
  }

  /**
   * After the deactivation every member of the organization is inactive,
   * and every other account is exactly as before.
   */
  lemma DeactivateMembersSparesOthers(us: seq<User>, id: Id)
    ensures forall u :: u in DeactivateMembers(us, id) && u.organizationId == Some(id) ==> !u.isActive
    ensures forall i :: 0 <= i < |us| && us[i].organizationId != Some(id) ==> DeactivateMembers(us, id)[i] == us[i]
    ensures forall i :: 0 <= i < |us| ==>
      var u := DeactivateMembers(us, id)[i];
      u.id == us[i].id && u.email == us[i].email && u.role == us[i].role && u.organizationId == us[i].organizationId
  {
  }

  /** A member of a deleted organization gets past the middleware no more. */
  lemma {:induction false} DeletedOrganizationLocksMembersOut(us: seq<User>, id: Id, req: HttpRequest, roles: seq<Role>, verify: string -> Option<Id>)
    requires !IsRfidScan(req) && BearerToken(req).Some?
    requires verify(BearerToken(req).value).Some?
    requires forall u :: u in us && u.id == verify(BearerToken(req).value).value ==> u.organizationId == Some(id)
    ensures Gate(req, roles, verify, DeactivateMembers(us, id)) == Unauthorized
  {
    var us' := DeactivateMembers(us, id);
    var uid := verify(BearerToken(req).value).value;
    forall u | u in us' ensures !(u.id == uid && u.isActive) {
      var j :| 0 <= j < |us'| && us'[j] == u;
      assert us[j] in us;
    }
  }

  /** `DELETE /organizations/:id` (super admins): the organization goes and its members are deactivated. */
  method DeleteOrganization(db: Db, caller: User, id: Id) returns (r: Outcome<()>)
    requires db.Valid() && Admitted(caller, [SuperAdmin])
    modifies db`organizations, db`users
    ensures db.Valid()
    ensures OrgIndex(old(db.organizations), id) < 0 ==>
      r == BadRequest(OrgNotFound) && unchanged(db`organizations, db`users)
    ensures OrgIndex(old(db.organizations), id) >= 0 ==>
      && r == Ok(())
      && db.organizations == RemoveAt(old(db.organizations), OrgIndex(old(db.organizations), id))
      && db.users == DeactivateMembers(old(db.users), id)
  {
    var k := OrgIndex(db.organizations, id);
    if k < 0 {
      return BadRequest(OrgNotFound);
    }
    ghost var os := db.organizations;
    db.organizations := RemoveAt(db.organizations, k);
    forall i, j | 0 <= i < j < |db.organizations| ensures db.organizations[i].slug != db.organizations[j].slug {
      var i' := if i < k then i else i + 1;
      var j' := if j < k then j else j + 1;
      assert db.organizations[i] == os[i'] && db.organizations[j] == os[j'] && i' < j';
    }
    db.users := DeactivateMembers(db.users, id);
    r := Ok(());
  }
}
