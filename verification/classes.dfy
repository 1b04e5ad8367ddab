/**
 * backend/routes/classes.js: creating, listing, reading and updating the
 * classes of an organization, and assigning teachers to them.
 */
module Classes {
  import opened Wrappers
  import opened Domain
  import opened Query
  import opened Store
  import opened Auth
  import opened AttendanceCore

  const ClassNotFound: string := "Class not found"
  const ClassInvalid: string := "Class validation failed"

  /** Body of `POST /classes`; grade level, description and dates are not modelled. */
  datatype NewClass = NewClass(name: Option<string>, code: Option<string>)

  /** Body of `PATCH /classes/:id`: every key present is `$set`. */
  datatype ClassPatch = ClassPatch(
    name: Option<string>, code: Option<string>, status: Option<ClassStatus>,
    organizationId: Option<Id>, teachers: Option<seq<TeacherEntry>>)

  /** `Class.findById(id)`: index of the first class with this id, or -1. */
  function ClassIndex(cs: seq<Class>, id: Id): (k: int)
    ensures -1 <= k < |cs|
    ensures k >= 0 ==> cs[k].id == id
    ensures k == -1 <==> forall j :: 0 <= j < |cs| ==> cs[j].id != id
  {
    FindFirst(cs, (c: Class) => c.id == id)
  }

  /** `Class.findOne({_id: id, organizationId: org})`. */
  function OrgClassIndex(cs: seq<Class>, id: Id, org: Option<Id>): (k: int)
    ensures -1 <= k < |cs|
    ensures k >= 0 ==> cs[k].id == id && Some(cs[k].organizationId) == org
    ensures k == -1 <==> forall j :: 0 <= j < |cs| ==> !(cs[j].id == id && Some(cs[j].organizationId) == org)
  {
    FindFirst(cs, (c: Class) => c.id == id && Some(c.organizationId) == org)
  }

  /** `POST /classes` (admins): a named class of the admin's organization, with no teachers yet. */
  function NewClassRecord(caller: User, body: NewClass, id: Id): (r: Outcome<Class>)
    requires caller.organizationId.Some?
    ensures r.Created? <==> Truthy(body.name)
    ensures !r.Created? ==> r == BadRequest(ClassInvalid)
    ensures r.Created? ==>
      && r.value.id == id && r.value.organizationId == caller.organizationId.value
      && r.value.name == body.name.value && r.value.code == body.code
      && r.value.teachers == [] && r.value.status == ClassActive && r.value.updatedAt.None?
  {
    if !Truthy(body.name) then BadRequest(ClassInvalid)
    else Created(Class(id, caller.organizationId.value, body.name.value, body.code, [], ClassActive, None))
  }

  method CreateClass(db: Db, caller: User, body: NewClass) returns (r: Outcome<Class>)
    requires db.Valid() && Admitted(caller, [Admin])
    modifies db`classes, db`nextId
    ensures db.Valid()
    ensures r == NewClassRecord(caller, body, old(db.nextId))
    ensures r.Created? ==> db.classes == old(db.classes) + [r.value] && db.nextId == old(db.nextId) + 1
    ensures !r.Created? ==> unchanged(db`classes, db`nextId)
  {
    r := NewClassRecord(caller, body, db.nextId);
    if r.Created? {
      var _ := db.FreshId();
      db.classes := db.classes + [r.value];
    }
  }

  /** A class the caller's role lets them see, within their organization. */
  predicate ClassVisible(caller: User, c: Class) {
    && Some(c.organizationId) == caller.organizationId
    && (caller.role == Teacher ==> ListsTeacher(c, caller.id))
    && (caller.role == Student ==> caller.studentDetails.currentClassId == Some(c.id))
  }

  /** `GET /classes`: the organization's classes, a teacher's own, a student's current one. */
  function ListClasses(cs: seq<Class>, caller: User): (r: Outcome<seq<Class>>)
    ensures r.Ok?
    ensures forall c :: c in r.value <==> c in cs && ClassVisible(caller, c)
  {
    if caller.role == Student && caller.studentDetails.currentClassId.None? then Ok([])
    else Ok(Filter(cs, (c: Class) => ClassVisible(caller, c)))
  }

  /** `GET /classes/:id`. */
  function GetClass(cs: seq<Class>, caller: User, id: Id): (r: Outcome<Class>)
    ensures r.Ok? || r == NotFound(ClassNotFound) || r == Forbidden("Not teaching this class") || r == Forbidden("Not your class")
    ensures r == NotFound(ClassNotFound) <==>
      ClassIndex(cs, id) < 0 || Some(cs[ClassIndex(cs, id)].organizationId) != caller.organizationId
    ensures r.Ok? <==> ClassIndex(cs, id) >= 0 && ClassVisible(caller, cs[ClassIndex(cs, id)])
    ensures r.Ok? ==> r.value == cs[ClassIndex(cs, id)]
  {
    var k := ClassIndex(cs, id);
    if k < 0 || Some(cs[k].organizationId) != caller.organizationId then NotFound(ClassNotFound)
    else if caller.role == Teacher && !ListsTeacher(cs[k], caller.id) then Forbidden("Not teaching this class")
    else if caller.role == Student && caller.studentDetails.currentClassId != Some(cs[k].id) then Forbidden("Not your class")
    else Ok(cs[k])
  }

  /** A class any caller may read by id is also one the listing shows them. */
  lemma GetAgreesWithList(cs: seq<Class>, caller: User, id: Id)
    requires GetClass(cs, caller, id).Ok?
    ensures GetClass(cs, caller, id).value in ListClasses(cs, caller).value
  {
    var k := ClassIndex(cs, id);
    assert cs[k] in cs;
  }

  /** `$set` of the body and the update time; validators do not run, so nothing is refused. */
  function SetClass(c: Class, p: ClassPatch, now: int): (c': Class)
    ensures c'.id == c.id && c'.updatedAt == Some(now)
    ensures c'.name == p.name.GetOr(c.name) && c'.status == p.status.GetOr(c.status)
    ensures c'.code == (if p.code.Some? then p.code else c.code)
    ensures c'.organizationId == p.organizationId.GetOr(c.organizationId)
    ensures c'.teachers == p.teachers.GetOr(c.teachers)
  {
    Class(c.id, p.organizationId.GetOr(c.organizationId), p.name.GetOr(c.name),
      if p.code.Some? then p.code else c.code, p.teachers.GetOr(c.teachers), p.status.GetOr(c.status), Some(now))
  }

  /** `PATCH /classes/:id` (admins): only a class of the admin's organization is updated; the body may even move it. */
  method UpdateClass(db: Db, caller: User, id: Id, p: ClassPatch, now: int) returns (r: Outcome<Class>)
    requires db.Valid() && Admitted(caller, [Admin])
    modifies db`classes
    ensures db.Valid()
    ensures OrgClassIndex(old(db.classes), id, caller.organizationId) < 0 ==>
      r == BadRequest(ClassNotFound) && db.classes == old(db.classes)
    ensures OrgClassIndex(old(db.classes), id, caller.organizationId) >= 0 ==>
      var k := OrgClassIndex(old(db.classes), id, caller.organizationId);
      r == Ok(SetClass(old(db.classes)[k], p, now)) && db.classes == old(db.classes)[k := r.value]
  {
    var k := OrgClassIndex(db.classes, id, caller.organizationId);
    if k < 0 {
      return BadRequest(ClassNotFound);
    }
    var c := SetClass(db.classes[k], p, now);
    db.classes := db.classes[k := c];
    r := Ok(c);
  }

  /** `User.findOne({_id: teacherId, organizationId, role: 'teacher'})`; the account need not be active. */
  function OrgTeacher(us: seq<User>, teacherId: Id, org: Option<Id>): (r: Option<User>)
    ensures r.Some? ==> r.value in us && r.value.id == teacherId && r.value.organizationId == org && r.value.role == Teacher
    ensures r.None? <==> forall u :: u in us ==> !(u.id == teacherId && u.organizationId == org && u.role == Teacher)
  {
    var k := FindFirst(us, (u: User) => u.id == teacherId && u.organizationId == org && u.role == Teacher);
    if k < 0 then None else Some(us[k])
  }

  /** `$addToSet`: the entry is added unless an identical one is already there. */
  function AddToSet(ts: seq<TeacherEntry>, e: TeacherEntry): (r: seq<TeacherEntry>)
    ensures e in r
    ensures e in ts ==> r == ts
    ensures e !in ts ==> r == ts + [e]
  {
    if e in ts then ts else ts + [e]
  }

  /**
   * Casting the update gives the new entry a fresh subdocument id, so it
   * is never identical to a stored entry and is always appended, even for
   * a teacher already listed.
   */
  lemma {:induction false} FreshEntryIsAppended(ts: seq<TeacherEntry>, e: TeacherEntry)
    requires forall t :: t in ts ==> t.id < e.id
    ensures AddToSet(ts, e) == ts + [e]
    ensures |AddToSet(ts, e)| == |ts| + 1
  {
    assert e !in ts;
  }

  /**
   * `POST /classes/:id/teachers` (admins): a teacher of the admin's
   * organization, active or not, is added to a class of that organization.
   */
  method AddTeacher(db: Db, caller: User, id: Id, teacherId: Id, isPrimary: Option<bool>) returns (r: Outcome<Class>)
    requires db.Valid() && Admitted(caller, [Admin])
    modifies db`classes, db`nextId
    ensures db.Valid()
    ensures OrgTeacher(db.users, teacherId, caller.organizationId).None? ==>
      r == BadRequest("Teacher not found") && unchanged(db`classes, db`nextId)
    ensures OrgTeacher(db.users, teacherId, caller.organizationId).Some? && OrgClassIndex(old(db.classes), id, caller.organizationId) < 0 ==>
      r == BadRequest(ClassNotFound) && unchanged(db`classes, db`nextId)
    ensures OrgTeacher(db.users, teacherId, caller.organizationId).Some? && OrgClassIndex(old(db.classes), id, caller.organizationId) >= 0 ==>
      var k := OrgClassIndex(old(db.classes), id, caller.organizationId);
      var c := old(db.classes)[k];
      && r == Ok(c.(teachers := AddToSet(c.teachers, TeacherEntry(old(db.nextId), teacherId, isPrimary))))
      && db.classes == old(db.classes)[k := r.value]
      && db.nextId == old(db.nextId) + 1
      && ListsTeacher(r.value, teacherId)
  {
    if OrgTeacher(db.users, teacherId, caller.organizationId).None? {
      return BadRequest("Teacher not found");
    }
    var k := OrgClassIndex(db.classes, id, caller.organizationId);
    if k < 0 {
      return BadRequest(ClassNotFound);
    }
    var entryId := db.FreshId();
    var c := db.classes[k];
    var entry := TeacherEntry(entryId, teacherId, isPrimary);
    var c' := c.(teachers := AddToSet(c.teachers, entry));
    db.classes := db.classes[k := c'];
    r := Ok(c');
  }

  /** Assigning a teacher to an active class brings its students into their attendance scope. */
  lemma {:induction false} AddedTeacherTeachesClass(cs: seq<Class>, k: nat, e: TeacherEntry)
    requires k < |cs| && cs[k].status == ClassActive
    ensures
      var c := cs[k];
      TeachesClass(cs[k := c.(teachers := AddToSet(c.teachers, e))], e.teacherId, Some(c.id))
  {
    var c := cs[k];
    var c' := c.(teachers := AddToSet(c.teachers, e));
    var cs' := cs[k := c'];
    assert cs'[k] == c';
    assert c' in ActiveClassesOf(cs', e.teacherId);
  }
}
