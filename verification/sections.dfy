/**
 * backend/routes/sections.js: creating the sections of a class, listing
 * them, and enrolling a student in one.
 */
module Sections {
  import opened Wrappers
  import opened Domain
  import opened Query
  import opened Store
  import opened Auth
  import opened AttendanceCore
  import opened Classes

  const SectionInvalid: string := "Section validation failed"
  const NotTeaching: string := "Not teaching this class"
  /** What `classObj.teachers` throws when the section's class is gone. */
  const ReadOfNull: string := "Cannot read properties of null (reading 'teachers')"

  /** Body of `POST /sections`; the schedule is not modelled. */
  datatype NewSection = NewSection(classId: Id, name: Option<string>)

  /** `POST /sections` (admins and teachers): a section of a class of the caller's organization. */
  function NewSectionRecord(cs: seq<Class>, caller: User, body: NewSection, id: Id): (r: Outcome<Section>)
    requires caller.organizationId.Some?
    ensures r.Created? || r == NotFound(ClassNotFound) || r == Forbidden(NotTeaching) || r == BadRequest(SectionInvalid)
    ensures r == NotFound(ClassNotFound) <==> OrgClassIndex(cs, body.classId, caller.organizationId) < 0
    ensures r.Created? <==>
      && OrgClassIndex(cs, body.classId, caller.organizationId) >= 0
      && (caller.role == Teacher ==> ListsTeacher(cs[OrgClassIndex(cs, body.classId, caller.organizationId)], caller.id))
      && Truthy(body.name)
    ensures r.Created? ==>
      r.value == Section(id, caller.organizationId.value, body.classId, body.name.value, [], SectionActive)
  {
    var k := OrgClassIndex(cs, body.classId, caller.organizationId);
    if k < 0 then NotFound(ClassNotFound)
    else if caller.role == Teacher && !ListsTeacher(cs[k], caller.id) then Forbidden(NotTeaching)
    else if !Truthy(body.name) then BadRequest(SectionInvalid)
    else Created(Section(id, caller.organizationId.value, body.classId, body.name.value, [], SectionActive))
  }

  method CreateSection(db: Db, caller: User, body: NewSection) returns (r: Outcome<Section>)
    requires db.Valid() && Admitted(caller, [Admin, Teacher])
    modifies db`sections, db`nextId
    ensures db.Valid()
    ensures r == NewSectionRecord(db.classes, caller, body, old(db.nextId))
    ensures r.Created? ==> db.sections == old(db.sections) + [r.value] && db.nextId == old(db.nextId) + 1
    ensures !r.Created? ==> unchanged(db`sections, db`nextId)
  {
    r := NewSectionRecord(db.classes, caller, body, db.nextId);
    if r.Created? {
      var _ := db.FreshId();
      db.sections := db.sections + [r.value];
    }
  }

  /**
   * `GET /sections?classId=`: the sections of a class of the caller's
   * organization, for a teacher of it, a student in it, or any other role.
   */
  function ListSections(cs: seq<Class>, ss: seq<Section>, caller: User, classId: Option<Id>): (r: Outcome<seq<Section>>)
    ensures classId.None? <==> r == BadRequest("classId is required")
    ensures classId.Some? ==>
      var k := OrgClassIndex(cs, classId.value, caller.organizationId);
      && (r == NotFound(ClassNotFound) <==> k < 0)
      && (r.Ok? <==>
            (&& k >= 0
             && (caller.role == Teacher ==> ListsTeacher(cs[k], caller.id))
             && (caller.role == Student ==> caller.studentDetails.currentClassId == Some(classId.value))))
    ensures r.Ok? ==> forall s :: s in r.value <==> s in ss && Some(s.classId) == classId
  {
    if classId.None? then BadRequest("classId is required")
    else
      var k := OrgClassIndex(cs, classId.value, caller.organizationId);
      if k < 0 then NotFound(ClassNotFound)
      else if caller.role == Teacher && !ListsTeacher(cs[k], caller.id) then Forbidden(NotTeaching)
      else if caller.role == Student && caller.studentDetails.currentClassId != Some(cs[k].id) then Forbidden("Not your class")
      else Ok(Filter(ss, (s: Section) => Some(s.classId) == classId))
  }

  /** `Section.findById(id)`. */
  function SectionIndex(ss: seq<Section>, id: Id): (k: int)
    ensures -1 <= k < |ss|
    ensures k >= 0 ==> ss[k].id == id
    ensures k == -1 <==> forall j :: 0 <= j < |ss| ==> ss[j].id != id
  {
    FindFirst(ss, (s: Section) => s.id == id)
  }

  /** The student the enrolment looks for: active, a student, of the caller's organization. */
  predicate EnrollableStudent(u: User, studentId: Id, org: Option<Id>) {
    u.id == studentId && u.organizationId == org && u.role == Student && u.isActive
  }

  function StudentIndex(us: seq<User>, studentId: Id, org: Option<Id>): (k: int)
    ensures -1 <= k < |us|
    ensures k >= 0 ==> EnrollableStudent(us[k], studentId, org)
    ensures k == -1 <==> forall j :: 0 <= j < |us| ==> !EnrollableStudent(us[j], studentId, org)
  {
    FindFirst(us, (u: User) => EnrollableStudent(u, studentId, org))
  }

  /** Why `POST /sections/:id/students` is refused, in the handler's order, or None. */
  function EnrollDenial(cs: seq<Class>, ss: seq<Section>, us: seq<User>, caller: User, sectionId: Id, studentId: Id): (d: Option<Outcome<Section>>)
    ensures d.None? <==>
      var k := SectionIndex(ss, sectionId);
      var j := StudentIndex(us, studentId, caller.organizationId);
      && k >= 0 && Some(ss[k].organizationId) == caller.organizationId
      && j >= 0 && us[j].studentDetails.currentClassId == Some(ss[k].classId)
      && (caller.role == Teacher ==> ClassIndex(cs, ss[k].classId) >= 0 && ListsTeacher(cs[ClassIndex(cs, ss[k].classId)], caller.id))
      && studentId !in ss[k].students
    ensures d.Some? ==> d.value.NotFound? || d.value.BadRequest? || d.value.Forbidden?
    ensures var k := SectionIndex(ss, sectionId);
      k < 0 || Some(ss[k].organizationId) != caller.organizationId ==> d == Some(NotFound("Section not found"))
    ensures var k := SectionIndex(ss, sectionId);
      var j := StudentIndex(us, studentId, caller.organizationId);
      k >= 0 && Some(ss[k].organizationId) == caller.organizationId && j < 0 ==> d == Some(BadRequest("Student not found"))
    ensures var k := SectionIndex(ss, sectionId);
      var j := StudentIndex(us, studentId, caller.organizationId);
      k >= 0 && Some(ss[k].organizationId) == caller.organizationId && j >= 0 ==>
      us[j].studentDetails.currentClassId != Some(ss[k].classId) ==> d == Some(BadRequest("Student not in this class"))
    ensures var k := SectionIndex(ss, sectionId);
      var j := StudentIndex(us, studentId, caller.organizationId);
      var c := if k >= 0 then ClassIndex(cs, ss[k].classId) else -1;
      k >= 0 && Some(ss[k].organizationId) == caller.organizationId && j >= 0 ==>
      us[j].studentDetails.currentClassId == Some(ss[k].classId) ==>
      caller.role == Teacher && c >= 0 && !ListsTeacher(cs[c], caller.id) ==> d == Some(Forbidden(NotTeaching))
    ensures var k := SectionIndex(ss, sectionId);
      var j := StudentIndex(us, studentId, caller.organizationId);
      var c := if k >= 0 then ClassIndex(cs, ss[k].classId) else -1;
      k >= 0 && Some(ss[k].organizationId) == caller.organizationId && j >= 0 ==>
      us[j].studentDetails.currentClassId == Some(ss[k].classId) ==>
      caller.role == Teacher && c < 0 ==> d == Some(BadRequest(ReadOfNull))
    ensures var k := SectionIndex(ss, sectionId);
      var j := StudentIndex(us, studentId, caller.organizationId);
      var c := if k >= 0 then ClassIndex(cs, ss[k].classId) else -1;
      k >= 0 && Some(ss[k].organizationId) == caller.organizationId && j >= 0 ==>
      us[j].studentDetails.currentClassId == Some(ss[k].classId) ==>
      (caller.role == Teacher ==> c >= 0 && ListsTeacher(cs[c], caller.id)) ==>
      studentId in ss[k].students ==> d == Some(BadRequest("Student already in section"))
  {
    var k := SectionIndex(ss, sectionId);
    if k < 0 || Some(ss[k].organizationId) != caller.organizationId then Some(NotFound("Section not found"))
    else
      var j := StudentIndex(us, studentId, caller.organizationId);
      if j < 0 then Some(BadRequest("Student not found"))
      else if us[j].studentDetails.currentClassId != Some(ss[k].classId) then Some(BadRequest("Student not in this class"))
      else if caller.role == Teacher && ClassIndex(cs, ss[k].classId) < 0 then Some(BadRequest(ReadOfNull))
      else if caller.role == Teacher && !ListsTeacher(cs[ClassIndex(cs, ss[k].classId)], caller.id) then Some(Forbidden(NotTeaching))
      else if studentId in ss[k].students then Some(BadRequest("Student already in section"))
      else None
  }

  /** The student's section is filled in only when it was unset. */
  function BackFill(u: User, sectionId: Id): (u': User)
    ensures u'.id == u.id && u'.email == u.email && u'.role == u.role && u'.isActive == u.isActive
    ensures u'.studentDetails.currentClassId == u.studentDetails.currentClassId
    ensures u'.studentDetails.currentSectionId == Some(u.studentDetails.currentSectionId.GetOr(sectionId))
    ensures u.studentDetails.currentSectionId.Some? ==> u' == u
    ensures u'.(studentDetails := u.studentDetails) == u
    ensures u'.studentDetails.(currentSectionId := u.studentDetails.currentSectionId) == u.studentDetails
  {
    if u.studentDetails.currentSectionId.Some? then u
    else u.(studentDetails := u.studentDetails.(currentSectionId := Some(sectionId)))
  }

  /** `POST /sections/:id/students` (admins and teachers). */
  method AddStudent(db: Db, caller: User, sectionId: Id, studentId: Id) returns (r: Outcome<Section>)
    requires db.Valid() && Admitted(caller, [Admin, Teacher])
    modifies db`sections, db`users
    ensures db.Valid()
    ensures EnrollDenial(db.classes, old(db.sections), old(db.users), caller, sectionId, studentId).Some? ==>
      && r == EnrollDenial(db.classes, old(db.sections), old(db.users), caller, sectionId, studentId).value
      && unchanged(db`sections, db`users)
    ensures EnrollDenial(db.classes, old(db.sections), old(db.users), caller, sectionId, studentId).None? ==>
      var k := SectionIndex(old(db.sections), sectionId);
      var j := StudentIndex(old(db.users), studentId, caller.organizationId);
      var s := old(db.sections)[k];
      && r == Ok(s.(students := s.students + [studentId]))
      && db.sections == old(db.sections)[k := r.value]
      && db.users == old(db.users)[j := BackFill(old(db.users)[j], sectionId)]
  {
    var d := EnrollDenial(db.classes, db.sections, db.users, caller, sectionId, studentId);
    if d.Some? {
      return d.value;
    }
    var k := SectionIndex(db.sections, sectionId);
    var j := StudentIndex(db.users, studentId, caller.organizationId);
    var s := db.sections[k];
    var s' := s.(students := s.students + [studentId]);
    db.sections := db.sections[k := s'];
    ghost var us := db.users;
    db.users := db.users[j := BackFill(db.users[j], sectionId)];
    assert forall i :: 0 <= i < |db.users| ==> db.users[i].id == us[i].id && db.users[i].email == us[i].email;
    r := Ok(s');
  }

  /** A student appears in a section at most once: enrolment keeps the roster free of repeats. */
  lemma EnrollKeepsRosterDistinct(s: Section, studentId: Id)
    requires forall a, b :: 0 <= a < b < |s.students| ==> s.students[a] != s.students[b]
    requires studentId !in s.students
    ensures var ids := s.students + [studentId];
      forall a, b :: 0 <= a < b < |ids| ==> ids[a] != ids[b]
  {
  }
}
