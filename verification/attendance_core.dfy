/**
 * The pure part of backend/routes/attendance.js: how a scan changes a
 * record, which record a scan or a manual mark lands on, who hears about
 * it, and which records a caller may list.
 */
module AttendanceCore {
  import opened Wrappers
  import opened Domain
  import opened Query
  import opened Time
  import opened Store

  const UpdateEvent: string := "attendanceUpdate"

  // ---------------------------------------------------------------- classes

  /** `classObj.teachers.some(t => t.teacherId.equals(id))`: listed in any capacity. */
  predicate ListsTeacher(c: Class, teacherId: Id) {
    exists e :: e in c.teachers && e.teacherId == teacherId
  }

  /** `Class.find({'teachers.teacherId': id, status: 'active'})`, across all organizations. */
  function ActiveClassesOf(classes: seq<Class>, teacherId: Id): (r: seq<Class>)
    ensures forall c :: c in r <==> c in classes && ListsTeacher(c, teacherId) && c.status == ClassActive
  {
    Filter(classes, (c: Class) => ListsTeacher(c, teacherId) && c.status == ClassActive)
  }

  /**
   * `classes.some(cls => cls._id.equals(classId))` over the teacher's
   * active classes; an unset class id matches none of them.
   */
  predicate TeachesClass(classes: seq<Class>, teacherId: Id, classId: Option<Id>) {
    classId.Some? && exists c :: c in ActiveClassesOf(classes, teacherId) && c.id == classId.value
  }

  // ---------------------------------------------------------- scan ingest

  /** `User.findOne({'rfidCard.uid': uid, isActive: true})`; the card's own flag is not consulted. */
  function CardHolder(users: seq<User>, uid: string): (r: Option<User>)
    ensures r.Some? ==> r.value in users && r.value.isActive && r.value.rfidCard.Some? && r.value.rfidCard.value.uid == uid
    ensures r.None? <==> forall u :: u in users ==> !(u.isActive && u.rfidCard.Some? && u.rfidCard.value.uid == uid)
  {
    var k := FindFirst(users, (u: User) => u.isActive && u.rfidCard.Some? && u.rfidCard.value.uid == uid);
    if k < 0 then None else Some(users[k])
  }

  /** The audit row written for every scan, whether or not the card is known. */
  function ScanLogFor(holder: Option<User>, uid: string, location: string, scanType: Option<ScanType>, now: int): (l: ScanLog)
    ensures l.rfidUid == uid && l.timestamp == now && l.scanType == scanType
    ensures l.status == (if holder.Some? then Success else UnknownCard)
    ensures holder.Some? ==> l.userId == Some(holder.value.id) && l.organizationId == holder.value.organizationId
    ensures holder.None? ==> l.userId.None? && l.organizationId.None?
  {
    match holder
    case None => ScanLog(None, uid, None, location, scanType, UnknownCard, now)
    case Some(u) => ScanLog(u.organizationId, uid, Some(u.id), location, scanType, Success, now)
  }

  /** The scan log's `scanType` enum: absent is allowed, any other string must name a kind. */
  predicate ScanTypeAccepted(s: Option<string>) {
    s.None? || s.value == "entry" || s.value == "exit"
  }

  /** The scan log's own validation, apart from the organization: a non-empty uid and an accepted kind. */
  predicate ScanLogAccepted(uid: string, scanType: Option<string>) {
    uid != "" && ScanTypeAccepted(scanType)
  }

  function ScanTypeOf(s: Option<string>): (t: Option<ScanType>)
    ensures t == Some(Entry) <==> s == Some("entry")
    ensures t == Some(Exit) <==> s == Some("exit")
  {
    if s == Some("entry") then Some(Entry) else if s == Some("exit") then Some(Exit) else None
  }

  /**
   * The first step of the scan handler under the scan-log schema as
   * declared, where the organization is required: the log of an unknown
   * card carries no organization, so saving it fails before the 404 is
   * reached and nothing is logged.
   */
  function LogStepAsWritten(holder: Option<User>, log: ScanLog): (r: Outcome<ScanLog>)
    ensures r.Ok? <==> log.organizationId.Some? && holder.Some?
    ensures r.NotFound? <==> log.organizationId.Some? && holder.None?
  {
    if log.organizationId.None? then BadRequest(ScanLogInvalid)
    else if holder.None? then NotFound("RFID card not recognized")
    else Ok(log)
  }

  /** As declared, an unknown card is never logged and never answered with 404. */
  lemma UnknownCardNeverReported(users: seq<User>, uid: string, location: string, scanType: Option<ScanType>, now: int)
    requires CardHolder(users, uid).None?
    ensures
      var h := CardHolder(users, uid);
      LogStepAsWritten(h, ScanLogFor(h, uid, location, scanType, now)) == BadRequest(ScanLogInvalid)
  {
  }

  /** A record of this student dated on or after `midnight`, as `findOne({studentId, date: {$gte}})`. */
  predicate OnOrAfter(r: AttendanceRecord, studentId: Id, midnight: int) {
    r.studentId == studentId && r.date >= midnight
  }

  /** The record a scan or mark for `studentId` lands on: the first one dated at or after `midnight`. */
  function SameDayIndex(rs: seq<AttendanceRecord>, studentId: Id, midnight: int): (k: int)
    ensures -1 <= k < |rs|
    ensures k >= 0 ==> OnOrAfter(rs[k], studentId, midnight)
    ensures k >= 0 ==> forall j :: 0 <= j < k ==> !OnOrAfter(rs[j], studentId, midnight)
    ensures k == -1 <==> forall j :: 0 <= j < |rs| ==> !OnOrAfter(rs[j], studentId, midnight)
  {
    FindFirst(rs, (r: AttendanceRecord) => OnOrAfter(r, studentId, midnight))
  }

  /** Class and section copied onto a new record, only for a student who has a current class. */
  function Enrollment(u: Option<User>): (e: (Option<Id>, Option<Id>))
    ensures e.0.Some? <==> u.Some? && u.value.role == Student && u.value.studentDetails.currentClassId.Some?
    ensures e.0.Some? ==> e == (u.value.studentDetails.currentClassId, u.value.studentDetails.currentSectionId)
    ensures e.0.None? ==> e.1.None?
  {
    if u.Some? && u.value.role == Student && u.value.studentDetails.currentClassId.Some? then
      (u.value.studentDetails.currentClassId, u.value.studentDetails.currentSectionId)
    else (None, None)
  }

  /** The record a scan creates: dated at the scan instant itself, present, no times yet. */
  function NewScanRecord(u: User, id: Id, now: int): (r: AttendanceRecord)
    requires u.organizationId.Some?
    ensures r.id == id && r.organizationId == u.organizationId.value && r.studentId == u.id
    ensures r.date == now && r.status == Present
    ensures r.entryTime.None? && r.exitTime.None? && r.totalTimePresent.None?
    ensures r.markedBy.None? && r.remarks.None? && r.updatedAt.None?
    ensures (r.classId, r.sectionId) == Enrollment(Some(u))
  {
    var e := Enrollment(Some(u));
    AttendanceRecord(id, u.organizationId.value, u.id, e.0, e.1, now, Present, None, None, None, None, None, None)
  }

  /**
   * The transition a scan applies.  Entry stamps the entry time and turns
   * an absent student late; exit stamps the exit time and, once an entry
   * time exists, recomputes the minutes present from the two stamps.  A
   * scan of neither kind changes nothing.
   */
  function ApplyScan(r: AttendanceRecord, scanType: Option<ScanType>, now: int): (r': AttendanceRecord)
    ensures r'.id == r.id && r'.organizationId == r.organizationId && r'.studentId == r.studentId
    ensures r'.date == r.date && r'.classId == r.classId && r'.sectionId == r.sectionId
    ensures r'.markedBy == r.markedBy && r'.remarks == r.remarks && r'.updatedAt == r.updatedAt
    ensures scanType == Some(Entry) ==>
      && r'.entryTime == Some(now)
      && r'.status == (if r.status == Absent then Late else r.status)
      && r'.exitTime == r.exitTime && r'.totalTimePresent == r.totalTimePresent
    ensures scanType == Some(Exit) ==>
      && r'.exitTime == Some(now) && r'.entryTime == r.entryTime && r'.status == r.status
      && (r.entryTime.Some? ==> r'.totalTimePresent == Some(RoundMinutes(now - r.entryTime.value)))
      && (r.entryTime.None? ==> r'.totalTimePresent == r.totalTimePresent)
    ensures scanType.None? ==> r' == r
  {
    match scanType
    case None => r
    case Some(Entry) =>
      r.(entryTime := Some(now), status := if r.status == Absent then Late else r.status)
    case Some(Exit) =>
      var r1 := r.(exitTime := Some(now));
      if r1.entryTime.Some? && r1.exitTime.Some? then
        r1.(totalTimePresent := Some(RoundMinutes(r1.exitTime.value - r1.entryTime.value)))
      else r1
  }

  /** Only an absent student changes status on entry; every other status is kept. */
  lemma EntryOnlyUpgradesAbsent(r: AttendanceRecord, now: int)
    ensures ApplyScan(r, Some(Entry), now).status == Late <==> r.status == Absent || r.status == Late
    ensures r.status != Absent ==> ApplyScan(r, Some(Entry), now).status == r.status
  {
  }

  /** A second exit overwrites the first: the last exit decides exit time and duration. */
  lemma {:induction false} LastExitWins(r: AttendanceRecord, t1: int, t2: int)
    ensures ApplyScan(ApplyScan(r, Some(Exit), t1), Some(Exit), t2) == ApplyScan(r, Some(Exit), t2)
  {
    var a := ApplyScan(r, Some(Exit), t1);
    assert a.entryTime == r.entryTime;
  }

  /** Minutes present are never negative when the exit is not before the entry. */
  lemma DurationNonNegative(r: AttendanceRecord, now: int)
    requires r.entryTime.Some? && r.entryTime.value <= now
    ensures ApplyScan(r, Some(Exit), now).totalTimePresent.value >= 0
  {
    RoundNonNegative(now - r.entryTime.value);
  }

  /**
   * A first scan of the day at 08:58 and an exit at 15:31 leave one
   * present record with 393 minutes.
   */
  lemma EntryThenExitScenario(u: User, id: Id, midnight: int)
    requires u.organizationId.Some?
    ensures
      var entry := midnight + (8 * 60 + 58) * MsPerMinute;
      var exit := midnight + (15 * 60 + 31) * MsPerMinute;
      var r := ApplyScan(ApplyScan(NewScanRecord(u, id, entry), Some(Entry), entry), Some(Exit), exit);
      r.status == Present && r.entryTime == Some(entry) && r.exitTime == Some(exit) && r.totalTimePresent == Some(393)
  {
    var entry := midnight + (8 * 60 + 58) * MsPerMinute;
    var exit := midnight + (15 * 60 + 31) * MsPerMinute;
    assert exit - entry == 393 * MsPerMinute;
    RoundWholeMinutes(393);
  }

  /**
   * Where a scan by a known card lands, as the result and the new record
   * list: the student's first record dated today or later takes the scan;
   * without one, a record dated at the scan instant is created with id
   * `next`, which fails validation for a user who has no organization.
   */
  function ScanLanding(rs: seq<AttendanceRecord>, u: User, st: Option<ScanType>, now: int, offset: int, next: nat): (o: (Outcome<AttendanceRecord>, seq<AttendanceRecord>))
    ensures o.0.Ok? || o.0 == BadRequest(AttendanceInvalid)
    ensures o.0.BadRequest? ==> o.1 == rs
    ensures
      var k := SameDayIndex(rs, u.id, MidnightOf(now, offset));
      && (k >= 0 ==> o.1 == rs[k := ApplyScan(rs[k], st, now)] && o.0 == Ok(o.1[k]))
      && (k < 0 ==> (o.0.Ok? <==> u.organizationId.Some?))
      && (k < 0 && u.organizationId.Some? ==>
            o.1 == rs + [ApplyScan(NewScanRecord(u, next, now), st, now)] && o.0 == Ok(o.1[|rs|]))
  {
    var k := SameDayIndex(rs, u.id, MidnightOf(now, offset));
    if k >= 0 then
      var rec := ApplyScan(rs[k], st, now);
      (Ok(rec), rs[k := rec])
    else if u.organizationId.None? then (BadRequest(AttendanceInvalid), rs)
    else
      var rec := ApplyScan(NewScanRecord(u, next, now), st, now);
      (Ok(rec), rs + [rec])
  }

  /** A scan keeps every store invariant about records: one per student and day, fresh ids, anchored notifications. */
  lemma {:induction false} ScanLandingKeepsInvariants(rs: seq<AttendanceRecord>, ns: seq<Notification>, u: User, st: Option<ScanType>, now: int, offset: int, next: nat)
    requires OnePerStudentDay(rs, offset) && RecordIdsValid(rs, next) && NoOrphans(ns, rs)
    ensures
      var o := ScanLanding(rs, u, st, now, offset, next);
      var next' := if |o.1| > |rs| then next + 1 else next;
      && OnePerStudentDay(o.1, offset) && RecordIdsValid(o.1, next') && NoOrphans(ns, o.1)
      && (o.0.Ok? ==> HasRecord(o.1, o.0.value.id))
  {
    var m := MidnightOf(now, offset);
    var k := SameDayIndex(rs, u.id, m);
    if k >= 0 {
      var rec := ApplyScan(rs[k], st, now);
      UpdateKeepsOnePerDay(rs, k, rec, offset);
      NoOrphansUpdate(ns, rs, k, rec);
      assert rs[k := rec][k].id == rec.id;
    } else if u.organizationId.Some? {
      var rec := ApplyScan(NewScanRecord(u, next, now), st, now);
      CreateKeepsOnePerDay(rs, rec, m, offset);
      NoOrphansAppend(ns, rs, rec);
      HasRecordAppend(rs, rec, rec.id);
    }
  }

  // ------------------------------------------------------- manual marking

  /** The record a manual mark creates: dated at the day's midnight, marked by the caller. */
  function NewManualRecord(id: Id, organizationId: Id, studentId: Id, day: int, status: Status, remarks: Option<string>, marker: Id, student: Option<User>): (r: AttendanceRecord)
    ensures r.id == id && r.organizationId == organizationId && r.studentId == studentId
    ensures r.date == day && r.status == status && r.remarks == remarks && r.markedBy == Some(marker)
    ensures r.entryTime.None? && r.exitTime.None? && r.totalTimePresent.None? && r.updatedAt.None?
    ensures (r.classId, r.sectionId) == Enrollment(student)
  {
    var e := Enrollment(student);
    AttendanceRecord(id, organizationId, studentId, e.0, e.1, day, status, None, None, None, Some(marker), remarks, None)
  }

  /** A manual mark on an existing record: status, remarks and marker overwritten, nothing else. */
  function Remark(r: AttendanceRecord, status: Status, remarks: Option<string>, marker: Id, now: int): (r': AttendanceRecord)
    ensures r'.id == r.id && r'.studentId == r.studentId && r'.date == r.date && r'.organizationId == r.organizationId
    ensures r'.classId == r.classId && r'.sectionId == r.sectionId
    ensures r'.entryTime == r.entryTime && r'.exitTime == r.exitTime && r'.totalTimePresent == r.totalTimePresent
    ensures r'.status == status && r'.remarks == remarks
    ensures r'.markedBy == Some(marker) && r'.updatedAt == Some(now)
  {
    r.(status := status, remarks := remarks, markedBy := Some(marker), updatedAt := Some(now))
  }

  /** PATCH: status and remarks only when given non-empty, the marker and time always. */
  function PatchRecord(r: AttendanceRecord, status: Option<Status>, remarks: Option<string>, marker: Id, now: int): (r': AttendanceRecord)
    ensures r'.id == r.id && r'.studentId == r.studentId && r'.date == r.date && r'.organizationId == r.organizationId
    ensures r'.classId == r.classId && r'.sectionId == r.sectionId
    ensures r'.entryTime == r.entryTime && r'.exitTime == r.exitTime && r'.totalTimePresent == r.totalTimePresent
    ensures r'.status == status.GetOr(r.status)
    ensures r'.remarks == (if Truthy(remarks) then remarks else r.remarks)
    ensures r'.markedBy == Some(marker) && r'.updatedAt == Some(now)
  {
    var r1 := if status.Some? then r.(status := status.value) else r;
    var r2 := if Truthy(remarks) then r1.(remarks := remarks) else r1;
    r2.(markedBy := Some(marker), updatedAt := Some(now))
  }

  /** The status a manual mark carries, when the body names a valid one. */
  function MarkedStatus(s: Option<string>): (r: Option<Status>)
    ensures r.Some? <==> s.Some? && ParseStatus(s.value).Some?
    ensures r.Some? ==> StatusName(r.value) == s.value
  {
    if s.Some? then ParseStatus(s.value) else None
  }

  /** A teacher may mark only a student of one of their active classes; an admin anyone. */
  predicate MayMark(users: seq<User>, classes: seq<Class>, caller: User, studentId: Id) {
    var s := UserById(users, studentId);
    caller.role != Teacher
      || (s.Some? && s.value.role == Student && TeachesClass(classes, caller.id, s.value.studentDetails.currentClassId))
  }

  /** Why a manual mark is refused, in the order the handler finds out. */
  function MarkDenial(users: seq<User>, classes: seq<Class>, caller: User, studentId: Id, status: Option<string>): (d: Option<Outcome<AttendanceRecord>>)
    ensures d.None? <==> MayMark(users, classes, caller, studentId) && MarkedStatus(status).Some?
    ensures caller.role == Teacher && (UserById(users, studentId).None? || UserById(users, studentId).value.role != Student) ==>
      d == Some(BadRequest("Invalid student"))
    ensures caller.role == Teacher && UserById(users, studentId).Some? && UserById(users, studentId).value.role == Student ==>
      !TeachesClass(classes, caller.id, UserById(users, studentId).value.studentDetails.currentClassId) ==>
      d == Some(Forbidden("Student not in your class"))
    ensures MayMark(users, classes, caller, studentId) && MarkedStatus(status).None? ==> d == Some(BadRequest(AttendanceInvalid))
  {
    var s := UserById(users, studentId);
    if caller.role == Teacher && (s.None? || s.value.role != Student) then Some(BadRequest("Invalid student"))
    else if caller.role == Teacher && !TeachesClass(classes, caller.id, s.value.studentDetails.currentClassId) then
      Some(Forbidden("Student not in your class"))
    else if MarkedStatus(status).None? then Some(BadRequest(AttendanceInvalid))
    else None
  }

  /**
   * Where a manual mark lands: the student's first record dated on or
   * after the day's midnight is overwritten; without one a record dated
   * at that midnight is created with id `next` in the marker's organization.
   */
  function MarkLanding(rs: seq<AttendanceRecord>, users: seq<User>, organizationId: Id, marker: Id, studentId: Id, day: int, status: Status, remarks: Option<string>, now: int, next: nat): (o: (AttendanceRecord, seq<AttendanceRecord>))
    ensures
      var k := SameDayIndex(rs, studentId, day);
      && (k >= 0 ==> o.1 == rs[k := Remark(rs[k], status, remarks, marker, now)] && o.0 == o.1[k])
      && (k < 0 ==> o.1 == rs + [NewManualRecord(next, organizationId, studentId, day, status, remarks, marker, UserById(users, studentId))] && o.0 == o.1[|rs|])
  {
    var k := SameDayIndex(rs, studentId, day);
    if k >= 0 then
      var rec := Remark(rs[k], status, remarks, marker, now);
      (rec, rs[k := rec])
    else
      var rec := NewManualRecord(next, organizationId, studentId, day, status, remarks, marker, UserById(users, studentId));
      (rec, rs + [rec])
  }

  /** A manual mark dated at a local midnight keeps every store invariant about records. */
  lemma {:induction false} MarkLandingKeepsInvariants(rs: seq<AttendanceRecord>, ns: seq<Notification>, users: seq<User>, organizationId: Id, marker: Id, studentId: Id, t: int, status: Status, remarks: Option<string>, now: int, offset: int, next: nat)
    requires OnePerStudentDay(rs, offset) && RecordIdsValid(rs, next) && NoOrphans(ns, rs)
    ensures
      var o := MarkLanding(rs, users, organizationId, marker, studentId, MidnightOf(t, offset), status, remarks, now, next);
      var next' := if |o.1| > |rs| then next + 1 else next;
      && OnePerStudentDay(o.1, offset) && RecordIdsValid(o.1, next') && NoOrphans(ns, o.1)
      && HasRecord(o.1, o.0.id) && o.0.studentId == studentId
  {
    var day := MidnightOf(t, offset);
    var k := SameDayIndex(rs, studentId, day);
    if k >= 0 {
      var rec := Remark(rs[k], status, remarks, marker, now);
      UpdateKeepsOnePerDay(rs, k, rec, offset);
      NoOrphansUpdate(ns, rs, k, rec);
      assert rs[k := rec][k].id == rec.id;
    } else {
      var rec := NewManualRecord(next, organizationId, studentId, day, status, remarks, marker, UserById(users, studentId));
      MidnightOfMidnight(t, offset);
      CreateKeepsOnePerDay(rs, rec, day, offset);
      NoOrphansAppend(ns, rs, rec);
      HasRecordAppend(rs, rec, rec.id);
    }
  }

  /** Who may correct or delete a record: a teacher of its class, an admin of its organization, a super admin. */
  predicate MayTouch(classes: seq<Class>, caller: User, r: AttendanceRecord) {
    match caller.role
    case Teacher => TeachesClass(classes, caller.id, r.classId)
    case Admin => Some(r.organizationId) == caller.organizationId
    case _ => true
  }

  function TouchDenial<T>(classes: seq<Class>, caller: User, r: AttendanceRecord): (d: Option<Outcome<T>>)
    ensures d.None? <==> MayTouch(classes, caller, r)
    ensures d.Some? ==> d.value == (if caller.role == Teacher then Forbidden("Student not in your class") else Forbidden("Not in your organization"))
  {
    if caller.role == Teacher && !TeachesClass(classes, caller.id, r.classId) then Some(Forbidden("Student not in your class"))
    else if caller.role == Admin && Some(r.organizationId) != caller.organizationId then Some(Forbidden("Not in your organization"))
    else None
  }

  // ------------------------------------------------------------- fan-out

  /** `User.find({'parentDetails.children': studentId, isActive: true})`. */
  function ActiveParents(users: seq<User>, studentId: Id): (r: seq<User>)
    ensures forall u :: u in r <==> u in users && u.isActive && studentId in u.children
  {
    Filter(users, (u: User) => u.isActive && studentId in u.children)
  }

  function FullName(u: User): string {
    u.firstName + " " + u.lastName
  }

  function StatusMessage(status: Status, student: User): string {
    "Attendance marked as " + StatusName(status) + " for " + FullName(student)
  }

  /** One unread notification per parent, numbered from `firstId`, all pointing at one record. */
  function NotificationsFor(parents: seq<User>, studentId: Id, attendanceId: Id, message: string, firstId: nat, now: int): (ns: seq<Notification>)
  {
    seq(|parents|, i requires 0 <= i < |parents| =>
      Notification(firstId + i, parents[i].id, studentId, attendanceId, message, false, now))
  }

  /** One `attendanceUpdate` emit per parent, to the room named by the parent's id. */
  function EmitsFor(parents: seq<User>, payload: AttendanceUpdate): (es: seq<Emit>)
  {
    seq(|parents|, i requires 0 <= i < |parents| => Emit(parents[i].id, UpdateEvent, payload))
  }

  /**
   * The fan-out as written: `Notification` is bound nowhere in the module,
   * so the first parent makes `new Notification` throw a ReferenceError,
   * after the record has been saved and before any notification or emit.
   */
  function FanOutAsWritten(parents: seq<User>): (r: Outcome<seq<Notification>>)
    ensures r.Ok? <==> |parents| == 0
    ensures r.Ok? ==> r.value == []
  {
    if |parents| == 0 then Ok([]) else BadRequest("Notification is not defined")
  }

  /** As written, a student with an active parent never gets that parent notified. */
  lemma FanOutAsWrittenNotifiesNobody(users: seq<User>, student: User, parent: User)
    requires parent in users && parent.isActive && student.id in parent.children
    ensures FanOutAsWritten(ActiveParents(users, student.id)) == BadRequest("Notification is not defined")
  {
    assert parent in ActiveParents(users, student.id);
  }

  lemma {:induction false} FilterKeepsDistinctIds(us: seq<User>, p: User -> bool)
    requires DistinctUserIds(us)
    ensures DistinctUserIds(Filter(us, p))
  {
    if |us| > 0 {
      assert DistinctUserIds(us[1..]);
      FilterKeepsDistinctIds(us[1..], p);
      var t := Filter(us[1..], p);
      assert Filter(us, p) == (if p(us[0]) then [us[0]] else []) + t;
      forall u | u in t ensures u.id != us[0].id {
        var j :| 0 <= j < |us[1..]| && us[1..][j] == u;
        assert us[j + 1] == u;
      }
    }
  }

  /** Every active parent of the student gets a notification and an emit, at the same position. */
  lemma FanOutReachesEveryParent(users: seq<User>, studentId: Id, attendanceId: Id, message: string, firstId: nat, now: int, payload: AttendanceUpdate)
    ensures
      var ps := ActiveParents(users, studentId);
      var ns := NotificationsFor(ps, studentId, attendanceId, message, firstId, now);
      var es := EmitsFor(ps, payload);
      |ns| == |es| &&
      forall u :: u in users && u.isActive && studentId in u.children ==>
        exists i :: 0 <= i < |ns| && ns[i].parentId == u.id && es[i].room == u.id
  {
    var ps := ActiveParents(users, studentId);
    var ns := NotificationsFor(ps, studentId, attendanceId, message, firstId, now);
    var es := EmitsFor(ps, payload);
    forall u | u in users && u.isActive && studentId in u.children
      ensures exists i :: 0 <= i < |ns| && ns[i].parentId == u.id && es[i].room == u.id
    {
      var i :| 0 <= i < |ps| && ps[i] == u;
      assert ns[i].parentId == u.id && es[i].room == u.id;
    }
  }

  /** Nobody outside the student's active parents hears about the record. */
  lemma FanOutOnlyParents(users: seq<User>, studentId: Id, attendanceId: Id, message: string, firstId: nat, now: int, payload: AttendanceUpdate)
    ensures
      var ps := ActiveParents(users, studentId);
      var ns := NotificationsFor(ps, studentId, attendanceId, message, firstId, now);
      var es := EmitsFor(ps, payload);
      forall i :: 0 <= i < |ns| ==>
        && ns[i].attendanceId == attendanceId && !ns[i].isRead && es[i].room == ns[i].parentId
        && exists u :: u in users && u.id == ns[i].parentId && u.isActive && studentId in u.children
  {
    var ps := ActiveParents(users, studentId);
    var ns := NotificationsFor(ps, studentId, attendanceId, message, firstId, now);
    forall i | 0 <= i < |ns|
      ensures exists u :: u in users && u.id == ns[i].parentId && u.isActive && studentId in u.children
    {
      assert ps[i] in ps;
    }
  }

  /** With distinct user ids, no parent is notified twice about one event. */
  lemma FanOutOncePerParent(users: seq<User>, studentId: Id, attendanceId: Id, message: string, firstId: nat, now: int)
    requires DistinctUserIds(users)
    ensures
      var ns := NotificationsFor(ActiveParents(users, studentId), studentId, attendanceId, message, firstId, now);
      forall i, j :: 0 <= i < j < |ns| ==> ns[i].parentId != ns[j].parentId
  {
    FilterKeepsDistinctIds(users, (u: User) => u.isActive && studentId in u.children);
  }

  // ------------------------------------------------------------ invariants

  /** A record created where no same-day-or-later record of the student exists keeps one record per day. */
  lemma {:induction false} CreateKeepsOnePerDay(rs: seq<AttendanceRecord>, x: AttendanceRecord, midnight: int, offset: int)
    requires OnePerStudentDay(rs, offset)
    requires SameDayIndex(rs, x.studentId, midnight) == -1
    requires MidnightOf(x.date, offset) == midnight
    ensures OnePerStudentDay(rs + [x], offset)
  {
    var rs' := rs + [x];
    forall i, j | 0 <= i < j < |rs'| && rs'[i].studentId == rs'[j].studentId
      ensures MidnightOf(rs'[i].date, offset) != MidnightOf(rs'[j].date, offset)
    {
      if j == |rs| {
        assert rs'[i] == rs[i] && !OnOrAfter(rs[i], x.studentId, midnight);
        assert MidnightOf(rs[i].date, offset) <= rs[i].date < midnight;
      }
    }
  }

  /** Rewriting a record in place without moving its student or date keeps one record per day. */
  lemma UpdateKeepsOnePerDay(rs: seq<AttendanceRecord>, k: nat, x: AttendanceRecord, offset: int)
    requires OnePerStudentDay(rs, offset) && k < |rs|
    requires x.studentId == rs[k].studentId && x.date == rs[k].date
    ensures OnePerStudentDay(rs[k := x], offset)
  {
    var rs' := rs[k := x];
    forall i, j | 0 <= i < j < |rs'| && rs'[i].studentId == rs'[j].studentId
      ensures MidnightOf(rs'[i].date, offset) != MidnightOf(rs'[j].date, offset)
    {
      assert rs'[i].studentId == rs[i].studentId && rs'[i].date == rs[i].date;
      assert rs'[j].studentId == rs[j].studentId && rs'[j].date == rs[j].date;
    }
  }

  lemma RemoveKeepsOnePerDay(rs: seq<AttendanceRecord>, k: nat, offset: int)
    requires OnePerStudentDay(rs, offset) && k < |rs|
    ensures OnePerStudentDay(RemoveAt(rs, k), offset)
  {
    var rs' := RemoveAt(rs, k);
    forall i, j | 0 <= i < j < |rs'| && rs'[i].studentId == rs'[j].studentId
      ensures MidnightOf(rs'[i].date, offset) != MidnightOf(rs'[j].date, offset)
    {
      var i' := if i < k then i else i + 1;
      var j' := if j < k then j else j + 1;
      assert rs'[i] == rs[i'] && rs'[j] == rs[j'] && i' < j';
    }
  }

  lemma RemoveKeepsRecordIds(rs: seq<AttendanceRecord>, k: nat, next: nat)
    requires RecordIdsValid(rs, next) && k < |rs|
    ensures RecordIdsValid(RemoveAt(rs, k), next)
    ensures !HasRecord(RemoveAt(rs, k), rs[k].id)
  {
    var rs' := RemoveAt(rs, k);
    forall i, j | 0 <= i < j < |rs'| ensures rs'[i].id != rs'[j].id {
      var i' := if i < k then i else i + 1;
      var j' := if j < k then j else j + 1;
      assert rs'[i] == rs[i'] && rs'[j] == rs[j'] && i' < j';
    }
    forall i | 0 <= i < |rs'| ensures rs'[i].id != rs[k].id {
      var i' := if i < k then i else i + 1;
      assert rs'[i] == rs[i'] && i' != k;
    }
  }

  /** `Notification.deleteMany({attendanceId})`. */
  function WithoutAttendance(ns: seq<Notification>, attendanceId: Id): (r: seq<Notification>)
    ensures forall n :: n in r <==> n in ns && n.attendanceId != attendanceId
  {
    Filter(ns, (n: Notification) => n.attendanceId != attendanceId)
  }

  /** Deleting a record together with the notifications that point at it leaves no orphan. */
  lemma {:induction false} CascadeLeavesNoOrphans(ns: seq<Notification>, rs: seq<AttendanceRecord>, k: nat, next: nat)
    requires NoOrphans(ns, rs) && RecordIdsValid(rs, next) && k < |rs|
    ensures NoOrphans(WithoutAttendance(ns, rs[k].id), RemoveAt(rs, k))
  {
    var rs' := RemoveAt(rs, k);
    forall n | n in WithoutAttendance(ns, rs[k].id) ensures HasRecord(rs', n.attendanceId) {
      var i :| 0 <= i < |rs| && rs[i].id == n.attendanceId;
      assert i != k;
      var i' := if i < k then i else i - 1;
      assert rs'[i'] == rs[i];
    }
  }

  /** New notifications that all point at an existing record keep every notification anchored. */
  lemma AppendKeepsNoOrphans(ns: seq<Notification>, extra: seq<Notification>, rs: seq<AttendanceRecord>, attendanceId: Id)
    requires NoOrphans(ns, rs) && HasRecord(rs, attendanceId)
    requires forall n :: n in extra ==> n.attendanceId == attendanceId
    ensures NoOrphans(ns + extra, rs)
  {
  }

  /**
   * The end of `DELETE /attendance/:id` as written: the record is deleted,
   * then `Notification.deleteMany` throws a ReferenceError because the
   * name is unbound, so the handler answers 400 with the notifications kept.
   */
  function DeleteCascadeAsWritten(ns: seq<Notification>, rs: seq<AttendanceRecord>, k: nat): (o: (Outcome<()>, seq<AttendanceRecord>, seq<Notification>))
    requires k < |rs|
    ensures o.0 == BadRequest("Notification is not defined")
    ensures o.1 == RemoveAt(rs, k) && o.2 == ns
  {
    (BadRequest("Notification is not defined"), RemoveAt(rs, k), ns)
  }

  /** As written, a deleted record's notifications are left pointing at nothing. */
  lemma DeleteAsWrittenLeavesOrphans(ns: seq<Notification>, rs: seq<AttendanceRecord>, k: nat, next: nat, n: Notification)
    requires RecordIdsValid(rs, next) && k < |rs| && n in ns && n.attendanceId == rs[k].id
    ensures var o := DeleteCascadeAsWritten(ns, rs, k); !o.0.Ok? && !NoOrphans(o.2, o.1)
  {
    RemoveKeepsRecordIds(rs, k, next);
  }

  // -------------------------------------------------------------- listing

  /** The query string of `GET /attendance`; an absent or empty parameter is `None`. */
  datatype AttendanceQuery = AttendanceQuery(
    studentId: Option<Id>, classId: Option<Id>, sectionId: Option<Id>,
    startDate: Option<int>, endDate: Option<int>)

  /** A child id that names an existing user; `populate` drops the others. */
  predicate IsExistingChild(users: seq<User>, parent: User, childId: Id) {
    childId in parent.children && exists u :: u in users && u.id == childId
  }

  predicate HasExistingChild(users: seq<User>, parent: User) {
    exists c :: c in parent.children && IsExistingChild(users, parent, c)
  }

  /** A student whose current class is one of the teacher's active classes. */
  predicate IsTaughtStudent(users: seq<User>, classes: seq<Class>, teacherId: Id, studentId: Id) {
    exists u :: u in users && u.id == studentId && u.role == Student
      && TeachesClass(classes, teacherId, u.studentDetails.currentClassId)
  }

  /** The students whose records a role sees when no student is named. */
  predicate InRoleScope(users: seq<User>, classes: seq<Class>, caller: User, studentId: Id) {
    match caller.role
    case Parent => IsExistingChild(users, caller, studentId)
    case Student => studentId == caller.id
    case Teacher => IsTaughtStudent(users, classes, caller.id, studentId)
    case _ => true
  }

  /** Both ends of the date range are inclusive; a missing end is unbounded. */
  predicate InDateRange(d: int, startDate: Option<int>, endDate: Option<int>) {
    (startDate.Some? ==> startDate.value <= d) && (endDate.Some? ==> d <= endDate.value)
  }

  /** The Mongo filter the handler builds, as a predicate on one record. */
  predicate Matches(users: seq<User>, classes: seq<Class>, caller: User, q: AttendanceQuery, r: AttendanceRecord) {
    && Some(r.organizationId) == caller.organizationId
    && (if q.studentId.Some? then r.studentId == q.studentId.value
        else InRoleScope(users, classes, caller, r.studentId))
    && (q.classId.Some? ==> r.classId == q.classId)
    && (q.sectionId.Some? ==> r.sectionId == q.sectionId)
    && InDateRange(r.date, q.startDate, q.endDate)
  }

  function Selected(rs: seq<AttendanceRecord>, users: seq<User>, classes: seq<Class>, caller: User, q: AttendanceQuery): (r: seq<AttendanceRecord>)
    ensures forall x :: x in r <==> x in rs && Matches(users, classes, caller, q, x)
  {
    Filter(rs, (x: AttendanceRecord) => Matches(users, classes, caller, q, x))
  }

  /** Sort key for `.sort({date: -1})`. */
  function DateDesc(r: AttendanceRecord): int {
    -r.date
  }

  /** A parent with no existing child, or a teacher with no active class, gets an empty list outright. */
  predicate NothingToShow(users: seq<User>, classes: seq<Class>, caller: User) {
    || (caller.role == Parent && !HasExistingChild(users, caller))
    || (caller.role == Teacher && |ActiveClassesOf(classes, caller.id)| == 0)
  }

  /** Why a caller may not name `studentId`, checked in the order the handler checks. */
  function StudentDenial(users: seq<User>, classes: seq<Class>, caller: User, studentId: Id): (r: Option<Outcome<seq<AttendanceRecord>>>)
    ensures r.None? <==>
      match caller.role
      case Teacher =>
        var s := UserById(users, studentId);
        s.Some? && s.value.role == Student && TeachesClass(classes, caller.id, s.value.studentDetails.currentClassId)
      case Parent => IsExistingChild(users, caller, studentId)
      case Student => studentId == caller.id
      case _ => true
    ensures r.Some? ==> r.value.BadRequest? || r.value.Forbidden?
    ensures r.Some? && r.value.BadRequest? <==>
      caller.role == Teacher && (UserById(users, studentId).None? || UserById(users, studentId).value.role != Student)
  {
    match caller.role
    case Teacher =>
      var s := UserById(users, studentId);
      if s.None? || s.value.role != Student then Some(BadRequest("Invalid student"))
      else if !TeachesClass(classes, caller.id, s.value.studentDetails.currentClassId) then
        Some(Forbidden("Student not in your class"))
      else None
    case Parent => if IsExistingChild(users, caller, studentId) then None else Some(Forbidden("Not your child"))
    case Student => if studentId == caller.id then None else Some(Forbidden("Forbidden"))
    case _ => None
  }

  /**
   * `GET /attendance`: the records the caller may see that match the
   * query, newest first.
   */
  function ListAttendance(rs: seq<AttendanceRecord>, users: seq<User>, classes: seq<Class>, caller: User, q: AttendanceQuery): (r: Outcome<seq<AttendanceRecord>>)
    ensures r.Ok? || r.BadRequest? || r.Forbidden?
    ensures NothingToShow(users, classes, caller) ==> r == Ok([])
    ensures !NothingToShow(users, classes, caller) && q.studentId.Some? ==>
      (r.Ok? <==> StudentDenial(users, classes, caller, q.studentId.value).None?)
    ensures !NothingToShow(users, classes, caller) && q.studentId.None? ==> r.Ok?
    ensures r.Ok? && !NothingToShow(users, classes, caller) ==>
      && SortedBy(r.value, DateDesc)
      && multiset(r.value) == multiset(Selected(rs, users, classes, caller, q))
  {
    if NothingToShow(users, classes, caller) then Ok([])
    else
      var denial := if q.studentId.Some? then StudentDenial(users, classes, caller, q.studentId.value) else None;
      if denial.Some? then denial.value
      else Ok(SortBy(Selected(rs, users, classes, caller, q), DateDesc))
  }

  /**
   * What a caller sees is theirs to see: every listed record is in the
   * caller's organization, and belongs to one of a parent's children, to
   * the student themself, or to a student of one of the teacher's active
   * classes — also when a student was named explicitly.
   */
  lemma {:induction false} ListedRecordsAreVisible(rs: seq<AttendanceRecord>, users: seq<User>, classes: seq<Class>, caller: User, q: AttendanceQuery, x: AttendanceRecord)
    requires ListAttendance(rs, users, classes, caller, q).Ok?
    requires x in ListAttendance(rs, users, classes, caller, q).value
    ensures x in rs && Some(x.organizationId) == caller.organizationId
    ensures InRoleScope(users, classes, caller, x.studentId)
    ensures q.studentId.Some? ==> x.studentId == q.studentId.value
    ensures InDateRange(x.date, q.startDate, q.endDate)
  {
    var out := ListAttendance(rs, users, classes, caller, q).value;
    assert !NothingToShow(users, classes, caller);
    assert x in multiset(out);
    assert x in Selected(rs, users, classes, caller, q);
    if q.studentId.Some? {
      assert StudentDenial(users, classes, caller, q.studentId.value).None?;
    }
  }

  /** Nothing the caller may see is missing: a matching record is listed once the checks pass. */
  lemma {:induction false} MatchingRecordsAreListed(rs: seq<AttendanceRecord>, users: seq<User>, classes: seq<Class>, caller: User, q: AttendanceQuery, x: AttendanceRecord)
    requires !NothingToShow(users, classes, caller)
    requires q.studentId.Some? ==> StudentDenial(users, classes, caller, q.studentId.value).None?
    requires x in rs && Matches(users, classes, caller, q, x)
    ensures ListAttendance(rs, users, classes, caller, q).Ok?
    ensures x in ListAttendance(rs, users, classes, caller, q).value
  {
    var sel := Selected(rs, users, classes, caller, q);
    assert x in multiset(sel);
  }
}
