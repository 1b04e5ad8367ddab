/**
 * The state-changing handlers of backend/routes/attendance.js over the
 * store: the RFID scan, the manual mark, the correction and the deletion,
 * each with the parent fan-out it triggers.
 */
module Attendance {
  import opened Wrappers
  import opened Domain
  import opened Query
  import opened Time
  import opened Store
  import opened AttendanceCore
  import opened Auth

  /** Body of `POST /attendance/rfid`. */
  datatype ScanBody = ScanBody(rfidUid: string, location: string, scanType: Option<string>)

  /** Body of `POST /attendance/manual`; `date` is the instant the client's date string names. */
  datatype ManualBody = ManualBody(studentId: Id, date: Option<int>, status: Option<string>, remarks: Option<string>)

  /** Body of `PATCH /attendance/:id`. */
  datatype PatchBody = PatchBody(status: Option<string>, remarks: Option<string>)

  /** The update a scan pushes to each parent's room. */
  function ScanUpdate(student: User, rec: AttendanceRecord, now: int): AttendanceUpdate {
    AttendanceUpdate(student.id, FullName(student), rec.status, now, rec.entryTime, rec.exitTime, None, None)
  }

  /** The update a manual mark pushes: it names the marker and carries the remarks. */
  function MarkUpdate(student: User, marker: User, rec: AttendanceRecord, now: int): AttendanceUpdate {
    AttendanceUpdate(student.id, FullName(student), rec.status, now, None, None, Some(FullName(marker)), rec.remarks)
  }

  /**
   * One unread notification per parent, then one emit per parent, all
   * about the record `attendanceId`.
   */
  method FanOut(db: Db, parents: seq<User>, studentId: Id, attendanceId: Id, message: string, payload: AttendanceUpdate, now: int)
    requires db.Valid() && HasRecord(db.records, attendanceId)
    modifies db`notifications, db`outbox, db`nextId
    ensures db.Valid()
    ensures db.notifications == old(db.notifications) + NotificationsFor(parents, studentId, attendanceId, message, old(db.nextId), now)
    ensures db.outbox == old(db.outbox) + EmitsFor(parents, payload)
    ensures db.nextId == old(db.nextId) + |parents|
  {
    var first := db.nextId;
    var i := 0;
    while i < |parents|
      invariant 0 <= i <= |parents|
      invariant db.nextId == first + i
      invariant db.notifications == old(db.notifications) + NotificationsFor(parents[..i], studentId, attendanceId, message, first, now)
      invariant db.outbox == old(db.outbox)
      invariant db.Valid()
    {
      var id := db.FreshId();
      var n := Notification(id, parents[i].id, studentId, attendanceId, message, false, now);
      assert NotificationsFor(parents[..i + 1], studentId, attendanceId, message, first, now)
          == NotificationsFor(parents[..i], studentId, attendanceId, message, first, now) + [n];
      db.notifications := db.notifications + [n];
      i := i + 1;
    }
    assert parents[..i] == parents;
    i := 0;
    while i < |parents|
      invariant 0 <= i <= |parents|
      invariant db.outbox == old(db.outbox) + EmitsFor(parents[..i], payload)
      invariant db.nextId == first + |parents|
      invariant db.notifications == old(db.notifications) + NotificationsFor(parents, studentId, attendanceId, message, first, now)
      invariant db.Valid()
    {
      var e := Emit(parents[i].id, UpdateEvent, payload);
      assert EmitsFor(parents[..i + 1], payload) == EmitsFor(parents[..i], payload) + [e];
      db.outbox := db.outbox + [e];
      i := i + 1;
    }
    assert parents[..i] == parents;
  }

  /**
   * What the store receives when a mark concerns `student`: a student's
   * active parents each get a notification, numbered from `first`, and an
   * emit; anyone else's mark tells nobody.
   */
  function Tell(users: seq<User>, student: User, rec: AttendanceRecord, payload: AttendanceUpdate, first: nat, now: int): (t: (seq<Notification>, seq<Emit>))
    ensures |t.0| == |t.1|
    ensures student.role != Student ==> t == ([], [])
    ensures student.role == Student ==>
      t.0 == NotificationsFor(ActiveParents(users, student.id), student.id, rec.id, StatusMessage(rec.status, student), first, now)
      && t.1 == EmitsFor(ActiveParents(users, student.id), payload)
  {
    if student.role == Student then
      var ps := ActiveParents(users, student.id);
      (NotificationsFor(ps, student.id, rec.id, StatusMessage(rec.status, student), first, now), EmitsFor(ps, payload))
    else ([], [])
  }

  method Notify(db: Db, student: User, rec: AttendanceRecord, payload: AttendanceUpdate, now: int)
    requires db.Valid() && HasRecord(db.records, rec.id)
    modifies db`notifications, db`outbox, db`nextId
    ensures db.Valid()
    ensures
      var t := Tell(db.users, student, rec, payload, old(db.nextId), now);
      && db.notifications == old(db.notifications) + t.0
      && db.outbox == old(db.outbox) + t.1
      && db.nextId == old(db.nextId) + |t.0|
  {
    if student.role == Student {
      FanOut(db, ActiveParents(db.users, student.id), student.id, rec.id, StatusMessage(rec.status, student), payload, now);
    }
  }

  /** Applies `ScanLanding` to the store, taking a fresh id when a record is created. */
  method LandScan(db: Db, u: User, st: Option<ScanType>, now: int) returns (r: Outcome<AttendanceRecord>)
    requires db.Valid()
    modifies db`records, db`nextId
    ensures db.Valid()
    ensures (r, db.records) == ScanLanding(old(db.records), u, st, now, db.tzOffset, old(db.nextId))
    ensures db.nextId == if |db.records| > |old(db.records)| then old(db.nextId) + 1 else old(db.nextId)
    ensures r.Ok? ==> HasRecord(db.records, r.value.id)
  {
    ScanLandingKeepsInvariants(db.records, db.notifications, u, st, now, db.tzOffset, db.nextId);
    var o := ScanLanding(db.records, u, st, now, db.tzOffset, db.nextId);
    if |o.1| > |db.records| {
      var _ := db.FreshId();
    }
    r, db.records := o.0, o.1;
  }

  /**
   * `POST /attendance/rfid` (no token).  Every scan with a uid and a
   * valid kind is logged; a known card then lands on the student's record
   * of the day and a student's active parents are told.
   */
  method Rfid(db: Db, body: ScanBody, now: int) returns (r: Outcome<AttendanceRecord>)
    requires db.Valid()
    modifies db`scanLogs, db`records, db`nextId, db`notifications, db`outbox
    ensures db.Valid()
    ensures !ScanLogAccepted(body.rfidUid, body.scanType) ==>
      r == BadRequest(ScanLogInvalid) && unchanged(db)
    ensures ScanLogAccepted(body.rfidUid, body.scanType) ==>
      db.scanLogs == old(db.scanLogs) + [ScanLogFor(CardHolder(db.users, body.rfidUid), body.rfidUid, body.location, ScanTypeOf(body.scanType), now)]
    ensures ScanLogAccepted(body.rfidUid, body.scanType) && CardHolder(db.users, body.rfidUid).None? ==>
      && r == NotFound("RFID card not recognized")
      && unchanged(db`records, db`nextId, db`notifications, db`outbox)
    ensures ScanLogAccepted(body.rfidUid, body.scanType) && CardHolder(db.users, body.rfidUid).Some? ==>
      var u := CardHolder(db.users, body.rfidUid).value;
      var o := ScanLanding(old(db.records), u, ScanTypeOf(body.scanType), now, db.tzOffset, old(db.nextId));
      var first := if |o.1| > |old(db.records)| then old(db.nextId) + 1 else old(db.nextId);
      && r == o.0 && db.records == o.1
      && (r.Ok? ==>
            var t := Tell(db.users, u, r.value, ScanUpdate(u, r.value, now), first, now);
            db.notifications == old(db.notifications) + t.0 && db.outbox == old(db.outbox) + t.1
            && db.nextId == first + |t.0|)
      && (r.BadRequest? ==> unchanged(db`notifications, db`outbox, db`nextId))
  {
    if !ScanLogAccepted(body.rfidUid, body.scanType) {
      return BadRequest(ScanLogInvalid);
    }
    var st := ScanTypeOf(body.scanType);
    var holder := CardHolder(db.users, body.rfidUid);
    db.scanLogs := db.scanLogs + [ScanLogFor(holder, body.rfidUid, body.location, st, now)];
    if holder.None? {
      return NotFound("RFID card not recognized");
    }
    var u := holder.value;
    r := LandScan(db, u, st, now);
    if r.Ok? {
      Notify(db, u, r.value, ScanUpdate(u, r.value, now), now);
    }
  }

  /** Applies `MarkLanding` at the local midnight of `t`, taking a fresh id when a record is created. */
  method LandMark(db: Db, organizationId: Id, marker: Id, studentId: Id, t: int, status: Status, remarks: Option<string>, now: int) returns (rec: AttendanceRecord)
    requires db.Valid()
    modifies db`records, db`nextId
    ensures db.Valid()
    ensures (rec, db.records) == MarkLanding(old(db.records), db.users, organizationId, marker, studentId, MidnightOf(t, db.tzOffset), status, remarks, now, old(db.nextId))
    ensures db.nextId == if |db.records| > |old(db.records)| then old(db.nextId) + 1 else old(db.nextId)
    ensures HasRecord(db.records, rec.id) && rec.studentId == studentId
  {
    MarkLandingKeepsInvariants(db.records, db.notifications, db.users, organizationId, marker, studentId, t, status, remarks, now, db.tzOffset, db.nextId);
    var o := MarkLanding(db.records, db.users, organizationId, marker, studentId, MidnightOf(t, db.tzOffset), status, remarks, now, db.nextId);
    if |o.1| > |db.records| {
      var _ := db.FreshId();
    }
    rec, db.records := o.0, o.1;
  }

  /**
   * `POST /attendance/manual`, for teachers and admins.  The mark lands on
   * the student's record of the given day (today by default), and the
   * parents of an existing student are told.
   */
  method Manual(db: Db, caller: User, body: ManualBody, now: int) returns (r: Outcome<AttendanceRecord>)
    requires db.Valid() && Admitted(caller, [Teacher, Admin])
    modifies db`records, db`nextId, db`notifications, db`outbox
    ensures db.Valid()
    ensures MarkDenial(db.users, db.classes, caller, body.studentId, body.status).Some? ==>
      && r == MarkDenial(db.users, db.classes, caller, body.studentId, body.status).value
      && unchanged(db`records, db`nextId, db`notifications, db`outbox)
    ensures MarkDenial(db.users, db.classes, caller, body.studentId, body.status).None? ==>
      var o := MarkLanding(old(db.records), db.users, caller.organizationId.value, caller.id, body.studentId,
        MidnightOf(body.date.GetOr(now), db.tzOffset), MarkedStatus(body.status).value, body.remarks, now, old(db.nextId));
      var first := if |o.1| > |old(db.records)| then old(db.nextId) + 1 else old(db.nextId);
      var student := UserById(db.users, body.studentId);
      && r == Ok(o.0) && db.records == o.1
      && (student.Some? ==>
            var t := Tell(db.users, student.value, o.0, MarkUpdate(student.value, caller, o.0, now), first, now);
            db.notifications == old(db.notifications) + t.0 && db.outbox == old(db.outbox) + t.1
            && db.nextId == first + |t.0|)
      && (student.None? ==> db.notifications == old(db.notifications) && db.outbox == old(db.outbox) && db.nextId == first)
  {
    var denial := MarkDenial(db.users, db.classes, caller, body.studentId, body.status);
    if denial.Some? {
      return denial.value;
    }
    var status := MarkedStatus(body.status).value;
    var rec := LandMark(db, caller.organizationId.value, caller.id, body.studentId, body.date.GetOr(now), status, body.remarks, now);
    var student := UserById(db.users, body.studentId);
    if student.Some? {
      Notify(db, student.value, rec, MarkUpdate(student.value, caller, rec, now), now);
    }
    r := Ok(rec);
  }

  /**
   * `PATCH /attendance/:id`, for teachers and admins: a non-empty status
   * or remark replaces the stored one, and the marker and time are
   * always stamped.
   */
  method Patch(db: Db, caller: User, id: Id, body: PatchBody, now: int) returns (r: Outcome<AttendanceRecord>)
    requires db.Valid() && Admitted(caller, [Teacher, Admin])
    modifies db`records
    ensures db.Valid()
    ensures RecordIndex(old(db.records), id) < 0 ==>
      r == NotFound("Attendance record not found") && db.records == old(db.records)
    ensures RecordIndex(old(db.records), id) >= 0 ==>
      var k := RecordIndex(old(db.records), id);
      var rec := old(db.records)[k];
      && (!MayTouch(db.classes, caller, rec) ==> r == TouchDenial(db.classes, caller, rec).value && db.records == old(db.records))
      && (MayTouch(db.classes, caller, rec) && Truthy(body.status) && ParseStatus(body.status.value).None? ==>
            r == BadRequest(AttendanceInvalid) && db.records == old(db.records))
      && (MayTouch(db.classes, caller, rec) && !(Truthy(body.status) && ParseStatus(body.status.value).None?) ==>
            var status := if Truthy(body.status) then ParseStatus(body.status.value) else None;
            db.records == old(db.records)[k := PatchRecord(rec, status, body.remarks, caller.id, now)]
            && r == Ok(db.records[k]))
  {
    var k := RecordIndex(db.records, id);
    if k < 0 {
      return NotFound("Attendance record not found");
    }
    var rec := db.records[k];
    var denial := TouchDenial(db.classes, caller, rec);
    if denial.Some? {
      return denial.value;
    }
    if Truthy(body.status) && ParseStatus(body.status.value).None? {
      return BadRequest(AttendanceInvalid);
    }
    var status := if Truthy(body.status) then ParseStatus(body.status.value) else None;
    var rec' := PatchRecord(rec, status, body.remarks, caller.id, now);
    UpdateKeepsOnePerDay(db.records, k, rec', db.tzOffset);
    NoOrphansUpdate(db.notifications, db.records, k, rec');
    db.records := db.records[k := rec'];
    r := Ok(rec');
  }

  /**
   * `DELETE /attendance/:id`, for super admins, admins and teachers: the
   * record goes, and with it every notification that points at it.
   */
  method Delete(db: Db, caller: User, id: Id) returns (r: Outcome<()>)
    requires db.Valid() && Admitted(caller, [SuperAdmin, Admin, Teacher])
    modifies db`records, db`notifications
    ensures db.Valid()
    ensures RecordIndex(old(db.records), id) < 0 ==>
      r == NotFound("Attendance record not found") && unchanged(db`records, db`notifications)
    ensures RecordIndex(old(db.records), id) >= 0 ==>
      var k := RecordIndex(old(db.records), id);
      && (!MayTouch(db.classes, caller, old(db.records)[k]) ==>
            r == TouchDenial(db.classes, caller, old(db.records)[k]).value && unchanged(db`records, db`notifications))
      && (MayTouch(db.classes, caller, old(db.records)[k]) ==>
            && r == Ok(())
            && db.records == RemoveAt(old(db.records), k)
            && db.notifications == WithoutAttendance(old(db.notifications), id))
    ensures r.Ok? ==> !HasRecord(db.records, id) && forall n :: n in db.notifications ==> n.attendanceId != id
  {
    var k := RecordIndex(db.records, id);
    if k < 0 {
      return NotFound("Attendance record not found");
    }
    var denial := TouchDenial(db.classes, caller, db.records[k]);
    if denial.Some? {
      return denial.value;
    }
    RemoveKeepsOnePerDay(db.records, k, db.tzOffset);
    RemoveKeepsRecordIds(db.records, k, db.nextId);
    CascadeLeavesNoOrphans(db.notifications, db.records, k, db.nextId);
    db.records := RemoveAt(db.records, k);
    db.notifications := WithoutAttendance(db.notifications, id);
    r := Ok(());
  }
}
