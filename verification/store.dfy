/**
 * The in-memory store that stands in for the MongoDB collections, with
 * the invariants every handler keeps: ids are distinct and below the
 * allocation counter, at most one attendance record per student per local
 * day, and no notification outlives the record it refers to.
 */
module Store {
  import opened Wrappers
  import opened Domain
  import opened Query
  import opened Time

  ghost predicate UserIdsValid(us: seq<User>, next: nat) {
    && (forall i :: 0 <= i < |us| ==> us[i].id < next)
    && DistinctUserIds(us)
  }

  /** No two users share an id. */
  ghost predicate DistinctUserIds(us: seq<User>) {
    forall i, j :: 0 <= i < j < |us| ==> us[i].id != us[j].id
  }

  /** The unique index on `email`: no two users share one. */
  ghost predicate UniqueEmails(us: seq<User>) {
    forall i, j :: 0 <= i < j < |us| ==> us[i].email != us[j].email
  }

  /**
   * The unique index on an organization's `slug`.  The index is not
   * sparse, so an absent slug is indexed as null and two organizations
   * without one collide as well.
   */
  ghost predicate UniqueSlugs(os: seq<Organization>) {
    forall i, j :: 0 <= i < j < |os| ==> os[i].slug != os[j].slug
  }

  /** `User.findById(id)`: the first user with this id. */
  function UserById(us: seq<User>, id: Id): (r: Option<User>)
    ensures r.Some? ==> r.value in us && r.value.id == id
    ensures r.None? <==> forall u :: u in us ==> u.id != id
    ensures r.Some? ==> r.value == us[UserIndex(us, id)]
  {
    var k := UserIndex(us, id);
    if k < 0 then None else Some(us[k])
  }

  /** Index of the first user with this id, or -1. */
  function UserIndex(us: seq<User>, id: Id): (k: int)
    ensures -1 <= k < |us|
    ensures k >= 0 ==> us[k].id == id
    ensures k == -1 <==> forall j :: 0 <= j < |us| ==> us[j].id != id
  {
    FindFirst(us, (u: User) => u.id == id)
  }

  /** Index of the first record with this id (`Attendance.findById`), or -1. */
  function RecordIndex(rs: seq<AttendanceRecord>, id: Id): (k: int)
    ensures -1 <= k < |rs|
    ensures k >= 0 ==> rs[k].id == id
    ensures k == -1 <==> !HasRecord(rs, id)
  {
    FindFirst(rs, (r: AttendanceRecord) => r.id == id)
  }

  ghost predicate RecordIdsValid(rs: seq<AttendanceRecord>, next: nat) {
    && (forall i :: 0 <= i < |rs| ==> rs[i].id < next)
    && (forall i, j :: 0 <= i < j < |rs| ==> rs[i].id != rs[j].id)
  }

  predicate HasRecord(rs: seq<AttendanceRecord>, id: Id) {
    exists i :: 0 <= i < |rs| && rs[i].id == id
  }

  /** Every notification refers to an attendance record that exists. */
  ghost predicate NoOrphans(ns: seq<Notification>, rs: seq<AttendanceRecord>) {
    forall n :: n in ns ==> HasRecord(rs, n.attendanceId)
  }

  /** No two records of one student fall on the same local day. */
  ghost predicate OnePerStudentDay(rs: seq<AttendanceRecord>, offset: int) {
    forall i, j :: 0 <= i < j < |rs| && rs[i].studentId == rs[j].studentId ==>
      MidnightOf(rs[i].date, offset) != MidnightOf(rs[j].date, offset)
  }

  class Db {
    var users: seq<User>
    var organizations: seq<Organization>
    var classes: seq<Class>
    var sections: seq<Section>
    var records: seq<AttendanceRecord>
    var scanLogs: seq<ScanLog>
    var notifications: seq<Notification>
    var holidays: seq<HolidayEvent>
    var outbox: seq<Emit>      // realtime emits, in the order they were sent
    var nextId: nat            // the next unused identifier
    const tzOffset: int        // the server's local zone, ms ahead of UTC

    ghost predicate Valid()
      reads this
    {
      && UserIdsValid(users, nextId)
      && UniqueEmails(users)
      && UniqueSlugs(organizations)
      && RecordIdsValid(records, nextId)
      && OnePerStudentDay(records, tzOffset)
      && NoOrphans(notifications, records)
    }

    constructor (tzOffset: int)
      ensures Valid() && this.tzOffset == tzOffset && nextId == 0
      ensures users == [] && organizations == [] && classes == [] && sections == []
      ensures records == [] && scanLogs == [] && notifications == [] && holidays == [] && outbox == []
    {
      this.tzOffset := tzOffset;
      users, organizations, classes, sections := [], [], [], [];
      records, scanLogs, notifications, holidays, outbox := [], [], [], [], [];
      nextId := 0;
    }

    /** A fresh identifier, as Mongo assigns `_id` on insert. */
    method FreshId() returns (id: Id)
      modifies this`nextId
      ensures id == old(nextId) && nextId == id + 1
    {
      id := nextId;
      nextId := nextId + 1;
    }
  }

  lemma HasRecordAppend(rs: seq<AttendanceRecord>, x: AttendanceRecord, id: Id)
    requires HasRecord(rs, id) || x.id == id
    ensures HasRecord(rs + [x], id)
  {
    if HasRecord(rs, id) {
      var i :| 0 <= i < |rs| && rs[i].id == id;
      assert (rs + [x])[i] == rs[i];
    } else {
      assert (rs + [x])[|rs|] == x;
    }
  }

  lemma HasRecordUpdate(rs: seq<AttendanceRecord>, k: nat, x: AttendanceRecord, id: Id)
    requires k < |rs| && x.id == rs[k].id && HasRecord(rs, id)
    ensures HasRecord(rs[k := x], id)
  {
    var i :| 0 <= i < |rs| && rs[i].id == id;
    assert rs[k := x][i].id == id;
  }

  lemma NoOrphansAppend(ns: seq<Notification>, rs: seq<AttendanceRecord>, x: AttendanceRecord)
    requires NoOrphans(ns, rs)
    ensures NoOrphans(ns, rs + [x])
  {
    forall n | n in ns ensures HasRecord(rs + [x], n.attendanceId) {
      HasRecordAppend(rs, x, n.attendanceId);
    }
  }

  lemma NoOrphansUpdate(ns: seq<Notification>, rs: seq<AttendanceRecord>, k: nat, x: AttendanceRecord)
    requires NoOrphans(ns, rs) && k < |rs| && x.id == rs[k].id
    ensures NoOrphans(ns, rs[k := x])
  {
    forall n | n in ns ensures HasRecord(rs[k := x], n.attendanceId) {
      HasRecordUpdate(rs, k, x, n.attendanceId);
    }
  }
}
