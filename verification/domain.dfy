/**
 * The stored entities of the attendance service and the outcomes of its
 * HTTP handlers.  Identifiers are natural numbers, timestamps integer
 * milliseconds, and a field the schema leaves optional is an `Option`.
 */
module Domain {
  import opened Wrappers

  type Id = nat

  /** The five account roles of backend/models/User.js. */
  datatype Role = SuperAdmin | Admin | Teacher | Student | Parent

  datatype StudentDetails = StudentDetails(currentClassId: Option<Id>, currentSectionId: Option<Id>)

  /** A proximity card; its own `isActive` flag is stored but no handler reads it. */
  datatype RfidCard = RfidCard(uid: string, isActive: bool)

  datatype User = User(
    id: Id,
    organizationId: Option<Id>,
    email: string,
    firstName: string,
    lastName: string,
    role: Role,
    studentDetails: StudentDetails,
    children: seq<Id>,          // parentDetails.children
    rfidCard: Option<RfidCard>,
    isActive: bool,
    updatedAt: Option<int>)

  datatype Organization = Organization(id: Id, name: string, slug: Option<string>, isActive: bool, updatedAt: Option<int>)

  datatype ClassStatus = ClassActive | Completed | Cancelled | Archived

  /** An entry of a class's `teachers` array; as a subdocument it has an id of its own. */
  datatype TeacherEntry = TeacherEntry(id: Id, teacherId: Id, isPrimary: Option<bool>)

  datatype Class = Class(
    id: Id,
    organizationId: Id,
    name: string,
    code: Option<string>,
    teachers: seq<TeacherEntry>,
    status: ClassStatus,
    updatedAt: Option<int>)

  datatype SectionStatus = SectionActive | SectionCompleted | SectionCancelled

  datatype Section = Section(id: Id, organizationId: Id, classId: Id, name: string, students: seq<Id>, status: SectionStatus)

  /** The attendance status enum of backend/models/Attendance.js. */
  datatype Status = Present | Absent | Late | Excused

  datatype AttendanceRecord = AttendanceRecord(
    id: Id,
    organizationId: Id,
    studentId: Id,
    classId: Option<Id>,
    sectionId: Option<Id>,
    date: int,
    status: Status,
    entryTime: Option<int>,
    exitTime: Option<int>,
    totalTimePresent: Option<int>,   // minutes
    markedBy: Option<Id>,
    remarks: Option<string>,
    updatedAt: Option<int>)

  datatype ScanType = Entry | Exit

  datatype ScanStatus = Success | Failed | UnknownCard

  datatype ScanLog = ScanLog(
    organizationId: Option<Id>,
    rfidUid: string,
    userId: Option<Id>,
    location: string,
    scanType: Option<ScanType>,
    status: ScanStatus,
    timestamp: int)

  datatype Notification = Notification(
    id: Id,
    parentId: Id,
    studentId: Id,
    attendanceId: Id,
    message: string,
    isRead: bool,
    createdAt: int)

  /** The body of an `attendanceUpdate` realtime event. */
  datatype AttendanceUpdate = AttendanceUpdate(
    studentId: Id,
    studentName: string,
    status: Status,
    time: int,
    entryTime: Option<int>,
    exitTime: Option<int>,
    markedBy: Option<string>,
    remarks: Option<string>)

  /** One realtime emit: the room is the receiving user's id. */
  datatype Emit = Emit(room: Id, event: string, payload: AttendanceUpdate)

  datatype HolidayType = Holiday | Event | ExamPeriod

  datatype HolidayEvent = HolidayEvent(
    id: Id,
    organizationId: Id,
    name: string,
    description: Option<string>,
    kind: HolidayType,
    startDate: int,
    endDate: int,
    isSchoolClosed: bool)

  /** An HTTP response: 200, 201, 400, 401, 403 or 404 with its error text. */
  datatype Outcome<+T> =
    | Ok(value: T)
    | Created(value: T)
    | BadRequest(error: string)
    | Unauthorized
    | Forbidden(error: string)
    | NotFound(error: string)

  /** The leading words of the message a failed schema validation carries. */
  const AttendanceInvalid: string := "Attendance validation failed"
  const ScanLogInvalid: string := "RFIDScanLog validation failed"

  /** The text error.message carries when a handler dereferences a missing value. */
  const ReadOfUndefined: string := "Cannot read properties of undefined (reading 'equals')"

  function StatusName(s: Status): string {
    match s
    case Present => "present"
    case Absent => "absent"
    case Late => "late"
    case Excused => "excused"
  }

  /** The schema's enum check: a body string is a status only if it names one. */
  function ParseStatus(s: string): (r: Option<Status>)
    ensures r.Some? ==> StatusName(r.value) == s
    ensures r.None? <==> forall st: Status :: StatusName(st) != s
  {
    if s == "present" then Some(Present)
    else if s == "absent" then Some(Absent)
    else if s == "late" then Some(Late)
    else if s == "excused" then Some(Excused)
    else None
  }

  function RoleName(r: Role): string {
    match r
    case SuperAdmin => "superAdmin"
    case Admin => "admin"
    case Teacher => "teacher"
    case Student => "student"
    case Parent => "parent"
  }

  /** The schema's enum check on `role`. */
  function ParseRole(s: string): (r: Option<Role>)
    ensures r.Some? ==> RoleName(r.value) == s
    ensures r.None? <==> forall ro: Role :: RoleName(ro) != s
  {
    if s == "superAdmin" then Some(SuperAdmin)
    else if s == "admin" then Some(Admin)
    else if s == "teacher" then Some(Teacher)
    else if s == "student" then Some(Student)
    else if s == "parent" then Some(Parent)
    else None
  }

  function HolidayTypeName(t: HolidayType): string {
    match t
    case Holiday => "holiday"
    case Event => "event"
    case ExamPeriod => "exam_period"
  }

  /** JavaScript truthiness of an optional body string: present and non-empty. */
  predicate Truthy(s: Option<string>) {
    s.Some? && s.value != ""
  }
}
