/** The records the dashboard passes around (project/types/index.ts), plus the
    department list that the faculty, subjects and timetable pages each declare. */
module Types {
  import opened Wrappers

  datatype Role = Student | Teacher | Admin

  function RoleName(r: Role): string {
    match r
    case Student => "student"
    case Teacher => "teacher"
    case Admin => "admin"
  }

  /** A signed-in user; each role carries its own extra fields. A missing
      optional string is the empty string. */
  datatype User =
    | StudentUser(id: string, name: string, email: string, avatar: string,
                  studentId: string, stream: string, year: nat, semester: nat, phone: string)
    | TeacherUser(id: string, name: string, email: string, avatar: string,
                  teacherId: string, subjects: seq<string>, department: string)
    | AdminUser(id: string, name: string, email: string, avatar: string,
                adminId: string, permissions: seq<string>)
  {
    function Role(): Role {
      match this
      case StudentUser(_, _, _, _, _, _, _, _, _) => Student
      case TeacherUser(_, _, _, _, _, _, _) => Teacher
      case AdminUser(_, _, _, _, _, _) => Admin
    }
  }

  datatype Subject = Subject(id: string, name: string, code: string, credits: int,
                             hoursPerWeek: int, teacher: string, department: string)

  datatype TimeSlot = TimeSlot(id: string, day: string, period: int, startTime: string, endTime: string,
                               subject: Option<Subject>, teacher: Option<string>, room: Option<string>,
                               isBreak: bool, isLunch: bool)

  datatype Timetable = Timetable(id: string, branch: string, semester: nat, stream: string,
                                 periodsPerDay: nat, lunchPeriod: int, timeSlots: seq<TimeSlot>,
                                 createdAt: string, lastModified: string)

  datatype RequestType = Leave | SpecialClass

  datatype RequestStatus = Pending | Approved | Rejected

  function StatusName(s: RequestStatus): string {
    match s
    case Pending => "pending"
    case Approved => "approved"
    case Rejected => "rejected"
  }

  datatype FacultyRequest = FacultyRequest(id: string, teacherId: string, teacherName: string,
                                           requestType: RequestType, date: string, reason: string,
                                           status: RequestStatus, submittedAt: string,
                                           affectedClasses: Option<seq<string>>)

  /** The six departments (branches) offered by every listing and form. */
  const Departments: seq<string> := [
    "Computer Science",
    "Information Technology",
    "Electronics & Communication",
    "Mechanical Engineering",
    "Civil Engineering",
    "Electrical Engineering"
  ]
}
