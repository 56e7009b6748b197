/** The form schemas of project/lib/validations/auth.ts, each as the list of
    issues it reports (path and message, in field order, the password
    refinement last) together with the plain condition it enforces. The
    e-mail format check belongs to the validation library and is a parameter. */
module Validation {
  import Text

  datatype Issue = Issue(path: string, message: string)

  /** `z.string().min(n, message)` on field `path`. */
  function MinLength(path: string, s: string, n: nat, message: string): (r: seq<Issue>)
    ensures r == [] <==> |s| >= n
    ensures forall x :: x in r ==> x == Issue(path, message)
  {
    if |s| < n then [Issue(path, message)] else []
  }

  /** `z.number().min(lo, tooSmall).max(hi, tooBig)`. */
  function Bounded(path: string, x: int, lo: int, hi: int, tooSmall: string, tooBig: string): (r: seq<Issue>)
    requires lo <= hi
    ensures r == [] <==> lo <= x <= hi
    ensures x < lo ==> r == [Issue(path, tooSmall)]
    ensures x > hi ==> r == [Issue(path, tooBig)]
  {
    if x < lo then [Issue(path, tooSmall)] else if x > hi then [Issue(path, tooBig)] else []
  }

  /** `z.number().min(lo).max(hi)` with the library's own messages. */
  function InRange(path: string, x: int, lo: int, hi: int): (r: seq<Issue>)
    requires lo <= hi
    ensures r == [] <==> lo <= x <= hi
    ensures forall i :: i in r ==> i.path == path
  {
    Bounded(path, x, lo, hi, "Number must be greater than or equal to " + IntText(lo),
            "Number must be less than or equal to " + IntText(hi))
  }

  /** `z.number().min(lo)` with the library's own message. */
  function AtLeast(path: string, x: int, lo: int): (r: seq<Issue>)
    ensures r == [] <==> lo <= x
    ensures forall i :: i in r ==> i.path == path
  {
    if x < lo then [Issue(path, "Number must be greater than or equal to " + IntText(lo))] else []
  }

  function IntText(n: int): string {
    if n < 0 then "-" + Text.NatToString(-n) else Text.NatToString(n)
  }

  /** `z.string().email(message)`. */
  function EmailCheck(path: string, s: string, isEmail: string -> bool, message: string): (r: seq<Issue>)
    ensures r == [] <==> isEmail(s)
    ensures forall x :: x in r ==> x == Issue(path, message)
  {
    if isEmail(s) then [] else [Issue(path, message)]
  }

  /** `z.enum(options)` with the library's own message. */
  function OneOf(path: string, s: string, options: seq<string>, expected: string): (r: seq<Issue>)
    ensures r == [] <==> s in options
    ensures forall x :: x in r ==> x.path == path
  {
    if s in options then [] else [Issue(path, "Invalid enum value. Expected " + expected + ", received '" + s + "'")]
  }

  const InvalidEmail: string := "Please enter a valid email address"
  const ShortPassword: string := "Password must be at least 6 characters"
  const ShortName: string := "Name must be at least 2 characters"
  const PasswordMismatch: string := "Passwords don't match"
  const ShortPhone: string := "Please enter a valid phone number"
  const NoStream: string := "Please select a stream"
  const NoTeacherId: string := "Teacher ID is required"
  const NoDate: string := "Please select a date"
  const ShortReason: string := "Please provide a detailed reason (minimum 10 characters)"

  /** The `.refine` that compares the two password fields. */
  function PasswordsMatch(password: string, confirmPassword: string): (r: seq<Issue>)
    ensures r == [] <==> password == confirmPassword
    ensures forall x :: x in r ==> x == Issue("confirmPassword", PasswordMismatch)
  {
    if password == confirmPassword then [] else [Issue("confirmPassword", PasswordMismatch)]
  }

  // ---------------------------------------------------------------------------
  // loginSchema

  datatype LoginForm = LoginForm(email: string, password: string, role: string)

  const Roles: seq<string> := ["student", "teacher", "admin"]

  predicate ValidLogin(f: LoginForm, isEmail: string -> bool) {
    isEmail(f.email) && |f.password| >= 6 && f.role in {"student", "teacher", "admin"}
  }

  function LoginIssues(f: LoginForm, isEmail: string -> bool): (issues: seq<Issue>)
    ensures issues == [] <==> ValidLogin(f, isEmail)
    ensures Issue("password", ShortPassword) in issues <==> |f.password| < 6
  {
    EmailCheck("email", f.email, isEmail, InvalidEmail)
    + MinLength("password", f.password, 6, ShortPassword)
    + OneOf("role", f.role, Roles, "'student' | 'teacher' | 'admin'")
  }

  // ---------------------------------------------------------------------------
  // studentRegisterSchema

  datatype StudentRegistration = StudentRegistration(name: string, email: string, phone: string, password: string,
                                                     confirmPassword: string, stream: string, year: int, semester: int)

  predicate ValidStudentFields(f: StudentRegistration, isEmail: string -> bool) {
    && |f.name| >= 2 && isEmail(f.email) && |f.phone| >= 10 && |f.password| >= 6 && |f.stream| >= 1
    && 1 <= f.year <= 4 && 1 <= f.semester <= 8
  }

  predicate ValidStudentRegistration(f: StudentRegistration, isEmail: string -> bool) {
    ValidStudentFields(f, isEmail) && f.password == f.confirmPassword
  }

  /** The per-field checks of `studentRegisterSchema`, in field order. */
  function StudentFieldIssues(f: StudentRegistration, isEmail: string -> bool): (issues: seq<Issue>)
    ensures issues == [] <==> ValidStudentFields(f, isEmail)
    ensures forall x :: x in issues ==> x.path != "confirmPassword"
  {
    var personal := MinLength("name", f.name, 2, ShortName) + EmailCheck("email", f.email, isEmail, InvalidEmail);
    assert forall x :: x in personal ==> x.path != "confirmPassword";
    var account := MinLength("phone", f.phone, 10, ShortPhone) + MinLength("password", f.password, 6, ShortPassword);
    assert forall x :: x in account ==> x.path != "confirmPassword";
    var study := MinLength("stream", f.stream, 1, NoStream) + InRange("year", f.year, 1, 4) + InRange("semester", f.semester, 1, 8);
    assert forall x :: x in study ==> x.path != "confirmPassword";
    personal + account + study
  }

  /** `studentRegisterSchema`: the field issues, then the refinement's,
      which zod reports even when a field check has failed. */
  function StudentRegistrationIssues(f: StudentRegistration, isEmail: string -> bool): (issues: seq<Issue>)
    ensures issues == [] <==> ValidStudentRegistration(f, isEmail)
    ensures Issue("confirmPassword", PasswordMismatch) in issues <==> f.password != f.confirmPassword
  {
    StudentFieldIssues(f, isEmail) + PasswordsMatch(f.password, f.confirmPassword)
  }

  // ---------------------------------------------------------------------------
  // teacherRegisterSchema

  datatype TeacherRegistration = TeacherRegistration(name: string, email: string, teacherId: string,
                                                     password: string, confirmPassword: string)

  predicate ValidTeacherRegistration(f: TeacherRegistration, isEmail: string -> bool) {
    |f.name| >= 2 && isEmail(f.email) && |f.teacherId| >= 1 && |f.password| >= 6 && f.password == f.confirmPassword
  }

  function TeacherRegistrationIssues(f: TeacherRegistration, isEmail: string -> bool): (issues: seq<Issue>)
    ensures issues == [] <==> ValidTeacherRegistration(f, isEmail)
    ensures Issue("confirmPassword", PasswordMismatch) in issues <==> f.password != f.confirmPassword
  {
    MinLength("name", f.name, 2, ShortName)
    + EmailCheck("email", f.email, isEmail, InvalidEmail)
    + MinLength("teacherId", f.teacherId, 1, NoTeacherId)
    + MinLength("password", f.password, 6, ShortPassword)
    + PasswordsMatch(f.password, f.confirmPassword)
  }

  // ---------------------------------------------------------------------------
  // facultyRequestSchema

  datatype FacultyRequestForm = FacultyRequestForm(date: string, reason: string, requestType: string)

  predicate ValidFacultyRequest(f: FacultyRequestForm) {
    |f.date| >= 1 && |f.reason| >= 10 && f.requestType in {"leave", "special_class"}
  }

  function FacultyRequestIssues(f: FacultyRequestForm): (issues: seq<Issue>)
    ensures issues == [] <==> ValidFacultyRequest(f)
  {
    MinLength("date", f.date, 1, NoDate)
    + MinLength("reason", f.reason, 10, ShortReason)
    + OneOf("requestType", f.requestType, ["leave", "special_class"], "'leave' | 'special_class'")
  }

  // ---------------------------------------------------------------------------
  // timetableFormSchema

  datatype TimetableSettings = TimetableSettings(branch: string, semester: int, stream: string,
                                                 periodsPerDay: int, lunchPeriod: int)

  predicate ValidTimetableSettings(f: TimetableSettings) {
    |f.branch| >= 1 && 1 <= f.semester <= 8 && |f.stream| >= 1 && 4 <= f.periodsPerDay <= 10 && f.lunchPeriod >= 1
  }

  function TimetableSettingsIssues(f: TimetableSettings): (issues: seq<Issue>)
    ensures issues == [] <==> ValidTimetableSettings(f)
  {
    MinLength("branch", f.branch, 1, "Please select a branch")
    + InRange("semester", f.semester, 1, 8)
    + MinLength("stream", f.stream, 1, NoStream)
    + InRange("periodsPerDay", f.periodsPerDay, 4, 10)
    + AtLeast("lunchPeriod", f.lunchPeriod, 1)
  }

  /** Nothing ties the lunch period to the number of periods: a lunch period
      after the last period is accepted. */
  lemma LunchAfterLastPeriodAccepted()
    ensures TimetableSettingsIssues(TimetableSettings("Computer Science", 5, "Regular", 4, 9)) == []
  {
  }
}
