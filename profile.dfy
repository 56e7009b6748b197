/** The profile dialog of project/components/ui/profile-modal.tsx: the three
    role schemas, the role-based schema choice and the default values. */
module Profile {
  import opened Wrappers
  import opened Types
  import opened Validation
  import Text

  const NoEnrollment: string := "Enrollment number is required"
  const NoCourse: string := "Course/Branch is required"
  const NoDepartment: string := "Department is required"
  const NoDesignation: string := "Designation is required"
  const NoRole: string := "Role is required"

  datatype ProfileSchema = StudentProfileSchema | TeacherProfileSchema | AdminProfileSchema

  /** The values the dialog edits, one shape per schema. */
  datatype ProfileValues =
    | StudentProfile(name: string, email: string, username: string, enrollmentNumber: string,
                     stream: string, year: int, semester: int)
    | TeacherProfile(name: string, email: string, username: string, department: string,
                     designation: string, officeRoom: string)
    | AdminProfile(name: string, email: string, username: string, role: string)

  function SchemaOf(v: ProfileValues): ProfileSchema {
    match v
    case StudentProfile(_, _, _, _, _, _, _) => StudentProfileSchema
    case TeacherProfile(_, _, _, _, _, _) => TeacherProfileSchema
    case AdminProfile(_, _, _, _) => AdminProfileSchema
  }

  /** `getSchema`: by role, and the student schema when nobody is signed in. */
  function GetSchema(user: Option<User>): (s: ProfileSchema)
    ensures s == TeacherProfileSchema <==> (user.Some? && user.value.Role() == Teacher)
    ensures s == AdminProfileSchema <==> (user.Some? && user.value.Role() == Admin)
    ensures user.None? ==> s == StudentProfileSchema
  {
    match user
    case None => StudentProfileSchema
    case Some(u) =>
      match u.Role()
      case Student => StudentProfileSchema
      case Teacher => TeacherProfileSchema
      case Admin => AdminProfileSchema
  }

  /** `email.split('@')[0]`: the text before the first '@'. */
  function Username(email: string): (u: string)
    ensures Text.IsPrefix(u, email) && '@' !in u
    ensures u == email || email[|u|] == '@'
  {
    Text.SplitHead(email, '@');
    Text.Split(email, '@')[0]
  }

  /** `x || fallback` on a number: zero counts as missing. */
  function OrNumber(x: int, fallback: int): (r: int)
    ensures x != 0 ==> r == x
    ensures x == 0 ==> r == fallback
  {
    if x == 0 then fallback else x
  }

  /** `getDefaultValues`: `None` stands for the empty object. */
  function GetDefaultValues(user: Option<User>): (d: Option<ProfileValues>)
    ensures d.None? <==> user.None?
    ensures d.Some? ==> d.value.name == user.value.name && d.value.email == user.value.email
    ensures d.Some? ==> d.value.username == Username(user.value.email)
  {
    match user
    case None => None
    case Some(u) =>
      match u
      case StudentUser(_, name, email, _, studentId, stream, year, semester, _) =>
        Some(StudentProfile(name, email, Username(email), studentId, stream, OrNumber(year, 1), OrNumber(semester, 1)))
      case TeacherUser(_, name, email, _, _, _, department) =>
        Some(TeacherProfile(name, email, Username(email), department, "Professor", ""))
      case AdminUser(_, name, email, _, _, _) =>
        Some(AdminProfile(name, email, Username(email), "Administrator"))
  }

  /** The default values of a signed-in user always have the shape of the
      schema `getSchema` picks, so validation sees the fields it checks. */
  lemma DefaultsMatchSchema(u: User)
    ensures GetDefaultValues(Some(u)).Some?
    ensures SchemaOf(GetDefaultValues(Some(u)).value) == GetSchema(Some(u))
  {
  }

  /** The per-role fields of the defaults: the student's enrollment number,
      stream, year and semester come from the record, the last two falling
      back to 1 when unset (0); the teacher's department comes from the
      record and the designation and office are fixed; the admin's role is
      fixed. */
  lemma {:induction false} DefaultFields(u: User)
    ensures u.StudentUser? ==> GetDefaultValues(Some(u)).value.StudentProfile?
    ensures u.StudentUser? ==> GetDefaultValues(Some(u)).value.enrollmentNumber == u.studentId
                               && GetDefaultValues(Some(u)).value.stream == u.stream
    ensures u.StudentUser? ==> GetDefaultValues(Some(u)).value.year == (if u.year != 0 then u.year else 1)
                               && GetDefaultValues(Some(u)).value.semester == (if u.semester != 0 then u.semester else 1)
    ensures u.TeacherUser? ==> GetDefaultValues(Some(u)).value.TeacherProfile?
    ensures u.TeacherUser? ==> GetDefaultValues(Some(u)).value.department == u.department
                               && GetDefaultValues(Some(u)).value.designation == "Professor"
                               && GetDefaultValues(Some(u)).value.officeRoom == ""
    ensures u.AdminUser? ==> GetDefaultValues(Some(u)).value.AdminProfile?
    ensures u.AdminUser? ==> GetDefaultValues(Some(u)).value.role == "Administrator"
  {
  }

  const ShortUsername: string := "Username must be at least 3 characters"

  predicate Acceptable(v: ProfileValues, isEmail: string -> bool) {
    && |v.name| >= 2 && isEmail(v.email) && |v.username| >= 3
    && match v
       case StudentProfile(_, _, _, enrollmentNumber, stream, year, semester) =>
         |enrollmentNumber| >= 1 && |stream| >= 1 && 1 <= year <= 4 && 1 <= semester <= 8
       case TeacherProfile(_, _, _, department, designation, _) =>
         |department| >= 1 && |designation| >= 1
       case AdminProfile(_, _, _, role) =>
         |role| >= 1
  }

  /** The schema `SchemaOf(v)` run on `v`; the teacher's office room is optional. */
  function ProfileIssues(v: ProfileValues, isEmail: string -> bool): (issues: seq<Issue>)
    ensures issues == [] <==> Acceptable(v, isEmail)
    ensures Issue("username", ShortUsername) in issues <==> |v.username| < 3
  {
    var common := MinLength("name", v.name, 2, ShortName)
      + EmailCheck("email", v.email, isEmail, InvalidEmail)
      + MinLength("username", v.username, 3, ShortUsername);
    match v
    case StudentProfile(_, _, _, enrollmentNumber, stream, year, semester) =>
      common
      + MinLength("enrollmentNumber", enrollmentNumber, 1, NoEnrollment)
      + MinLength("stream", stream, 1, NoCourse)
      + InRange("year", year, 1, 4)
      + InRange("semester", semester, 1, 8)
    case TeacherProfile(_, _, _, department, designation, _) =>
      common
      + MinLength("department", department, 1, NoDepartment)
      + MinLength("designation", designation, 1, NoDesignation)
    case AdminProfile(_, _, _, role) =>
      common + MinLength("role", role, 1, NoRole)
  }
}
