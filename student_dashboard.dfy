/** The student dashboard of project/app/student/dashboard/page.tsx: the
    fixed weekly schedule, today's classes, the teacher search and the
    subject badges of a teacher card. */
module StudentDashboard {
  import Seqs
  import Text
  import opened Wrappers

  datatype ClassEntry = ClassEntry(time: string, subject: string, teacher: string, room: string, isBreak: bool)

  function Lesson(time: string, subject: string, teacher: string, room: string): ClassEntry {
    ClassEntry(time, subject, teacher, room, false)
  }

  const LunchBreak: ClassEntry := ClassEntry("12:00-13:00", "Lunch Break", "", "", true)

  const ScheduleDays: seq<string> := ["Monday", "Tuesday", "Wednesday", "Thursday", "Friday"]

  /** `weeklySchedule`. */
  const WeeklySchedule: map<string, seq<ClassEntry>> := map[
    "Monday" := [
      Lesson("09:00-10:00", "Data Structures", "Dr. Sarah Wilson", "CS-101"),
      Lesson("10:00-11:00", "Database Systems", "Dr. John Smith", "CS-102"),
      Lesson("11:00-12:00", "Operating Systems", "Dr. Emily Brown", "CS-103"),
      LunchBreak,
      Lesson("13:00-14:00", "Software Engineering", "Dr. Michael Davis", "CS-104")],
    "Tuesday" := [
      Lesson("09:00-10:00", "Database Systems", "Dr. John Smith", "CS-102"),
      Lesson("10:00-11:00", "Data Structures Lab", "Dr. Sarah Wilson", "Lab-1"),
      Lesson("11:00-12:00", "Computer Networks", "Dr. Lisa Anderson", "CS-105"),
      LunchBreak,
      Lesson("13:00-14:00", "OS Lab", "Dr. Emily Brown", "Lab-2")],
    "Wednesday" := [
      Lesson("09:00-10:00", "Software Engineering", "Dr. Michael Davis", "CS-104"),
      Lesson("10:00-11:00", "Data Structures", "Dr. Sarah Wilson", "CS-101"),
      Lesson("11:00-12:00", "Database Systems", "Dr. John Smith", "CS-102"),
      LunchBreak,
      Lesson("13:00-14:00", "Computer Networks", "Dr. Lisa Anderson", "CS-105")],
    "Thursday" := [
      Lesson("09:00-10:00", "Operating Systems", "Dr. Emily Brown", "CS-103"),
      Lesson("10:00-11:00", "Software Engineering", "Dr. Michael Davis", "CS-104"),
      Lesson("11:00-12:00", "Database Lab", "Dr. John Smith", "Lab-3"),
      LunchBreak,
      Lesson("13:00-14:00", "Computer Networks Lab", "Dr. Lisa Anderson", "Lab-4")],
    "Friday" := [
      Lesson("09:00-10:00", "Data Structures", "Dr. Sarah Wilson", "CS-101"),
      Lesson("10:00-11:00", "Operating Systems", "Dr. Emily Brown", "CS-103"),
      Lesson("11:00-12:00", "Software Engineering Project", "Dr. Michael Davis", "CS-104"),
      LunchBreak]
  ]

  /** `todayClasses`: always Monday's list. */
  function TodayClasses(): (r: seq<ClassEntry>)
    ensures "Monday" in WeeklySchedule && r == WeeklySchedule["Monday"]
  {
    WeeklySchedule["Monday"]
  }

  /** The schedule covers Monday to Friday, and every day has the lunch
      break from 12:00 to 13:00 as its fourth entry, the only break. */
  lemma EveryDayHasLunch()
    ensures forall d :: d in WeeklySchedule <==> d in ScheduleDays
    ensures forall d :: d in WeeklySchedule ==> |WeeklySchedule[d]| >= 4 && WeeklySchedule[d][3] == LunchBreak
    ensures forall d, i :: d in WeeklySchedule && 0 <= i < |WeeklySchedule[d]| ==>
      (WeeklySchedule[d][i].isBreak <==> i == 3)
  {
  }

  // ---------------------------------------------------------------------------
  // Teacher search

  datatype TeacherCard = TeacherCard(name: string, department: string, subjects: seq<string>, availability: string)

  predicate TeachesMatching(t: TeacherCard, query: string) {
    exists i :: 0 <= i < |t.subjects| && Text.IncludesIgnoreCase(t.subjects[i], query)
  }

  function Matches(query: string): TeacherCard -> bool {
    (t: TeacherCard) => Text.IncludesIgnoreCase(t.name, query) || Text.IncludesIgnoreCase(t.department, query)
                        || TeachesMatching(t, query)
  }

  /** `filteredTeachers`, in order. */
  function FilteredTeachers(teachers: seq<TeacherCard>, query: string): (r: seq<TeacherCard>)
    ensures Seqs.IsSubsequence(r, teachers)
    ensures forall t :: multiset(r)[t] == (if Matches(query)(t) then multiset(teachers)[t] else 0)
  {
    Seqs.FilterSpec(teachers, Matches(query));
    Seqs.Filter(teachers, Matches(query))
  }

  lemma EmptySearchListsAll(teachers: seq<TeacherCard>)
    ensures FilteredTeachers(teachers, "") == teachers
  {
    forall i | 0 <= i < |teachers| ensures Matches("")(teachers[i]) {
      Text.EmptyNeedleMatches(teachers[i].name);
    }
    Seqs.FilterKeepsAll(teachers, Matches(""));
  }

  // ---------------------------------------------------------------------------
  // Subject badges

  function MoreBadge(k: nat): string {
    "+" + Text.NatToString(k) + " more"
  }

  /** `subjects.slice(0, 2)` followed by "+k more" when there are more than two. */
  function SubjectBadges(subjects: seq<string>): (badges: seq<string>)
    ensures |subjects| <= 2 ==> badges == subjects
    ensures |subjects| > 2 ==> |badges| == 3 && badges[..2] == subjects[..2] && badges[2] == MoreBadge(|subjects| - 2)
  {
    if |subjects| <= 2 then subjects else subjects[..2] + [MoreBadge(|subjects| - 2)]
  }

  /** The "+k more" badge states how many subjects are hidden: reading its
      number back gives the subject count minus two. */
  lemma MoreBadgeCountsHidden(subjects: seq<string>)
    requires |subjects| > 2
    ensures Text.ParseInt(SubjectBadges(subjects)[2][1..]) == Some(|subjects| - 2)
  {
    var k := |subjects| - 2;
    assert MoreBadge(k)[1..] == Text.NatToString(k) + " more";
    Text.ParseIntOfNatToString(k, " more");
  }
}
