/** The in-process mock backend (project/lib/hooks/useMockApi.ts) with the
    simulated latency and the loading flag removed: the password rule of
    `login`, the two-key filter of `getTimetables`, the shape of a submitted
    faculty request and the placeholder timetable generator. */
module MockApi {
  import opened Wrappers
  import opened Types
  import Seqs
  import Text

  const StudentAvatar: string := "https://images.pexels.com/photos/1239291/pexels-photo-1239291.jpeg?auto=compress&cs=tinysrgb&w=400"
  const TeacherAvatar: string := "https://images.pexels.com/photos/774909/pexels-photo-774909.jpeg?auto=compress&cs=tinysrgb&w=400"
  const AdminAvatar: string := "https://images.pexels.com/photos/1181519/pexels-photo-1181519.jpeg?auto=compress&cs=tinysrgb&w=400"

  /** The fixture user returned for each role (project/data/mockData.ts). */
  function MockUser(role: Role): (u: User)
    ensures u.Role() == role
  {
    match role
    case Student =>
      StudentUser("1", "Rahul Sharma", "rahul.sharma@student.edu",
                  StudentAvatar,
                  "STU2024001", "Computer Science", 3, 5, "+91-9876543210")
    case Teacher =>
      TeacherUser("2", "Prof. Neha Verma", "neha.verma@college.edu",
                  TeacherAvatar,
                  "TCH2024001", ["Data Structures", "Algorithms", "Database Systems"], "Computer Science")
    case Admin =>
      AdminUser("3", "Arjun Mehta", "arjun.mehta@college.edu",
                AdminAvatar,
                "ADM2024001", ["manage_timetables", "manage_faculty", "manage_students"])
  }

  const DemoPassword: string := "password123"

  /** `login(email, password, role)`: the thrown error is a `Failure`. */
  function Login(email: string, password: string, role: Role): (r: Result<User, string>)
    ensures r.Success? <==> password == DemoPassword
    ensures r.Success? ==> r.value == MockUser(role) && r.value.Role() == role
    ensures r.Failure? ==> r.error == "Invalid credentials"
  {
    if password == DemoPassword then Success(MockUser(role)) else Failure("Invalid credentials")
  }

  /** The e-mail address plays no part in the outcome. */
  lemma LoginIgnoresEmail(email1: string, email2: string, password: string, role: Role)
    ensures Login(email1, password, role) == Login(email2, password, role)
  {
  }

  /** The filter condition of `getTimetables`: an absent or empty branch and
      an absent or zero semester impose nothing. */
  predicate MatchesTimetableQuery(t: Timetable, branch: Option<string>, semester: Option<int>) {
    && (branch.None? || branch.value == "" || t.branch == branch.value)
    && (semester.None? || semester.value == 0 || t.semester == semester.value)
  }

  function KeepTimetable(branch: Option<string>, semester: Option<int>): Timetable -> bool {
    (t: Timetable) => MatchesTimetableQuery(t, branch, semester)
  }

  function BranchIs(b: string): Timetable -> bool { (t: Timetable) => t.branch == b }
  function SemesterIs(n: int): Timetable -> bool { (t: Timetable) => t.semester == n }

  /** `getTimetables(branch?, semester?)` over the stored timetables. */
  function GetTimetables(all: seq<Timetable>, branch: Option<string>, semester: Option<int>): (r: seq<Timetable>)
    ensures Seqs.IsSubsequence(r, all)
    ensures forall t :: multiset(r)[t] == if MatchesTimetableQuery(t, branch, semester) then multiset(all)[t] else 0
  {
    var byBranch := if branch.Some? && branch.value != "" then Seqs.Filter(all, BranchIs(branch.value)) else all;
    var bySemester := if semester.Some? && semester.value != 0 then Seqs.Filter(byBranch, SemesterIs(semester.value)) else byBranch;
    GetTimetablesSpec(all, branch, semester);
    Seqs.FilterSpec(all, KeepTimetable(branch, semester));
    bySemester
  }

  lemma GetTimetablesSpec(all: seq<Timetable>, branch: Option<string>, semester: Option<int>)
    ensures var byBranch := if branch.Some? && branch.value != "" then Seqs.Filter(all, BranchIs(branch.value)) else all;
            var bySemester := if semester.Some? && semester.value != 0 then Seqs.Filter(byBranch, SemesterIs(semester.value)) else byBranch;
            bySemester == Seqs.Filter(all, KeepTimetable(branch, semester))
  {
    var keep := KeepTimetable(branch, semester);
    if branch.Some? && branch.value != "" {
      if semester.Some? && semester.value != 0 {
        Seqs.FilterFilter(all, BranchIs(branch.value), SemesterIs(semester.value), keep);
      } else {
        Seqs.FilterFilter(all, BranchIs(branch.value), (t: Timetable) => true, keep);
        Seqs.FilterKeepsAll(Seqs.Filter(all, BranchIs(branch.value)), (t: Timetable) => true);
      }
    } else {
      if semester.Some? && semester.value != 0 {
        Seqs.FilterFilter(all, (t: Timetable) => true, SemesterIs(semester.value), keep);
        Seqs.FilterKeepsAll(all, (t: Timetable) => true);
      } else {
        Seqs.FilterKeepsAll(all, keep);
      }
    }
  }

  /** What a teacher fills in for a faculty request. */
  datatype RequestDraft = RequestDraft(teacherId: string, teacherName: string, requestType: RequestType,
                                       date: string, reason: string, affectedClasses: Option<seq<string>>)

  /** `submitFacultyRequest`: the random id and the clock reading are parameters. */
  function SubmitFacultyRequest(draft: RequestDraft, id: string, submittedAt: string): (r: FacultyRequest)
    ensures r.status == Pending && r.id == id && r.submittedAt == submittedAt
    ensures r.teacherId == draft.teacherId && r.teacherName == draft.teacherName
    ensures r.requestType == draft.requestType && r.date == draft.date && r.reason == draft.reason
    ensures r.affectedClasses == draft.affectedClasses
  {
    FacultyRequest(id, draft.teacherId, draft.teacherName, draft.requestType, draft.date, draft.reason,
                   Pending, submittedAt, draft.affectedClasses)
  }

  // ---------------------------------------------------------------------------
  // The placeholder timetable generator

  /** One subject row of the generation form; `kind` is its `type`. */
  datatype SubjectRow = SubjectRow(name: string, teacher: string, hoursPerWeek: int, kind: string)

  /** One generated slot; `kind` is its `type` (`theory`, `lab`, `tutorial` or `lunch`). */
  datatype Entry = Entry(time: string, subject: string, teacher: string, room: string, kind: string)

  datatype TimetableOption = TimetableOption(id: string, name: string, description: string,
                                             efficiency: int, conflicts: int,
                                             schedule: map<string, seq<Entry>>)

  const Days: seq<string> := ["Monday", "Tuesday", "Wednesday", "Thursday", "Friday"]

  const TimeSlots: seq<string> := ["09:00", "10:00", "11:00", "12:00", "13:00", "14:00", "15:00", "16:00"]

  /** `String(parseInt(time.split(':')[0]) + 1)`; NaN prints as "NaN". */
  function NextHourText(time: string): string {
    match Text.ParseInt(Text.Split(time, ':')[0])
    case None => "NaN"
    case Some(h) => Text.NatToString(h + 1)
  }

  /** The label `"HH:00 - HH+1:00"` of the slot starting at `time`. */
  function SlotLabel(time: string): (r: string)
    ensures Text.IsPrefix(time, r)
    ensures |r| >= |time| + 8
    ensures r[|time|..|time| + 3] == " - " && r[|r| - 3..] == ":00"
  {
    var next := Text.PadStart(NextHourText(time), 2, '0');
    var r := time + " - " + next + ":00";
    assert r[..|time|] == time && r[|time|..|time| + 3] == " - " && r[|r| - 3..] == ":00";
    r
  }

  function LunchEntry(time: string): Entry {
    Entry(SlotLabel(time), "Lunch Break", "", "Cafeteria", "lunch")
  }

  /** The entry for slot `index`: subject `index % n`, whose missing name,
      teacher and type fall back to `Subject <index+1>`, `TBD` and `theory`. */
  function SubjectEntry(subjects: seq<SubjectRow>, index: nat, time: string): (e: Entry)
    requires |subjects| > 0
    ensures e.time == SlotLabel(time)
    ensures e.subject != "" && e.teacher != "" && e.kind != ""
    ensures subjects[index % |subjects|].name != "" ==> e.subject == subjects[index % |subjects|].name
    ensures subjects[index % |subjects|].teacher != "" ==> e.teacher == subjects[index % |subjects|].teacher
    ensures subjects[index % |subjects|].kind != "" ==> e.kind == subjects[index % |subjects|].kind
    ensures Text.IsPrefix("Lab-", e.room) <==> subjects[index % |subjects|].kind == "lab"
  {
    var s := subjects[index % |subjects|];
    var room := (if s.kind == "lab" then "Lab-" else "Room-") + Text.NatToString(index + 1);
    assert s.kind == "lab" ==> room[..4] == "Lab-";
    assert s.kind != "lab" ==> room[0] == 'R';
    Entry(SlotLabel(time),
          if s.name != "" then s.name else "Subject " + Text.NatToString(index + 1),
          if s.teacher != "" then s.teacher else "TBD",
          room,
          if s.kind != "" then s.kind else "theory")
  }

  /** What slot `index` contributes to a day: the lunch entry, a subject
      entry, or nothing when there are no subjects. */
  function SlotEntries(subjects: seq<SubjectRow>, lunchStartTime: string, index: nat): seq<Entry>
    requires index < |TimeSlots|
  {
    if TimeSlots[index] == lunchStartTime then [LunchEntry(TimeSlots[index])]
    else if |subjects| > 0 then [SubjectEntry(subjects, index, TimeSlots[index])]
    else []
  }

  /** The entries of a day from the first `k` slots: one per slot when there
      is a subject to rotate through, at most one in all otherwise. */
  function DayPrefix(subjects: seq<SubjectRow>, lunchStartTime: string, k: nat): (r: seq<Entry>)
    requires k <= |TimeSlots|
    ensures |subjects| > 0 ==> |r| == k
    ensures |r| <= k
  {
    if k == 0 then [] else DayPrefix(subjects, lunchStartTime, k - 1) + SlotEntries(subjects, lunchStartTime, k - 1)
  }

  /** The list every weekday receives. */
  function Day(subjects: seq<SubjectRow>, lunchStartTime: string): (r: seq<Entry>)
    ensures |r| <= |TimeSlots|
    ensures |subjects| > 0 ==> |r| == |TimeSlots|
  {
    DayPrefix(subjects, lunchStartTime, |TimeSlots|)
  }

  /** Slot `index` appends the lunch entry, a subject entry, or nothing. */
  lemma DayPrefixStep(subjects: seq<SubjectRow>, lunchStartTime: string, index: nat)
    requires index < |TimeSlots|
    ensures TimeSlots[index] == lunchStartTime ==>
      DayPrefix(subjects, lunchStartTime, index + 1) == DayPrefix(subjects, lunchStartTime, index) + [LunchEntry(TimeSlots[index])]
    ensures TimeSlots[index] != lunchStartTime && |subjects| > 0 ==>
      DayPrefix(subjects, lunchStartTime, index + 1) == DayPrefix(subjects, lunchStartTime, index) + [SubjectEntry(subjects, index, TimeSlots[index])]
    ensures TimeSlots[index] != lunchStartTime && |subjects| == 0 ==>
      DayPrefix(subjects, lunchStartTime, index + 1) == DayPrefix(subjects, lunchStartTime, index)
  {
    assert DayPrefix(subjects, lunchStartTime, index + 1) == DayPrefix(subjects, lunchStartTime, index) + SlotEntries(subjects, lunchStartTime, index);
  }

  /** The inner `timeSlots.forEach` of `generateSchedule`: the pushes into
      one day's list, slot by slot. */
  method FillDay(subjects: seq<SubjectRow>, lunchStartTime: string) returns (entries: seq<Entry>)
    ensures entries == Day(subjects, lunchStartTime)
  {
    entries := [];
    var index := 0;
    while index < |TimeSlots|
      invariant 0 <= index <= |TimeSlots|
      invariant entries == DayPrefix(subjects, lunchStartTime, index)
    {
      var time := TimeSlots[index];
      DayPrefixStep(subjects, lunchStartTime, index);
      if time == lunchStartTime {
        entries := entries + [LunchEntry(time)];
      } else if |subjects| > 0 {
        entries := entries + [SubjectEntry(subjects, index, time)];
      }
      index := index + 1;
    }
  }

  /** `generateSchedule(subjects, efficiency)`: the outer `days.forEach`,
      giving each weekday its own list. */
  method GenerateSchedule(subjects: seq<SubjectRow>, lunchStartTime: string) returns (schedule: map<string, seq<Entry>>)
    ensures forall d :: d in schedule <==> d in Days
    ensures forall d :: d in schedule ==> schedule[d] == Day(subjects, lunchStartTime)
  {
    schedule := map[];
    var k := 0;
    while k < |Days|
      invariant 0 <= k <= |Days|
      invariant forall d :: d in schedule <==> d in Days[..k]
      invariant forall d :: d in schedule ==> schedule[d] == Day(subjects, lunchStartTime)
    {
      var day := Days[k];
      var entries := FillDay(subjects, lunchStartTime);
      schedule := schedule[day := entries];
      assert Days[..k + 1] == Days[..k] + [day];
      k := k + 1;
    }
    assert Days[..k] == Days;
  }

  const BalancedDescription: string := "Evenly distributed subjects across all days with optimal break timing and minimal teacher conflicts."
  const MorningDescription: string := "Concentrated morning sessions with lighter afternoons, ideal for better student attention."
  const LabTheoryDescription: string := "Strategic placement of lab and theory sessions for maximum learning efficiency."

  /** `generateTimetable(formData)`: three labelled options around the same
      schedule, since the efficiency argument is never used. */
  method GenerateTimetable(subjects: seq<SubjectRow>, lunchStartTime: string) returns (options: seq<TimetableOption>)
    ensures |options| == 3
    ensures options[0].id == "option-1" && options[1].id == "option-2" && options[2].id == "option-3"
    ensures options[0].name == "Balanced Distribution" && options[1].name == "Morning Intensive"
    ensures options[2].name == "Lab-Theory Optimized"
    ensures options[0].efficiency == 95 && options[1].efficiency == 88 && options[2].efficiency == 92
    ensures options[0].conflicts == 0 && options[1].conflicts == 1 && options[2].conflicts == 0
    ensures options[0].schedule == options[1].schedule == options[2].schedule
    ensures forall i, d :: 0 <= i < 3 ==> (d in options[i].schedule <==> d in Days)
    ensures forall i, d :: 0 <= i < 3 && d in options[i].schedule ==> options[i].schedule[d] == Day(subjects, lunchStartTime)
  {
    var balanced := GenerateSchedule(subjects, lunchStartTime);
    var morning := GenerateSchedule(subjects, lunchStartTime);
    var labTheory := GenerateSchedule(subjects, lunchStartTime);
    options := [
      TimetableOption("option-1", "Balanced Distribution",
        BalancedDescription,
        95, 0, balanced),
      TimetableOption("option-2", "Morning Intensive",
        MorningDescription,
        88, 1, morning),
      TimetableOption("option-3", "Lab-Theory Optimized",
        LabTheoryDescription,
        92, 0, labTheory)
    ];
  }

  // ---------------------------------------------------------------------------
  // Properties of the generated day

  lemma TimeSlotsDistinct()
    ensures forall i, j :: 0 <= i < j < |TimeSlots| ==> TimeSlots[i] != TimeSlots[j]
  {
  }

  lemma SlotsDiffer(i: nat, j: nat)
    requires i < j < |TimeSlots|
    ensures TimeSlots[i] != TimeSlots[j]
  {
    TimeSlotsDistinct();
  }

  /** With at least one subject every slot yields exactly one entry, in slot order. */
  lemma {:induction false} DayPrefixFull(subjects: seq<SubjectRow>, lunchStartTime: string, k: nat)
    requires |subjects| > 0 && k <= |TimeSlots|
    ensures |DayPrefix(subjects, lunchStartTime, k)| == k
    ensures forall i :: 0 <= i < k ==> [DayPrefix(subjects, lunchStartTime, k)[i]] == SlotEntries(subjects, lunchStartTime, i)
  {
    if k > 0 {
      DayPrefixFull(subjects, lunchStartTime, k - 1);
      var prev := DayPrefix(subjects, lunchStartTime, k - 1);
      var last := SlotEntries(subjects, lunchStartTime, k - 1);
      assert DayPrefix(subjects, lunchStartTime, k) == prev + last;
      forall i | 0 <= i < k
        ensures [DayPrefix(subjects, lunchStartTime, k)[i]] == SlotEntries(subjects, lunchStartTime, i)
      {
        if i < k - 1 {
          assert (prev + last)[i] == prev[i];
        }
      }
    }
  }

  /** The slot whose time is the lunch start is the lunch break; every other
      slot `i` takes subject `i % n`, counting lunch positions too, so the
      lunch break never shifts the rotation. */
  lemma DayEntryAt(subjects: seq<SubjectRow>, lunchStartTime: string, i: nat)
    requires |subjects| > 0 && i < |TimeSlots|
    ensures |Day(subjects, lunchStartTime)| == |TimeSlots|
    ensures TimeSlots[i] == lunchStartTime ==>
      Day(subjects, lunchStartTime)[i] == Entry(SlotLabel(TimeSlots[i]), "Lunch Break", "", "Cafeteria", "lunch")
    ensures TimeSlots[i] != lunchStartTime ==>
      var s := subjects[i % |subjects|];
      var e := Day(subjects, lunchStartTime)[i];
      && e.time == SlotLabel(TimeSlots[i])
      && e.subject == (if s.name != "" then s.name else "Subject " + Text.NatToString(i + 1))
      && e.teacher == (if s.teacher != "" then s.teacher else "TBD")
      && e.room == (if s.kind == "lab" then "Lab-" else "Room-") + Text.NatToString(i + 1)
      && e.kind == (if s.kind != "" then s.kind else "theory")
  {
    DayPrefixFull(subjects, lunchStartTime, |TimeSlots|);
  }

  /** Moving the lunch break changes no other slot. */
  lemma LunchDoesNotShiftRotation(subjects: seq<SubjectRow>, lunch1: string, lunch2: string, i: nat)
    requires |subjects| > 0 && i < |TimeSlots|
    requires TimeSlots[i] != lunch1 && TimeSlots[i] != lunch2
    ensures Day(subjects, lunch1)[i] == Day(subjects, lunch2)[i]
  {
    DayPrefixFull(subjects, lunch1, |TimeSlots|);
    DayPrefixFull(subjects, lunch2, |TimeSlots|);
  }

  /** Without subjects a slot contributes the lunch entry or nothing. */
  lemma SlotWithoutSubjects(lunchStartTime: string, i: nat)
    requires i < |TimeSlots|
    ensures SlotEntries([], lunchStartTime, i) == if TimeSlots[i] == lunchStartTime then [LunchEntry(lunchStartTime)] else []
  {
  }

  /** The first `k` slots are the first `k - 1` and slot `k - 1`; a slot
      does not occur before its own position. */
  lemma SlotsPrefixStep(lunchStartTime: string, k: nat)
    requires 0 < k <= |TimeSlots|
    ensures (lunchStartTime in TimeSlots[..k]) == (lunchStartTime in TimeSlots[..k - 1] || TimeSlots[k - 1] == lunchStartTime)
    ensures TimeSlots[k - 1] == lunchStartTime ==> lunchStartTime !in TimeSlots[..k - 1]
  {
    var earlier := TimeSlots[..k - 1];
    assert TimeSlots[..k] == earlier + [TimeSlots[k - 1]];
    if TimeSlots[k - 1] == lunchStartTime {
      forall j | 0 <= j < k - 1 ensures earlier[j] != lunchStartTime {
        SlotsDiffer(j, k - 1);
      }
    }
  }

  /** Without subjects a day holds only the lunch entry, or nothing when the
      lunch start is not one of the eight slots. */
  lemma {:induction false} DayPrefixWithoutSubjects(lunchStartTime: string, k: nat)
    requires k <= |TimeSlots|
    ensures DayPrefix([], lunchStartTime, k) ==
      if lunchStartTime in TimeSlots[..k] then [LunchEntry(lunchStartTime)] else []
  {
    if k > 0 {
      DayPrefixWithoutSubjects(lunchStartTime, k - 1);
      SlotWithoutSubjects(lunchStartTime, k - 1);
      SlotsPrefixStep(lunchStartTime, k);
      assert DayPrefix([], lunchStartTime, k) == DayPrefix([], lunchStartTime, k - 1) + SlotEntries([], lunchStartTime, k - 1);
    }
  }

  lemma DayWithoutSubjects(lunchStartTime: string)
    ensures Day([], lunchStartTime) == if lunchStartTime in TimeSlots then [LunchEntry(lunchStartTime)] else []
  {
    DayPrefixWithoutSubjects(lunchStartTime, |TimeSlots|);
    assert TimeSlots[..|TimeSlots|] == TimeSlots;
  }

  /** Each slot time is its two-digit hour followed by ":00". */
  lemma SlotTimeIsHour(i: nat)
    requires i < |TimeSlots|
    ensures TimeSlots[i] == Text.PadStart(Text.NatToString(9 + i), 2, '0') + ":00"
  {
    if i == 0 {
      assert Text.NatToString(9) == "9";
    } else {
      assert Text.NatToString(9 + i) == ['1', "0123456"[i - 1]];
    }
  }

  /** The label of slot `i` ends one hour after it starts: "09:00 - 10:00" up to "16:00 - 17:00". */
  lemma SlotLabelAt(i: nat)
    requires i < |TimeSlots|
    ensures SlotLabel(TimeSlots[i]) == TimeSlots[i] + " - " + Text.PadStart(Text.NatToString(10 + i), 2, '0') + ":00"
  {
    SlotTimeIsHour(i);
    var digits := Text.PadStart(Text.NatToString(9 + i), 2, '0');
    var time := TimeSlots[i];
    assert |digits| == 2 && time[..2] == digits && time[2] == ':';
    Text.SplitHeadAt(time, ':', 2);
    Text.TwoDigitRoundTrip(9 + i, "");
    assert digits + "" == digits;
  }

  lemma FirstSlotLabel()
    ensures SlotLabel("09:00") == "09:00 - 10:00"
  {
    SlotLabelAt(0);
    assert Text.NatToString(10) == "10";
    assert Text.PadStart("10", 2, '0') == "10";
  }
}
