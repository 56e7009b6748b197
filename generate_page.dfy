/** The timetable generation page of
    project/app/admin/timetable/generate/page.tsx: its form schema, the step
    machine driven by submit, generation and "Back to Form", the subject
    rows, option selection and the export file name. */
module GeneratePage {
  import opened Wrappers
  import opened Validation
  import Text
  import Seqs
  import UiStore
  import MockApi

  const GeneratedMessage: string := "AI has generated 3 optimized timetable options for you to choose from."
  const GenerationFailedMessage: string := "Failed to generate timetables. Please try again."

  // ---------------------------------------------------------------------------
  // The form and its schema

  /** Branch and semester are drop-downs with no default: `None` until an
      option is chosen. */
  datatype TimetableForm = TimetableForm(branch: Option<string>, semester: Option<string>, classDuration: int,
                                         lunchDuration: int, lunchStartTime: string, subjects: seq<MockApi.SubjectRow>)

  /** The row "Add Subject" appends. */
  const DefaultSubject: MockApi.SubjectRow := MockApi.SubjectRow("", "", 3, "theory")

  /** The form's default values; branch and semester are left out of them. */
  const DefaultForm: TimetableForm := TimetableForm(None, None, 60, 60, "12:00", [DefaultSubject])

  // The schema's messages; `Required` is the library's own for a missing string.
  const Required: string := "Required"
  const NoBranch: string := "Branch is required"
  const NoSubjects: string := "At least one subject is required"
  const NoSemester: string := "Semester is required"
  const ShortClass: string := "Class duration must be at least 30 minutes"
  const LongClass: string := "Class duration cannot exceed 180 minutes"
  const ShortLunch: string := "Lunch duration must be at least 30 minutes"
  const LongLunch: string := "Lunch duration cannot exceed 120 minutes"
  const NoLunchStart: string := "Lunch start time is required"
  const NoSubjectName: string := "Subject name is required"
  const NoTeacher: string := "Teacher is required"
  const FewHours: string := "Hours per week must be at least 1"
  const ManyHours: string := "Hours per week cannot exceed 10"
  const KindsText: string := "'theory' | 'lab' | 'tutorial'"

  const SubjectKinds: seq<string> := ["theory", "lab", "tutorial"]

  predicate ValidSubject(s: MockApi.SubjectRow) {
    |s.name| >= 1 && |s.teacher| >= 1 && 1 <= s.hoursPerWeek <= 10 && s.kind in {"theory", "lab", "tutorial"}
  }

  predicate ValidSettings(f: TimetableForm) {
    && f.branch.Some? && |f.branch.value| >= 1
    && f.semester.Some? && |f.semester.value| >= 1
    && 30 <= f.classDuration <= 180 && 30 <= f.lunchDuration <= 120
    && |f.lunchStartTime| >= 1
  }

  predicate ValidRows(rows: seq<MockApi.SubjectRow>) {
    forall i :: 0 <= i < |rows| ==> ValidSubject(rows[i])
  }

  predicate ValidForm(f: TimetableForm) {
    ValidSettings(f) && |f.subjects| >= 1 && ValidRows(f.subjects)
  }

  const RowPrefix: string := "subjects."

  function RowPath(index: nat, field: string): (path: string)
    ensures Text.IsPrefix(RowPrefix, path)
  {
    var path := RowPrefix + Text.NatToString(index) + "." + field;
    assert path[..|RowPrefix|] == RowPrefix;
    path
  }

  /** `z.string().min(n, message)` on a field that may be missing: a missing
      value is reported as `Required`, whatever `message` says. */
  function RequiredMinLength(path: string, o: Option<string>, n: nat, message: string): (r: seq<Issue>)
    ensures r == [] <==> o.Some? && |o.value| >= n
    ensures Issue(path, Required) in r <==> o.None? || (message == Required && |o.value| < n)
    ensures Issue(path, message) in r <==> (o.Some? && |o.value| < n) || (message == Required && o.None?)
    ensures forall x :: x in r ==> x.path == path
  {
    match o
    case None => [Issue(path, Required)]
    case Some(s) => MinLength(path, s, n, message)
  }

  /** The issues of one subject row, reported under `subjects.<index>.<field>`. */
  function SubjectRowIssues(s: MockApi.SubjectRow, index: nat): (issues: seq<Issue>)
    ensures issues == [] <==> ValidSubject(s)
    ensures forall x :: x in issues ==> Text.IsPrefix(RowPrefix, x.path)
  {
    MinLength(RowPath(index, "name"), s.name, 1, NoSubjectName)
    + MinLength(RowPath(index, "teacher"), s.teacher, 1, NoTeacher)
    + Bounded(RowPath(index, "hoursPerWeek"), s.hoursPerWeek, 1, 10,
              FewHours, ManyHours)
    + OneOf(RowPath(index, "type"), s.kind, SubjectKinds, KindsText)
  }

  /** The issues of rows `from..` of the subject array. */
  function SubjectsIssues(rows: seq<MockApi.SubjectRow>, from: nat): (issues: seq<Issue>)
    ensures issues == [] <==> ValidRows(rows)
    ensures forall x :: x in issues ==> Text.IsPrefix(RowPrefix, x.path)
    decreases |rows|
  {
    if rows == [] then []
    else
      var rest := SubjectsIssues(rows[1..], from + 1);
      assert forall i :: 1 <= i < |rows| ==> rows[i] == rows[1..][i - 1];
      SubjectRowIssues(rows[0], from) + rest
  }

  /** The checks on the durations and the lunch start, in field order. */
  function TimingIssues(f: TimetableForm): (issues: seq<Issue>)
    ensures issues == [] <==> 30 <= f.classDuration <= 180 && 30 <= f.lunchDuration <= 120 && |f.lunchStartTime| >= 1
    ensures forall x :: x in issues ==> x.path in {"classDuration", "lunchDuration", "lunchStartTime"}
  {
    Bounded("classDuration", f.classDuration, 30, 180, ShortClass, LongClass)
    + Bounded("lunchDuration", f.lunchDuration, 30, 120, ShortLunch, LongLunch)
    + MinLength("lunchStartTime", f.lunchStartTime, 1, NoLunchStart)
  }

  /** The checks on the scalar fields of the form, in field order. */
  function SettingsIssues(f: TimetableForm): (issues: seq<Issue>)
    ensures issues == [] <==> ValidSettings(f)
    ensures Issue("branch", Required) in issues <==> f.branch.None?
    ensures Issue("branch", NoBranch) in issues <==> f.branch == Some("")
    ensures Issue("semester", Required) in issues <==> f.semester.None?
    ensures Issue("semester", NoSemester) in issues <==> f.semester == Some("")
    ensures forall x :: x in issues ==> x.path in {"branch", "semester", "classDuration", "lunchDuration", "lunchStartTime"}
  {
    var branch := RequiredMinLength("branch", f.branch, 1, NoBranch);
    var semester := RequiredMinLength("semester", f.semester, 1, NoSemester);
    var timing := TimingIssues(f);
    assert forall x :: x in timing ==> x.path != "branch" && x.path != "semester";
    branch + semester + timing
  }

  /** The subject array: its own minimum, then each row. */
  function ArrayIssues(rows: seq<MockApi.SubjectRow>): (issues: seq<Issue>)
    ensures issues == [] <==> |rows| >= 1 && ValidRows(rows)
    ensures Issue("subjects", NoSubjects) in issues <==> |rows| == 0
    ensures forall x :: x in issues ==> x.path == "subjects" || Text.IsPrefix(RowPrefix, x.path)
  {
    assert !Text.IsPrefix(RowPrefix, "subjects");
    (if |rows| < 1 then [Issue("subjects", NoSubjects)] else []) + SubjectsIssues(rows, 0)
  }

  /** `timetableSchema`: the scalar fields, then the subject array. */
  function FormIssues(f: TimetableForm): (issues: seq<Issue>)
    ensures issues == [] <==> ValidForm(f)
    ensures Issue("subjects", NoSubjects) in issues <==> |f.subjects| == 0
    ensures Issue("branch", Required) in issues <==> f.branch.None?
    ensures Issue("branch", NoBranch) in issues <==> f.branch == Some("")
    ensures Issue("semester", Required) in issues <==> f.semester.None?
    ensures Issue("semester", NoSemester) in issues <==> f.semester == Some("")
  {
    var settings := SettingsIssues(f);
    var subjects := ArrayIssues(f.subjects);
    assert !Text.IsPrefix(RowPrefix, "branch") && !Text.IsPrefix(RowPrefix, "semester");
    assert Issue("subjects", NoSubjects) !in settings;
    settings + subjects
  }

  /** The untouched form cannot be submitted: branch and semester are
      missing, so they are reported as `Required` rather than with the
      schema's own messages. */
  lemma DefaultFormRejected()
    ensures Issue("branch", Required) in FormIssues(DefaultForm)
    ensures Issue("semester", Required) in FormIssues(DefaultForm)
    ensures Issue("branch", NoBranch) !in FormIssues(DefaultForm)
    ensures Issue("semester", NoSemester) !in FormIssues(DefaultForm)
    ensures !ValidForm(DefaultForm)
  {
    assert DefaultForm.branch.None? && DefaultForm.semester.None?;
  }

  // ---------------------------------------------------------------------------
  // Lunch start choices

  /** The lunch start times the form offers. */
  const LunchChoices: seq<string> := ["08:00", "09:00", "10:00", "11:00", "12:00", "13:00", "14:00", "15:00", "16:00", "17:00"]

  /** A lunch start outside the generator's eight slots gives a day with no
      lunch entry: every slot holds its subject, or the day is empty. */
  lemma {:induction false} OffGridLunch(subjects: seq<MockApi.SubjectRow>, lunchStartTime: string)
    requires lunchStartTime !in MockApi.TimeSlots
    ensures |subjects| > 0 ==> |MockApi.Day(subjects, lunchStartTime)| == |MockApi.TimeSlots|
    ensures |subjects| > 0 ==> forall i :: 0 <= i < |MockApi.TimeSlots| ==>
      MockApi.Day(subjects, lunchStartTime)[i] == MockApi.SubjectEntry(subjects, i, MockApi.TimeSlots[i])
    ensures |subjects| == 0 ==> MockApi.Day(subjects, lunchStartTime) == []
  {
    if |subjects| > 0 {
      MockApi.DayPrefixFull(subjects, lunchStartTime, |MockApi.TimeSlots|);
      forall i | 0 <= i < |MockApi.TimeSlots|
        ensures MockApi.Day(subjects, lunchStartTime)[i] == MockApi.SubjectEntry(subjects, i, MockApi.TimeSlots[i])
      {
        assert MockApi.TimeSlots[i] != lunchStartTime;
        assert [MockApi.Day(subjects, lunchStartTime)[i]] == MockApi.SlotEntries(subjects, lunchStartTime, i);
      }
    } else {
      MockApi.DayWithoutSubjects(lunchStartTime);
    }
  }

  /** 08:00 and 17:00 are offered but are not generator slots. */
  lemma OffGridChoices(subjects: seq<MockApi.SubjectRow>)
    ensures "08:00" in LunchChoices && "17:00" in LunchChoices
    ensures |subjects| == 0 ==> MockApi.Day(subjects, "08:00") == [] && MockApi.Day(subjects, "17:00") == []
    ensures |subjects| > 0 ==> forall i :: 0 <= i < |MockApi.TimeSlots| ==>
      MockApi.Day(subjects, "08:00")[i] == MockApi.SubjectEntry(subjects, i, MockApi.TimeSlots[i])
      && MockApi.Day(subjects, "17:00")[i] == MockApi.SubjectEntry(subjects, i, MockApi.TimeSlots[i])
  {
    OffGridLunch(subjects, "08:00");
    OffGridLunch(subjects, "17:00");
  }

  // ---------------------------------------------------------------------------
  // Export

  datatype ExportFormat = Pdf | Excel | Csv

  function Extension(format: ExportFormat): string {
    match format
    case Pdf => "pdf"
    case Excel => "excel"
    case Csv => "csv"
  }

  const FilePrefix: string := "timetable_"

  /** The middle of the file name: lower-cased, each whitespace run an underscore. */
  function NamePart(name: string): string {
    Text.ReplaceSpaceRuns(Text.Lower(name), '_')
  }

  /** `timetable_${name.toLowerCase().replace(/\s+/g, '_')}.${format}` */
  function ExportFileName(name: string, format: ExportFormat): (r: string)
    ensures Text.IsPrefix(FilePrefix, r)
    ensures |r| == |FilePrefix| + |NamePart(name)| + 1 + |Extension(format)|
    ensures r[|FilePrefix|..|r| - |Extension(format)| - 1] == NamePart(name)
    ensures r[|r| - |Extension(format)| - 1..] == "." + Extension(format)
  {
    var r := FilePrefix + NamePart(name) + "." + Extension(format);
    assert r[..|FilePrefix|] == FilePrefix;
    assert r[|FilePrefix|..|r| - |Extension(format)| - 1] == NamePart(name);
    r
  }

  /** The name part holds no whitespace and, underscores aside, exactly the
      lower-cased non-whitespace characters of the name, in order. */
  lemma NamePartShape(name: string)
    ensures forall i :: 0 <= i < |NamePart(name)| ==> !Text.IsSpace(NamePart(name)[i])
    ensures Seqs.Filter(NamePart(name), c => c != '_')
         == Seqs.Filter(Text.Lower(name), c => !Text.IsSpace(c) && c != '_')
    ensures ExportFileName(name, Pdf) == "timetable_" + NamePart(name) + ".pdf"
  {
    Text.ReplaceSpaceRunsNoSpace(Text.Lower(name), '_', false);
    Text.ReplaceSpaceRunsKeepsText(Text.Lower(name), '_', false);
  }

  /** A two-word name gives its lower-cased words joined by one underscore. */
  lemma TwoWordName(a: string, b: string)
    requires a != [] && b != []
    requires forall i :: 0 <= i < |a| ==> !Text.IsSpace(a[i])
    requires forall i :: 0 <= i < |b| ==> !Text.IsSpace(b[i])
    ensures NamePart(a + [' '] + b) == Text.Lower(a) + "_" + Text.Lower(b)
  {
    var la, lb := Text.Lower(a), Text.Lower(b);
    assert Text.Lower(a + [' '] + b) == la + [' '] + lb;
    Text.TwoWordsJoined(la, lb, '_');
  }

  // ---------------------------------------------------------------------------
  // Option lookup

  /** The position of the first option with id `id`, or the length when there is none. */
  function FirstWithId(options: seq<MockApi.TimetableOption>, id: string): (k: nat)
    ensures k <= |options|
    ensures k < |options| ==> options[k].id == id
    ensures forall j :: 0 <= j < k ==> options[j].id != id
  {
    if options == [] then 0
    else if options[0].id == id then 0
    else 1 + FirstWithId(options[1..], id)
  }

  /** `generatedOptions.find(opt => opt.id === selectedOption)`. */
  function FindOption(options: seq<MockApi.TimetableOption>, selected: Option<string>): (r: Option<MockApi.TimetableOption>)
    ensures r.None? <==> selected.None? || forall j :: 0 <= j < |options| ==> options[j].id != selected.value
    ensures r.Some? ==> r.value in options && selected == Some(r.value.id)
  {
    match selected
    case None => None
    case Some(id) =>
      var k := FirstWithId(options, id);
      if k < |options| then Some(options[k]) else None
  }

  // ---------------------------------------------------------------------------
  // The page

  datatype Step = Form | Generating | Selection

  /** Each step renders its own controls, so the form's controls and Submit
      act only on the form step, and "Back to Form", the option cards and
      the export buttons only on the selection step. */
  class GeneratePage {
    var currentStep: Step
    var generatedOptions: seq<MockApi.TimetableOption>
    var selectedOption: Option<string>
    var form: TimetableForm

    /** The subject array never becomes empty: it starts with one row and
        the remove button exists only while there are more. */
    ghost predicate Valid()
      reads this
    {
      |form.subjects| >= 1
    }

    constructor ()
      ensures Valid()
      ensures currentStep == Form && generatedOptions == [] && selectedOption == None && form == DefaultForm
    {
      currentStep := Form;
      generatedOptions := [];
      selectedOption := None;
      form := DefaultForm;
    }

    method EditSettings(branch: Option<string>, semester: Option<string>, classDuration: int, lunchDuration: int, lunchStartTime: string)
      requires Valid()
      requires currentStep == Form
      modifies this`form
      ensures Valid()
      ensures form == TimetableForm(branch, semester, classDuration, lunchDuration, lunchStartTime, old(form.subjects))
    {
      form := TimetableForm(branch, semester, classDuration, lunchDuration, lunchStartTime, form.subjects);
    }

    method EditSubject(index: nat, row: MockApi.SubjectRow)
      requires Valid() && index < |form.subjects|
      requires currentStep == Form
      modifies this`form
      ensures Valid()
      ensures form == old(form).(subjects := old(form.subjects)[index := row])
    {
      form := form.(subjects := form.subjects[index := row]);
    }

    /** "Add Subject". */
    method AddSubject()
      requires Valid()
      requires currentStep == Form
      modifies this`form
      ensures Valid()
      ensures form == old(form).(subjects := old(form.subjects) + [DefaultSubject])
    {
      form := form.(subjects := form.subjects + [DefaultSubject]);
    }

    /** The trash button of row `index`, shown only while there is more than one row. */
    method RemoveSubject(index: nat)
      requires Valid()
      requires currentStep == Form
      modifies this`form
      ensures Valid()
      ensures |old(form.subjects)| > 1 && index < |old(form.subjects)| ==>
        form == old(form).(subjects := old(form.subjects)[..index] + old(form.subjects)[index + 1..])
      ensures !(|old(form.subjects)| > 1 && index < |old(form.subjects)|) ==> form == old(form)
    {
      if |form.subjects| > 1 && index < |form.subjects| {
        form := form.(subjects := form.subjects[..index] + form.subjects[index + 1..]);
      }
    }

    /** `handleSubmit(onSubmit)`: a form the schema rejects stays put; an
        accepted one moves to the generating step. */
    method Submit() returns (issues: seq<Issue>)
      requires Valid()
      requires currentStep == Form
      modifies this`currentStep
      ensures Valid()
      ensures issues == FormIssues(form)
      ensures issues == [] ==> currentStep == Generating
      ensures issues != [] ==> currentStep == Form
    {
      issues := FormIssues(form);
      if issues == [] {
        currentStep := Generating;
      }
    }

    /** The `try` branch of `onSubmit`: the options arrive and the page moves
        to the selection step. */
    method GenerationSucceeded(store: UiStore.UIStore, noteId: string, now: string)
      requires Valid() && store.Valid()
      requires currentStep == Generating
      modifies this`generatedOptions, this`currentStep, store`notifications
      ensures Valid() && store.Valid()
      ensures currentStep == Selection
      ensures |generatedOptions| == 3
      ensures generatedOptions[0].id == "option-1" && generatedOptions[1].id == "option-2"
              && generatedOptions[2].id == "option-3"
      ensures generatedOptions[0].name == "Balanced Distribution" && generatedOptions[1].name == "Morning Intensive"
              && generatedOptions[2].name == "Lab-Theory Optimized"
      ensures generatedOptions[0].efficiency == 95 && generatedOptions[1].efficiency == 88
              && generatedOptions[2].efficiency == 92
      ensures generatedOptions[0].conflicts == 0 && generatedOptions[1].conflicts == 1
              && generatedOptions[2].conflicts == 0
      ensures forall i :: 0 <= i < 3 ==> forall d :: d in generatedOptions[i].schedule <==> d in MockApi.Days
      ensures forall i, d :: 0 <= i < 3 && d in generatedOptions[i].schedule ==>
        generatedOptions[i].schedule[d] == MockApi.Day(form.subjects, form.lunchStartTime)
      ensures store.notifications == UiStore.WithNotification(old(store.notifications),
        UiStore.Notification(noteId, "Timetables Generated",
          GeneratedMessage, UiStore.Success, now))
    {
      var options := MockApi.GenerateTimetable(form.subjects, form.lunchStartTime);
      store.AddNotification("Timetables Generated",
        GeneratedMessage, UiStore.Success, noteId, now);
      generatedOptions := options;
      currentStep := Selection;
    }

    /** The `catch` branch of `onSubmit`: back to the form. */
    method GenerationFailed(store: UiStore.UIStore, noteId: string, now: string)
      requires store.Valid()
      requires currentStep == Generating
      modifies this`currentStep, store`notifications
      ensures store.Valid()
      ensures currentStep == Form
      ensures store.notifications == UiStore.WithNotification(old(store.notifications),
        UiStore.Notification(noteId, "Generation Failed", GenerationFailedMessage, UiStore.Error, now))
    {
      store.AddNotification("Generation Failed", GenerationFailedMessage, UiStore.Error, noteId, now);
      currentStep := Form;
    }

    /** "Back to Form": the options and the selection are kept. */
    method BackToForm()
      requires currentStep == Selection
      modifies this`currentStep
      ensures currentStep == Form
    {
      currentStep := Form;
    }

    /** Clicking an option card. */
    method SelectOption(id: string)
      requires currentStep == Selection
      modifies this`selectedOption
      ensures selectedOption == Some(id)
    {
      selectedOption := Some(id);
    }

    /** `handleExport(format)`: nothing happens unless an option with the
        selected id exists; otherwise two notifications name the file. */
    method HandleExport(format: ExportFormat, store: UiStore.UIStore, startId: string, doneId: string, now: string)
      returns (fileName: Option<string>)
      requires currentStep == Selection
      requires store.Valid()
      modifies store`notifications
      ensures store.Valid()
      ensures fileName.None? <==> FindOption(generatedOptions, selectedOption).None?
      ensures fileName.Some? ==> fileName.value == ExportFileName(FindOption(generatedOptions, selectedOption).value.name, format)
      ensures fileName.None? ==> store.notifications == old(store.notifications)
      ensures fileName.Some? ==> (store.notifications ==
        UiStore.WithNotification(
          UiStore.WithNotification(old(store.notifications),
            UiStore.Notification(startId, "Export Started", "Downloading " + fileName.value + "...", UiStore.Info, now)),
          UiStore.Notification(doneId, "Export Complete", fileName.value + " has been downloaded successfully.", UiStore.Success, now)))
    {
      var selected := FindOption(generatedOptions, selectedOption);
      if selected.None? {
        return None;
      }
      var name := ExportFileName(selected.value.name, format);
      store.AddNotification("Export Started", "Downloading " + name + "...", UiStore.Info, startId, now);
      store.AddNotification("Export Complete", name + " has been downloaded successfully.", UiStore.Success, doneId, now);
      fileName := Some(name);
    }
  }
}
