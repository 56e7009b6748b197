# sih-front: a Dafny model of the dashboard's logic

sih-front is a Next.js/React dashboard for timetable management in a college.
Administrators, teachers and students use it. Under its pages sits a small
amount of deterministic logic:

- an in-process mock backend, including a placeholder timetable generator;
- a global UI store holding the sidebar flag, the theme and a capped list of
  notifications;
- the zod schemas that validate every form;
- the per-page filters, groupings and counters;
- the step machine of the generation page and its export file name;
- the approve/reject workflow of faculty requests;
- the weekly grid of the timetable viewer;
- the role-filtered navigation of the shared layout.

This project restates that logic in Dafny and proves what it promises. The
modules are:

| module | file | models |
|---|---|---|
| `Types` | types.dfy | users, subjects, time slots, timetables, faculty requests |
| `MockApi` | mock_api.dfy | `login`, `getTimetables`, `submitFacultyRequest`, `generateTimetable`/`generateSchedule` |
| `UiStore` | ui_store.dfy | `useUIStore`: a class whose methods update the sidebar flag, theme and notification list |
| `Validation` | validation.dfy | the five schemas of the shared validation file, each as the list of issues it reports |
| `Settings` | settings.dfy | the password dialog: its schema and its reset behaviour |
| `Profile` | profile.dfy | the profile dialog: three schemas, `getSchema`, `getDefaultValues` |
| `Requests` | requests.dfy | the request review page: filter, tabs, counters, approve/reject |
| `GeneratePage` | generate_page.dfy | the generation page: form schema, step machine, subject rows, export |
| `TimetableView` | view_page.dfy | the listing page: three-stage filter, delete, grid cells, subject count |
| `Faculty`, `Subjects` | faculty.dfy, subjects.dfy | search, department grouping, counters and sums |
| `StudentDashboard` | student_dashboard.dfy | the fixed weekly schedule, teacher search, subject badges |
| `Layout` | layout.dfy | navigation filter, avatar initials, theme toggle, notification badge |
| `Seqs`, `Text`, `Grouping`, `Wrappers` | seqs.dfy, text.dfy, grouping.dfy, wrappers.dfy | the JavaScript array and string built-ins the pages rely on |

Stateful parts of the source are classes whose methods carry `modifies`
clauses: the UI store, and the state of the generation page, the listing page,
the requests page and the settings dialog. Where the source uses a loop, the
model uses a method with loop invariants: the generator's two nested
`forEach` loops and the department `reduce`. Everything else is a function.

## Model

| member | source | states |
|---|---|---|
| `MockApi.MockUser` | project/data/mockData.ts:3-37 | the fixture user returned for a role has that role |
| `MockApi.Login` | project/lib/hooks/useMockApi.ts:71-81 | login succeeds iff the password is "password123", and then returns the fixture user of the requested role; otherwise it fails with "Invalid credentials" |
| `MockApi.LoginIgnoresEmail` | project/lib/hooks/useMockApi.ts:71-81 | the e-mail address never affects the outcome of login |
| `MockApi.GetTimetables` | project/lib/hooks/useMockApi.ts:34-48 | the result keeps the input order, and keeps each timetable exactly as often as the input holds it when it matches a given non-empty branch and a given non-zero semester |
| `MockApi.GetTimetablesSpec` | project/lib/hooks/useMockApi.ts:39-47 | the two filters applied in turn equal one filter by the conjunction of both conditions |
| `MockApi.SubmitFacultyRequest` | project/lib/hooks/useMockApi.ts:99-110 | the stored request has status pending, the given id and time, and every field of the draft unchanged |
| `MockApi.SlotLabel` | project/lib/hooks/useMockApi.ts:129 | a slot's label starts with its start time followed by " - " and ends with ":00" |
| `MockApi.SubjectEntry` | project/lib/hooks/useMockApi.ts:135-142 | a subject slot is labelled with its time; its subject, teacher and type are the rotated row's when set, and never empty otherwise (the fallbacks); its room starts with "Lab-" iff the row's type is lab |
| `MockApi.Day` | project/lib/hooks/useMockApi.ts:126-145 | a day has at most one entry per slot, and exactly one per slot when there is a subject |
| `MockApi.DayPrefix` | project/lib/hooks/useMockApi.ts:126-145 | with at least one subject the first k slots give k entries; without subjects they give at most k |
| `MockApi.DayPrefixStep` | project/lib/hooks/useMockApi.ts:127-144 | each slot appends the lunch entry when its time is the lunch start, otherwise a subject entry when there are subjects, otherwise nothing |
| `MockApi.FillDay` | project/lib/hooks/useMockApi.ts:126-145 | the inner loop builds exactly the day list `Day(subjects, lunchStartTime)` |
| `MockApi.GenerateSchedule` | project/lib/hooks/useMockApi.ts:121-149 | the schedule has exactly the keys Monday..Friday, and every day holds the same list `Day(subjects, lunchStartTime)` |
| `MockApi.GenerateTimetable` | project/lib/hooks/useMockApi.ts:112-177 | there are exactly three options with ids option-1/2/3, their names, efficiency 95/88/92 and conflicts 0/1/0; all three schedules are equal |
| `MockApi.TimeSlotsDistinct` | project/lib/hooks/useMockApi.ts:119 | the eight slot times are pairwise different |
| `MockApi.SlotsDiffer` | project/lib/hooks/useMockApi.ts:119 | two different slot positions hold different times |
| `MockApi.DayPrefixFull` | project/lib/hooks/useMockApi.ts:126-145 | with subjects, entry i of the first k slots is exactly what slot i contributes, in slot order |
| `MockApi.DayEntryAt` | project/lib/hooks/useMockApi.ts:126-143 | with subjects a day has 8 entries; the lunch-start slot is {Lunch Break, '', Cafeteria, lunch}; every other slot i takes subject i mod n with the fallbacks "Subject i+1", "TBD", "theory", and room "Lab-(i+1)" for a lab, otherwise "Room-(i+1)" |
| `MockApi.LunchDoesNotShiftRotation` | project/lib/hooks/useMockApi.ts:126-136 | moving the lunch start leaves every other slot's entry unchanged, because the index counts lunch positions too |
| `MockApi.SlotWithoutSubjects` | project/lib/hooks/useMockApi.ts:127-135 | without subjects a slot gives the lunch entry or nothing |
| `MockApi.SlotsPrefixStep` | project/lib/hooks/useMockApi.ts:119 | the lunch start is among the first k slots iff it is among the first k-1 or is slot k-1, and a slot time does not occur earlier |
| `MockApi.DayPrefixWithoutSubjects` | project/lib/hooks/useMockApi.ts:126-145 | without subjects the first k slots give only the lunch entry, or nothing when the lunch start is not among them |
| `MockApi.DayWithoutSubjects` | project/lib/hooks/useMockApi.ts:126-145 | without subjects a day holds only the lunch entry, or nothing if the lunch start is not one of the eight slots |
| `MockApi.SlotTimeIsHour` | project/lib/hooks/useMockApi.ts:119 | slot i's time is the hour 9+i padded to two digits, followed by ":00" |
| `MockApi.SlotLabelAt` | project/lib/hooks/useMockApi.ts:129-138 | the label of slot i is its time, " - ", the next hour padded to two digits, then ":00" |
| `MockApi.FirstSlotLabel` | project/lib/hooks/useMockApi.ts:129 | the first slot's label is "09:00 - 10:00" |
| `UiStore.WithNotification` | project/lib/stores/uiStore.ts:54-62 | the new entry comes first and the old entries follow in order; the length is min(old + 1, 10) |
| `UiStore.WithoutNotification` | project/lib/stores/uiStore.ts:65-69 | no entry with the id remains; all other entries stay in order, with their multiplicities |
| `UiStore.AddToFullDropsOldest` | project/lib/stores/uiStore.ts:61 | adding to a full list drops the oldest entry and keeps the length at ten |
| `UiStore.AddKeepsCap` | project/lib/stores/uiStore.ts:61 | the list never exceeds ten entries; below the cap nothing is dropped |
| `UiStore.RemoveAbsentIsNoOp` | project/lib/stores/uiStore.ts:65-69 | removing an id no entry carries changes nothing |
| `UiStore.RemoveIdempotent` | project/lib/stores/uiStore.ts:65-69 | removing the same id twice equals removing it once |
| `UiStore.UIStore.constructor` | project/lib/stores/uiStore.ts:22-40 | the store starts with the sidebar open, the light theme and the two notifications "1" and "2" |
| `UiStore.UIStore.SetSidebarOpen` | project/lib/stores/uiStore.ts:42-44 | sets the sidebar flag and changes no other field |
| `UiStore.UIStore.ToggleSidebar` | project/lib/stores/uiStore.ts:46-48 | negates the sidebar flag and changes no other field |
| `UiStore.UIStore.SetTheme` | project/lib/stores/uiStore.ts:50-52 | sets the theme and changes no other field |
| `UiStore.UIStore.AddNotification` | project/lib/stores/uiStore.ts:54-63 | the list becomes `WithNotification` of the old list, so the cap of ten is kept |
| `UiStore.UIStore.RemoveNotification` | project/lib/stores/uiStore.ts:65-69 | the list becomes `WithoutNotification` of the old list, so the cap is kept |
| `Validation.MinLength` | project/lib/validations/auth.ts:5 | `min(n, message)` reports nothing iff the length is at least n; otherwise it reports the message at the field |
| `Validation.Bounded` | project/lib/validations/auth.ts:16-17 | a number check reports nothing iff lo ≤ x ≤ hi; otherwise it reports the too-small or the too-big message |
| `Validation.InRange` | project/lib/validations/auth.ts:16-17 | the library-worded range check reports nothing iff the value is in range |
| `Validation.AtLeast` | project/lib/validations/auth.ts:45 | the lower-bound-only check reports nothing iff the value reaches the bound |
| `Validation.EmailCheck` | project/lib/validations/auth.ts:4 | the e-mail check reports nothing iff the address is accepted |
| `Validation.OneOf` | project/lib/validations/auth.ts:6 | an enum check reports nothing iff the value is one of the options |
| `Validation.PasswordsMatch` | project/lib/validations/auth.ts:18-21 | the refinement reports "Passwords don't match" at confirmPassword iff the two fields differ |
| `Validation.LoginIssues` | project/lib/validations/auth.ts:3-7 | login is accepted iff the e-mail is valid, the password has at least 6 characters and the role is student, teacher or admin |
| `Validation.StudentFieldIssues` | project/lib/validations/auth.ts:9-17 | the field checks pass iff name ≥ 2, valid e-mail, phone ≥ 10, password ≥ 6, a stream, year in 1..4 and semester in 1..8; none is reported at confirmPassword |
| `Validation.StudentRegistrationIssues` | project/lib/validations/auth.ts:9-21 | accepted iff the field checks pass and the passwords match; the mismatch message appears iff the passwords differ |
| `Validation.TeacherRegistrationIssues` | project/lib/validations/auth.ts:23-32 | accepted iff name ≥ 2, valid e-mail, a teacher id, password ≥ 6 and matching passwords; the mismatch message appears iff they differ |
| `Validation.FacultyRequestIssues` | project/lib/validations/auth.ts:34-38 | accepted iff there is a date, the reason has at least 10 characters and the type is leave or special_class |
| `Validation.TimetableSettingsIssues` | project/lib/validations/auth.ts:40-46 | accepted iff branch and stream are present, semester is in 1..8, periodsPerDay in 4..10 and lunchPeriod ≥ 1 |
| `Validation.LunchAfterLastPeriodAccepted` | project/lib/validations/auth.ts:44-45 | nothing ties the lunch period to periodsPerDay: lunch period 9 with 4 periods is accepted |
| `Settings.SettingsIssues` | project/components/ui/settings-modal.tsx:16-23 | accepted iff all three passwords have at least 6 characters and new == confirm; "New passwords don't match" appears iff new ≠ confirm |
| `Settings.CurrentPasswordNotCompared` | project/components/ui/settings-modal.tsx:16-23 | the current password is only length-checked: swapping it for any other of ≥ 6 characters never changes the verdict |
| `Settings.SettingsModal.constructor` | project/components/ui/settings-modal.tsx:39-46 | the dialog starts empty and closed |
| `Settings.SettingsModal.Edit` | project/components/ui/settings-modal.tsx:39-46 | typing replaces the form values |
| `Settings.SettingsModal.Submit` | project/components/ui/settings-modal.tsx:48-63 | the schema runs first; an accepted form is reset, the dialog closes and "Password Updated" is posted; a rejected one changes nothing |
| `Settings.SettingsModal.Open` | project/components/ui/settings-modal.tsx:27-32 | the parent's `isOpen` prop opens the dialog and keeps the fields |
| `Settings.SettingsModal.Close` | project/components/ui/settings-modal.tsx:65-68 | closing always resets the form and closes the dialog |
| `Profile.GetSchema` | project/components/ui/profile-modal.tsx:60-71 | the teacher or admin schema iff the signed-in user has that role; the student schema otherwise, including with nobody signed in |
| `Profile.Username` | project/components/ui/profile-modal.tsx:82-103 | the default username is the prefix of the e-mail before the first '@', or the whole e-mail when it has no '@' |
| `Profile.OrNumber` | project/components/ui/profile-modal.tsx:85-86 | `x \|\| fallback` on a number keeps x unless it is 0 |
| `Profile.GetDefaultValues` | project/components/ui/profile-modal.tsx:73-109 | the empty object iff nobody is signed in; otherwise name and e-mail are copied and the username is derived from the e-mail |
| `Profile.DefaultsMatchSchema` | project/components/ui/profile-modal.tsx:60-109 | the defaults of a signed-in user have the shape of the schema `getSchema` picks |
| `Profile.DefaultFields` | project/components/ui/profile-modal.tsx:83-104 | a student gets a student profile with enrollmentNumber from studentId, the stream copied, and year and semester copied or 1 when unset; a teacher gets a teacher profile with the department copied, 'Professor' and an empty office; an admin gets an admin profile with 'Administrator' |
| `Profile.ProfileIssues` | project/components/ui/profile-modal.tsx:20-44 | accepted iff name ≥ 2, valid e-mail, username ≥ 3, plus each role's own fields; the username message appears iff it is shorter than 3 |
| `Requests.FilteredRequests` | project/app/admin/requests/page.tsx:52-57 | keeps, in order and with multiplicity, exactly the requests whose teacher name or reason contains the query ignoring case and whose status passes the filter |
| `Requests.EmptySearchListsAll` | project/app/admin/requests/page.tsx:52-57 | an empty query with 'all' lists every request |
| `Requests.StatusTab` | project/app/admin/requests/page.tsx:374-376 | a status tab lists, in order, exactly the requests with that status, ignoring the search box |
| `Requests.Stats` | project/app/admin/requests/page.tsx:59-64 | total is the length; each counter is its tab's length; pending + approved + rejected == total |
| `Requests.StatusCountsPartition` | project/app/admin/requests/page.tsx:59-64 | the three status counts add up to the length (project/types/index.ts:75 has three statuses) |
| `Requests.WithStatus` | project/app/admin/requests/page.tsx:67-69 | same length; requests with the id get the new status and keep all other fields; all others are unchanged |
| `Requests.WithStatusIdempotent` | project/app/admin/requests/page.tsx:66-86 | deciding the same id twice equals deciding it once |
| `Requests.DecidedIsTerminal` | project/app/admin/requests/page.tsx:443-445 | with unique ids, a decision offered only on a pending request (the buttons at lines 310 and 443) never changes an approved or rejected one |
| `Requests.ApproveMovesCounter` | project/app/admin/requests/page.tsx:59-75 | approving a pending request moves one from the pending to the approved counter, leaving total and rejected unchanged |
| `Requests.RejectMovesCounter` | project/app/admin/requests/page.tsx:59-86 | rejecting a pending request moves one from the pending to the rejected counter, leaving total and approved unchanged |
| `Requests.CountAfterDecision` | project/app/admin/requests/page.tsx:59-86 | deciding a pending request with a unique id: each status count is the old count, +1 for the decision and -1 for pending |
| `Requests.WithStatusAbsentId` | project/app/admin/requests/page.tsx:67-69 | deciding an id no request carries changes nothing |
| `Requests.RequestsPage.constructor` | project/app/admin/requests/page.tsx:35-37 | the page starts with no requests, an empty search and the 'all' filter |
| `Requests.RequestsPage.LoadRequests` | project/app/admin/requests/page.tsx:40-50 | the mount effect's load replaces the list with the fetched requests |
| `Requests.RequestsPage.Shown` | project/app/admin/requests/page.tsx:52-57 | the shown list keeps the page's requests in order, each exactly as often as before when it matches the current search and status filter, and never otherwise |
| `Requests.RequestsPage.SetSearchQuery` | project/app/admin/requests/page.tsx:36 | sets the query only |
| `Requests.RequestsPage.SetStatusFilter` | project/app/admin/requests/page.tsx:37 | sets the status filter only |
| `Requests.RequestsPage.HandleApprove` | project/app/admin/requests/page.tsx:66-75 | the list becomes `WithStatus(old, id, approved)` and "Request Approved" is posted as a success |
| `Requests.RequestsPage.HandleReject` | project/app/admin/requests/page.tsx:77-86 | the list becomes `WithStatus(old, id, rejected)` and "Request Rejected" is posted as info |
| `GeneratePage.SubjectRowIssues` | project/app/admin/timetable/generate/page.tsx:44-48 | a row is accepted iff name and teacher are present, hours are in 1..10 and the type is theory, lab or tutorial |
| `GeneratePage.SubjectsIssues` | project/app/admin/timetable/generate/page.tsx:44-49 | the rows report nothing iff every row is valid; every row issue sits under a `subjects.` path |
| `GeneratePage.RequiredMinLength` | project/app/admin/timetable/generate/page.tsx:39-40 | a drop-down string with a minimum length: a missing value reports "Required" and never the field's own message; a chosen value shorter than the minimum reports that message; nothing is reported iff a long enough value is chosen |
| `GeneratePage.TimingIssues` | project/app/admin/timetable/generate/page.tsx:41-43 | the durations and lunch start pass iff classDuration is in 30..180, lunchDuration in 30..120 and a lunch start is set |
| `GeneratePage.SettingsIssues` | project/app/admin/timetable/generate/page.tsx:39-43 | accepted iff branch and semester are chosen and non-empty, classDuration is in 30..180, lunchDuration in 30..120 and a lunch start is set; "Required" at branch iff no branch was chosen, "Branch is required" iff the chosen branch is empty; the same two for the semester |
| `GeneratePage.ArrayIssues` | project/app/admin/timetable/generate/page.tsx:44-49 | the subject array passes iff it has at least one row and every row is valid; "At least one subject is required" iff it is empty; every issue is at `subjects` or under a `subjects.` row path |
| `GeneratePage.FormIssues` | project/app/admin/timetable/generate/page.tsx:38-50 | the form is accepted iff its settings are valid, there is at least one subject and every row is valid; "At least one subject is required" iff the subject array is empty; the branch and semester messages appear exactly as in `SettingsIssues` |
| `GeneratePage.DefaultFormRejected` | project/app/admin/timetable/generate/page.tsx:115-122 | the untouched form is rejected: branch and semester are missing from the default values, so each reports "Required" and neither reports its schema message |
| `GeneratePage.OffGridLunch` | project/app/admin/timetable/generate/page.tsx:76-78 | a lunch start outside the generator's slots gives no lunch entry: every slot holds its subject, or the day is empty |
| `GeneratePage.OffGridChoices` | project/app/admin/timetable/generate/page.tsx:76-78 | 08:00 and 17:00 are offered but yield days with no lunch break (project/lib/hooks/useMockApi.ts:119,127) |
| `GeneratePage.ExportFileName` | project/app/admin/timetable/generate/page.tsx:177 | the file name is "timetable_", then the name part, then "." and the format's extension, with nothing else in between |
| `GeneratePage.NamePartShape` | project/app/admin/timetable/generate/page.tsx:177 | the name part of the file name has no whitespace and, underscores aside, exactly the lower-cased non-whitespace characters of the name, in order |
| `GeneratePage.TwoWordName` | project/app/admin/timetable/generate/page.tsx:177 | a two-word name gives the lower-cased words joined by one underscore |
| `GeneratePage.FirstWithId` | project/app/admin/timetable/generate/page.tsx:173 | the index of the first option with the id, or the length when there is none |
| `GeneratePage.FindOption` | project/app/admin/timetable/generate/page.tsx:173 | none iff nothing is selected or no option has the selected id; otherwise an option carrying that id |
| `GeneratePage.GeneratePage.constructor` | project/app/admin/timetable/generate/page.tsx:101-123 | the page starts on the form step with no options, no selection and the default form |
| `GeneratePage.GeneratePage.EditSettings` | project/app/admin/timetable/generate/page.tsx:106-123 | on the form step, typing or choosing replaces the scalar fields and keeps the subject rows; a drop-down stays `None` until an option is chosen |
| `GeneratePage.GeneratePage.EditSubject` | project/app/admin/timetable/generate/page.tsx:350-356 | on the form step, typing replaces one subject row |
| `GeneratePage.GeneratePage.AddSubject` | project/app/admin/timetable/generate/page.tsx:342 | on the form step, appends {'', '', 3, theory} |
| `GeneratePage.GeneratePage.RemoveSubject` | project/app/admin/timetable/generate/page.tsx:359-368 | on the form step, removes row i only when more than one row exists, so at least one row always remains |
| `GeneratePage.GeneratePage.Submit` | project/app/admin/timetable/generate/page.tsx:130-131 | on the form step, an accepted form moves to 'generating' and a rejected one stays on 'form' |
| `GeneratePage.GeneratePage.GenerationSucceeded` | project/app/admin/timetable/generate/page.tsx:145-160 | from 'generating' the page moves to 'selection' holding the generator's three options: ids option-1..3, names "Balanced Distribution", "Morning Intensive", "Lab-Theory Optimized", efficiency 95/88/92, conflicts 0/1/0, each schedule giving every weekday the generated day; and it posts "Timetables Generated" |
| `GeneratePage.GeneratePage.GenerationFailed` | project/app/admin/timetable/generate/page.tsx:161-169 | from 'generating' the page returns to 'form' and posts "Generation Failed" |
| `GeneratePage.GeneratePage.BackToForm` | project/app/admin/timetable/generate/page.tsx:494 | on the selection step, "Back to Form" sets the step to 'form' |
| `GeneratePage.GeneratePage.SelectOption` | project/app/admin/timetable/generate/page.tsx:531 | on the selection step, clicking a card selects its id |
| `GeneratePage.GeneratePage.HandleExport` | project/app/admin/timetable/generate/page.tsx:172-193 | on the selection step, nothing happens iff no option has the selected id; otherwise the file name is "timetable_" + name part + "." + format, and the two notifications are posted in order |
| `TimetableView.Periods` | project/app/admin/timetable/view/page.tsx:80 | the rows are 1..periodsPerDay |
| `TimetableView.FirstSlot` | project/app/admin/timetable/view/page.tsx:127-129 | `find`: the first slot at (day, period), or none |
| `TimetableView.CellAt` | project/app/admin/timetable/view/page.tsx:126-164 | lunch iff the period is the lunch period; free iff it is not and no slot matches; otherwise the first matching slot's box |
| `TimetableView.Grid` | project/app/admin/timetable/view/page.tsx:79-164 | periodsPerDay rows of six cells (Monday..Saturday), each cell given by `CellAt` |
| `TimetableView.LunchRow` | project/app/admin/timetable/view/page.tsx:131-140 | a grid cell shows lunch exactly when its row is the lunch period |
| `TimetableView.AcceptedWithoutLunchRow` | project/app/admin/timetable/view/page.tsx:131 | a timetable the settings schema accepts can have no lunch row at all (project/lib/validations/auth.ts:44-45) |
| `TimetableView.SubjectCount` | project/app/admin/timetable/view/page.tsx:438 | the count is the number of slots with a subject, at most the slot count, and equal to it iff every slot has one |
| `TimetableView.FilteredTimetables` | project/app/admin/timetable/view/page.tsx:210-229 | keeps, in order and with multiplicity, exactly the timetables matching the query, branch and semester conditions |
| `TimetableView.SemesterChoiceExact` | project/app/admin/timetable/view/page.tsx:226 | the semester text n selects exactly the timetables of semester n |
| `TimetableView.NoFilterShowsAll` | project/app/admin/timetable/view/page.tsx:210-229 | an empty query with both drop-downs on 'all' shows every timetable |
| `TimetableView.WithoutTimetable` | project/app/admin/timetable/view/page.tsx:237 | deletion removes every timetable with the id and keeps the others in order |
| `TimetableView.DeleteThenFilter` | project/app/admin/timetable/view/page.tsx:193-237 | deleting then filtering equals filtering then deleting |
| `TimetableView.ViewPage.constructor` | project/app/admin/timetable/view/page.tsx:182-186 | the page starts empty with the query '' and both drop-downs on 'all' |
| `TimetableView.ViewPage.FilterTimetables` | project/app/admin/timetable/view/page.tsx:210-230 | the three filters applied in turn give `FilteredTimetables` of the inputs |
| `TimetableView.ViewPage.LoadTimetables` | project/app/admin/timetable/view/page.tsx:197-208 | the fetched list replaces the stored one and the shown list follows |
| `TimetableView.ViewPage.SetSearchQuery` | project/app/admin/timetable/view/page.tsx:184-195 | sets the query and refreshes the shown list |
| `TimetableView.ViewPage.SetSelectedBranch` | project/app/admin/timetable/view/page.tsx:185-195 | sets the branch and refreshes the shown list |
| `TimetableView.ViewPage.SetSelectedSemester` | project/app/admin/timetable/view/page.tsx:186-195 | sets the semester and refreshes the shown list |
| `TimetableView.ViewPage.HandleDelete` | project/app/admin/timetable/view/page.tsx:232-242 | removes the id, posts "Deleted", and the shown list becomes the old shown list without the id |
| `Grouping.GroupBy` | project/app/admin/faculty/page.tsx:100-103 | the reduce gives exactly the listed keys, each mapped to the items with that key, in order |
| `Grouping.GroupMembers` | project/app/admin/faculty/page.tsx:101 | every grouped item carries its group's key |
| `Grouping.GroupSizesAddUp` | project/app/admin/subjects/page.tsx:65-68 | with distinct keys the group sizes add up to the number of items whose key is listed, so at most the item count |
| `Faculty.FilteredFaculty` | project/app/admin/faculty/page.tsx:90-98 | keeps, in order and with multiplicity, exactly the members whose name, e-mail or some subject contains the query ignoring case, and whose department passes the filter |
| `Faculty.EmptySearchListsAll` | project/app/admin/faculty/page.tsx:90-98 | an empty query with 'all' lists the whole faculty |
| `Faculty.FacultyByDepartment` | project/app/admin/faculty/page.tsx:33-103 | the keys are exactly the six departments, each mapped to its members in order and with multiplicity |
| `Faculty.UnlistedDepartmentInNoGroup` | project/app/admin/faculty/page.tsx:100-103 | a member of an unlisted department is in no group |
| `Faculty.Stats` | project/app/admin/faculty/page.tsx:105-108 | total is the length; available and busy count exact matches; available + busy ≤ total |
| `Faculty.DesignationCount` | project/app/admin/faculty/page.tsx:460 | a tile counts the members with exactly that designation |
| `Faculty.DesignationTilesBounded` | project/app/admin/faculty/page.tsx:460-482 | the three tiles together count at most the whole faculty |
| `Subjects.FilteredSubjects` | project/app/admin/subjects/page.tsx:57-63 | keeps, in order and with multiplicity, exactly the subjects whose name, code or teacher contains the query ignoring case, and whose department passes the filter |
| `Subjects.EmptySearchListsAll` | project/app/admin/subjects/page.tsx:57-63 | an empty query with 'all' lists every subject |
| `Subjects.SubjectsByDepartment` | project/app/admin/subjects/page.tsx:29-68 | the keys are exactly the six departments, each mapped to its subjects in order |
| `Subjects.DepartmentListsBounded` | project/app/admin/subjects/page.tsx:65-309 | the department lists together hold at most the "Total Subjects" count |
| `Subjects.TotalsNonNegative` | project/app/admin/subjects/page.tsx:319-330 | non-negative credits and hours give non-negative totals |
| `Subjects.TotalCredits` | project/app/admin/subjects/page.tsx:319 | the credits reduce sum: 0 for no subjects and the one subject's credits for one (additivity is `TotalsOfAppend`) |
| `Subjects.WeeklyHours` | project/app/admin/subjects/page.tsx:330 | the hours reduce sum: 0 for no subjects and the one subject's hours for one |
| `Subjects.TotalsOfAppend` | project/app/admin/subjects/page.tsx:319-330 | adding a subject adds its credits and hours to the totals |
| `StudentDashboard.TodayClasses` | project/app/student/dashboard/page.tsx:70 | today's classes are always Monday's list |
| `StudentDashboard.EveryDayHasLunch` | project/app/student/dashboard/page.tsx:33-68 | the schedule covers Monday..Friday; every day has the 12:00-13:00 lunch break as its fourth entry, and that is its only break |
| `StudentDashboard.FilteredTeachers` | project/app/student/dashboard/page.tsx:99-105 | keeps, in order and with multiplicity, exactly the teachers whose name, department or some subject contains the query ignoring case |
| `StudentDashboard.EmptySearchListsAll` | project/app/student/dashboard/page.tsx:99-105 | an empty query lists every teacher |
| `StudentDashboard.SubjectBadges` | project/app/student/dashboard/page.tsx:374-383 | up to two subjects are shown as they are; with more, the first two and then "+k more" |
| `StudentDashboard.MoreBadgeCountsHidden` | project/app/student/dashboard/page.tsx:379-381 | reading the number back from "+k more" gives the subject count minus two |
| `Layout.FilteredNavigation` | project/components/layouts/DashboardLayout.tsx:145-147 | nothing without a user; otherwise, in menu order and with multiplicity, exactly the items listing the user's role |
| `Layout.NavigationColumn` | project/components/layouts/DashboardLayout.tsx:57-125 | the roles column of `navigation`, read off its eleven entries |
| `Layout.AdminItems` | project/components/layouts/DashboardLayout.tsx:57-125 | seven menu entries list admin |
| `Layout.TeacherItems` | project/components/layouts/DashboardLayout.tsx:57-125 | two menu entries list teacher |
| `Layout.StudentItems` | project/components/layouts/DashboardLayout.tsx:57-125 | two menu entries list student |
| `Layout.CountByRoles` | project/components/layouts/DashboardLayout.tsx:145-147 | the number of items open to a role is the number of roles-column entries listing it |
| `Layout.MenuSizesOf` | project/components/layouts/DashboardLayout.tsx:145-147 | any menu with the roles column of `navigation` shows an administrator 7 items and a teacher or student 2 |
| `Layout.MenuSizes` | project/components/layouts/DashboardLayout.tsx:57-147 | an administrator sees 7 items; a teacher and a student see 2 each |
| `Layout.OnlyRequestsHaveBadge` | project/components/layouts/DashboardLayout.tsx:88-94 | only "Faculty Requests" has a badge, and it reads "12" |
| `Layout.Initials` | project/components/layouts/DashboardLayout.tsx:266 | the initials (also at line 385) are the upper-cased first characters of the space-separated words; no longer than the name; no spaces |
| `Layout.ToggleTheme` | project/components/layouts/DashboardLayout.tsx:317 | the toggle yields light or dark, always different from the current theme |
| `Layout.ToggleTwiceRestores` | project/components/layouts/DashboardLayout.tsx:317 | toggling twice from light or dark restores it |
| `Layout.NotificationBadge` | project/components/layouts/DashboardLayout.tsx:326-330 | the badge (also at lines 231-235) is hidden iff there are no notifications, and otherwise shows their number |
| `Layout.BadgeAtMostTen` | project/components/layouts/DashboardLayout.tsx:231-235 | with the store's cap the badge never shows more than ten (project/lib/stores/uiStore.ts:61) |
| `Text.Lower` | project/app/admin/requests/page.tsx:53-54 | `toLowerCase` keeps the length and lower-cases each ASCII capital |
| `Text.Upper` | project/components/layouts/DashboardLayout.tsx:266 | `toUpperCase` keeps the length and upper-cases each ASCII small letter |
| `Text.ContainsAt` | project/app/admin/requests/page.tsx:53-54 | `includes` holds iff the needle occurs at some position |
| `Text.EmptyNeedleMatches` | project/app/admin/requests/page.tsx:53-54 | every string includes the empty query |
| `Text.SplitHead` | project/components/ui/profile-modal.tsx:82 | the first part of `split` is a prefix without the separator, ending at the end or at a separator |
| `Text.FirstCharsOfSplit` | project/components/layouts/DashboardLayout.tsx:266 | the first characters of the split parts are the word starts of the string |
| `Text.ParseIntOfNatToString` | project/lib/hooks/useMockApi.ts:129 | `parseInt` reads back the number a decimal string was printed from |
| `Text.TwoDigitRoundTrip` | project/lib/hooks/useMockApi.ts:129 | `parseInt` of a two-digit zero-padded hour followed by text gives the hour |
| `Text.PadStart` | project/lib/hooks/useMockApi.ts:129 | `padStart` pads on the left to the width, and leaves long strings alone |
| `Text.ReplaceSpaceRunsNoSpace` | project/app/admin/timetable/generate/page.tsx:177 | `replace(/\s+/g, fill)` leaves no whitespace |
| `Text.ReplaceSpaceRunsKeepsText` | project/app/admin/timetable/generate/page.tsx:177 | apart from the fill characters, the replacement keeps exactly the non-whitespace characters, in order |
| `Seqs.FilterSpec` | project/app/admin/requests/page.tsx:52-57 | `filter` keeps order, and keeps each element as often as the input holds it exactly when the predicate holds |
| `Seqs.FilterFilter` | project/app/admin/timetable/view/page.tsx:210-229 | two filters in turn equal one filter by their conjunction |
| `Seqs.FilterIdempotent` | project/lib/stores/uiStore.ts:67 | filtering twice by the same predicate equals filtering once |
| `Seqs.CountDisjoint` | project/app/admin/requests/page.tsx:61-63 | counts of predicates that never hold together add up |

## Left out

- Simulated latency (`await delay(...)`, the `setTimeout` before the selection step), the `loading` flags and the progress bar are not modelled. They change no value.
- Random ids (`Math.random()`) and clock readings (`new Date().toISOString()`) are parameters of the operations that use them.
- The e-mail format check of the validation library is a parameter, `isEmail`. A missing optional string is written as "" and a missing number as 0. zod's own message texts are modelled for the checks this model reports, but zod's full error objects are not.
- `Validation.MinLength`, `Layout.Initials` and the schemas built on `MinLength` (`Validation.LoginIssues`, `Validation.StudentFieldIssues`, `Validation.StudentRegistrationIssues`, `Validation.TeacherRegistrationIssues`, `Validation.FacultyRequestIssues`, `Settings.SettingsIssues`, `Profile.ProfileIssues`) count a string's length, and take `n[0]`, in Unicode code points. JavaScript counts UTF-16 code units. The model differs from the source only for characters outside the Basic Multilingual Plane: "😀😀😀" has length 6 in JavaScript and 3 here, and the initial of "😀" is a lone surrogate in JavaScript.
- Case folding in `toLowerCase`/`toUpperCase` is modelled for ASCII letters only. Unicode case mapping is not part of this model.
- `facultyStats.avgExperience` is left out: it uses `parseInt` on free text and floating-point `Math.round` of a division that is NaN for an empty list.
- JSX rendering, charts, animations, icons, the open/close state of the dialogs other than the settings dialog (whose `Open` and `Close` are modelled), and the router (`router.push`) are not modelled.
- The listing page's `handleExport` only posts a notification and downloads nothing; it is not modelled.
- `GeneratePage.GeneratePage.HandleExport`: the second notification is posted 2 seconds later in the source; the model posts both at once, in the same order.
- `GeneratePage.GeneratePage.GenerationFailed`: the mock generator never throws, so this branch cannot be reached with the mock backend. It is modelled as a separate method.
- `Validation.StudentFieldIssues`, `Validation.TimetableSettingsIssues`, `GeneratePage.SettingsIssues`, `GeneratePage.TimingIssues`, `GeneratePage.SubjectRowIssues` and `Profile.ProfileIssues` take the schema's numbers as integers. A JavaScript number can also be fractional or NaN; those inputs are not covered (zod's `min`/`max` on NaN is not modelled).
- `GeneratePage.GeneratePage.EditSettings` and `EditSubject` stand for react-hook-form's field registration. The form library itself is not part of this model.
- Fixture data (mock timetables, requests, faculty, subjects, teachers) is passed in as a parameter, except the fixture users and the student's weekly schedule, which are constants. The avatar URLs are constants with no property proved.
- The authentication store (`useAuthStore`), the login/registration pages, the dashboards other than the student's, and the analytics page are not part of this model.
- `MockApi.GetTimetables`: the source's `if (semester)` also skips NaN; the model's semester is an integer, so only 0 and a missing value skip the filter.
- `Layout.ToggleTheme`: next-themes may report a theme other than light or dark (for instance "system"). Any value other than "dark" toggles to "dark", as in the source.
