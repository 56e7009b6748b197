/** The timetable listing of project/app/admin/timetable/view/page.tsx: the
    three-stage filter kept in step with its inputs, delete by id, the
    weekly grid of a timetable and the subject count of its card. */
module TimetableView {
  import opened Wrappers
  import opened Types
  import Seqs
  import Text
  import UiStore
  import Validation

  const DeletedMessage: string := "Timetable has been deleted successfully"

  // ---------------------------------------------------------------------------
  // The grid

  /** The grid's columns. */
  const GridDays: seq<string> := ["Monday", "Tuesday", "Wednesday", "Thursday", "Friday", "Saturday"]

  /** The grid's rows: `Array.from({ length: periodsPerDay }, (_, i) => i + 1)`. */
  function Periods(t: Timetable): (r: seq<int>)
    ensures |r| == t.periodsPerDay
    ensures forall i :: 0 <= i < |r| ==> r[i] == i + 1
  {
    seq(t.periodsPerDay, i => i + 1)
  }

  predicate SlotAt(ts: TimeSlot, day: string, period: int) {
    ts.day == day && ts.period == period
  }

  /** The position of the first slot at (day, period), or the length. */
  function FirstSlot(slots: seq<TimeSlot>, day: string, period: int): (k: nat)
    ensures k <= |slots|
    ensures k < |slots| ==> SlotAt(slots[k], day, period)
    ensures forall j :: 0 <= j < k ==> !SlotAt(slots[j], day, period)
  {
    if slots == [] then 0
    else if SlotAt(slots[0], day, period) then 0
    else 1 + FirstSlot(slots[1..], day, period)
  }

  /** What a grid cell displays. A teacher or room that is missing or empty
      is not shown. */
  datatype Cell =
    | LunchCell
    | SlotCell(title: string, teacher: Option<string>, room: Option<string>)
    | FreeCell

  function Shown(o: Option<string>): Option<string> {
    if o.Some? && o.value != "" then o else None
  }

  /** A found slot's box: `slot.subject?.name || 'Free Period'`. */
  function SlotBox(ts: TimeSlot): Cell {
    SlotCell(if ts.subject.Some? && ts.subject.value.name != "" then ts.subject.value.name else "Free Period",
             Shown(ts.teacher), Shown(ts.room))
  }

  /** The cell at (day, period): lunch first, then the first matching slot,
      then "Free Period". */
  function CellAt(t: Timetable, day: string, period: int): (c: Cell)
    ensures c == LunchCell <==> period == t.lunchPeriod
    ensures c == FreeCell <==> period != t.lunchPeriod && forall i :: 0 <= i < |t.timeSlots| ==> !SlotAt(t.timeSlots[i], day, period)
    ensures c.SlotCell? ==> exists k :: 0 <= k < |t.timeSlots| && SlotAt(t.timeSlots[k], day, period)
                                        && (forall j :: 0 <= j < k ==> !SlotAt(t.timeSlots[j], day, period))
                                        && c == SlotBox(t.timeSlots[k])
  {
    if period == t.lunchPeriod then LunchCell
    else
      var k := FirstSlot(t.timeSlots, day, period);
      if k < |t.timeSlots| then SlotBox(t.timeSlots[k]) else FreeCell
  }

  /** The whole table: row `p` is period `p + 1`, column `d` is `GridDays[d]`. */
  function Grid(t: Timetable): (g: seq<seq<Cell>>)
    ensures |g| == t.periodsPerDay
    ensures forall p :: 0 <= p < |g| ==> |g[p]| == |GridDays|
    ensures forall p, d :: 0 <= p < |g| && 0 <= d < |GridDays| ==> g[p][d] == CellAt(t, GridDays[d], Periods(t)[p])
  {
    seq(t.periodsPerDay, p requires 0 <= p < t.periodsPerDay => seq(|GridDays|, d requires 0 <= d < |GridDays| => CellAt(t, GridDays[d], p + 1)))
  }

  /** A cell shows lunch exactly when its row is the lunch period: the
      whole lunch row when that period is on the grid, no cell at all when
      the lunch period lies past the last period. */
  lemma {:induction false} LunchRow(t: Timetable)
    ensures forall p, d :: 0 <= p < |Grid(t)| && 0 <= d < |GridDays| ==> (Grid(t)[p][d] == LunchCell <==> p + 1 == t.lunchPeriod)
  {
    assert forall p :: 0 <= p < t.periodsPerDay ==> Periods(t)[p] == p + 1;
  }

  /** The timetable settings schema accepts a lunch period past the last
      period, and such a timetable's grid has no lunch row. */
  lemma AcceptedWithoutLunchRow(t: Timetable)
    requires t.periodsPerDay == 4 && t.lunchPeriod == 9 && t.semester == 5 && t.branch != "" && t.stream != ""
    ensures Validation.TimetableSettingsIssues(
              Validation.TimetableSettings(t.branch, t.semester, t.stream, t.periodsPerDay, t.lunchPeriod)) == []
    ensures forall p, d :: 0 <= p < |Grid(t)| && 0 <= d < |GridDays| ==> Grid(t)[p][d] != LunchCell
  {
    LunchRow(t);
  }

  /** The card's count: `timeSlots.filter(ts => ts.subject).length`. */
  function SubjectCount(t: Timetable): (n: nat)
    ensures n <= |t.timeSlots|
    ensures n == |t.timeSlots| <==> forall i :: 0 <= i < |t.timeSlots| ==> t.timeSlots[i].subject.Some?
    ensures n == |Seqs.Filter(t.timeSlots, (ts: TimeSlot) => ts.subject.Some?)|
  {
    Seqs.CountFull(t.timeSlots, (ts: TimeSlot) => ts.subject.Some?);
    Seqs.CountIsFilterLength(t.timeSlots, (ts: TimeSlot) => ts.subject.Some?);
    Seqs.Count(t.timeSlots, (ts: TimeSlot) => ts.subject.Some?)
  }

  // ---------------------------------------------------------------------------
  // The listing filter

  predicate MatchesQuery(t: Timetable, query: string) {
    query == "" || Text.IncludesIgnoreCase(t.branch, query) || Text.IncludesIgnoreCase(t.stream, query)
  }

  predicate MatchesBranch(t: Timetable, branch: string) {
    branch == "all" || t.branch == branch
  }

  /** `tt.semester.toString() === selectedSemester`, or the "all" choice. */
  predicate MatchesSemester(t: Timetable, semester: string) {
    semester == "all" || Text.NatToString(t.semester) == semester
  }

  function QueryIs(query: string): Timetable -> bool { (t: Timetable) => MatchesQuery(t, query) }
  function BranchIs(branch: string): Timetable -> bool { (t: Timetable) => MatchesBranch(t, branch) }
  function SemesterIs(semester: string): Timetable -> bool { (t: Timetable) => MatchesSemester(t, semester) }

  function QueryAndBranch(query: string, branch: string): Timetable -> bool {
    (t: Timetable) => MatchesQuery(t, query) && MatchesBranch(t, branch)
  }

  function Listed(query: string, branch: string, semester: string): Timetable -> bool {
    (t: Timetable) => MatchesQuery(t, query) && MatchesBranch(t, branch) && MatchesSemester(t, semester)
  }

  /** The list `filterTimetables` produces, in order. */
  function FilteredTimetables(all: seq<Timetable>, query: string, branch: string, semester: string): (r: seq<Timetable>)
    ensures Seqs.IsSubsequence(r, all)
    ensures forall t :: multiset(r)[t] == (if Listed(query, branch, semester)(t) then multiset(all)[t] else 0)
  {
    Seqs.FilterSpec(all, Listed(query, branch, semester));
    Seqs.Filter(all, Listed(query, branch, semester))
  }

  /** Semester `n` is selected by exactly the text of `n`. */
  lemma SemesterChoiceExact(t: Timetable, n: nat)
    ensures MatchesSemester(t, Text.NatToString(n)) <==> t.semester == n
  {
    assert Text.IsDigit(Text.NatToString(n)[0]);
    if Text.NatToString(t.semester) == Text.NatToString(n) {
      Text.NatToStringInjective(t.semester, n);
    }
  }

  /** An empty search with both drop-downs on "all" shows every timetable. */
  lemma NoFilterShowsAll(all: seq<Timetable>)
    ensures FilteredTimetables(all, "", "all", "all") == all
  {
    Seqs.FilterKeepsAll(all, Listed("", "all", "all"));
  }

  function HasOtherId(id: string): Timetable -> bool { (t: Timetable) => t.id != id }

  /** `prev.filter(tt => tt.id !== timetableId)`. */
  function WithoutTimetable(all: seq<Timetable>, id: string): (r: seq<Timetable>)
    ensures Seqs.IsSubsequence(r, all)
    ensures forall i :: 0 <= i < |r| ==> r[i].id != id
    ensures forall t: Timetable :: t.id != id ==> multiset(r)[t] == multiset(all)[t]
  {
    Seqs.FilterSpec(all, HasOtherId(id));
    Seqs.Filter(all, HasOtherId(id))
  }

  /** Deleting and then filtering shows what filtering showed, less the
      deleted timetable. */
  lemma DeleteThenFilter(all: seq<Timetable>, id: string, query: string, branch: string, semester: string)
    ensures FilteredTimetables(WithoutTimetable(all, id), query, branch, semester)
         == WithoutTimetable(FilteredTimetables(all, query, branch, semester), id)
  {
    var both := (t: Timetable) => t.id != id && Listed(query, branch, semester)(t);
    Seqs.FilterFilter(all, HasOtherId(id), Listed(query, branch, semester), both);
    Seqs.FilterFilter(all, Listed(query, branch, semester), HasOtherId(id), both);
  }

  // ---------------------------------------------------------------------------
  // The page

  class ViewPage {
    var timetables: seq<Timetable>
    var filteredTimetables: seq<Timetable>
    var searchQuery: string
    var selectedBranch: string
    var selectedSemester: string

    /** The effect on `[timetables, searchQuery, selectedBranch,
        selectedSemester]` keeps the shown list in step with its inputs. */
    ghost predicate Valid()
      reads this
    {
      filteredTimetables == FilteredTimetables(timetables, searchQuery, selectedBranch, selectedSemester)
    }

    constructor ()
      ensures Valid()
      ensures timetables == [] && filteredTimetables == []
      ensures searchQuery == "" && selectedBranch == "all" && selectedSemester == "all"
    {
      timetables := [];
      filteredTimetables := [];
      searchQuery := "";
      selectedBranch := "all";
      selectedSemester := "all";
    }

    /** `filterTimetables`: up to three filters applied in turn. */
    method FilterTimetables()
      modifies this`filteredTimetables
      ensures Valid()
    {
      var filtered := timetables;
      if searchQuery != "" {
        filtered := Seqs.Filter(filtered, QueryIs(searchQuery));
      } else {
        Seqs.FilterKeepsAll(timetables, QueryIs(searchQuery));
      }
      assert filtered == Seqs.Filter(timetables, QueryIs(searchQuery));
      if selectedBranch != "all" {
        Seqs.FilterFilter(timetables, QueryIs(searchQuery), BranchIs(selectedBranch), QueryAndBranch(searchQuery, selectedBranch));
        filtered := Seqs.Filter(filtered, BranchIs(selectedBranch));
      } else {
        Seqs.FilterExtensional(timetables, QueryIs(searchQuery), QueryAndBranch(searchQuery, selectedBranch));
      }
      assert filtered == Seqs.Filter(timetables, QueryAndBranch(searchQuery, selectedBranch));
      var listed := Listed(searchQuery, selectedBranch, selectedSemester);
      if selectedSemester != "all" {
        Seqs.FilterFilter(timetables, QueryAndBranch(searchQuery, selectedBranch), SemesterIs(selectedSemester), listed);
        filtered := Seqs.Filter(filtered, SemesterIs(selectedSemester));
      } else {
        Seqs.FilterExtensional(timetables, QueryAndBranch(searchQuery, selectedBranch), listed);
      }
      filteredTimetables := filtered;
    }

    /** `loadTimetables`: the fetched list replaces the current one. */
    method LoadTimetables(data: seq<Timetable>)
      modifies this`timetables, this`filteredTimetables
      ensures timetables == data && Valid()
    {
      timetables := data;
      FilterTimetables();
    }

    method SetSearchQuery(q: string)
      modifies this`searchQuery, this`filteredTimetables
      ensures searchQuery == q && Valid()
    {
      searchQuery := q;
      FilterTimetables();
    }

    method SetSelectedBranch(b: string)
      modifies this`selectedBranch, this`filteredTimetables
      ensures selectedBranch == b && Valid()
    {
      selectedBranch := b;
      FilterTimetables();
    }

    method SetSelectedSemester(s: string)
      modifies this`selectedSemester, this`filteredTimetables
      ensures selectedSemester == s && Valid()
    {
      selectedSemester := s;
      FilterTimetables();
    }

    /** `handleDelete(id)`: drops every timetable with that id, reports it
        and refreshes the shown list. */
    method HandleDelete(id: string, store: UiStore.UIStore, noteId: string, now: string)
      requires store.Valid()
      modifies this`timetables, this`filteredTimetables, store`notifications
      ensures store.Valid() && Valid()
      ensures timetables == WithoutTimetable(old(timetables), id)
      ensures filteredTimetables == WithoutTimetable(FilteredTimetables(old(timetables), searchQuery, selectedBranch, selectedSemester), id)
      ensures store.notifications == UiStore.WithNotification(old(store.notifications),
        UiStore.Notification(noteId, "Deleted", DeletedMessage, UiStore.Success, now))
    {
      timetables := WithoutTimetable(timetables, id);
      store.AddNotification("Deleted", DeletedMessage, UiStore.Success, noteId, now);
      FilterTimetables();
      DeleteThenFilter(old(timetables), id, searchQuery, selectedBranch, selectedSemester);
    }
  }
}
