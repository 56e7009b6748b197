/** The subjects page of project/app/admin/subjects/page.tsx: the search and
    department filter, the grouping by department and the totals. */
module Subjects {
  import opened Types
  import Seqs
  import Text
  import Grouping

  predicate MatchesSearch(s: Subject, query: string) {
    Text.IncludesIgnoreCase(s.name, query) || Text.IncludesIgnoreCase(s.code, query) || Text.IncludesIgnoreCase(s.teacher, query)
  }

  predicate MatchesDepartment(s: Subject, department: string) {
    department == "all" || s.department == department
  }

  function Listed(query: string, department: string): Subject -> bool {
    (s: Subject) => MatchesSearch(s, query) && MatchesDepartment(s, department)
  }

  /** `filteredSubjects`, in order. */
  function FilteredSubjects(subjects: seq<Subject>, query: string, department: string): (r: seq<Subject>)
    ensures Seqs.IsSubsequence(r, subjects)
    ensures forall x :: multiset(r)[x] == (if Listed(query, department)(x) then multiset(subjects)[x] else 0)
  {
    Seqs.FilterSpec(subjects, Listed(query, department));
    Seqs.Filter(subjects, Listed(query, department))
  }

  lemma EmptySearchListsAll(subjects: seq<Subject>)
    ensures FilteredSubjects(subjects, "", "all") == subjects
  {
    forall i | 0 <= i < |subjects| ensures Listed("", "all")(subjects[i]) {
      Text.EmptyNeedleMatches(subjects[i].name);
    }
    Seqs.FilterKeepsAll(subjects, Listed("", "all"));
  }

  function Department(s: Subject): string { s.department }

  /** `subjectsByDepartment`: the six departments, each with its subjects in order. */
  method SubjectsByDepartment(subjects: seq<Subject>) returns (groups: map<string, seq<Subject>>)
    ensures forall d :: d in groups <==> d in Departments
    ensures forall d :: d in groups ==> groups[d] == Seqs.Filter(subjects, Grouping.KeyIs(Department, d))
    ensures forall d :: d in groups ==> Seqs.IsSubsequence(groups[d], subjects)
    ensures forall d, x :: d in groups && x in groups[d] ==> x.department == d
  {
    groups := Grouping.GroupBy(Departments, subjects, Department);
    forall d | d in groups
      ensures Seqs.IsSubsequence(groups[d], subjects)
      ensures forall x :: x in groups[d] ==> x.department == d
    {
      var keep := Grouping.KeyIs(Department, d);
      Seqs.FilterSpec(subjects, keep);
      forall x ensures keep(x) == (x.department == d) { assert keep(x) == (Department(x) == d); }
    }
  }

  /** The per-department lists together hold at most the subjects counted
      on the "Total Subjects" tile. */
  lemma DepartmentListsBounded(subjects: seq<Subject>)
    ensures Seqs.Sum(Departments, Grouping.GroupSize(subjects, Department)) <= |subjects|
  {
    Grouping.GroupSizesAddUp(Departments, subjects, Department);
  }

  function Credits(s: Subject): int { s.credits }
  function Hours(s: Subject): int { s.hoursPerWeek }

  /** "Total Credits" and "Weekly Hours": the reduce sums starting from 0. */
  function TotalCredits(subjects: seq<Subject>): (n: int)
    ensures subjects == [] ==> n == 0
    ensures |subjects| == 1 ==> n == subjects[0].credits
  {
    assert |subjects| == 1 ==> Seqs.Sum(subjects[1..], Credits) == 0;
    Seqs.Sum(subjects, Credits)
  }

  function WeeklyHours(subjects: seq<Subject>): (n: int)
    ensures subjects == [] ==> n == 0
    ensures |subjects| == 1 ==> n == subjects[0].hoursPerWeek
  {
    assert |subjects| == 1 ==> Seqs.Sum(subjects[1..], Hours) == 0;
    Seqs.Sum(subjects, Hours)
  }

  /** Non-negative credits and hours give non-negative totals. */
  lemma TotalsNonNegative(subjects: seq<Subject>)
    requires forall i :: 0 <= i < |subjects| ==> subjects[i].credits >= 0 && subjects[i].hoursPerWeek >= 0
    ensures TotalCredits(subjects) >= 0 && WeeklyHours(subjects) >= 0
  {
    Seqs.SumNonNegative(subjects, Credits);
    Seqs.SumNonNegative(subjects, Hours);
  }

  /** Adding a subject adds its credits and hours to the totals. */
  lemma TotalsOfAppend(subjects: seq<Subject>, s: Subject)
    ensures TotalCredits(subjects + [s]) == TotalCredits(subjects) + s.credits
    ensures WeeklyHours(subjects + [s]) == WeeklyHours(subjects) + s.hoursPerWeek
  {
    Seqs.SumAppend(subjects, [s], Credits);
    Seqs.SumAppend(subjects, [s], Hours);
  }
}
