/** The faculty page of project/app/admin/faculty/page.tsx: the search and
    department filter, the grouping by department, the availability
    counters and the designation tiles. */
module Faculty {
  import opened Types
  import Seqs
  import Text
  import Grouping

  datatype FacultyMember = FacultyMember(id: string, name: string, email: string, phone: string,
                                         department: string, designation: string, subjects: seq<string>,
                                         experience: string, qualification: string, availability: string,
                                         avatar: string)

  /** Some subject of the member contains the query, ignoring case. */
  predicate TeachesMatching(m: FacultyMember, query: string) {
    exists i :: 0 <= i < |m.subjects| && Text.IncludesIgnoreCase(m.subjects[i], query)
  }

  predicate MatchesSearch(m: FacultyMember, query: string) {
    Text.IncludesIgnoreCase(m.name, query) || Text.IncludesIgnoreCase(m.email, query) || TeachesMatching(m, query)
  }

  predicate MatchesDepartment(m: FacultyMember, department: string) {
    department == "all" || m.department == department
  }

  function Listed(query: string, department: string): FacultyMember -> bool {
    (m: FacultyMember) => MatchesSearch(m, query) && MatchesDepartment(m, department)
  }

  /** `filteredFaculty`, in order. */
  function FilteredFaculty(faculty: seq<FacultyMember>, query: string, department: string): (r: seq<FacultyMember>)
    ensures Seqs.IsSubsequence(r, faculty)
    ensures forall m :: multiset(r)[m] == (if Listed(query, department)(m) then multiset(faculty)[m] else 0)
  {
    Seqs.FilterSpec(faculty, Listed(query, department));
    Seqs.Filter(faculty, Listed(query, department))
  }

  lemma EmptySearchListsAll(faculty: seq<FacultyMember>)
    ensures FilteredFaculty(faculty, "", "all") == faculty
  {
    forall i | 0 <= i < |faculty| ensures Listed("", "all")(faculty[i]) {
      Text.EmptyNeedleMatches(faculty[i].name);
    }
    Seqs.FilterKeepsAll(faculty, Listed("", "all"));
  }

  function Department(m: FacultyMember): string { m.department }

  /** `facultyByDepartment`: the six departments, each with its members in order. */
  method FacultyByDepartment(faculty: seq<FacultyMember>) returns (groups: map<string, seq<FacultyMember>>)
    ensures forall d :: d in groups <==> d in Departments
    ensures forall d :: d in groups ==> Seqs.IsSubsequence(groups[d], faculty)
    ensures forall d, m :: d in groups && m in groups[d] ==> m.department == d
    ensures forall d, m :: d in groups ==> multiset(groups[d])[m] == (if m.department == d then multiset(faculty)[m] else 0)
  {
    groups := Grouping.GroupBy(Departments, faculty, Department);
    forall d | d in groups
      ensures Seqs.IsSubsequence(groups[d], faculty)
      ensures forall m :: multiset(groups[d])[m] == (if m.department == d then multiset(faculty)[m] else 0)
    {
      var keep := Grouping.KeyIs(Department, d);
      Seqs.FilterSpec(faculty, keep);
      forall m ensures keep(m) == (m.department == d) { assert keep(m) == (Department(m) == d); }
    }
  }

  /** A member of a department that is not listed is in no group. */
  lemma UnlistedDepartmentInNoGroup(faculty: seq<FacultyMember>, m: FacultyMember, d: string)
    requires m.department !in Departments && d in Departments
    ensures m !in Seqs.Filter(faculty, Grouping.KeyIs(Department, d))
  {
    assert Department(m) != d;
    assert Grouping.KeyIs(Department, d)(m) == (Department(m) == d);
  }

  datatype FacultyStats = FacultyStats(total: nat, available: nat, busy: nat)

  function AvailabilityIs(a: string): FacultyMember -> bool { (m: FacultyMember) => m.availability == a }

  /** `facultyStats` without the average experience. */
  function Stats(faculty: seq<FacultyMember>): (st: FacultyStats)
    ensures st.total == |faculty|
    ensures st.available == |Seqs.Filter(faculty, AvailabilityIs("Available"))|
    ensures st.busy == |Seqs.Filter(faculty, AvailabilityIs("Busy"))|
    ensures st.available + st.busy <= st.total
  {
    var available := Seqs.Count(faculty, AvailabilityIs("Available"));
    var busy := Seqs.Count(faculty, AvailabilityIs("Busy"));
    Seqs.CountIsFilterLength(faculty, AvailabilityIs("Available"));
    Seqs.CountIsFilterLength(faculty, AvailabilityIs("Busy"));
    var either := (m: FacultyMember) => m.availability == "Available" || m.availability == "Busy";
    Seqs.CountDisjoint(faculty, AvailabilityIs("Available"), AvailabilityIs("Busy"), either);
    FacultyStats(|faculty|, available, busy)
  }

  function DesignationIs(d: string): FacultyMember -> bool { (m: FacultyMember) => m.designation == d }

  /** One designation tile: `faculty.filter(f => f.designation === d).length`. */
  function DesignationCount(faculty: seq<FacultyMember>, d: string): (n: nat)
    ensures n == |Seqs.Filter(faculty, DesignationIs(d))|
  {
    Seqs.CountIsFilterLength(faculty, DesignationIs(d));
    Seqs.Count(faculty, DesignationIs(d))
  }

  /** The three tiles count different members, so together they count at
      most the whole faculty. */
  lemma DesignationTilesBounded(faculty: seq<FacultyMember>)
    ensures DesignationCount(faculty, "Professor") + DesignationCount(faculty, "Associate Professor")
          + DesignationCount(faculty, "Assistant Professor") <= |faculty|
  {
    var juniors := (m: FacultyMember) => m.designation == "Associate Professor" || m.designation == "Assistant Professor";
    var all3 := (m: FacultyMember) => m.designation == "Professor" || juniors(m);
    Seqs.CountDisjoint(faculty, DesignationIs("Associate Professor"), DesignationIs("Assistant Professor"), juniors);
    Seqs.CountDisjoint(faculty, DesignationIs("Professor"), juniors, all3);
    Seqs.CountIsFilterLength(faculty, DesignationIs("Professor"));
    Seqs.CountIsFilterLength(faculty, DesignationIs("Associate Professor"));
    Seqs.CountIsFilterLength(faculty, DesignationIs("Assistant Professor"));
  }
}
