/** The shell around every page, project/components/layouts/DashboardLayout.tsx:
    the role-filtered navigation, the avatar initials, the theme toggle and
    the notification bell's badge. */
module Layout {
  import opened Wrappers
  import opened Types
  import Seqs
  import Text
  import UiStore

  datatype NavItem = NavItem(name: string, href: string, roles: seq<Role>, badge: Option<string>)

  /** `navigation`. */
  const Navigation: seq<NavItem> := [
    NavItem("Dashboard", "/admin/dashboard", [Admin], None),
    NavItem("Dashboard", "/teacher/dashboard", [Teacher], None),
    NavItem("Dashboard", "/student/dashboard", [Student], None),
    NavItem("Timetables", "/admin/timetable/generate", [Admin], None),
    NavItem("View Timetables", "/admin/timetable/view", [Admin], None),
    NavItem("Faculty Requests", "/admin/requests", [Admin], Some("12")),
    NavItem("Faculty Management", "/admin/faculty", [Admin], None),
    NavItem("Subjects", "/admin/subjects", [Admin], None),
    NavItem("My Schedule", "/teacher/schedule", [Teacher], None),
    NavItem("My Classes", "/student/classes", [Student], None),
    NavItem("Analytics", "/admin/analytics", [Admin], None)
  ]

  function OpenTo(role: Role): NavItem -> bool {
    (item: NavItem) => role in item.roles
  }

  /** `filteredNavigation` over the menu `items` (the page passes
      `navigation`): nothing without a signed-in user, otherwise the items
      listing the user's role, in menu order. */
  function FilteredNavigation(items: seq<NavItem>, user: Option<User>): (r: seq<NavItem>)
    ensures user.None? ==> r == []
    ensures Seqs.IsSubsequence(r, items)
    ensures user.Some? ==> forall i :: 0 <= i < |r| ==> user.value.Role() in r[i].roles
    ensures user.Some? ==> forall x :: multiset(r)[x] == (if user.value.Role() in x.roles then multiset(items)[x] else 0)
  {
    match user
    case None => []
    case Some(u) =>
      Seqs.FilterSpec(items, OpenTo(u.Role()));
      Seqs.Filter(items, OpenTo(u.Role()))
  }

  /** The roles column of a menu. */
  function RolesColumn(items: seq<NavItem>): (column: seq<seq<Role>>)
    ensures |column| == |items|
    ensures forall i :: 0 <= i < |items| ==> column[i] == items[i].roles
  {
    seq(|items|, i requires 0 <= i < |items| => items[i].roles)
  }

  /** How many entries of a roles column list `role`. */
  function RolesCount(column: seq<seq<Role>>, role: Role): nat {
    if column == [] then 0 else (if role in column[0] then 1 else 0) + RolesCount(column[1..], role)
  }

  /** The roles column of `navigation`, read off entry by entry. */
  lemma NavigationColumn()
    ensures RolesColumn(Navigation) == [[Admin], [Teacher], [Student], [Admin], [Admin], [Admin], [Admin], [Admin], [Teacher], [Student], [Admin]]
  {
    var column := RolesColumn(Navigation);
    forall i | 0 <= i < |Navigation| ensures column[i] == [[Admin], [Teacher], [Student], [Admin], [Admin], [Admin], [Admin], [Admin], [Teacher], [Student], [Admin]][i] {
    }
  }

  /** Seven entries of `navigation` list the administrator. */
  lemma AdminItems()
    ensures RolesCount(RolesColumn(Navigation), Admin) == 7
  {
    NavigationColumn();
    assert RolesCount([[Admin], [Teacher], [Student], [Admin], [Admin], [Admin], [Admin], [Admin], [Teacher], [Student], [Admin]], Admin) == 7;
  }

  /** Two entries list the teacher. */
  lemma TeacherItems()
    ensures RolesCount(RolesColumn(Navigation), Teacher) == 2
  {
    NavigationColumn();
    assert RolesCount([[Admin], [Teacher], [Student], [Admin], [Admin], [Admin], [Admin], [Admin], [Teacher], [Student], [Admin]], Teacher) == 2;
  }

  /** Two entries list the student. */
  lemma StudentItems()
    ensures RolesCount(RolesColumn(Navigation), Student) == 2
  {
    NavigationColumn();
    assert RolesCount([[Admin], [Teacher], [Student], [Admin], [Admin], [Admin], [Admin], [Admin], [Teacher], [Student], [Admin]], Student) == 2;
  }

  /** Counting the items open to `role` only looks at their roles column. */
  lemma {:induction false} CountByRoles(items: seq<NavItem>, role: Role)
    ensures Seqs.Count(items, OpenTo(role)) == RolesCount(RolesColumn(items), role)
  {
    if items != [] {
      assert OpenTo(role)(items[0]) == (role in items[0].roles);
      assert RolesColumn(items)[1..] == RolesColumn(items[1..]);
      CountByRoles(items[1..], role);
    }
  }

  /** In any menu with the roles column of `navigation`, an administrator
      sees seven items, a teacher and a student two each. */
  lemma MenuSizesOf(items: seq<NavItem>, u: User)
    requires RolesColumn(items) == RolesColumn(Navigation)
    ensures |FilteredNavigation(items, Some(u))| == if u.Role() == Admin then 7 else 2
  {
    var role := u.Role();
    CountByRoles(items, role);
    Seqs.CountIsFilterLength(items, OpenTo(role));
    AdminItems();
    TeacherItems();
    StudentItems();
  }

  /** An administrator sees seven items, a teacher and a student two each. */
  lemma MenuSizes(u: User)
    ensures |FilteredNavigation(Navigation, Some(u))| == if u.Role() == Admin then 7 else 2
  {
    MenuSizesOf(Navigation, u);
  }

  /** Only "Faculty Requests" carries a badge, and it reads "12". */
  lemma OnlyRequestsHaveBadge()
    ensures forall i :: 0 <= i < |Navigation| ==> (Navigation[i].badge.Some? <==> Navigation[i].name == "Faculty Requests")
    ensures forall i :: 0 <= i < |Navigation| && Navigation[i].badge.Some? ==> Navigation[i].badge.value == "12"
  {
  }

  /** `name.split(' ').map(n => n[0]).join('').toUpperCase()`. */
  function Initials(name: string): (r: string)
    ensures r == Text.Upper(Text.WordStarts(name, ' ', true))
    ensures |r| <= |name|
    ensures forall i :: 0 <= i < |r| ==> r[i] != ' '
  {
    Text.FirstCharsOfSplit(name, ' ');
    Text.Upper(Text.FirstChars(Text.Split(name, ' ')))
  }

  /** `setTheme(theme === 'dark' ? 'light' : 'dark')`: the new theme always
      differs from the old. */
  function ToggleTheme(theme: string): (r: string)
    ensures r == "light" || r == "dark"
    ensures r != theme
  {
    if theme == "dark" then "light" else "dark"
  }

  /** Toggling twice from either theme restores it. */
  lemma ToggleTwiceRestores(theme: string)
    requires theme == "light" || theme == "dark"
    ensures ToggleTheme(ToggleTheme(theme)) == theme
  {
  }

  /** The bell's badge: the number of notifications, hidden when there are none. */
  function NotificationBadge(notifications: seq<UiStore.Notification>): (b: Option<nat>)
    ensures b.None? <==> notifications == []
    ensures b.Some? ==> b.value == |notifications|
  {
    if |notifications| > 0 then Some(|notifications|) else None
  }

  /** With the store's cap the badge never shows more than ten. */
  lemma BadgeAtMostTen(store: UiStore.UIStore)
    requires store.Valid()
    ensures NotificationBadge(store.notifications).Some? ==> NotificationBadge(store.notifications).value <= UiStore.MaxNotifications
  {
  }
}
