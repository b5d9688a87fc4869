/** The sidebar (src/modules/shared/components/app-sidebar.tsx): the menu
    filtered by role, the active item, and the name, e-mail and initials of
    the user in the footer. */
module Sidebar {
  import opened Wrappers
  import opened Auth
  import Lists
  import Names

  /** A menu entry; the icon is not modelled. */
  datatype MenuItem = MenuItem(title: string, href: string, requiredRole: Option<Role>)

  const Dashboard := MenuItem("Dashboard", "/dashboard", Some(Admin))
  const Reports := MenuItem("Reports", "/dashboard/reports", None)
  const EtlWarehouse := MenuItem("ETL Warehouse", "/dashboard/etl", Some(Admin))
  const WarehouseReports := MenuItem("Warehouse Reports", "/dashboard/warehouse-reports", None)
  const Databases := MenuItem("Databases", "/dashboard/databases", Some(Admin))
  const Users := MenuItem("Users", "/dashboard/settings", Some(Admin))

  /** `menuItems`, in display order. */
  function MenuItems(): seq<MenuItem> {
    [Dashboard, Reports, EtlWarehouse, WarehouseReports, Databases, Users]
  }

  /** The filter test: no role is required, or the user has it. */
  function Allowed(user: Option<User>): MenuItem -> bool {
    (item: MenuItem) => item.requiredRole.None? || HasRole(user, item.requiredRole.value)
  }

  /** `visibleMenuItems`: the items the user may open, in menu order. */
  function VisibleItems(user: Option<User>, items: seq<MenuItem>): (r: seq<MenuItem>)
    ensures forall item :: item in r <==> item in items && (item.requiredRole.None? || HasRole(user, item.requiredRole.value))
    ensures |r| <= |items|
  {
    Lists.Filter(Allowed(user), items)
  }

  /** An admin sees the whole menu. */
  lemma AdminSeesAll(u: User)
    requires u.role == Admin
    ensures VisibleItems(Some(u), MenuItems()) == MenuItems()
  {
  }

  /** Two entries of which only the second passes. */
  lemma DropThenKeep(keep: MenuItem -> bool, x: MenuItem, y: MenuItem, s: seq<MenuItem>)
    requires !keep(x) && keep(y)
    ensures Lists.Filter(keep, [x, y] + s) == [y] + Lists.Filter(keep, s)
  {
    assert [x, y] + s == [x] + ([y] + s);
    Lists.FilterCons(keep, x, [y] + s);
    Lists.FilterCons(keep, y, s);
  }

  /** Two entries that both fail. */
  lemma DropBoth(keep: MenuItem -> bool, x: MenuItem, y: MenuItem)
    requires !keep(x) && !keep(y)
    ensures Lists.Filter(keep, [x, y]) == []
  {
    Lists.FilterCons(keep, x, [y]);
  }

  /** A six-entry list filtered by a test that keeps only its second and
      fourth entries. */
  lemma SecondAndFourth(keep: MenuItem -> bool, a: MenuItem, b: MenuItem, c: MenuItem,
                        d: MenuItem, e: MenuItem, f: MenuItem)
    requires !keep(a) && keep(b) && !keep(c) && keep(d) && !keep(e) && !keep(f)
    ensures Lists.Filter(keep, [a, b, c, d, e, f]) == [b, d]
  {
    var tail := [c, d] + [e, f];
    assert [a, b, c, d, e, f] == [a, b] + tail;
    DropThenKeep(keep, a, b, tail);
    DropThenKeep(keep, c, d, [e, f]);
    DropBoth(keep, e, f);
  }

  /** Filtering the menu with a test that keeps no admin-only item leaves
      exactly the two report pages. */
  lemma ReportsOnly(keep: MenuItem -> bool)
    requires !keep(Dashboard) && keep(Reports) && !keep(EtlWarehouse)
    requires keep(WarehouseReports) && !keep(Databases) && !keep(Users)
    ensures Lists.Filter(keep, MenuItems()) == [Reports, WarehouseReports]
  {
    SecondAndFourth(keep, Dashboard, Reports, EtlWarehouse, WarehouseReports, Databases, Users);
  }

  /** A basic user sees exactly the two report pages, in menu order. */
  lemma BasicSeesReports(u: User)
    requires u.role == Basic
    ensures VisibleItems(Some(u), MenuItems()) == [Reports, WarehouseReports]
  {
    ReportsOnly(Allowed(Some(u)));
  }

  /** With nobody signed in the menu is the same as a basic user's. */
  lemma NobodySeesReports()
    ensures VisibleItems(None, MenuItems()) == [Reports, WarehouseReports]
  {
    ReportsOnly(Allowed(None));
  }

  /** `isActive`: an item is active when the path is exactly its link. */
  predicate IsActive(pathname: string, item: MenuItem) {
    pathname == item.href
  }

  /** The links of the menu are distinct, so at most one visible item is
      active for any path. */
  lemma AtMostOneActive(user: Option<User>, pathname: string)
    ensures var r := VisibleItems(user, MenuItems());
      forall i, j :: 0 <= i < |r| && 0 <= j < |r| && IsActive(pathname, r[i]) && IsActive(pathname, r[j]) ==> i == j
  {
    var m := MenuItems();
    assert forall i, j :: 0 <= i < j < |m| ==> m[i].href != m[j].href;
    Lists.FilterKeepsDistinct(Allowed(user), (item: MenuItem) => item.href, m);
  }

  /** `userName`: the name, else the e-mail, else `"User"`; never empty. */
  function UserName(user: Option<User>): (n: string)
    ensures n != ""
    ensures user.Some? && TruthyString(user.value.name) ==> n == user.value.name.value
    ensures user.Some? && !TruthyString(user.value.name) && user.value.email != "" ==> n == user.value.email
    ensures (user.None? || (!TruthyString(user.value.name) && user.value.email == "")) ==> n == "User"
  {
    if user.Some? && TruthyString(user.value.name) then user.value.name.value
    else if user.Some? && user.value.email != "" then user.value.email
    else "User"
  }

  /** `userEmail`: the e-mail, or the empty string with nobody signed in. */
  function UserEmail(user: Option<User>): (e: string)
    ensures user.Some? ==> e == user.value.email
    ensures user.None? ==> e == ""
  {
    if user.Some? then user.value.email else ""
  }

  /** `userInitials`, from the displayed name. */
  function UserInitials(user: Option<User>): (r: string)
    ensures |r| <= 2
    ensures forall i :: 0 <= i < |r| ==> !('a' <= r[i] <= 'z')
  {
    Names.Initials(UserName(user))
  }

  /** With nobody signed in the avatar shows `"U"`. */
  lemma NobodyInitials()
    ensures UserInitials(None) == "U"
  {
    Names.OneWord("User");
  }
}
