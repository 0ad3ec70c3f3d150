/**
 * The sidebar menu: a fixed table of pages with the roles allowed to see each, and
 * the entries shown to the current user (a visitor without an account counts as a
 * public viewer).
 */
module Sidebar {
  import opened Wrappers
  import opened Seqs
  import opened Auth

  datatype MenuItem = MenuItem(id: string, caption: string, roles: seq<Role>)

  const AllRoles: seq<Role> := [Admin, RaceOrganizer, HorseOwner, Judge, PublicViewer]

  const Home := MenuItem("dashboard", "الرئيسية", AllRoles)
  const RacesPage := MenuItem("races", "إدارة السباقات", [Admin, RaceOrganizer])
  const HorsesPage := MenuItem("horses", "إدارة الخيول", [Admin, HorseOwner])
  const RegistrationPage := MenuItem("registration", "تسجيل الخيول", [HorseOwner])
  const SchedulePage := MenuItem("schedule", "الجدولة والمواعيد", AllRoles)
  const ResultsPage := MenuItem("results", "النتائج", [Admin, Judge, PublicViewer])
  const StatisticsPage := MenuItem("statistics", "الإحصائيات", [Admin, RaceOrganizer])
  const NotificationsPage := MenuItem("notifications", "الإشعارات", [Admin, RaceOrganizer, HorseOwner, Judge])
  const BrowsePage := MenuItem("browse", "تصفح النتائج", [PublicViewer])
  const ContactPage := MenuItem("contact", "الدعم والتواصل", AllRoles)

  /** `menuItems`, in display order. */
  const MenuItems: seq<MenuItem> := [
    Home, RacesPage, HorsesPage, RegistrationPage, SchedulePage,
    ResultsPage, StatisticsPage, NotificationsPage, BrowsePage, ContactPage
  ]

  /** `user?.role || 'public_viewer'`. */
  function ViewerRole(user: Option<User>): Role {
    if user.Some? then user.value.role else PublicViewer
  }

  function ShownTo(role: Role): MenuItem -> bool {
    (item: MenuItem) => role in item.roles
  }

  /** `visibleItems`: the entries whose role list holds the viewer's role. */
  function VisibleItems(user: Option<User>): (r: seq<MenuItem>)
    ensures forall item :: item in r <==> item in MenuItems && ViewerRole(user) in item.roles
    ensures |r| <= |MenuItems|
  {
    Filter(MenuItems, ShownTo(ViewerRole(user)))
  }

  /** The visible entries keep the menu's order. */
  lemma VisibleInMenuOrder(user: Option<User>)
    ensures SubsequenceOf(VisibleItems(user), MenuItems)
  {
    FilterSubsequence(MenuItems, ShownTo(ViewerRole(user)));
  }

  /** Without an account the menu is the public viewer's. */
  lemma NoUserSeesPublicMenu(u: User)
    requires u.role == PublicViewer
    ensures VisibleItems(None) == VisibleItems(Some(u))
  {
  }

  /** Every role is one of the five. */
  lemma EveryRoleListed(role: Role)
    ensures role in AllRoles
  {
    match role
    case Admin => assert AllRoles[0] == role;
    case RaceOrganizer => assert AllRoles[1] == role;
    case HorseOwner => assert AllRoles[2] == role;
    case Judge => assert AllRoles[3] == role;
    case PublicViewer => assert AllRoles[4] == role;
  }

  /** An entry is shown exactly when it lists the viewer's role. */
  lemma ShownIffListed(user: Option<User>, k: nat)
    requires k < |MenuItems|
    ensures MenuItems[k] in VisibleItems(user) <==> ViewerRole(user) in MenuItems[k].roles
  {
    assert MenuItems[k] in MenuItems;
  }

  /** The home page, the schedule and the contact page are shown to every viewer. */
  lemma CommonPagesShownToAll(user: Option<User>)
    ensures MenuItems[0] in VisibleItems(user) && MenuItems[0].id == "dashboard"
    ensures MenuItems[4] in VisibleItems(user) && MenuItems[4].id == "schedule"
    ensures MenuItems[9] in VisibleItems(user) && MenuItems[9].id == "contact"
  {
    assert MenuItems[0] == Home && MenuItems[4] == SchedulePage && MenuItems[9] == ContactPage;
    EveryRoleListed(ViewerRole(user));
    ShownIffListed(user, 0);
    ShownIffListed(user, 4);
    ShownIffListed(user, 9);
  }

  /** Horse registration is for horse owners only, and browsing results for public viewers only. */
  lemma SingleRolePages(user: Option<User>)
    ensures MenuItems[3].id == "registration" && MenuItems[8].id == "browse"
    ensures MenuItems[3] in VisibleItems(user) <==> ViewerRole(user) == HorseOwner
    ensures MenuItems[8] in VisibleItems(user) <==> ViewerRole(user) == PublicViewer
  {
    assert MenuItems[3] == RegistrationPage && MenuItems[8] == BrowsePage;
    ShownIffListed(user, 3);
    ShownIffListed(user, 8);
  }
}
