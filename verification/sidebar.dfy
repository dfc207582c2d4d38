/**
 The navigation drawer: which menu entries each role sees, how hidden entries and collapsed groups
 drop out of the rendered list, which entry is highlighted, and the role caption.
 */
module Sidebar {
  import opened Wrappers
  import opened Session
  import Routing

  /** The entries' `id`s. */
  datatype EntryId = Dashboard | Invoices | InvoiceList | InvoiceUpload | Reports | Settings | Categories

  /** A menu entry: a leaf with a path, or a group with children. */
  datatype MenuItem =
    | Link(id: EntryId, path: string, show: bool)
    | Group(id: EntryId, show: bool, children: seq<MenuItem>)

  /** The drawer's own state: open, and which groups are expanded. */
  datatype Drawer = Drawer(open: bool, invoicesExpanded: bool, settingsExpanded: bool)

  /** One rendered list row: the entry, its nesting level and whether it is highlighted. */
  datatype Row = Row(id: EntryId, level: nat, selected: bool)

  /** `menuItems` as written: the invoices entries follow `hasRole('uploader')`. */
  function MenuItems(user: Option<User>): (items: seq<MenuItem>)
    ensures |items| == 4 && items[0].show
    ensures user.None? ==> forall i :: 1 <= i < |items| ==> !items[i].show
    ensures user.Some? && user.value.role == Admin ==> forall i :: 0 <= i < |items| ==> items[i].show
  {
    Menu(Session.HasRole(user, "uploader"), Session.HasRole(user, "accountant"), Session.HasRole(user, "admin"))
  }

  /** The menu's shape, with the `show` flags of the invoices group, of reports and of the settings
      group given. */
  function Menu(showInvoices: bool, showReports: bool, showSettings: bool): seq<MenuItem> {
    [
      Link(Dashboard, "/dashboard", true),
      Group(Invoices, showInvoices, [
        Link(InvoiceList, "/invoices", showInvoices),
        Link(InvoiceUpload, "/invoices/upload", showInvoices)
      ]),
      Link(Reports, "/reports", showReports),
      Group(Settings, showSettings, [
        Link(Categories, "/settings/categories", showSettings)
      ])
    ]
  }

  /** `isSelected`: exact equality of the current pathname with the entry's path. */
  predicate IsSelected(pathname: string, path: string) {
    pathname == path
  }

  /** `renderMenuItem`: nothing for a hidden entry; a group's button, followed by its children only
      while the group is expanded and the drawer open; a leaf's button, highlighted when selected. */
  function RenderItem(item: MenuItem, level: nat, drawer: Drawer, pathname: string): (rows: seq<Row>)
    ensures !item.show ==> rows == []
    ensures item.show ==> |rows| >= 1 && rows[0] == Row(item.id, level, item.Link? && IsSelected(pathname, item.path))
    ensures item.Link? ==> |rows| <= 1
    ensures forall k :: 0 <= k < |rows| ==> rows[k].level >= level
    decreases item, 1
  {
    if !item.show then []
    else match item
      case Group(id, _, cs) =>
        var expanded := if id == Invoices then drawer.invoicesExpanded else drawer.settingsExpanded;
        [Row(id, level, false)] + (if expanded && drawer.open then RenderItems(cs, level + 1, drawer, pathname) else [])
      case Link(id, path, _) =>
        [Row(id, level, IsSelected(pathname, path))]
  }

  function RenderItems(items: seq<MenuItem>, level: nat, drawer: Drawer, pathname: string): (rows: seq<Row>)
    ensures forall k :: 0 <= k < |rows| ==> rows[k].level >= level
    decreases items, 0
  {
    if |items| == 0 then [] else RenderItem(items[0], level, drawer, pathname) + RenderItems(items[1..], level, drawer, pathname)
  }

  /** The ids of the entries that are shown and whose enclosing groups are all shown. */
  ghost function Shown(item: MenuItem): set<EntryId>
    decreases item, 1
  {
    if !item.show then {}
    else {item.id} + (if item.Group? then ShownAll(item.children) else {})
  }

  ghost function ShownAll(items: seq<MenuItem>): set<EntryId>
    decreases items, 0
  {
    if |items| == 0 then {} else Shown(items[0]) + ShownAll(items[1..])
  }

  /** A hidden entry renders nothing, its children included: every rendered row belongs to an entry
      that is shown under shown groups. */
  lemma {:induction false} RenderedAreShown(item: MenuItem, level: nat, drawer: Drawer, pathname: string)
    ensures forall r :: r in RenderItem(item, level, drawer, pathname) ==> r.id in Shown(item)
    ensures !item.show ==> RenderItem(item, level, drawer, pathname) == []
    decreases item, 1
  {
    if item.show && item.Group? {
      RenderedAreShownAll(item.children, level + 1, drawer, pathname);
    }
  }

  lemma {:induction false} RenderedAreShownAll(items: seq<MenuItem>, level: nat, drawer: Drawer, pathname: string)
    ensures forall r :: r in RenderItems(items, level, drawer, pathname) ==> r.id in ShownAll(items)
    decreases items, 0
  {
    if |items| > 0 {
      RenderedAreShown(items[0], level, drawer, pathname);
      RenderedAreShownAll(items[1..], level, drawer, pathname);
    }
  }

  /** The entries of a list of rows, in order. */
  function Ids(rows: seq<Row>): (ids: seq<EntryId>)
    ensures |ids| == |rows|
    ensures forall i :: 0 <= i < |rows| ==> ids[i] == rows[i].id
  {
    seq(|rows|, i requires 0 <= i < |rows| => rows[i].id)
  }

  /** The drawer open with both groups expanded: every shown entry is on screen. */
  const FullyOpen := Drawer(true, true, true)

  /** A non-empty list renders as its first entry followed by the rest. */
  lemma RenderCons(items: seq<MenuItem>, level: nat, drawer: Drawer, pathname: string)
    requires |items| > 0
    ensures RenderItems(items, level, drawer, pathname) ==
      RenderItem(items[0], level, drawer, pathname) + RenderItems(items[1..], level, drawer, pathname)
  {
  }

  /** A four-entry list renders as its entries one after another. */
  lemma RenderFour(items: seq<MenuItem>, level: nat, drawer: Drawer, pathname: string)
    requires |items| == 4
    ensures RenderItems(items, level, drawer, pathname) ==
      RenderItem(items[0], level, drawer, pathname) + RenderItem(items[1], level, drawer, pathname)
      + RenderItem(items[2], level, drawer, pathname) + RenderItem(items[3], level, drawer, pathname)
  {
    var t1 := items[1..];
    var t2 := t1[1..];
    var t3 := t2[1..];
    assert t1[0] == items[1] && t2[0] == items[2] && t3[0] == items[3] && t3[1..] == [];
    RenderCons(items, level, drawer, pathname);
    RenderCons(t1, level, drawer, pathname);
    RenderCons(t2, level, drawer, pathname);
    RenderCons(t3, level, drawer, pathname);
    assert RenderItems(t3[1..], level, drawer, pathname) == [];
  }

  lemma IdsAppend(a: seq<Row>, b: seq<Row>)
    ensures Ids(a + b) == Ids(a) + Ids(b)
  {
  }

  function DashboardRows(pathname: string): seq<Row> {
    [Row(Dashboard, 0, pathname == "/dashboard")]
  }

  function InvoiceRows(show: bool, pathname: string): seq<Row> {
    if show then
      [Row(Invoices, 0, false), Row(InvoiceList, 1, pathname == "/invoices"),
       Row(InvoiceUpload, 1, pathname == "/invoices/upload")]
    else []
  }

  function ReportRows(show: bool, pathname: string): seq<Row> {
    if show then [Row(Reports, 0, pathname == "/reports")] else []
  }

  function SettingsRows(show: bool, pathname: string): seq<Row> {
    if show then [Row(Settings, 0, false), Row(Categories, 1, pathname == "/settings/categories")] else []
  }

  /** The rows of the menu with the drawer fully open, entry by entry. */
  lemma MenuRows(showInvoices: bool, showReports: bool, showSettings: bool, pathname: string)
    ensures RenderItems(Menu(showInvoices, showReports, showSettings), 0, FullyOpen, pathname) ==
      DashboardRows(pathname) + InvoiceRows(showInvoices, pathname)
      + ReportRows(showReports, pathname) + SettingsRows(showSettings, pathname)
  {
    var items := Menu(showInvoices, showReports, showSettings);
    RenderFour(items, 0, FullyOpen, pathname);
    InvoiceGroupRows(showInvoices, pathname);
    SettingsGroupRows(showSettings, pathname);
  }

  lemma InvoiceGroupRows(show: bool, pathname: string)
    ensures RenderItem(Menu(show, false, false)[1], 0, FullyOpen, pathname) == InvoiceRows(show, pathname)
  {
    var inv := Menu(show, false, false)[1].children;
    assert inv[1..][0] == inv[1] && inv[1..][1..] == [];
    if show {
      assert RenderItems(inv, 1, FullyOpen, pathname) ==
        [Row(InvoiceList, 1, pathname == "/invoices"), Row(InvoiceUpload, 1, pathname == "/invoices/upload")];
    }
  }

  lemma SettingsGroupRows(show: bool, pathname: string)
    ensures RenderItem(Menu(false, false, show)[3], 0, FullyOpen, pathname) == SettingsRows(show, pathname)
  {
    var settings := Menu(false, false, show)[3].children;
    assert settings[1..] == [];
    if show {
      assert RenderItems(settings, 1, FullyOpen, pathname) == [Row(Categories, 1, pathname == "/settings/categories")];
    }
  }

  /** The ids of the fully open menu's rows. */
  lemma IdsOfRows(showInvoices: bool, showReports: bool, showSettings: bool, pathname: string)
    ensures Ids(RenderItems(Menu(showInvoices, showReports, showSettings), 0, FullyOpen, pathname)) ==
      [Dashboard]
      + (if showInvoices then [Invoices, InvoiceList, InvoiceUpload] else [])
      + (if showReports then [Reports] else [])
      + (if showSettings then [Settings, Categories] else [])
  {
    MenuRows(showInvoices, showReports, showSettings, pathname);
    var d, i, r, t := DashboardRows(pathname), InvoiceRows(showInvoices, pathname),
      ReportRows(showReports, pathname), SettingsRows(showSettings, pathname);
    IdsAppend(d + i + r, t);
    IdsAppend(d + i, r);
    IdsAppend(d, i);
    PartIds(showInvoices, showReports, showSettings, pathname);
  }

  /** The ids of each part's rows. */
  lemma PartIds(showInvoices: bool, showReports: bool, showSettings: bool, pathname: string)
    ensures Ids(DashboardRows(pathname)) == [Dashboard]
    ensures Ids(InvoiceRows(showInvoices, pathname)) == (if showInvoices then [Invoices, InvoiceList, InvoiceUpload] else [])
    ensures Ids(ReportRows(showReports, pathname)) == (if showReports then [Reports] else [])
    ensures Ids(SettingsRows(showSettings, pathname)) == (if showSettings then [Settings, Categories] else [])
  {
  }

  /** Per role, with the drawer fully open: the dashboard always; the invoices group and both its
      entries iff `hasRole('uploader')`; reports iff `hasRole('accountant')`; settings and categories
      iff `hasRole('admin')`. */
  lemma MenuVisibility(user: Option<User>, pathname: string)
    ensures var ids := Ids(RenderItems(MenuItems(user), 0, FullyOpen, pathname));
      && Dashboard in ids
      && (Invoices in ids <==> Session.HasRole(user, "uploader"))
      && (InvoiceList in ids <==> Session.HasRole(user, "uploader"))
      && (InvoiceUpload in ids <==> Session.HasRole(user, "uploader"))
      && (Reports in ids <==> Session.HasRole(user, "accountant"))
      && (Settings in ids <==> Session.HasRole(user, "admin"))
      && (Categories in ids <==> Session.HasRole(user, "admin"))
  {
    var a, b, c := Session.HasRole(user, "uploader"), Session.HasRole(user, "accountant"), Session.HasRole(user, "admin");
    IdsOfRows(a, b, c, pathname);
    FlagsShowIds(a, b, c);
  }

  /** Membership in the id list the three flags produce. */
  lemma FlagsShowIds(showInvoices: bool, showReports: bool, showSettings: bool)
    ensures var ids := [Dashboard]
      + (if showInvoices then [Invoices, InvoiceList, InvoiceUpload] else [])
      + (if showReports then [Reports] else [])
      + (if showSettings then [Settings, Categories] else []);
      && Dashboard in ids
      && (Invoices in ids <==> showInvoices) && (InvoiceList in ids <==> showInvoices)
      && (InvoiceUpload in ids <==> showInvoices) && (Reports in ids <==> showReports)
      && (Settings in ids <==> showSettings) && (Categories in ids <==> showSettings)
  {
  }

  /** The leaves' paths. */
  function LeafPath(id: EntryId): Option<string> {
    match id
    case Dashboard => Some("/dashboard")
    case InvoiceList => Some("/invoices")
    case InvoiceUpload => Some("/invoices/upload")
    case Reports => Some("/reports")
    case Categories => Some("/settings/categories")
    case _ => None
  }

  /** With the drawer fully open, a row is highlighted iff it is a leaf whose path is exactly the
      current pathname; since the leaves' paths differ, at most one row is. */
  lemma SelectedRow(showInvoices: bool, showReports: bool, showSettings: bool, pathname: string)
    ensures var rows := RenderItems(Menu(showInvoices, showReports, showSettings), 0, FullyOpen, pathname);
      forall i :: 0 <= i < |rows| ==> (rows[i].selected <==> LeafPath(rows[i].id) == Some(pathname))
    ensures var rows := RenderItems(Menu(showInvoices, showReports, showSettings), 0, FullyOpen, pathname);
      forall i, j :: 0 <= i < |rows| && 0 <= j < |rows| && rows[i].selected && rows[j].selected ==> i == j
  {
    MenuRows(showInvoices, showReports, showSettings, pathname);
    RowSelection(showInvoices, showReports, showSettings, pathname);
  }

  /** Selection in the row list the three flags produce. */
  lemma RowSelection(showInvoices: bool, showReports: bool, showSettings: bool, pathname: string)
    ensures var rows := DashboardRows(pathname) + InvoiceRows(showInvoices, pathname)
                        + ReportRows(showReports, pathname) + SettingsRows(showSettings, pathname);
      && (forall i :: 0 <= i < |rows| ==> (rows[i].selected <==> LeafPath(rows[i].id) == Some(pathname)))
      && (forall i, j :: 0 <= i < |rows| && 0 <= j < |rows| && rows[i].selected && rows[j].selected ==> i == j)
  {
    var d, v, r, t := DashboardRows(pathname), InvoiceRows(showInvoices, pathname),
      ReportRows(showReports, pathname), SettingsRows(showSettings, pathname);
    PartBands(showInvoices, showReports, showSettings, pathname);
    BandAppend(d, v, pathname, 0, 1, 4);
    BandAppend(d + v, r, pathname, 0, 4, 5);
    BandAppend(d + v + r, t, pathname, 0, 5, 7);
    OneSelected(d + v + r + t, pathname);
  }

  /** Rows in menu order, all with positions in [lo, hi), each highlighted iff it is the leaf of
      the pathname. */
  predicate Band(rows: seq<Row>, pathname: string, lo: nat, hi: nat) {
    && InMenuOrder(rows)
    && (forall x :: x in rows ==> lo <= Position(x.id) < hi)
    && (forall x :: x in rows ==> (x.selected <==> LeafPath(x.id) == Some(pathname)))
  }

  /** Each part of the menu's rows is a band of its own. */
  lemma PartBands(showInvoices: bool, showReports: bool, showSettings: bool, pathname: string)
    ensures Band(DashboardRows(pathname), pathname, 0, 1)
    ensures Band(InvoiceRows(showInvoices, pathname), pathname, 1, 4)
    ensures Band(ReportRows(showReports, pathname), pathname, 4, 5)
    ensures Band(SettingsRows(showSettings, pathname), pathname, 5, 7)
  {
    SingleBand(Row(Dashboard, 0, pathname == "/dashboard"), pathname);
    if showInvoices {
      InvoiceBand(pathname);
    }
    if showReports {
      SingleBand(Row(Reports, 0, pathname == "/reports"), pathname);
    }
    if showSettings {
      SettingsBand(pathname);
    }
  }

  /** A single leaf row, highlighted iff its path is the pathname, is a band. */
  lemma SingleBand(row: Row, pathname: string)
    requires row.selected <==> LeafPath(row.id) == Some(pathname)
    ensures Band([row], pathname, Position(row.id), Position(row.id) + 1)
  {
  }

  lemma InvoiceBand(pathname: string)
    ensures Band(InvoiceRows(true, pathname), pathname, 1, 4)
  {
    var v := InvoiceRows(true, pathname);
    assert forall x :: x in v ==> x == v[0] || x == v[1] || x == v[2];
  }

  lemma SettingsBand(pathname: string)
    ensures Band(SettingsRows(true, pathname), pathname, 5, 7)
  {
    var t := SettingsRows(true, pathname);
    assert forall x :: x in t ==> x == t[0] || x == t[1];
  }

  /** Two bands, one above the other, make one band. */
  lemma BandAppend(a: seq<Row>, b: seq<Row>, pathname: string, lo: nat, mid: nat, hi: nat)
    requires lo <= mid <= hi
    requires Band(a, pathname, lo, mid) && Band(b, pathname, mid, hi)
    ensures Band(a + b, pathname, lo, hi)
  {
    InOrderAppend(a, b, mid);
  }

  /** In rows in menu order that highlight only the pathname's leaf, at most one row is
      highlighted. */
  lemma OneSelected(rows: seq<Row>, pathname: string)
    requires Band(rows, pathname, 0, 7)
    ensures forall i :: 0 <= i < |rows| ==> (rows[i].selected <==> LeafPath(rows[i].id) == Some(pathname))
    ensures forall i, j :: 0 <= i < |rows| && 0 <= j < |rows| && rows[i].selected && rows[j].selected ==> i == j
  {
    forall i | 0 <= i < |rows| ensures rows[i].selected <==> LeafPath(rows[i].id) == Some(pathname) {
      assert rows[i] in rows;
    }
    forall i, j | 0 <= i < |rows| && 0 <= j < |rows| && rows[i].selected && rows[j].selected
      ensures i == j
    {
      assert rows[i] in rows && rows[j] in rows;
      LeafPathInjective(rows[i].id, rows[j].id);
    }
  }

  /** Where an entry stands in the menu, top to bottom. */
  function Position(id: EntryId): nat {
    match id
    case Dashboard => 0
    case Invoices => 1
    case InvoiceList => 2
    case InvoiceUpload => 3
    case Reports => 4
    case Settings => 5
    case Categories => 6
  }

  /** The rows follow the menu's order, so no entry appears twice. */
  predicate InMenuOrder(rows: seq<Row>) {
    forall i, j :: 0 <= i < j < |rows| ==> Position(rows[i].id) < Position(rows[j].id)
  }

  /** Rows in menu order followed by rows further down are in menu order. */
  lemma InOrderAppend(a: seq<Row>, b: seq<Row>, bound: nat)
    requires InMenuOrder(a) && InMenuOrder(b)
    requires forall x :: x in a ==> Position(x.id) < bound
    requires forall y :: y in b ==> bound <= Position(y.id)
    ensures InMenuOrder(a + b)
    ensures forall x :: x in a + b ==> x in a || x in b
  {
    forall i, j | 0 <= i < j < |a + b| ensures Position((a + b)[i].id) < Position((a + b)[j].id) {
      if j < |a| {
        assert (a + b)[i] == a[i] && (a + b)[j] == a[j];
      } else if i >= |a| {
        assert (a + b)[i] == b[i - |a|] && (a + b)[j] == b[j - |a|];
      } else {
        assert (a + b)[i] in a && (a + b)[j] in b;
      }
    }
  }

  /** Distinct leaves have distinct paths. */
  lemma LeafPathInjective(a: EntryId, b: EntryId)
    requires LeafPath(a).Some? && LeafPath(a) == LeafPath(b)
    ensures a == b
  {
  }

  /** The caption under the user's name. */
  function RoleCaption(role: Role): (caption: string)
    ensures role == Admin ==> caption == "管理員"
    ensures role == Accountant ==> caption == "會計師"
    ensures role == Uploader ==> caption == "上傳者"
  {
    if role == Admin then "管理員" else if role == Accountant then "會計師" else "上傳者"
  }

  /** Distinct roles get distinct captions. */
  lemma RoleCaptionInjective(a: Role, b: Role)
    requires RoleCaption(a) == RoleCaption(b)
    ensures a == b
  {
    assert "管理員"[0] != "會計師"[0] && "管理員"[0] != "上傳者"[0] && "會計師"[0] != "上傳者"[0];
  }

  /** As written, the menu hides the invoice list from an accountant although the route table lets
      them in. */
  lemma AccountantMissesInvoices(u: User, pathname: string)
    requires u.role == Accountant
    ensures InvoiceList !in Ids(RenderItems(MenuItems(Some(u)), 0, FullyOpen, pathname))
    ensures Routing.VisitPath(Some(u), "/invoices").Shows?
  {
    MenuVisibility(Some(u), pathname);
    Routing.SignedInAccess(u, "/invoices");
  }

  /** The menu with the invoices group shown to every role the invoice routes admit. */
  function CorrectedMenuItems(user: Option<User>): seq<MenuItem> {
    Menu(Session.HasRole(user, "uploader") || Session.HasRole(user, "accountant"),
         Session.HasRole(user, "accountant"), Session.HasRole(user, "admin"))
  }

  /** With the correction, every leaf is on screen (drawer fully open) exactly when the route table
      would show its page to the user. */
  lemma CorrectedMenuMatchesRoutes(u: User, pathname: string)
    ensures var ids := Ids(RenderItems(CorrectedMenuItems(Some(u)), 0, FullyOpen, pathname));
      && (Dashboard in ids <==> Routing.VisitPath(Some(u), "/dashboard").Shows?)
      && (InvoiceList in ids <==> Routing.VisitPath(Some(u), "/invoices").Shows?)
      && (InvoiceUpload in ids <==> Routing.VisitPath(Some(u), "/invoices/upload").Shows?)
      && (Reports in ids <==> Routing.VisitPath(Some(u), "/reports").Shows?)
      && (Categories in ids <==> Routing.VisitPath(Some(u), "/settings/categories").Shows?)
  {
    var user := Some(u);
    var a, b, c := Session.HasRole(user, "uploader") || Session.HasRole(user, "accountant"),
      Session.HasRole(user, "accountant"), Session.HasRole(user, "admin");
    IdsOfRows(a, b, c, pathname);
    FlagsShowIds(a, b, c);
    Routing.MenuDestinations(u);
    assert a && (b <==> u.role != Uploader) && (c <==> u.role == Admin);
  }
}
