/**
 The invoice management list (`pages/Invoices/List.tsx`): the load with its mock fallback, the
 case-insensitive search, the client-side page slice, the page resets, deleting the selected invoice,
 and the status chip, size unit, invoice number and amount cells of each row.
 */
module InvoiceList {
  import opened Wrappers
  import opened Text
  import opened Seqs
  import opened Invoices
  import opened Responses

  // ---------------------------------------------------------------------------------------------
  // Row cells
  // ---------------------------------------------------------------------------------------------

  /** A chip as drawn: its caption and its colour name. */
  datatype Chip = Chip(caption: string, color: string)

  /** The statuses the chip has an entry for. */
  const KnownStatuses: seq<string> := ["processing", "completed", "error", "pending"]

  /** The entry every other status falls back on. */
  const PendingChip := Chip("待處理", "default")

  /** `StatusChip`: a look-up in the four-entry table, `pending` for anything it lacks. */
  function StatusChip(status: string): (chip: Chip)
    ensures status == "processing" <==> chip.color == "warning"
    ensures status == "completed" <==> chip.color == "success"
    ensures status == "error" <==> chip.color == "error"
    ensures status !in KnownStatuses ==> chip == PendingChip
    ensures chip.color == "default" <==> chip == PendingChip
    ensures chip.caption == "處理中" <==> status == "processing"
    ensures chip.caption == "已完成" <==> status == "completed"
    ensures chip.caption == "錯誤" <==> status == "error"
    ensures chip.caption == PendingChip.caption <==> chip == PendingChip
  {
    if status == "processing" then Chip("處理中", "warning")
    else if status == "completed" then Chip("已完成", "success")
    else if status == "error" then Chip("錯誤", "error")
    else PendingChip
  }

  /** Different chips mean different known statuses, and an unknown status looks exactly like
      `pending`. */
  lemma StatusChipFallback(s: string, t: string)
    requires s in KnownStatuses && t in KnownStatuses && s != t
    ensures StatusChip(s) != StatusChip(t)
    ensures forall u :: u !in KnownStatuses ==> StatusChip(u) == StatusChip("pending")
  {
  }

  /** The unit `formatFileSize` picks. */
  datatype SizeUnit = Bytes | Kilobytes | Megabytes

  const KiB := 1024
  const MiB := 1024 * 1024

  /** How many bytes one of the unit stands for. */
  function UnitSize(u: SizeUnit): nat {
    match u
    case Bytes => 1
    case Kilobytes => KiB
    case Megabytes => MiB
  }

  /** `formatFileSize`'s choice of unit: bytes below 1024, kilobytes below 1024², megabytes above. */
  function SizeUnitOf(bytes: int): (u: SizeUnit)
    ensures u == Bytes <==> bytes < KiB
    ensures u == Megabytes <==> bytes >= MiB
  {
    if bytes < KiB then Bytes else if bytes < MiB then Kilobytes else Megabytes
  }

  /** For a size of at least one byte the number shown before the unit is at least 1, and below
      1024 unless the unit is megabytes, the largest one. */
  lemma ScaledSizeInRange(bytes: int)
    requires 1 <= bytes
    ensures UnitSize(SizeUnitOf(bytes)) <= bytes
    ensures SizeUnitOf(bytes) != Megabytes ==> bytes < KiB * UnitSize(SizeUnitOf(bytes))
  {
  }

  /** A larger file never gets a smaller unit. */
  lemma SizeUnitMonotone(a: int, b: int)
    requires a <= b
    ensures UnitSize(SizeUnitOf(a)) <= UnitSize(SizeUnitOf(b))
  {
  }

  /** The invoice-number cell: `ocrResult?.invoiceNumber || '-'`. */
  function InvoiceNumberCell(inv: Invoice): (text: string)
    ensures text != []
    ensures inv.ocrResult.Some? && inv.ocrResult.value.invoiceNumber != [] ==>
      text == inv.ocrResult.value.invoiceNumber
    ensures inv.ocrResult.None? || inv.ocrResult.value.invoiceNumber == [] ==> text == "-"
  {
    if inv.ocrResult.Some? then MessageOr(Some(inv.ocrResult.value.invoiceNumber), "-") else "-"
  }

  /** The amount cell: the total when there is a non-zero one, otherwise a dash (`None`). The number
      formatting itself is not modelled. */
  function AmountCell(inv: Invoice): (amount: Option<real>)
    ensures amount.None? <==> inv.ocrResult.None? || inv.ocrResult.value.totalAmount == 0.0
    ensures amount.Some? ==> amount.value == inv.ocrResult.value.totalAmount && amount.value != 0.0
  {
    if inv.ocrResult.Some? && inv.ocrResult.value.totalAmount != 0.0 then Some(inv.ocrResult.value.totalAmount)
    else None
  }

  // ---------------------------------------------------------------------------------------------
  // Search
  // ---------------------------------------------------------------------------------------------

  /** The search test: the lowered term occurs in the lowered file name, or there is an OCR result
      and it occurs in the lowered invoice number. */
  predicate Matches(term: string, inv: Invoice) {
    || Includes(Lower(inv.fileName), Lower(term))
    || (inv.ocrResult.Some? && Includes(Lower(inv.ocrResult.value.invoiceNumber), Lower(term)))
  }

  /** `filteredInvoices`. */
  function Search(invoices: seq<Invoice>, term: string): (r: seq<Invoice>)
    ensures |r| <= |invoices|
    ensures forall inv :: inv in r <==> inv in invoices && Matches(term, inv)
  {
    Filter(invoices, inv => Matches(term, inv))
  }

  /** An empty term keeps every invoice, in order. */
  lemma EmptySearchKeepsAll(invoices: seq<Invoice>)
    ensures Search(invoices, "") == invoices
  {
    forall i | 0 <= i < |invoices|
      ensures Matches("", invoices[i])
    {
      IncludesEmpty(Lower(invoices[i].fileName));
    }
    FilterKeepsAll(invoices, inv => Matches("", inv));
  }

  /** The search ignores the case of the term. */
  lemma SearchIgnoresCase(invoices: seq<Invoice>, term: string)
    ensures Search(invoices, Lower(term)) == Search(invoices, term)
  {
    LowerIdempotent(term);
    FilterAgrees(invoices, inv => Matches(Lower(term), inv), inv => Matches(term, inv));
  }

  /** The search keeps the list's order: searching a concatenation searches each part. */
  lemma SearchKeepsOrder(a: seq<Invoice>, b: seq<Invoice>, term: string)
    ensures Search(a + b, term) == Search(a, term) + Search(b, term)
  {
    FilterAppend(a, b, inv => Matches(term, inv));
  }

  /** Typing more of a term only narrows the result. */
  lemma LongerTermNarrows(invoices: seq<Invoice>, term: string, more: string, inv: Invoice)
    requires inv in Search(invoices, term + more)
    ensures inv in Search(invoices, term)
  {
    LowerAppend(term, more);
    if Includes(Lower(inv.fileName), Lower(term + more)) {
      IncludesPrefix(Lower(inv.fileName), Lower(term), Lower(more));
    } else {
      IncludesPrefix(Lower(inv.ocrResult.value.invoiceNumber), Lower(term), Lower(more));
    }
  }

  // ---------------------------------------------------------------------------------------------
  // The page slice
  // ---------------------------------------------------------------------------------------------

  function Min(a: int, b: int): int { if a <= b then a else b }

  /** `rows.slice(start, start + count)`, with `slice`'s clamping of both ends to the length. */
  function Slice<T>(rows: seq<T>, start: nat, count: nat): (r: seq<T>)
    ensures |r| == if start < |rows| then Min(count, |rows| - start) else 0
    ensures |r| > 0 ==> start + |r| <= |rows|
    ensures forall k :: 0 <= k < |r| ==> start + k < |rows| && r[k] == rows[start + k]
  {
    rows[Min(start, |rows|)..Min(start + count, |rows|)]
  }

  /** `rows.slice(page * rowsPerPage, page * rowsPerPage + rowsPerPage)`: the page's rows. */
  function PageRows<T>(rows: seq<T>, page: nat, rowsPerPage: nat): (r: seq<T>)
    ensures |r| <= rowsPerPage
    ensures |r| == if page * rowsPerPage < |rows| then Min(rowsPerPage, |rows| - page * rowsPerPage) else 0
    ensures |r| > 0 ==> page * rowsPerPage + |r| <= |rows|
    ensures forall k :: 0 <= k < |r| ==> page * rowsPerPage + k < |rows| && r[k] == rows[page * rowsPerPage + k]
  {
    Slice(rows, page * rowsPerPage, rowsPerPage)
  }

  /** The first `count` pages, one after another. */
  function Pages<T>(rows: seq<T>, rowsPerPage: nat, count: nat): seq<T> {
    if count == 0 then [] else Pages(rows, rowsPerPage, count - 1) + PageRows(rows, count - 1, rowsPerPage)
  }

  /** The first `count` pages are exactly the first `count * rowsPerPage` rows: pages never overlap
      and never skip a row. */
  lemma {:induction false} PagesArePrefix<T>(rows: seq<T>, rowsPerPage: nat, count: nat)
    ensures Pages(rows, rowsPerPage, count) == rows[..Min(count * rowsPerPage, |rows|)]
  {
    if count > 0 {
      var n := count - 1;
      PagesArePrefix(rows, rowsPerPage, n);
      var lo := n * rowsPerPage;
      NextPageStart(n, rowsPerPage);
      PageIsSlice(rows, n, rowsPerPage, lo);
      PrefixThenSlice(rows, Min(lo, |rows|), Min(lo + rowsPerPage, |rows|));
    }
  }

  /** Page `n` is the slice of rows between its clamped bounds. */
  lemma PageIsSlice<T>(rows: seq<T>, n: nat, rowsPerPage: nat, lo: nat)
    requires lo == n * rowsPerPage
    ensures PageRows(rows, n, rowsPerPage) == rows[Min(lo, |rows|)..Min(lo + rowsPerPage, |rows|)]
  {
  }

  /** A prefix followed by the slice that continues it is the longer prefix. */
  lemma PrefixThenSlice<T>(rows: seq<T>, before: nat, after: nat)
    requires before <= after <= |rows|
    ensures rows[..before] + rows[before..after] == rows[..after]
  {
  }

  /** Page `n + 1` starts where page `n` ends. */
  lemma NextPageStart(n: nat, rowsPerPage: nat)
    ensures (n + 1) * rowsPerPage == n * rowsPerPage + rowsPerPage
  {
  }

  /** Enough pages show every row, in order. */
  lemma PagesCoverAll<T>(rows: seq<T>, rowsPerPage: nat, count: nat)
    requires count * rowsPerPage >= |rows|
    ensures Pages(rows, rowsPerPage, count) == rows
  {
    PagesArePrefix(rows, rowsPerPage, count);
  }

  /** Row `i` is on page `i / rowsPerPage`, at position `i % rowsPerPage`. */
  lemma RowOnItsPage<T>(rows: seq<T>, rowsPerPage: nat, i: nat)
    requires rowsPerPage > 0 && i < |rows|
    ensures i % rowsPerPage < |PageRows(rows, i / rowsPerPage, rowsPerPage)|
    ensures PageRows(rows, i / rowsPerPage, rowsPerPage)[i % rowsPerPage] == rows[i]
  {
    var p := i / rowsPerPage;
    assert p * rowsPerPage + i % rowsPerPage == i;
  }

  // ---------------------------------------------------------------------------------------------
  // Page state
  // ---------------------------------------------------------------------------------------------

  /**
   The list page's state. `serverPaged` records whether `invoices` came from a successful load,
   which holds one server page, rather than from the mock list; the page does not keep it, but the
   corrected display below needs it.
   */
  datatype View = View(
    invoices: seq<Invoice>, totalCount: int, serverPaged: bool, error: Option<string>,
    page: nat, rowsPerPage: nat, searchTerm: string, statusFilter: string,
    selected: Option<Invoice>, deleteDialogOpen: bool)

  /** The first render: first page, ten rows, no term, no filter. */
  const Initial := View([], 0, false, None, 0, 10, "", "", None, false)

  /** What `getInvoices` is asked for. */
  datatype Request = Request(page: nat, limit: nat, status: Option<string>)

  /** The request a load sends: one-based page, the page size, and the filter unless it is empty. */
  function RequestOf(v: View): (q: Request)
    ensures q.page == v.page + 1 && q.limit == v.rowsPerPage
    ensures q.status.None? <==> v.statusFilter == []
    ensures q.status.Some? ==> q.status.value == v.statusFilter
  {
    Request(v.page + 1, v.rowsPerPage, if v.statusFilter == [] then None else Some(v.statusFilter))
  }

  /** A successful answer's payload. */
  datatype ServerPage = ServerPage(items: Option<seq<Invoice>>, total: Option<int>)

  /** `loadInvoices`: the server's items and total on success (missing ones read as empty and 0),
      the mock list and its length otherwise; the error is cleared either way. */
  function Load(v: View, r: Response<ServerPage>): (w: View)
    ensures r.Ok? ==> w.invoices == r.data.items.GetOr([]) && w.totalCount == r.data.total.GetOr(0) && w.serverPaged
    ensures !r.Ok? ==> w.invoices == MockInvoices && w.totalCount == |MockInvoices| && !w.serverPaged
    ensures w.error.None?
    ensures w.(invoices := v.invoices, totalCount := v.totalCount, serverPaged := v.serverPaged, error := v.error) == v
  {
    match r
    case Ok(data) => v.(invoices := data.items.GetOr([]), totalCount := data.total.GetOr(0), serverPaged := true, error := None)
    case _ => v.(invoices := MockInvoices, totalCount := |MockInvoices|, serverPaged := false, error := None)
  }

  /** Changing page keeps everything else. */
  function ChangePage(v: View, newPage: nat): (w: View)
    ensures w.page == newPage && w.(page := v.page) == v
  {
    v.(page := newPage)
  }

  /** A new page size starts again at the first page. */
  function ChangeRowsPerPage(v: View, rowsPerPage: nat): (w: View)
    ensures w.page == 0 && w.rowsPerPage == rowsPerPage
    ensures w.(page := v.page, rowsPerPage := v.rowsPerPage) == v
  {
    v.(rowsPerPage := rowsPerPage, page := 0)
  }

  /** A new status filter starts again at the first page. */
  function ChangeStatusFilter(v: View, status: string): (w: View)
    ensures w.page == 0 && w.statusFilter == status
    ensures w.(page := v.page, statusFilter := v.statusFilter) == v
  {
    v.(statusFilter := status, page := 0)
  }

  /** A new search term keeps the page. */
  function ChangeSearch(v: View, term: string): (w: View)
    ensures w.searchTerm == term && w.page == v.page
    ensures w.(searchTerm := v.searchTerm) == v
  {
    v.(searchTerm := term)
  }

  /** The rows the search leaves. */
  function Shown(v: View): (rows: seq<Invoice>)
    ensures |rows| <= |v.invoices|
    ensures forall inv :: inv in rows <==> inv in v.invoices && Matches(v.searchTerm, inv)
    ensures v.searchTerm == [] ==> rows == v.invoices
  {
    var rows := Search(v.invoices, v.searchTerm);
    if v.searchTerm == [] then EmptySearchKeepsAll(v.invoices); rows else rows
  }

  /** `page * rowsPerPage`: the index of the current page's first row. */
  function Start(v: View): nat {
    v.page * v.rowsPerPage
  }

  /** The table body as written: the search result, sliced to the current page. */
  function DisplayedRows(v: View): (rows: seq<Invoice>)
    ensures |rows| <= v.rowsPerPage
    ensures |rows| == if Start(v) < |Shown(v)| then Min(v.rowsPerPage, |Shown(v)| - Start(v)) else 0
    ensures forall k :: 0 <= k < |rows| ==> Start(v) + k < |Shown(v)| && rows[k] == Shown(v)[Start(v) + k]
  {
    Slice(Shown(v), Start(v), v.rowsPerPage)
  }

  /** After a reset the table shows the start of the search result. */
  lemma ResetShowsFirstRows(v: View, rowsPerPage: nat, status: string)
    ensures DisplayedRows(ChangeRowsPerPage(v, rowsPerPage)) == Shown(v)[..Min(rowsPerPage, |Shown(v)|)]
    ensures DisplayedRows(ChangeStatusFilter(v, status)) == Shown(v)[..Min(v.rowsPerPage, |Shown(v)|)]
  {
  }

  /** As written, a successful load on any page but the first shows nothing: the server already
      returned only that page, at most `rowsPerPage` invoices, and the table slices it again from
      `page * rowsPerPage`. */
  lemma ServerPageBlankBeyondFirst(v: View, data: ServerPage)
    requires v.page >= 1
    requires data.items.Some? && |data.items.value| <= v.rowsPerPage
    ensures DisplayedRows(Load(v, Ok(data))) == []
  {
    var w := Load(v, Ok(data));
    assert |Shown(w)| <= v.rowsPerPage <= v.page * v.rowsPerPage;
  }

  /** The table body with the server's paging respected: a server page is shown whole (after the
      search); only the mock list, which holds every invoice, is sliced here. */
  function CorrectedDisplayedRows(v: View): (rows: seq<Invoice>)
    ensures v.serverPaged ==> forall inv :: inv in rows <==> inv in v.invoices && Matches(v.searchTerm, inv)
    ensures !v.serverPaged ==> rows == DisplayedRows(v)
  {
    if v.serverPaged then Shown(v) else DisplayedRows(v)
  }

  /** With the correction, every page shows the matching invoices the server returned for it, and
      no more rows than the page size when the server honours the limit. */
  lemma CorrectedShowsServerPage(v: View, data: ServerPage, inv: Invoice)
    requires data.items.Some? && |data.items.value| <= v.rowsPerPage
    ensures |CorrectedDisplayedRows(Load(v, Ok(data)))| <= v.rowsPerPage
    ensures inv in CorrectedDisplayedRows(Load(v, Ok(data))) <==> inv in data.items.value && Matches(v.searchTerm, inv)
  {
  }

  // ---------------------------------------------------------------------------------------------
  // Delete
  // ---------------------------------------------------------------------------------------------

  const DeleteFailed := "刪除失敗"
  const DeleteThrew := "刪除發票時發生錯誤"

  /** `prev.filter(inv => inv.id !== id)`. */
  function RemoveId(invoices: seq<Invoice>, id: string): (r: seq<Invoice>)
    ensures forall inv :: inv in r <==> inv in invoices && inv.id != id
  {
    Filter(invoices, (inv: Invoice) => inv.id != id)
  }

  /** Removing an id nobody has changes nothing, so removing it twice is removing it once. */
  lemma RemoveIdIdempotent(invoices: seq<Invoice>, id: string)
    ensures RemoveId(RemoveId(invoices, id), id) == RemoveId(invoices, id)
    ensures (forall i :: 0 <= i < |invoices| ==> invoices[i].id != id) ==> RemoveId(invoices, id) == invoices
  {
    var once := RemoveId(invoices, id);
    assert forall i :: 0 <= i < |once| ==> once[i] in once;
    FilterKeepsAll(once, (inv: Invoice) => inv.id != id);
    if forall i :: 0 <= i < |invoices| ==> invoices[i].id != id {
      FilterKeepsAll(invoices, (inv: Invoice) => inv.id != id);
    }
  }

  /** Opening the delete dialog for an invoice. */
  function AskDelete(v: View, inv: Invoice): (w: View)
    ensures w.selected == Some(inv) && w.deleteDialogOpen
    ensures w.(selected := v.selected, deleteDialogOpen := v.deleteDialogOpen) == v
  {
    v.(selected := Some(inv), deleteDialogOpen := true)
  }

  /** `confirmDelete`: nothing without a selection; on success the selected id leaves the list and
      the dialog closes; a refusal or a throw only sets the error, leaving the dialog open. */
  function ConfirmDelete(v: View, r: Response<()>): (w: View)
    ensures v.selected.None? ==> w == v
    ensures v.selected.Some? && r.Ok? ==>
      && (forall inv :: inv in w.invoices <==> inv in v.invoices && inv.id != v.selected.value.id)
      && !w.deleteDialogOpen && w.selected.None?
      && w.(invoices := v.invoices, deleteDialogOpen := v.deleteDialogOpen, selected := v.selected) == v
    ensures v.selected.Some? && r.Refused? ==> w == v.(error := Some(MessageOr(r.message, DeleteFailed)))
    ensures v.selected.Some? && r.Threw? ==> w == v.(error := Some(DeleteThrew))
  {
    if v.selected.None? then v
    else
      match r
      case Ok(_) => v.(invoices := RemoveId(v.invoices, v.selected.value.id), deleteDialogOpen := false, selected := None)
      case Refused(m) => v.(error := Some(MessageOr(m, DeleteFailed)))
      case Threw => v.(error := Some(DeleteThrew))
  }

  /** Asking to delete an invoice and confirming a successful delete leaves none with its id and
      every other invoice in its place. */
  lemma DeleteRemovesExactlyThatId(v: View, target: Invoice, i: nat)
    requires i < |v.invoices|
    ensures var w := ConfirmDelete(AskDelete(v, target), Ok(()));
      && (forall inv :: inv in w.invoices ==> inv.id != target.id)
      && (v.invoices[i].id != target.id ==> v.invoices[i] in w.invoices)
  {
  }

  // ---------------------------------------------------------------------------------------------
  // Mock data
  // ---------------------------------------------------------------------------------------------

  /** `getMockInvoices`, with the upload dates as ISO strings. */
  const MockInvoices: seq<Invoice> := [
    Invoice("1", "invoice_2024001.pdf", 1024000, "2024-11-10", "completed", Some(OcrResult(
      "INV-2024-001", "2024-11-10",
      Party("台灣科技股份有限公司", "12345678", "台北市信義區信義路五段7號"), None,
      [LineItem("辦公用品", 5.0, 200.0, 1000.0), LineItem("文具用品", 3.0, 150.0, 450.0)],
      1450.0, 72.5, 0.95))),
    Invoice("2", "receipt_2024002.jpg", 512000, "2024-11-09", "processing", None),
    Invoice("3", "invoice_2024003.pdf", 2048000, "2024-11-08", "error", None),
    Invoice("4", "receipt_2024004.png", 768000, "2024-11-07", "completed", Some(OcrResult(
      "RCP-2024-004", "2024-11-07",
      Party("便利商店股份有限公司", "87654321", "台北市大安區敦化南路二段265號"), None,
      [LineItem("便當", 2.0, 80.0, 160.0), LineItem("飲料", 2.0, 25.0, 50.0)],
      210.0, 10.5, 0.88))),
    Invoice("5", "invoice_2024005.pdf", 1536000, "2024-11-06", "completed", Some(OcrResult(
      "INV-2024-005", "2024-11-06",
      Party("電腦設備有限公司", "11223344", "新北市板橋區中山路一段3號"), None,
      [LineItem("筆記型電腦", 1.0, 25000.0, 25000.0), LineItem("滑鼠", 1.0, 800.0, 800.0)],
      25800.0, 1290.0, 0.97)))
  ]

  /** A failed load on any page but the first still shows rows, because the mock list is sliced
      here: with five mock invoices and two rows a page, the second page shows the third and fourth. */
  lemma MockListPages()
    ensures var w := Load(View([], 0, false, None, 1, 2, "", "", None, false), Threw);
      DisplayedRows(w) == MockInvoices[2..4]
  {
    var v := View([], 0, false, None, 1, 2, "", "", None, false);
    FallbackShowsMock(v);
    MockPage();
  }

  /** Without a search term, a failed load shows the mock list's page. */
  lemma FallbackShowsMock(v: View)
    requires v.searchTerm == ""
    ensures DisplayedRows(Load(v, Threw)) == PageRows(MockInvoices, v.page, v.rowsPerPage)
  {
    EmptySearchKeepsAll(MockInvoices);
  }

  /** The mock list's second page of two. */
  lemma MockPage()
    ensures PageRows(MockInvoices, 1, 2) == MockInvoices[2..4]
  {
    assert |MockInvoices| >= 4;
  }
}
