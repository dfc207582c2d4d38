/**
 The stand-alone invoice list (`pages/InvoiceListPage.tsx`): a fixed list searched on three fields,
 status captions and colours, actions enabled for completed invoices only, and the empty-state message.
 */
module InvoiceListPage {
  import opened Wrappers
  import opened Text
  import opened Seqs
  import opened Invoices
  import InvoiceList

  // The page repeats the management list's search (`InvoiceList.Search` and its lemmas) with a
  // third field, the seller name, added to the test; the two are related by
  // `WiderThanManagementList`.

  /** The search test: the lowered term occurs in the lowered file name, or there is an OCR result and
      it occurs in the lowered invoice number or seller name. */
  predicate Matches(term: string, inv: Invoice) {
    || Includes(Lower(inv.fileName), Lower(term))
    || (inv.ocrResult.Some? && Includes(Lower(inv.ocrResult.value.invoiceNumber), Lower(term)))
    || (inv.ocrResult.Some? && Includes(Lower(inv.ocrResult.value.seller.name), Lower(term)))
  }

  /** `filteredInvoices`. */
  function Search(invoices: seq<Invoice>, term: string): (r: seq<Invoice>)
    ensures |r| <= |invoices|
    ensures forall inv :: inv in r <==> inv in invoices && Matches(term, inv)
  {
    Filter(invoices, inv => Matches(term, inv))
  }

  /** An empty term keeps every invoice, in order. */
  lemma EmptySearchKeepsAll(invoices: seq<Invoice>)
    ensures Search(invoices, "") == invoices
  {
    forall i | 0 <= i < |invoices|
      ensures Matches("", invoices[i])
    {
      IncludesEmpty(Lower(invoices[i].fileName));
    }
    FilterKeepsAll(invoices, inv => Matches("", inv));
  }

  /** The search ignores the case of the term. */
  lemma SearchIgnoresCase(invoices: seq<Invoice>, term: string)
    ensures Search(invoices, Lower(term)) == Search(invoices, term)
  {
    LowerIdempotent(term);
    FilterAgrees(invoices, inv => Matches(Lower(term), inv), inv => Matches(term, inv));
  }

  /** The search keeps the list's order. */
  lemma SearchKeepsOrder(a: seq<Invoice>, b: seq<Invoice>, term: string)
    ensures Search(a + b, term) == Search(a, term) + Search(b, term)
  {
    FilterAppend(a, b, inv => Matches(term, inv));
  }

  /** This page searches one field more than the management list: whatever that list's search keeps,
      this one keeps too, and a seller's name can match here alone. */
  lemma WiderThanManagementList(invoices: seq<Invoice>, term: string)
    ensures forall inv :: inv in InvoiceList.Search(invoices, term) ==> inv in Search(invoices, term)
  {
  }

  /** `getStatusColor`. */
  function StatusColor(status: string): (color: string)
    ensures color == "success" <==> status == "completed"
    ensures color == "warning" <==> status == "processing"
    ensures color == "error" <==> status == "error"
    ensures color != "success" && color != "warning" && color != "error" ==> color == "default"
  {
    match status
    case "completed" => "success"
    case "processing" => "warning"
    case "error" => "error"
    case _ => "default"
  }

  const UnknownStatus := "未知"

  /** The statuses with a caption of their own. */
  const CaptionedStatuses: seq<string> := ["completed", "processing", "error"]

  /** `getStatusText`. */
  function StatusText(status: string): (text: string)
    ensures text == UnknownStatus <==> status !in CaptionedStatuses
    ensures text == "已完成" <==> status == "completed"
    ensures text == "處理中" <==> status == "processing"
    ensures text == "處理失敗" <==> status == "error"
  {
    match status
    case "completed" => "已完成"
    case "processing" => "處理中"
    case "error" => "處理失敗"
    case _ => UnknownStatus
  }

  /** Caption and colour agree on which statuses are known, and the colours are the management
      list's chip colours for every status; only the captions for `error` and unknown statuses differ
      from that list's. */
  lemma CaptionAndColourAgree(status: string)
    ensures StatusText(status) == UnknownStatus <==> StatusColor(status) == "default"
    ensures StatusColor(status) == InvoiceList.StatusChip(status).color
    ensures status == "completed" || status == "processing" ==> StatusText(status) == InvoiceList.StatusChip(status).caption
    ensures status == "error" || status !in CaptionedStatuses ==> StatusText(status) != InvoiceList.StatusChip(status).caption
  {
  }

  /** The view and download buttons. */
  predicate ActionsEnabled(inv: Invoice) {
    inv.status == "completed"
  }

  /** The page's state: the term and the detail dialog. */
  datatype View = View(searchTerm: string, selected: Option<Invoice>, detailOpen: bool)

  /** Clicking the view button: a disabled button does nothing; an enabled one opens the dialog on
      that invoice. */
  function ClickView(v: View, inv: Invoice): (w: View)
    ensures ActionsEnabled(inv) ==> w == v.(selected := Some(inv), detailOpen := true)
    ensures !ActionsEnabled(inv) ==> w == v
  {
    if ActionsEnabled(inv) then v.(selected := Some(inv), detailOpen := true) else v
  }

  /** Once the dialog is opened by clicking, it shows a completed invoice. */
  lemma DetailShowsCompleted(v: View, inv: Invoice)
    requires !v.detailOpen
    requires ClickView(v, inv).detailOpen
    ensures ClickView(v, inv).selected == Some(inv) && inv.status == "completed"
  {
  }

  /** The empty-state message shows exactly when the search keeps nothing, which is when no invoice
      matches the term. */
  function ShowsEmptyState(invoices: seq<Invoice>, term: string): (shown: bool)
    ensures shown <==> forall inv :: inv in invoices ==> !Matches(term, inv)
  {
    var r := Search(invoices, term);
    assert r != [] ==> r[0] in r;
    |r| == 0
  }

  /** The page's fixed list. */
  const MockInvoices: seq<Invoice> := [
    Invoice("1", "invoice_001.jpg", 2048576, "2024-11-10", "completed", Some(OcrResult(
      "INV-2024-001", "2024-11-08",
      Party("科技公司有限公司", "12345678", "台北市信義區信義路五段7號"), None,
      [LineItem("軟體授權", 1.0, 50000.0, 50000.0), LineItem("技術支援", 12.0, 5000.0, 60000.0)],
      110000.0, 5500.0, 0.96))),
    Invoice("2", "receipt_002.pdf", 1024000, "2024-11-09", "completed", Some(OcrResult(
      "INV-2024-002", "2024-11-09",
      Party("辦公用品商店", "87654321", "台北市中山區中山北路二段48號"), None,
      [LineItem("影印紙", 10.0, 150.0, 1500.0), LineItem("原子筆", 50.0, 15.0, 750.0)],
      2250.0, 112.0, 0.92))),
    Invoice("3", "invoice_003.png", 3145728, "2024-11-09", "processing", None)
  ]

  /** With no term the page lists all three invoices and no empty state; the third, still processing,
      has its actions disabled. */
  lemma FirstRender()
    ensures Search(MockInvoices, "") == MockInvoices
    ensures !ShowsEmptyState(MockInvoices, "")
    ensures ActionsEnabled(MockInvoices[0]) && ActionsEnabled(MockInvoices[1]) && !ActionsEnabled(MockInvoices[2])
  {
    EmptySearchKeepsAll(MockInvoices);
  }
}
