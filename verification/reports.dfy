/**
 The reports page (`pages/Reports.tsx`): the request parameters built from the filters, the load with
 its mock fallback, the search over the report's invoice list, and the export outcome. Dates reach the
 model already formatted as `YYYY-MM-DD`; `None` is a cleared date picker.
 */
module Reports {
  import opened Wrappers
  import opened Text
  import opened Seqs
  import opened Responses

  datatype CategoryShare = CategoryShare(category: string, amount: real, count: int, percentage: real)

  datatype Summary = Summary(totalInvoices: int, totalAmount: real, averageAmount: real,
                             categoryBreakdown: seq<CategoryShare>)

  datatype MonthTotal = MonthTotal(month: string, amount: real, count: int)

  /** One row of the report's invoice table. */
  datatype ReportInvoice = ReportInvoice(id: string, invoiceNumber: string, date: string, vendor: string,
                                         category: string, amount: real, status: string)

  datatype ReportData = ReportData(summary: Summary, monthlyTrend: seq<MonthTotal>, invoiceList: seq<ReportInvoice>)

  /** The page's state: the loaded report (`None` before the first load), the error, and the filters. */
  datatype View = View(data: Option<ReportData>, error: Option<string>, dateFrom: Option<string>,
                       dateTo: Option<string>, category: string, department: string, searchTerm: string)

  /** What a load or an export sends. */
  datatype Params = Params(dateFrom: string, dateTo: string, category: Option<string>, department: Option<string>)

  /** The parameters: a cleared date becomes the empty string, and an empty category or department is
      left out. */
  function ParamsOf(v: View): (q: Params)
    ensures v.dateFrom.None? ==> q.dateFrom == ""
    ensures v.dateTo.None? ==> q.dateTo == ""
    ensures v.dateFrom.Some? && v.dateFrom.value != "" ==> q.dateFrom == v.dateFrom.value
    ensures v.dateTo.Some? && v.dateTo.value != "" ==> q.dateTo == v.dateTo.value
    ensures q.category.None? <==> v.category == ""
    ensures q.category.Some? ==> q.category.value == v.category
    ensures q.department.None? <==> v.department == ""
    ensures q.department.Some? ==> q.department.value == v.department
  {
    Params(MessageOr(v.dateFrom, ""), MessageOr(v.dateTo, ""),
           if v.category == "" then None else Some(v.category),
           if v.department == "" then None else Some(v.department))
  }

  /** The filters can be read back from the parameters: a set date, the category and the department
      come back unchanged, so leaving an empty filter out loses nothing. */
  lemma ParamsRecoverFilters(v: View)
    ensures ParamsOf(v).category.GetOr("") == v.category
    ensures ParamsOf(v).department.GetOr("") == v.department
    ensures v.dateFrom.Some? ==> ParamsOf(v).dateFrom == v.dateFrom.value
    ensures v.dateTo.Some? ==> ParamsOf(v).dateTo == v.dateTo.value
  {
  }

  /** The parameters depend on the filters only: the report loaded and the search term play no part. */
  lemma ParamsIgnoreSearch(v: View, data: Option<ReportData>, term: string)
    ensures ParamsOf(v.(data := data, searchTerm := term)) == ParamsOf(v)
  {
  }

  /** `loadReportData`: the server's report on success, the mock report on a refusal or a throw; the
      error is cleared and the filters are kept. */
  function Load(v: View, r: Response<ReportData>): (w: View)
    ensures r.Ok? ==> w.data == Some(r.data)
    ensures !r.Ok? ==> w.data == Some(MockReport)
    ensures w.error.None? && w.(data := v.data, error := v.error) == v
  {
    match r
    case Ok(d) => v.(data := Some(d), error := None)
    case _ => v.(data := Some(MockReport), error := None)
  }

  /** The search test: the lowered term occurs in the lowered invoice number or vendor. */
  predicate Matches(term: string, inv: ReportInvoice) {
    Includes(Lower(inv.invoiceNumber), Lower(term)) || Includes(Lower(inv.vendor), Lower(term))
  }

  /** `filteredInvoices`: the report's invoices that match, or nothing before a report is loaded. */
  function Filtered(v: View): (r: seq<ReportInvoice>)
    ensures v.data.None? ==> r == []
    ensures v.data.Some? ==> forall inv :: inv in r <==> inv in v.data.value.invoiceList && Matches(v.searchTerm, inv)
    ensures v.data.Some? ==> |r| <= |v.data.value.invoiceList|
  {
    if v.data.None? then [] else Filter(v.data.value.invoiceList, inv => Matches(v.searchTerm, inv))
  }

  /** An empty term shows the whole invoice list. */
  lemma EmptySearchShowsAll(v: View)
    requires v.data.Some? && v.searchTerm == ""
    ensures Filtered(v) == v.data.value.invoiceList
  {
    var list := v.data.value.invoiceList;
    forall i | 0 <= i < |list|
      ensures Matches("", list[i])
    {
      IncludesEmpty(Lower(list[i].invoiceNumber));
    }
    FilterKeepsAll(list, inv => Matches("", inv));
  }

  /** The search ignores the case of the term. */
  lemma SearchIgnoresCase(v: View)
    ensures Filtered(v.(searchTerm := Lower(v.searchTerm))) == Filtered(v)
  {
    if v.data.Some? {
      LowerIdempotent(v.searchTerm);
      FilterAgrees(v.data.value.invoiceList,
                   inv => Matches(Lower(v.searchTerm), inv), inv => Matches(v.searchTerm, inv));
    }
  }

  /** The search keeps the list's order: a report whose list is `a + b` filters to the filtered `a`
      followed by the filtered `b`. */
  lemma SearchKeepsOrder(v: View, a: seq<ReportInvoice>, b: seq<ReportInvoice>)
    requires v.data.Some? && v.data.value.invoiceList == a + b
    ensures Filtered(v) == Filtered(v.(data := Some(v.data.value.(invoiceList := a))))
                           + Filtered(v.(data := Some(v.data.value.(invoiceList := b))))
  {
    FilterAppend(a, b, inv => Matches(v.searchTerm, inv));
  }

  /** Once any load has finished there is a report, so with an empty term the table shows its whole
      list; a failed load shows the five mock invoices. */
  lemma FailedLoadShowsMock(v: View, r: Response<ReportData>)
    requires !r.Ok? && v.searchTerm == ""
    ensures Filtered(Load(v, r)) == MockReport.invoiceList && |Filtered(Load(v, r))| == 5
  {
    EmptySearchShowsAll(Load(v, r));
  }

  // ---------------------------------------------------------------------------------------------
  // Export
  // ---------------------------------------------------------------------------------------------

  datatype ExportFormat = Excel | Csv | Pdf

  function FormatName(f: ExportFormat): string {
    match f
    case Excel => "excel"
    case Csv => "csv"
    case Pdf => "pdf"
  }

  const ExportFailed := "匯出失敗，請稍後再試"
  const ExportThrew := "匯出過程中發生錯誤"

  /** How `exportReport` answered: with a blob, with nothing, or by throwing. */
  datatype ExportAnswer = Blob | NoBlob | ExportError

  /** The name the download gets: `report_<today>.<format>`. */
  function ExportFileName(today: string, f: ExportFormat): (name: string)
    ensures |name| == 8 + |today| + |FormatName(f)|
    ensures name[..7] == "report_" && name[7..7 + |today|] == today
    ensures name[7 + |today|..] == "." + FormatName(f)
  {
    "report_" + today + "." + FormatName(f)
  }

  /** Exports made on days written with the same length (every `YYYY-MM-DD` date) get the same name
      only when they are of the same day and the same format. */
  lemma ExportNamesDiffer(d1: string, d2: string, f1: ExportFormat, f2: ExportFormat)
    requires |d1| == |d2|
    requires ExportFileName(d1, f1) == ExportFileName(d2, f2)
    ensures d1 == d2 && f1 == f2
  {
    var n := ExportFileName(d1, f1);
    assert d1 == n[7..7 + |d1|] == d2;
    var e1, e2 := FormatName(f1), FormatName(f2);
    assert "." + e1 == n[7 + |d1|..] == "." + e2;
    assert e1 == ("." + e1)[1..] == ("." + e2)[1..] == e2;
  }

  /** `handleExportReport`: the download's file name when a blob came back; otherwise the matching
      error, leaving the rest of the page as it was. A download does not clear an earlier error. */
  function Export(v: View, today: string, f: ExportFormat, answer: ExportAnswer): (r: (Option<string>, View))
    ensures answer == Blob <==> r.0.Some?
    ensures answer == Blob ==> r.0.value == ExportFileName(today, f) && r.1 == v
    ensures answer == NoBlob ==> r.1 == v.(error := Some(ExportFailed))
    ensures answer == ExportError ==> r.1 == v.(error := Some(ExportThrew))
  {
    match answer
    case Blob => (Some(ExportFileName(today, f)), v)
    case NoBlob => (None, v.(error := Some(ExportFailed)))
    case ExportError => (None, v.(error := Some(ExportThrew)))
  }

  // ---------------------------------------------------------------------------------------------
  // Mock data
  // ---------------------------------------------------------------------------------------------

  /** `getMockReportData`. */
  const MockReport := ReportData(
    Summary(245, 1250000.0, 5102.0, [
      CategoryShare("辦公用品", 350000.0, 85, 28.0),
      CategoryShare("差旅費", 300000.0, 65, 24.0),
      CategoryShare("餐飲費", 250000.0, 120, 20.0),
      CategoryShare("設備費", 200000.0, 15, 16.0),
      CategoryShare("其他", 150000.0, 60, 12.0)]),
    [MonthTotal("8月", 380000.0, 78), MonthTotal("9月", 420000.0, 82), MonthTotal("10月", 450000.0, 85)],
    [ReportInvoice("1", "INV-2024-001", "2024-11-10", "台灣科技股份有限公司", "辦公用品", 1450.0, "completed"),
     ReportInvoice("2", "RCP-2024-002", "2024-11-09", "便利商店股份有限公司", "餐飲費", 210.0, "completed"),
     ReportInvoice("3", "INV-2024-003", "2024-11-08", "電腦設備有限公司", "設備費", 25800.0, "completed"),
     ReportInvoice("4", "RCP-2024-004", "2024-11-07", "加油站股份有限公司", "差旅費", 850.0, "completed"),
     ReportInvoice("5", "INV-2024-005", "2024-11-06", "文具用品有限公司", "辦公用品", 680.0, "completed")])
}
