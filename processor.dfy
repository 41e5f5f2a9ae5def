/** The routing loop of `ExcelProcessor.process_file` and the roll-up
    `_generate_summary` in `backend/excel_processor.py`: each sheet of the
    workbook is cleaned, classified and handed to exactly one extractor; the
    summary counts the three buckets and adds up the estimate totals. */
module Processor {
  import opened Cleaning
  import opened Classifier
  import opened EstimateExtractor
  import opened FinancialGrouper
  import opened MixedContent

  datatype Summary = Summary(
    totalEstimates: nat,
    totalFinancialStatements: nat,
    totalSheets: nat,
    grandTotal: real)

  datatype ProcessedDocument = ProcessedDocument(
    fileName: string,
    sheets: map<string, MixedResult>,
    estimates: seq<EstimateResult>,
    financialStatements: seq<FinancialResult>,
    summary: Summary)

  /** A workbook as read: its sheets, by name, in workbook order. */
  type Workbook = seq<(string, RawSheet)>

  predicate WellFormedBook(book: Workbook) {
    forall k :: 0 <= k < |book| ==> WellFormed(book[k].1)
  }

  predicate DistinctNames(book: Workbook) {
    forall j, k :: 0 <= j < k < |book| ==> book[j].0 != book[k].0
  }

  /** A sheet once cleaned and classified. */
  datatype RoutedSheet = RoutedSheet(name: string, sheet: Sheet, kind: ContentType)

  /** What cleaning and classification guarantee the extractors: a clean,
      rectangular grid, with at least one row unless it is mixed. */
  predicate Routable(r: RoutedSheet) {
    Rectangular(r.sheet) && (r.kind != Mixed ==> |r.sheet.rows| > 0)
  }

  predicate AllRoutable(routed: seq<RoutedSheet>) {
    forall k :: 0 <= k < |routed| ==> Routable(routed[k])
  }

  /** Each sheet cleaned (`_clean_dataframe`) and labelled (`_detect_content_type`). */
  function Route(book: Workbook, render: real -> string): (routed: seq<RoutedSheet>)
    requires WellFormedBook(book)
    ensures |routed| == |book| && AllRoutable(routed)
    ensures forall k :: 0 <= k < |book| ==> routed[k].name == book[k].0
  {
    seq(|book|, k requires 0 <= k < |book| =>
      var cleaned := Clean(book[k].1, render);
      RoutedSheet(book[k].0, cleaned, DetectContentType(cleaned.rows)))
  }

  /** The estimates of the estimate sheets, in workbook order. */
  ghost function Estimates(routed: seq<RoutedSheet>): seq<EstimateResult>
    requires AllRoutable(routed)
  {
    if routed == [] then []
    else
      var r := routed[|routed| - 1];
      var rest := Estimates(routed[..|routed| - 1]);
      if r.kind == Estimate then rest + [EstimateOf(r.sheet, r.name)] else rest
  }

  /** The statements of the financial sheets, in workbook order. */
  function Financials(routed: seq<RoutedSheet>): seq<FinancialResult>
    requires AllRoutable(routed)
  {
    if routed == [] then []
    else
      var r := routed[|routed| - 1];
      var rest := Financials(routed[..|routed| - 1]);
      if r.kind == Financial then rest + [FinancialOf(r.sheet, r.name)] else rest
  }

  /** The names of the mixed sheets. */
  function MixedNames(routed: seq<RoutedSheet>): set<string> {
    if routed == [] then {}
    else
      var r := routed[|routed| - 1];
      MixedNames(routed[..|routed| - 1]) + (if r.kind == Mixed then {r.name} else {})
  }

  /** The pass-through results of the mixed sheets, by sheet name. */
  function MixedSheets(routed: seq<RoutedSheet>): (sheets: map<string, MixedResult>)
    requires AllRoutable(routed)
    ensures sheets.Keys == MixedNames(routed)
  {
    if routed == [] then map[]
    else
      var r := routed[|routed| - 1];
      var rest := MixedSheets(routed[..|routed| - 1]);
      if r.kind == Mixed then rest[r.name := ProcessMixedContent(r.sheet, r.name)] else rest
  }

  /** `sum(estimate['total'] for estimate in estimates)`. */
  function GrandTotal(estimates: seq<EstimateResult>): real {
    if estimates == [] then 0.0
    else GrandTotal(estimates[..|estimates| - 1]) + estimates[|estimates| - 1].total
  }

  /** The summary `_generate_summary` computes for a document. */
  function SummaryOf(doc: ProcessedDocument): Summary {
    Summary(|doc.estimates|, |doc.financialStatements|, |doc.sheets|, GrandTotal(doc.estimates))
  }

  /** What `process_file` returns for a workbook. */
  ghost function DocumentOf(fileName: string, book: Workbook, render: real -> string): ProcessedDocument
    requires WellFormedBook(book)
  {
    var routed := Route(book, render);
    var doc := ProcessedDocument(fileName, MixedSheets(routed), Estimates(routed),
                                 Financials(routed), Summary(0, 0, 0, 0.0));
    doc.(summary := SummaryOf(doc))
  }

  /** `_generate_summary`: counts the three buckets and accumulates the grand
      total over the estimates only. */
  method GenerateSummary(doc: ProcessedDocument) returns (s: Summary)
    ensures s.totalEstimates == |doc.estimates|
    ensures s.totalFinancialStatements == |doc.financialStatements|
    ensures s.totalSheets == |doc.sheets|
    ensures s.grandTotal == GrandTotal(doc.estimates)
  {
    var grandTotal := 0.0;
    var i := 0;
    while i < |doc.estimates|
      invariant 0 <= i <= |doc.estimates|
      invariant grandTotal == GrandTotal(doc.estimates[..i])
    {
      assert doc.estimates[..i + 1][..i] == doc.estimates[..i];
      grandTotal := grandTotal + doc.estimates[i].total;
      i := i + 1;
    }
    assert doc.estimates[..i] == doc.estimates;
    s := Summary(|doc.estimates|, |doc.financialStatements|, |doc.sheets|, grandTotal);
  }

  lemma PrefixRoutable(routed: seq<RoutedSheet>, i: nat)
    requires AllRoutable(routed) && i <= |routed|
    ensures AllRoutable(routed[..i])
  {
  }

  /** One more sheet adds its estimate when, and only when, it is an estimate. */
  lemma EstimatesStep(routed: seq<RoutedSheet>, i: nat)
    requires AllRoutable(routed) && i < |routed|
    ensures AllRoutable(routed[..i]) && AllRoutable(routed[..i + 1])
    ensures Estimates(routed[..i + 1]) ==
              Estimates(routed[..i]) +
              (if routed[i].kind == Estimate then [EstimateOf(routed[i].sheet, routed[i].name)] else [])
  {
    assert routed[..i + 1][..i] == routed[..i];
  }

  /** One more sheet adds its statement when, and only when, it is financial. */
  lemma FinancialsStep(routed: seq<RoutedSheet>, i: nat)
    requires AllRoutable(routed) && i < |routed|
    ensures AllRoutable(routed[..i]) && AllRoutable(routed[..i + 1])
    ensures Financials(routed[..i + 1]) ==
              Financials(routed[..i]) +
              (if routed[i].kind == Financial then [FinancialOf(routed[i].sheet, routed[i].name)] else [])
  {
    assert routed[..i + 1][..i] == routed[..i];
  }

  /** One more sheet is stored under its name when, and only when, it is mixed. */
  lemma MixedSheetsStep(routed: seq<RoutedSheet>, i: nat)
    requires AllRoutable(routed) && i < |routed|
    ensures AllRoutable(routed[..i]) && AllRoutable(routed[..i + 1])
    ensures MixedSheets(routed[..i + 1]) ==
              if routed[i].kind == Mixed
              then MixedSheets(routed[..i])[routed[i].name := ProcessMixedContent(routed[i].sheet, routed[i].name)]
              else MixedSheets(routed[..i])
  {
    assert routed[..i + 1][..i] == routed[..i];
  }

  /** `process_file` from the parsed workbook on: the per-sheet routing loop,
      then the summary. */
  method ProcessFile(fileName: string, book: Workbook, render: real -> string)
    returns (doc: ProcessedDocument)
    requires WellFormedBook(book)
    ensures doc == DocumentOf(fileName, book, render)
  {
    ghost var routed := Route(book, render);
    PrefixRoutable(routed, 0);
    var sheets: map<string, MixedResult> := map[];
    var estimates: seq<EstimateResult> := [];
    var statements: seq<FinancialResult> := [];
    var i := 0;
    while i < |book|
      invariant 0 <= i <= |book|
      invariant sheets == MixedSheets(routed[..i])
      invariant estimates == Estimates(routed[..i])
      invariant statements == Financials(routed[..i])
    {
      var (name, raw) := book[i];
      var cleaned := Clean(raw, render);
      var kind := DetectContentType(cleaned.rows);
      assert routed[i] == RoutedSheet(name, cleaned, kind);
      EstimatesStep(routed, i);
      FinancialsStep(routed, i);
      MixedSheetsStep(routed, i);
      if kind == Estimate {
        var e := ProcessEstimate(cleaned, name);
        estimates := estimates + [e];
      } else if kind == Financial {
        var f := ProcessFinancialStatement(cleaned, name);
        statements := statements + [f];
      } else {
        sheets := sheets[name := ProcessMixedContent(cleaned, name)];
      }
      i := i + 1;
    }
    assert routed[..i] == routed;
    doc := ProcessedDocument(fileName, sheets, estimates, statements, Summary(0, 0, 0, 0.0));
    var summary := GenerateSummary(doc);
    doc := doc.(summary := summary);
  }

  /** Only the names of mixed sheets are keys of `sheets`. */
  lemma {:induction false} MixedSheetsAreNamed(routed: seq<RoutedSheet>)
    ensures forall n :: n in MixedNames(routed) ==> exists k :: 0 <= k < |routed| && routed[k].name == n
  {
    if routed != [] {
      var init := routed[..|routed| - 1];
      MixedSheetsAreNamed(init);
      forall n | n in MixedNames(routed) ensures exists k :: 0 <= k < |routed| && routed[k].name == n {
        if n != routed[|routed| - 1].name {
          assert n in MixedNames(init);
          var k :| 0 <= k < |init| && init[k].name == n;
          assert routed[k].name == n;
        }
      }
    }
  }

  predicate DistinctRouted(routed: seq<RoutedSheet>) {
    forall j, k :: 0 <= j < k < |routed| ==> routed[j].name != routed[k].name
  }

  /** The last sheet adds one estimate when it is an estimate, else none. */
  lemma EstimatesCountStep(routed: seq<RoutedSheet>)
    requires AllRoutable(routed) && routed != []
    ensures AllRoutable(routed[..|routed| - 1])
    ensures |Estimates(routed)| ==
            |Estimates(routed[..|routed| - 1])| + (if routed[|routed| - 1].kind == Estimate then 1 else 0)
  {
    PrefixRoutable(routed, |routed| - 1);
  }

  /** The last sheet adds one statement when it is financial, else none. */
  lemma FinancialsCountStep(routed: seq<RoutedSheet>)
    requires AllRoutable(routed) && routed != []
    ensures AllRoutable(routed[..|routed| - 1])
    ensures |Financials(routed)| ==
            |Financials(routed[..|routed| - 1])| + (if routed[|routed| - 1].kind == Financial then 1 else 0)
  {
    PrefixRoutable(routed, |routed| - 1);
  }

  /** The last sheet, its name new among the earlier ones, adds one mixed
      name when it is mixed, else none. */
  lemma MixedCountStep(routed: seq<RoutedSheet>)
    requires routed != []
    requires forall k :: 0 <= k < |routed| - 1 ==> routed[k].name != routed[|routed| - 1].name
    ensures |MixedNames(routed)| ==
            |MixedNames(routed[..|routed| - 1])| + (if routed[|routed| - 1].kind == Mixed then 1 else 0)
  {
    var n := |routed| - 1;
    var init := routed[..n];
    MixedSheetsAreNamed(init);
    assert forall k :: 0 <= k < |init| ==> init[k].name != routed[n].name;
    assert routed[n].name !in MixedNames(init);
  }

  /** Every sheet lands in exactly one bucket: with distinct names the three
      counts add up to the number of sheets. */
  lemma {:induction false} BucketsPartition(routed: seq<RoutedSheet>)
    requires AllRoutable(routed) && DistinctRouted(routed)
    ensures |Estimates(routed)| + |Financials(routed)| + |MixedSheets(routed)| == |routed|
  {
    assert |MixedSheets(routed)| == |MixedSheets(routed).Keys| == |MixedNames(routed)|;
    BucketsCount(routed);
  }

  lemma {:induction false} BucketsCount(routed: seq<RoutedSheet>)
    requires AllRoutable(routed) && DistinctRouted(routed)
    ensures |Estimates(routed)| + |Financials(routed)| + |MixedNames(routed)| == |routed|
  {
    if routed != [] {
      var init := routed[..|routed| - 1];
      EstimatesCountStep(routed);
      FinancialsCountStep(routed);
      MixedCountStep(routed);
      assert DistinctRouted(init);
      BucketsCount(init);
    }
  }

  /** With distinct names, a sheet's name is a mixed name exactly when the
      sheet is mixed. */
  lemma {:induction false} MixedNameOfMixedSheet(routed: seq<RoutedSheet>, k: nat)
    requires DistinctRouted(routed) && k < |routed|
    ensures routed[k].name in MixedNames(routed) <==> routed[k].kind == Mixed
  {
    var n := |routed| - 1;
    var init := routed[..n];
    if k < n {
      assert init[k] == routed[k];
      assert DistinctRouted(init);
      assert routed[n].name != routed[k].name;
      MixedNameOfMixedSheet(init, k);
    } else {
      MixedSheetsAreNamed(init);
      assert forall j :: 0 <= j < |init| ==> init[j].name != routed[n].name;
    }
  }

  /** A sheet's name is a key of `sheets` exactly when the sheet is mixed. */
  lemma MixedSheetKeys(routed: seq<RoutedSheet>, k: nat)
    requires AllRoutable(routed) && DistinctRouted(routed) && k < |routed|
    ensures routed[k].name in MixedSheets(routed) <==> routed[k].kind == Mixed
  {
    MixedNameOfMixedSheet(routed, k);
  }

  /** A mixed last sheet is stored under its name. */
  lemma MixedSheetLast(routed: seq<RoutedSheet>)
    requires AllRoutable(routed) && routed != [] && routed[|routed| - 1].kind == Mixed
    ensures routed[|routed| - 1].name in MixedSheets(routed)
    ensures MixedSheets(routed)[routed[|routed| - 1].name] ==
            ProcessMixedContent(routed[|routed| - 1].sheet, routed[|routed| - 1].name)
  {
    PrefixRoutable(routed, |routed| - 1);
  }

  /** A last sheet of another name leaves an earlier sheet's entry as it was. */
  lemma MixedSheetEarlier(routed: seq<RoutedSheet>, k: nat)
    requires AllRoutable(routed) && k < |routed| - 1 && routed[k].kind == Mixed
    requires routed[|routed| - 1].name != routed[k].name
    requires AllRoutable(routed[..|routed| - 1])
    requires routed[k].name in MixedSheets(routed[..|routed| - 1])
    requires MixedSheets(routed[..|routed| - 1])[routed[k].name] == ProcessMixedContent(routed[k].sheet, routed[k].name)
    ensures routed[k].name in MixedSheets(routed)
    ensures MixedSheets(routed)[routed[k].name] == ProcessMixedContent(routed[k].sheet, routed[k].name)
  {
  }

  /** No sheet after the one at index `k` has its name. */
  predicate NameUnusedAfter(routed: seq<RoutedSheet>, k: nat)
    requires k < |routed|
  {
    forall j :: k < j < |routed| ==> routed[j].name != routed[k].name
  }

  /** A mixed sheet that no later sheet shares its name with is stored under
      its name with its pass-through result. */
  lemma {:induction false} MixedSheetStored(routed: seq<RoutedSheet>, k: nat)
    requires AllRoutable(routed) && k < |routed| && routed[k].kind == Mixed
    requires NameUnusedAfter(routed, k)
    ensures routed[k].name in MixedSheets(routed)
    ensures MixedSheets(routed)[routed[k].name] == ProcessMixedContent(routed[k].sheet, routed[k].name)
  {
    var n := |routed| - 1;
    var init := routed[..n];
    if k < n {
      PrefixRoutable(routed, n);
      assert init[k] == routed[k];
      assert NameUnusedAfter(init, k);
      MixedSheetStored(init, k);
      MixedSheetEarlier(routed, k);
    } else {
      MixedSheetLast(routed);
    }
  }

  /** The summary's three counts add up to the number of sheets, and its grand
      total adds up the estimate totals only. */
  lemma SummaryCountsSheets(fileName: string, book: Workbook, render: real -> string)
    requires WellFormedBook(book) && DistinctNames(book)
    ensures var s := DocumentOf(fileName, book, render).summary;
            s.totalEstimates + s.totalFinancialStatements + s.totalSheets == |book| &&
            s.grandTotal == GrandTotal(Estimates(Route(book, render)))
  {
    var routed := Route(book, render);
    assert DistinctRouted(routed);
    BucketsPartition(routed);
  }

  /** An empty workbook yields empty buckets and a zero summary. */
  lemma EmptyWorkbook(fileName: string, render: real -> string)
    ensures DocumentOf(fileName, [], render).summary == Summary(0, 0, 0, 0.0)
  {
    assert Route([], render) == [];
  }
}
