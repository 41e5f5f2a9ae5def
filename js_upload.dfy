/** `processExcelData` of `netlify/functions/upload.js`: every sheet is stored
    as a table of records; a sheet mentioning an estimate word is processed as
    an estimate, else one mentioning a financial word as a financial
    statement, else it is in neither list; the summary counts both lists and
    every sheet, and adds up the estimate totals. */
module JsUpload {
  import opened Text
  import opened JsValues
  import opened JsEstimate
  import opened JsFinancial

  /** `result.sheets[sheetName]`. */
  datatype SheetTable = SheetTable(title: string, headers: seq<JsValue>, data: seq<JsObject>)

  datatype JsSummary = JsSummary(
    totalEstimates: nat,
    totalFinancialStatements: nat,
    totalSheets: nat,
    grandTotal: real)

  datatype UploadResult = UploadResult(
    estimates: seq<JsEstimateResult>,
    financialStatements: seq<JsFinancialResult>,
    sheets: map<string, SheetTable>,
    summary: JsSummary)

  /** A workbook as `sheet_to_json(..., { header: 1 })` delivers it: each
      sheet name, in `SheetNames` order, with its array of arrays. */
  type JsWorkbook = seq<(string, seq<Row>)>

  /** The table stored for a sheet: one record per row after the header row. */
  function TableOf(data: seq<Row>, sheetName: string, numText: real -> string): (t: SheetTable)
    ensures t.title == sheetName && t.headers == HeadersOf(data)
    ensures |t.data| == |DataRows(data)|
    ensures forall k :: 0 <= k < |t.data| ==> t.data[k] == Record(HeadersOf(data), DataRows(data)[k], numText)
  {
    var rows := DataRows(data);
    SheetTable(sheetName, HeadersOf(data),
               seq(|rows|, k requires 0 <= k < |rows| => Record(HeadersOf(data), rows[k], numText)))
  }

  /** `JSON.stringify(data).toLowerCase().includes(word)`, read on the string
      cells of the sheet. */
  predicate Mentions(data: seq<Row>, word: string) {
    exists i, j :: 0 <= i < |data| && 0 <= j < |data[i]| && data[i][j].Str? && Contains(Lower(data[i][j].s), word)
  }

  predicate HasEstimateWord(data: seq<Row>) {
    Mentions(data, "estimate") || Mentions(data, "project") || Mentions(data, "hours") || Mentions(data, "rate")
  }

  predicate HasFinancialWord(data: seq<Row>) {
    Mentions(data, "income") || Mentions(data, "balance") || Mentions(data, "revenue") || Mentions(data, "expense")
  }

  /** The estimate words are looked for first. */
  predicate IsFinancialSheet(data: seq<Row>) {
    !HasEstimateWord(data) && HasFinancialWord(data)
  }

  /** The estimates of the estimate sheets, in `SheetNames` order. */
  function Estimates(book: JsWorkbook, numText: real -> string): seq<JsEstimateResult> {
    if book == [] then []
    else
      var (name, data) := book[|book| - 1];
      Estimates(book[..|book| - 1], numText) +
      (if HasEstimateWord(data) then [ProcessEstimate(data, name, numText)] else [])
  }

  /** The statements of the financial sheets, in `SheetNames` order. */
  function Financials(book: JsWorkbook, numText: real -> string): seq<JsFinancialResult> {
    if book == [] then []
    else
      var (name, data) := book[|book| - 1];
      Financials(book[..|book| - 1], numText) +
      (if IsFinancialSheet(data) then [FinancialOf(data, name, numText)] else [])
  }

  /** Every sheet's table, by name. */
  function Tables(book: JsWorkbook, numText: real -> string): map<string, SheetTable> {
    if book == [] then map[]
    else
      var (name, data) := book[|book| - 1];
      Tables(book[..|book| - 1], numText)[name := TableOf(data, name, numText)]
  }

  /** `grand_total += estimate.total || 0`, over the estimates. */
  function GrandTotal(estimates: seq<JsEstimateResult>): real {
    if estimates == [] then 0.0
    else GrandTotal(estimates[..|estimates| - 1]) + estimates[|estimates| - 1].total
  }

  /** What `processExcelData` returns. */
  function UploadOf(book: JsWorkbook, numText: real -> string): UploadResult {
    var estimates := Estimates(book, numText);
    var statements := Financials(book, numText);
    UploadResult(estimates, statements, Tables(book, numText),
                 JsSummary(|estimates|, |statements|, |book|, GrandTotal(estimates)))
  }

  /** A sheet mentioning an estimate word adds its estimate and no statement. */
  lemma EstimateSheetStep(book: JsWorkbook, i: nat, numText: real -> string)
    requires i < |book| && HasEstimateWord(book[i].1)
    ensures Estimates(book[..i + 1], numText) ==
            Estimates(book[..i], numText) + [ProcessEstimate(book[i].1, book[i].0, numText)]
    ensures Financials(book[..i + 1], numText) == Financials(book[..i], numText)
  {
    assert book[..i + 1][..i] == book[..i];
  }

  /** A financial sheet adds its statement and no estimate. */
  lemma FinancialSheetStep(book: JsWorkbook, i: nat, numText: real -> string)
    requires i < |book| && !HasEstimateWord(book[i].1) && HasFinancialWord(book[i].1)
    ensures Estimates(book[..i + 1], numText) == Estimates(book[..i], numText)
    ensures Financials(book[..i + 1], numText) ==
            Financials(book[..i], numText) + [FinancialOf(book[i].1, book[i].0, numText)]
  {
    assert book[..i + 1][..i] == book[..i];
  }

  /** A sheet mentioning no word of either kind adds nothing to either list. */
  lemma OtherSheetStep(book: JsWorkbook, i: nat, numText: real -> string)
    requires i < |book| && !HasEstimateWord(book[i].1) && !HasFinancialWord(book[i].1)
    ensures Estimates(book[..i + 1], numText) == Estimates(book[..i], numText)
    ensures Financials(book[..i + 1], numText) == Financials(book[..i], numText)
  {
    assert book[..i + 1][..i] == book[..i];
  }

  lemma TablesStep(book: JsWorkbook, i: nat, numText: real -> string)
    requires i < |book|
    ensures Tables(book[..i + 1], numText) ==
            Tables(book[..i], numText)[book[i].0 := TableOf(book[i].1, book[i].0, numText)]
  {
    assert book[..i + 1][..i] == book[..i];
  }

  lemma GrandTotalStep(estimates: seq<JsEstimateResult>, e: JsEstimateResult)
    ensures GrandTotal(estimates + [e]) == GrandTotal(estimates) + e.total
  {
    assert (estimates + [e])[..|estimates|] == estimates;
  }

  /** `processExcelData`: the `forEach` over `SheetNames` storing each table,
      pushing to one list at most and bumping its counter, then
      `total_sheets` set to the number of sheet names. */
  method ProcessExcelData(book: JsWorkbook, numText: real -> string) returns (result: UploadResult)
    ensures result == UploadOf(book, numText)
  {
    var estimates: seq<JsEstimateResult> := [];
    var statements: seq<JsFinancialResult> := [];
    var sheets: map<string, SheetTable> := map[];
    var totalEstimates := 0;
    var totalFinancialStatements := 0;
    var grandTotal := 0.0;
    var i := 0;
    while i < |book|
      invariant 0 <= i <= |book|
      invariant estimates == Estimates(book[..i], numText)
      invariant statements == Financials(book[..i], numText)
      invariant sheets == Tables(book[..i], numText)
      invariant totalEstimates == |estimates| && totalFinancialStatements == |statements|
      invariant grandTotal == GrandTotal(estimates)
    {
      var sheetName := book[i].0;
      var data := book[i].1;
      TablesStep(book, i, numText);
      sheets := sheets[sheetName := TableOf(data, sheetName, numText)];
      if HasEstimateWord(data) {
        EstimateSheetStep(book, i, numText);
        var estimate := ProcessEstimate(data, sheetName, numText);
        GrandTotalStep(estimates, estimate);
        estimates := estimates + [estimate];
        totalEstimates := totalEstimates + 1;
        grandTotal := grandTotal + estimate.total;
      } else if HasFinancialWord(data) {
        FinancialSheetStep(book, i, numText);
        var financial := ProcessFinancialStatement(data, sheetName, numText);
        statements := statements + [financial];
        totalFinancialStatements := totalFinancialStatements + 1;
      } else {
        OtherSheetStep(book, i, numText);
      }
      i := i + 1;
    }
    assert book[..i] == book;
    result := UploadResult(estimates, statements, sheets,
                           JsSummary(totalEstimates, totalFinancialStatements, |book|, grandTotal));
  }

  /** Every sheet's name is a key of `sheets`, whatever the sheet's kind. */
  lemma {:induction false} SheetNameStored(book: JsWorkbook, numText: real -> string, k: nat)
    requires k < |book|
    ensures book[k].0 in Tables(book, numText)
  {
    var init := book[..|book| - 1];
    if k < |book| - 1 {
      assert init[k] == book[k];
      SheetNameStored(init, numText, k);
    }
  }

  /** Every key of `sheets` is the name of some sheet. */
  lemma {:induction false} StoredKeyIsSheetName(book: JsWorkbook, numText: real -> string, n: string)
    requires n in Tables(book, numText)
    ensures exists k :: 0 <= k < |book| && book[k].0 == n
  {
    var init := book[..|book| - 1];
    if n == book[|book| - 1].0 {
      assert book[|book| - 1].0 == n;
    } else {
      assert n in Tables(init, numText);
      StoredKeyIsSheetName(init, numText, n);
      var k :| 0 <= k < |init| && init[k].0 == n;
      assert book[k].0 == n;
    }
  }

  /** The keys of `sheets` are exactly the sheet names. */
  lemma EverySheetStored(book: JsWorkbook, numText: real -> string)
    ensures forall n :: n in Tables(book, numText) <==> exists k :: 0 <= k < |book| && book[k].0 == n
  {
    forall n ensures n in Tables(book, numText) <==> exists k :: 0 <= k < |book| && book[k].0 == n {
      if n in Tables(book, numText) {
        StoredKeyIsSheetName(book, numText, n);
      } else if k :| 0 <= k < |book| && book[k].0 == n {
        SheetNameStored(book, numText, k);
      }
    }
  }

  /** With distinct sheet names, each sheet's table holds one record per row
      after its header row. */
  lemma {:induction false} SheetTableOfEachSheet(book: JsWorkbook, numText: real -> string, k: nat)
    requires k < |book|
    requires forall i, j :: 0 <= i < j < |book| ==> book[i].0 != book[j].0
    ensures book[k].0 in Tables(book, numText)
    ensures Tables(book, numText)[book[k].0] == TableOf(book[k].1, book[k].0, numText)
  {
    var init := book[..|book| - 1];
    if k < |book| - 1 {
      assert init[k] == book[k];
      SheetTableOfEachSheet(init, numText, k);
    }
  }

  /** The sheets that are in neither list. */
  function Unlisted(book: JsWorkbook): nat {
    if book == [] then 0
    else
      var data := book[|book| - 1].1;
      Unlisted(book[..|book| - 1]) + (if !HasEstimateWord(data) && !HasFinancialWord(data) then 1 else 0)
  }

  /** Each sheet is counted once: an estimate, a financial statement, or
      neither; so the two list counts never exceed `total_sheets`. */
  lemma {:induction false} CountsPartitionSheets(book: JsWorkbook, numText: real -> string)
    ensures |Estimates(book, numText)| + |Financials(book, numText)| + Unlisted(book) == |book|
    ensures var s := UploadOf(book, numText).summary;
            s.totalEstimates + s.totalFinancialStatements <= s.totalSheets
  {
    if book != [] {
      CountsPartitionSheets(book[..|book| - 1], numText);
    }
  }
}
