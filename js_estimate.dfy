/** `processEstimate` of `netlify/functions/upload.js`: row 0 of the sheet's
    array of arrays holds the headers; every later row becomes an object
    keyed by them, whose `Total` is recomputed from `Quantity` or `Hours`
    times `Rate` when those are truthy; the estimate's total adds up
    `parseFloat(Total)`, a NaN counting as 0. */
module JsEstimate {
  import opened JsValues

  type Row = seq<JsValue>

  /** A plain object: its own properties by key. */
  type JsObject = map<string, JsValue>

  /** `row[index]`: undefined past the end of the row. */
  function Cell(row: Row, index: nat): JsValue {
    if index < |row| then row[index] else Undefined
  }

  /** `obj.key`: undefined for a property the object does not have. */
  function Get(obj: JsObject, key: string): JsValue {
    if key in obj then obj[key] else Undefined
  }

  /** `data[0] || []`. */
  function HeadersOf(data: seq<Row>): seq<JsValue> {
    if data == [] then [] else data[0]
  }

  /** `data.slice(1)`. */
  function DataRows(data: seq<Row>): seq<Row> {
    if data == [] then [] else data[1..]
  }

  /** The index of a header that names a property: `forEach` skips holes. */
  predicate Names(headers: seq<JsValue>, j: int) {
    0 <= j < |headers| && headers[j] != Undefined
  }

  /** The property keys the named headers give, in no particular order. */
  function HeaderKeys(headers: seq<JsValue>, numText: real -> string): set<string> {
    if headers == [] then {}
    else
      var n := |headers| - 1;
      HeaderKeys(headers[..n], numText) + (if headers[n] == Undefined then {} else {KeyOf(headers[n], numText)})
  }

  /** A key is a header key exactly when some named header gives it. */
  lemma {:induction false} HeaderKeysNamed(headers: seq<JsValue>, numText: real -> string)
    ensures forall k :: k in HeaderKeys(headers, numText) <==>
              exists j :: Names(headers, j) && KeyOf(headers[j], numText) == k
  {
    if headers != [] {
      var n := |headers| - 1;
      HeaderKeysNamed(headers[..n], numText);
      assert forall j :: Names(headers[..n], j) <==> j < n && Names(headers, j);
    }
  }

  /** `headers.forEach((header, index) => { obj[header] = row[index]; })` on a
      fresh object: left to right, so a repeated key keeps its rightmost cell. */
  function Record(headers: seq<JsValue>, row: Row, numText: real -> string): (obj: JsObject)
    ensures obj.Keys == HeaderKeys(headers, numText)
  {
    if headers == [] then map[]
    else
      var n := |headers| - 1;
      var init := Record(headers[..n], row, numText);
      if headers[n] == Undefined then init else init[KeyOf(headers[n], numText) := Cell(row, n)]
  }

  /** A header's key maps to the row's cell under it when no later header
      names the same key. */
  lemma {:induction false} RecordRightmost(headers: seq<JsValue>, row: Row, numText: real -> string, j: nat)
    requires Names(headers, j)
    requires forall i :: j < i < |headers| && Names(headers, i) ==>
               KeyOf(headers[i], numText) != KeyOf(headers[j], numText)
    ensures Get(Record(headers, row, numText), KeyOf(headers[j], numText)) == Cell(row, j)
  {
    var n := |headers| - 1;
    if j < n {
      RecordRightmost(headers[..n], row, numText, j);
    }
  }

  /** The object a data row becomes, `Total` recomputed when the row has a
      truthy `Quantity` and `Rate`, or else a truthy `Hours` and `Rate`. */
  function EstimateLine(headers: seq<JsValue>, row: Row, numText: real -> string): JsObject {
    var item := Record(headers, row, numText);
    var rate := Get(item, "Rate");
    if Truthy(Get(item, "Quantity")) && Truthy(rate) then
      item["Total" := TimesParsed(Get(item, "Quantity"), rate)]
    else if Truthy(Get(item, "Hours")) && Truthy(rate) then
      item["Total" := TimesParsed(Get(item, "Hours"), rate)]
    else item
  }

  /** `items.reduce((sum, item) => sum + (parseFloat(item.Total) || 0), 0)`. */
  function SumTotals(items: seq<JsObject>): real {
    if items == [] then 0.0
    else SumTotals(items[..|items| - 1]) + ParsedOrZero(Get(items[|items| - 1], "Total"))
  }

  datatype JsEstimateResult = JsEstimateResult(
    sheetName: string,
    title: string,
    items: seq<JsObject>,
    total: real)

  /** `processEstimate`: exactly one item per row after the header row, in
      row order, and their parsed totals summed. */
  function ProcessEstimate(data: seq<Row>, sheetName: string, numText: real -> string): (e: JsEstimateResult)
    ensures e.sheetName == sheetName && e.title == sheetName + " - Project Estimate"
    ensures |e.items| == |DataRows(data)| && (data != [] ==> |e.items| == |data| - 1)
    ensures forall k :: 0 <= k < |e.items| ==>
              e.items[k] == EstimateLine(HeadersOf(data), DataRows(data)[k], numText)
    ensures e.total == SumTotals(e.items)
  {
    var headers := HeadersOf(data);
    var rows := DataRows(data);
    var items := seq(|rows|, k requires 0 <= k < |rows| => EstimateLine(headers, rows[k], numText));
    JsEstimateResult(sheetName, sheetName + " - Project Estimate", items, SumTotals(items))
  }

  /** The item keeps every property of the row's record, and only `Total`
      may differ from it. */
  lemma LineAgreesWithRecord(headers: seq<JsValue>, row: Row, numText: real -> string, key: string)
    ensures key in Record(headers, row, numText) ==> key in EstimateLine(headers, row, numText)
    ensures key != "Total" ==>
              Get(EstimateLine(headers, row, numText), key) == Get(Record(headers, row, numText), key)
  {
  }

  /** The `Total` rule: Quantity times Rate if both are truthy, else Hours
      times Rate if both are truthy, else the row's own `Total` cell. */
  lemma LineTotalRule(headers: seq<JsValue>, row: Row, numText: real -> string)
    ensures var rec := Record(headers, row, numText);
            var total := Get(EstimateLine(headers, row, numText), "Total");
            var q := Get(rec, "Quantity");
            var h := Get(rec, "Hours");
            var r := Get(rec, "Rate");
            (Truthy(q) && Truthy(r) ==> total == TimesParsed(q, r)) &&
            (!(Truthy(q) && Truthy(r)) && Truthy(h) && Truthy(r) ==> total == TimesParsed(h, r)) &&
            (!Truthy(r) || (!Truthy(q) && !Truthy(h)) ==> total == Get(rec, "Total"))
  {
  }

  /** Items whose `Total` does not parse add nothing to the estimate total. */
  lemma {:induction false} UnparsedTotalsCountZero(items: seq<JsObject>)
    requires forall k :: 0 <= k < |items| ==> ParseFloat(Get(items[k], "Total")) == None
    ensures SumTotals(items) == 0.0
  {
    if items != [] {
      UnparsedTotalsCountZero(items[..|items| - 1]);
    }
  }

  /** Worked example: headers Item, Quantity, Rate and the row Paint, 2, 50
      give an item whose `Total` is 100. */
  lemma ExampleQuantityTimesRate(numText: real -> string)
    ensures Get(EstimateLine([Str("Item"), Str("Quantity"), Str("Rate")],
                             [Str("Paint"), Num(2.0), Num(50.0)], numText), "Total") == Num(100.0)
  {
    var headers := [Str("Item"), Str("Quantity"), Str("Rate")];
    var row := [Str("Paint"), Num(2.0), Num(50.0)];
    RecordRightmost(headers, row, numText, 1);
    RecordRightmost(headers, row, numText, 2);
    LineTotalRule(headers, row, numText);
  }
}
