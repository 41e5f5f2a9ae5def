/** The estimate extractor `_process_estimate` of `backend/excel_processor.py`:
    every row after row 0 that yields a number becomes a line item whose
    fields come from the positions of its numbers; the estimate's total is
    the sum of the item totals. */
module EstimateExtractor {
  import opened Numerals
  import opened Cleaning
  import opened Fields

  datatype EstimateItem = EstimateItem(
    description: string,
    quantity: real,
    unitPrice: real,
    total: real,
    rowData: seq<string>)

  datatype EstimateResult = EstimateResult(
    sheetName: string,
    title: string,
    items: seq<EstimateItem>,
    total: real,
    headers: seq<string>)

  /** The item built from a data row. */
  function EstimateItemOf(row: seq<string>): EstimateItem {
    var v := RowNumbers(row);
    EstimateItem(Description(row), QuantityOf(v), UnitPriceOf(v), TotalOf(v), row)
  }

  /** The items of a run of data rows: one per row yielding a number, in row order. */
  ghost function Items(rows: seq<seq<string>>): seq<EstimateItem> {
    if rows == [] then []
    else
      var last := rows[|rows| - 1];
      Items(rows[..|rows| - 1]) + (if RowNumbers(last) != [] then [EstimateItemOf(last)] else [])
  }

  /** `sum(item['total'] for item in items)`. */
  function SumTotals(items: seq<EstimateItem>): real {
    if items == [] then 0.0 else SumTotals(items[..|items| - 1]) + items[|items| - 1].total
  }

  /** A data row that yields a number adds its own item, at the end. */
  lemma NumericRowStep(rows: seq<seq<string>>, i: nat)
    requires i < |rows| && RowNumbers(rows[i]) != []
    ensures Items(rows[..i + 1]) == Items(rows[..i]) + [EstimateItemOf(rows[i])]
  {
    assert rows[..i + 1][..i] == rows[..i];
  }

  /** A data row that yields no number adds nothing. */
  lemma SkippedRowStep(rows: seq<seq<string>>, i: nat)
    requires i < |rows| && RowNumbers(rows[i]) == []
    ensures Items(rows[..i + 1]) == Items(rows[..i])
  {
    assert rows[..i + 1][..i] == rows[..i];
  }

  /** What `_process_estimate` returns for a sheet with at least one row. */
  ghost function EstimateOf(sheet: Sheet, sheetName: string): EstimateResult
    requires |sheet.rows| > 0
  {
    var items := Items(sheet.rows[1..]);
    EstimateResult(sheetName, "Estimate - " + sheetName, items, SumTotals(items), FindHeaders(sheet))
  }

  /** The loop of `_process_estimate` over the rows after row 0: an item for
      every row that yields a number, in row order. */
  method CollectItems(data: seq<seq<string>>) returns (items: seq<EstimateItem>)
    ensures items == Items(data)
  {
    items := [];
    var i := 0;
    while i < |data|
      invariant 0 <= i <= |data|
      invariant items == Items(data[..i])
    {
      var row := data[i];
      var numbers := ExtractNumericValues(row);
      if numbers != [] {
        NumericRowStep(data, i);
        items := items + [EstimateItemOf(row)];
      } else {
        SkippedRowStep(data, i);
      }
      i := i + 1;
    }
    assert data[..i] == data;
  }

  /** `_process_estimate`: the headers, the items of the rows after row 0,
      and the sum of the item totals. */
  method ProcessEstimate(sheet: Sheet, sheetName: string) returns (e: EstimateResult)
    requires |sheet.rows| > 0
    ensures e == EstimateOf(sheet, sheetName)
  {
    var headers := FindHeaders(sheet);
    var items := CollectItems(sheet.rows[1..]);
    e := EstimateResult(sheetName, "Estimate - " + sheetName, items, SumTotals(items), headers);
  }

  /** Items keep row order: the items of two runs of rows are the items of the
      first run followed by those of the second. */
  lemma {:induction false} ItemsAppend(a: seq<seq<string>>, b: seq<seq<string>>)
    ensures Items(a + b) == Items(a) + Items(b)
  {
    if b == [] {
      assert a + b == a;
    } else {
      var init, last := b[..|b| - 1], b[|b| - 1];
      assert a + b == (a + init) + [last];
      assert b == init + [last];
      ItemsAppend(a, init);
      ItemsSnoc(a + init, last);
      ItemsSnoc(init, last);
    }
  }

  /** A row added at the end adds its item, if it yields a number, at the end. */
  lemma ItemsSnoc(rows: seq<seq<string>>, r: seq<string>)
    ensures Items(rows + [r]) == Items(rows) + (if RowNumbers(r) != [] then [EstimateItemOf(r)] else [])
  {
    assert (rows + [r])[..|rows|] == rows;
  }

  /** There are never more items than rows. */
  lemma {:induction false} ItemsAtMostRows(rows: seq<seq<string>>)
    ensures |Items(rows)| <= |rows|
  {
    if rows != [] {
      ItemsAtMostRows(rows[..|rows| - 1]);
    }
  }

  /** The item at index `k` comes from a row of the run that yields a number,
      and is that row's item. */
  lemma {:induction false} ItemFromNumericRow(rows: seq<seq<string>>, k: nat)
    requires k < |Items(rows)|
    ensures Items(rows)[k].rowData in rows && RowNumbers(Items(rows)[k].rowData) != []
    ensures Items(rows)[k] == EstimateItemOf(Items(rows)[k].rowData)
  {
    var n := |rows| - 1;
    var init := rows[..n];
    if k < |Items(init)| {
      ItemFromNumericRow(init, k);
      assert Items(rows)[k] == Items(init)[k];
      assert Items(init)[k].rowData in init;
      assert forall r :: r in init ==> r in rows;
    } else {
      assert Items(rows)[k] == EstimateItemOf(rows[n]);
    }
  }

  /** Every item comes from a row of the run that yields a number, and is
      that row's item; there are never more items than rows. */
  lemma ItemsFromNumericRows(rows: seq<seq<string>>)
    ensures |Items(rows)| <= |rows|
    ensures forall k :: 0 <= k < |Items(rows)| ==>
              Items(rows)[k].rowData in rows && RowNumbers(Items(rows)[k].rowData) != [] &&
              Items(rows)[k] == EstimateItemOf(Items(rows)[k].rowData)
  {
    ItemsAtMostRows(rows);
    forall k | 0 <= k < |Items(rows)|
      ensures Items(rows)[k].rowData in rows && RowNumbers(Items(rows)[k].rowData) != [] &&
              Items(rows)[k] == EstimateItemOf(Items(rows)[k].rowData)
    {
      ItemFromNumericRow(rows, k);
    }
  }

  /** The row at index `k`, when it yields a number, contributes its item. */
  lemma NumericRowBecomesItem(rows: seq<seq<string>>, k: nat)
    requires k < |rows| && RowNumbers(rows[k]) != []
    ensures EstimateItemOf(rows[k]) in Items(rows)
  {
    ItemsSplitAt(rows, k);
    ItemsSnoc([], rows[k]);
    assert [] + [rows[k]] == [rows[k]];
    assert Items(rows)[|Items(rows[..k])|] == EstimateItemOf(rows[k]);
  }

  lemma ItemsSplitAt(rows: seq<seq<string>>, k: nat)
    requires k < |rows|
    ensures Items(rows) == Items(rows[..k]) + Items([rows[k]]) + Items(rows[k + 1..])
  {
    SplitAt(rows, k);
    ItemsAppend(rows[..k] + [rows[k]], rows[k + 1..]);
    ItemsAppend(rows[..k], [rows[k]]);
  }

  lemma SplitAt<T>(s: seq<T>, k: nat)
    requires k < |s|
    ensures s == (s[..k] + [s[k]]) + s[k + 1..]
  {
  }

  /** Every row of the run that yields a number contributes its item. */
  lemma NumericRowsBecomeItems(rows: seq<seq<string>>, r: seq<string>)
    requires r in rows && RowNumbers(r) != []
    ensures EstimateItemOf(r) in Items(rows)
  {
    var k :| 0 <= k < |rows| && rows[k] == r;
    NumericRowBecomesItem(rows, k);
  }

  /** The rows of a run that yield a number, in row order. */
  ghost function NumericRows(rows: seq<seq<string>>): seq<seq<string>> {
    if rows == [] then []
    else
      var last := rows[|rows| - 1];
      NumericRows(rows[..|rows| - 1]) + (if RowNumbers(last) != [] then [last] else [])
  }

  /** The item of every row, in row order. */
  function ItemsOfRows(rows: seq<seq<string>>): seq<EstimateItem> {
    if rows == [] then [] else ItemsOfRows(rows[..|rows| - 1]) + [EstimateItemOf(rows[|rows| - 1])]
  }

  lemma ItemsOfRowsSnoc(rows: seq<seq<string>>, r: seq<string>)
    ensures ItemsOfRows(rows + [r]) == ItemsOfRows(rows) + [EstimateItemOf(r)]
  {
    assert (rows + [r])[..|rows|] == rows;
  }

  /** A last row that yields a number is the last numeric row and gives the last item. */
  lemma NumericLastRow(rows: seq<seq<string>>)
    requires rows != [] && RowNumbers(rows[|rows| - 1]) != []
    ensures NumericRows(rows) == NumericRows(rows[..|rows| - 1]) + [rows[|rows| - 1]]
    ensures Items(rows) == Items(rows[..|rows| - 1]) + [EstimateItemOf(rows[|rows| - 1])]
  {
  }

  /** A last row that yields no number adds neither a numeric row nor an item. */
  lemma SkippedLastRow(rows: seq<seq<string>>)
    requires rows != [] && RowNumbers(rows[|rows| - 1]) == []
    ensures NumericRows(rows) == NumericRows(rows[..|rows| - 1])
    ensures Items(rows) == Items(rows[..|rows| - 1])
  {
    assert NumericRows(rows) == NumericRows(rows[..|rows| - 1]) + [];
    assert Items(rows) == Items(rows[..|rows| - 1]) + [];
  }

  /** Exactly one item per row that yields a number: the items are the items
      of the numeric rows, in row order, each row once. */
  lemma {:induction false} ItemsAreNumericRows(rows: seq<seq<string>>)
    ensures Items(rows) == ItemsOfRows(NumericRows(rows))
  {
    if rows != [] {
      var init := rows[..|rows| - 1];
      ItemsAreNumericRows(init);
      if RowNumbers(rows[|rows| - 1]) != [] {
        NumericLastRow(rows);
        ItemsOfRowsSnoc(NumericRows(init), rows[|rows| - 1]);
      } else {
        SkippedLastRow(rows);
      }
    }
  }

  /** A row whose cells hold no digit is never an item. */
  lemma DigitFreeRowsAreSkipped(rows: seq<seq<string>>, k: nat)
    requires k < |Items(rows)|
    ensures exists j :: 0 <= j < |Items(rows)[k].rowData| && HasDigit(Items(rows)[k].rowData[j])
  {
    ItemsFromNumericRows(rows);
    RowNumbersEmptyIff(Items(rows)[k].rowData);
  }

  lemma {:induction false} SumTotalsAppend(a: seq<EstimateItem>, b: seq<EstimateItem>)
    ensures SumTotals(a + b) == SumTotals(a) + SumTotals(b)
  {
    if b == [] {
      assert a + b == a;
    } else {
      assert (a + b)[..|a + b| - 1] == a + b[..|b| - 1];
      SumTotalsAppend(a, b[..|b| - 1]);
    }
  }

  /** An estimate has at most one item per row after row 0, and its total is
      the sum of its item totals. */
  lemma EstimateShape(sheet: Sheet, sheetName: string)
    requires |sheet.rows| > 0
    ensures |EstimateOf(sheet, sheetName).items| <= |sheet.rows| - 1
    ensures EstimateOf(sheet, sheetName).total == SumTotals(EstimateOf(sheet, sheetName).items)
    ensures forall it :: it in EstimateOf(sheet, sheetName).items ==>
              it.rowData in sheet.rows[1..] && RowNumbers(it.rowData) != []
  {
    ItemsFromNumericRows(sheet.rows[1..]);
  }
}
