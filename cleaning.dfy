/** The cell normalizer `_clean_dataframe` of `backend/excel_processor.py`:
    drop the rows whose every cell is missing, then the columns whose every
    remaining cell is missing, fill missing cells with "" and turn every cell
    into text. */
module Cleaning {

  /** A worksheet cell as the reader delivers it: missing (NaN), text, or a number. */
  datatype RawCell = Missing | Str(s: string) | Number(x: real)

  /** A sheet as read: the column labels and the rows, each as wide as the labels. */
  datatype RawSheet = RawSheet(columns: seq<string>, rows: seq<seq<RawCell>>)

  /** A cleaned sheet: labels and rows of text cells. */
  datatype Sheet = Sheet(columns: seq<string>, rows: seq<seq<string>>)

  predicate WellFormed(raw: RawSheet) {
    forall r :: r in raw.rows ==> |r| == |raw.columns|
  }

  predicate Rectangular(sheet: Sheet) {
    forall r :: r in sheet.rows ==> |r| == |sheet.columns|
  }

  predicate MissingRow(r: seq<RawCell>) {
    forall j :: 0 <= j < |r| ==> r[j] == Missing
  }

  predicate MissingColumn(rows: seq<seq<RawCell>>, j: nat)
    requires forall r :: r in rows ==> j < |r|
  {
    forall r :: r in rows ==> r[j] == Missing
  }

  /** `dropna(how='all')` on rows: keeps the rows holding some present cell, in order. */
  function DropMissingRows(rows: seq<seq<RawCell>>): (kept: seq<seq<RawCell>>)
    ensures |kept| <= |rows|
    ensures forall r :: r in kept ==> r in rows
  {
    if rows == [] then []
    else
      var last := rows[|rows| - 1];
      DropMissingRows(rows[..|rows| - 1]) + (if MissingRow(last) then [] else [last])
  }

  /** Dropping works row by row: a single row is kept exactly when it holds
      a present cell. */
  lemma DropMissingRowsSingle(r: seq<RawCell>)
    ensures DropMissingRows([r]) == if MissingRow(r) then [] else [r]
  {
    assert [r][..0] == [];
  }

  /** The rows kept from two runs of rows are those kept from the first,
      followed by those kept from the second: order and repeats are kept. */
  lemma {:induction false} DropMissingRowsAppend(a: seq<seq<RawCell>>, b: seq<seq<RawCell>>)
    ensures DropMissingRows(a + b) == DropMissingRows(a) + DropMissingRows(b)
  {
    if b == [] {
      assert a + b == a;
    } else {
      var init := b[..|b| - 1];
      assert (a + b)[..|a + b| - 1] == a + init;
      assert (a + b)[|a + b| - 1] == b[|b| - 1];
      DropMissingRowsAppend(a, init);
    }
  }

  /** The rows kept are rows of the sheet that hold a present cell. */
  lemma {:induction false} DropKeepsOnlyPresent(rows: seq<seq<RawCell>>)
    ensures forall r :: r in DropMissingRows(rows) ==> r in rows && !MissingRow(r)
  {
    if rows != [] {
      DropKeepsOnlyPresent(rows[..|rows| - 1]);
    }
  }

  /** Every row of the sheet that holds a present cell is kept. */
  lemma {:induction false} DropKeepsEveryPresent(rows: seq<seq<RawCell>>, r: seq<RawCell>)
    requires r in rows && !MissingRow(r)
    ensures r in DropMissingRows(rows)
  {
    var init := rows[..|rows| - 1];
    if r != rows[|rows| - 1] {
      assert rows == init + [rows[|rows| - 1]];
      DropKeepsEveryPresent(init, r);
    }
  }

  /** The indices below `n` of the columns holding some present cell, ascending. */
  function KeptColumns(rows: seq<seq<RawCell>>, n: nat): (cols: seq<nat>)
    requires forall r :: r in rows ==> n <= |r|
    ensures |cols| <= n
    ensures forall k :: 0 <= k < |cols| ==> cols[k] < n
  {
    if n == 0 then []
    else KeptColumns(rows, n - 1) + (if MissingColumn(rows, n - 1) then [] else [n - 1])
  }

  /** A column is kept exactly when it holds some present cell. */
  lemma {:induction false} KeptColumnsExact(rows: seq<seq<RawCell>>, n: nat)
    requires forall r :: r in rows ==> n <= |r|
    ensures forall j :: 0 <= j < n ==> (j in KeptColumns(rows, n) <==> !MissingColumn(rows, j))
  {
    if n > 0 {
      KeptColumnsExact(rows, n - 1);
    }
  }

  /** The kept columns stay in their left-to-right order. */
  lemma {:induction false} KeptColumnsAscending(rows: seq<seq<RawCell>>, n: nat)
    requires forall r :: r in rows ==> n <= |r|
    ensures forall k, l :: 0 <= k < l < |KeptColumns(rows, n)| ==> KeptColumns(rows, n)[k] < KeptColumns(rows, n)[l]
  {
    if n > 0 {
      KeptColumnsAscending(rows, n - 1);
    }
  }

  function Project(row: seq<RawCell>, cols: seq<nat>): seq<RawCell>
    requires forall k :: 0 <= k < |cols| ==> cols[k] < |row|
  {
    seq(|cols|, k requires 0 <= k < |cols| => row[cols[k]])
  }

  /** `dropna(axis=1, how='all')`: keeps the labelled columns holding some present cell. */
  function DropMissingColumns(raw: RawSheet): (r: RawSheet)
    requires WellFormed(raw)
    ensures WellFormed(r)
    ensures |r.rows| == |raw.rows| && |r.columns| <= |raw.columns|
  {
    var cols := KeptColumns(raw.rows, |raw.columns|);
    RawSheet(seq(|cols|, k requires 0 <= k < |cols| => raw.columns[cols[k]]),
             seq(|raw.rows|, i requires 0 <= i < |raw.rows| => Project(raw.rows[i], cols)))
  }

  /** The two drops, rows first, as the source does them. */
  function Tidy(raw: RawSheet): (r: RawSheet)
    requires WellFormed(raw)
    ensures WellFormed(r)
  {
    DropKeepsOnlyPresent(raw.rows);
    DropMissingColumns(RawSheet(raw.columns, DropMissingRows(raw.rows)))
  }

  /** `fillna('')` then `astype(str)`; `render` stands for the text pandas
      gives a number. */
  function CellText(c: RawCell, render: real -> string): string {
    match c
    case Missing => ""
    case Str(s) => s
    case Number(x) => render(x)
  }

  function ToText(raw: RawSheet, render: real -> string): Sheet {
    Sheet(raw.columns,
          seq(|raw.rows|, i requires 0 <= i < |raw.rows| =>
            seq(|raw.rows[i]|, j requires 0 <= j < |raw.rows[i]| => CellText(raw.rows[i][j], render))))
  }

  /** `_clean_dataframe`. */
  function Clean(raw: RawSheet, render: real -> string): (sheet: Sheet)
    requires WellFormed(raw)
    ensures Rectangular(sheet)
    ensures |sheet.rows| <= |raw.rows| && |sheet.columns| <= |raw.columns|
  {
    ToText(Tidy(raw), render)
  }

  /** A column is missing among the surviving rows exactly when it is missing
      among all rows: dropping rows first or columns first keeps the same columns. */
  lemma {:induction false} DropOrderIrrelevant(rows: seq<seq<RawCell>>, j: nat)
    requires forall r :: r in rows ==> j < |r|
    ensures MissingColumn(DropMissingRows(rows), j) <==> MissingColumn(rows, j)
  {
    var kept := DropMissingRows(rows);
    DropKeepsOnlyPresent(rows);
    if !MissingColumn(rows, j) {
      var r :| r in rows && r[j] != Missing;
      DropKeepsEveryPresent(rows, r);
    }
  }

  lemma ProjectKeepsPresent(src: seq<RawCell>, cols: seq<nat>, j: nat)
    requires forall k :: 0 <= k < |cols| ==> cols[k] < |src|
    requires j < |src| && src[j] != Missing && j in cols
    ensures !MissingRow(Project(src, cols))
  {
    var k :| 0 <= k < |cols| && cols[k] == j;
    assert Project(src, cols)[k] == src[j];
  }

  /** Dropping columns leaves a present cell in every row that had one. */
  lemma DropColumnsKeepsRowsPresent(raw: RawSheet)
    requires WellFormed(raw)
    requires forall r :: r in raw.rows ==> !MissingRow(r)
    ensures forall r :: r in DropMissingColumns(raw).rows ==> !MissingRow(r)
  {
    var cols := KeptColumns(raw.rows, |raw.columns|);
    KeptColumnsExact(raw.rows, |raw.columns|);
    var d := DropMissingColumns(raw);
    forall i | 0 <= i < |d.rows| ensures !MissingRow(d.rows[i]) {
      var src := raw.rows[i];
      assert src in raw.rows;
      var j :| 0 <= j < |src| && src[j] != Missing;
      assert !MissingColumn(raw.rows, j);
      ProjectKeepsPresent(src, cols, j);
    }
  }

  /** After dropping columns, every remaining column holds a present cell. */
  lemma DropColumnsLeavesNoMissingColumn(raw: RawSheet)
    requires WellFormed(raw)
    ensures forall k :: 0 <= k < |DropMissingColumns(raw).columns| ==>
              !MissingColumn(DropMissingColumns(raw).rows, k)
  {
    var cols := KeptColumns(raw.rows, |raw.columns|);
    KeptColumnsExact(raw.rows, |raw.columns|);
    var d := DropMissingColumns(raw);
    forall k | 0 <= k < |d.columns| ensures !MissingColumn(d.rows, k) {
      assert cols[k] in cols;
      var src :| src in raw.rows && src[cols[k]] != Missing;
      var i :| 0 <= i < |raw.rows| && raw.rows[i] == src;
      assert d.rows[i] in d.rows;
      assert d.rows[i] == Project(src, cols);
      assert d.rows[i][k] == src[cols[k]];
    }
  }

  /** Every surviving row keeps a present cell, and every surviving column holds one. */
  lemma TidyHasNoMissingRowOrColumn(raw: RawSheet)
    requires WellFormed(raw)
    ensures forall r :: r in Tidy(raw).rows ==> !MissingRow(r)
    ensures forall j :: 0 <= j < |Tidy(raw).columns| ==> !MissingColumn(Tidy(raw).rows, j)
  {
    var mid := RawSheet(raw.columns, DropMissingRows(raw.rows));
    DropKeepsOnlyPresent(raw.rows);
    DropColumnsKeepsRowsPresent(mid);
    DropColumnsLeavesNoMissingColumn(mid);
  }

  lemma {:induction false} DropNothing(rows: seq<seq<RawCell>>)
    requires forall r :: r in rows ==> !MissingRow(r)
    ensures DropMissingRows(rows) == rows
  {
    if rows != [] {
      var init := rows[..|rows| - 1];
      assert forall r :: r in init ==> r in rows;
      DropNothing(init);
      assert rows[|rows| - 1] in rows;
      assert init + [rows[|rows| - 1]] == rows;
    }
  }

  lemma {:induction false} KeepAllColumns(rows: seq<seq<RawCell>>, n: nat)
    requires forall r :: r in rows ==> n <= |r|
    requires forall j :: 0 <= j < n ==> !MissingColumn(rows, j)
    ensures KeptColumns(rows, n) == seq(n, j => j)
  {
    if n > 0 {
      KeepAllColumns(rows, n - 1);
      assert !MissingColumn(rows, n - 1);
      assert KeptColumns(rows, n) == seq(n - 1, j => j) + [n - 1];
      assert seq(n - 1, j => j) + [n - 1] == seq(n, j => j);
    }
  }

  lemma DropNoColumns(raw: RawSheet)
    requires WellFormed(raw)
    requires forall j :: 0 <= j < |raw.columns| ==> !MissingColumn(raw.rows, j)
    ensures DropMissingColumns(raw) == raw
  {
    KeepAllColumns(raw.rows, |raw.columns|);
    var cols := seq(|raw.columns|, j => j);
    var d := DropMissingColumns(raw);
    forall i | 0 <= i < |raw.rows| ensures d.rows[i] == raw.rows[i] {
      assert raw.rows[i] in raw.rows;
      assert Project(raw.rows[i], cols) == raw.rows[i];
    }
  }

  /** Cleaning is idempotent: a tidied sheet has nothing left to drop. */
  lemma TidyIdempotent(raw: RawSheet)
    requires WellFormed(raw)
    ensures Tidy(Tidy(raw)) == Tidy(raw)
  {
    var t := Tidy(raw);
    TidyHasNoMissingRowOrColumn(raw);
    DropNothing(t.rows);
    DropNoColumns(t);
  }

  lemma {:induction false} DropAllMissing(rows: seq<seq<RawCell>>)
    requires forall r :: r in rows ==> MissingRow(r)
    ensures DropMissingRows(rows) == []
  {
    if rows != [] {
      var init := rows[..|rows| - 1];
      assert forall r :: r in init ==> r in rows;
      DropAllMissing(init);
      assert rows[|rows| - 1] in rows;
    }
  }

  lemma {:induction false} KeepNoColumns(n: nat)
    ensures KeptColumns([], n) == []
  {
    if n > 0 {
      KeepNoColumns(n - 1);
    }
  }

  /** A sheet with no present cell at all cleans to nothing, without error. */
  lemma AllMissingCleansToEmpty(raw: RawSheet, render: real -> string)
    requires WellFormed(raw)
    requires forall r :: r in raw.rows ==> MissingRow(r)
    ensures Clean(raw, render) == Sheet([], [])
  {
    DropAllMissing(raw.rows);
    KeepNoColumns(|raw.columns|);
  }

  /** A cleaned sheet has rows exactly when it has columns. */
  lemma CleanRowsIffColumns(raw: RawSheet, render: real -> string)
    requires WellFormed(raw)
    ensures |Clean(raw, render).rows| > 0 <==> |Clean(raw, render).columns| > 0
  {
    var t := Tidy(raw);
    TidyHasNoMissingRowOrColumn(raw);
    if |t.rows| > 0 {
      assert t.rows[0] in t.rows;
      var j :| 0 <= j < |t.rows[0]| && t.rows[0][j] != Missing;
    }
    if |t.columns| > 0 {
      assert !MissingColumn(t.rows, 0);
    }
  }
}
