/** The numeric-token extractor of `backend/excel_processor.py`: every match of
    the pattern `-?\d+\.?\d*` in a cell, scanned left to right and cell by cell,
    each converted to a number. Numbers are exact reals, not IEEE doubles. */
module Numerals {
  import opened Text

  predicate AllDigits(s: string) {
    forall i :: 0 <= i < |s| ==> IsDigit(s[i])
  }

  predicate HasDigit(s: string) {
    exists i :: 0 <= i < |s| && IsDigit(s[i])
  }

  /** The unsigned numeral `\d+\.?\d*` as a whole string: a digit first, then
      digits with at most one '.' among them. */
  predicate IsUnsignedNumeral(u: string) {
    |u| > 0 && IsDigit(u[0]) &&
    forall i :: 0 <= i < |u| ==>
      IsDigit(u[i]) || (u[i] == '.' && forall j :: 0 <= j < i ==> u[j] != '.')
  }

  /** The whole-string numeral `^-?\d+\.?\d*$`. */
  predicate IsNumeral(t: string) {
    if |t| > 0 && t[0] == '-' then IsUnsignedNumeral(t[1..]) else IsUnsignedNumeral(t)
  }

  /** Length of the longest run of digits at the start of `s`. */
  function DigitRun(s: string): (n: nat)
    ensures n <= |s|
    ensures AllDigits(s[..n])
    ensures n < |s| ==> !IsDigit(s[n])
  {
    if s != [] && IsDigit(s[0]) then 1 + DigitRun(s[1..]) else 0
  }

  lemma {:induction false} DigitRunAll(s: string)
    requires AllDigits(s)
    ensures DigitRun(s) == |s|
  {
    if s != [] {
      DigitRunAll(s[1..]);
    }
  }

  /** Length of the greedy match of `\d+\.?\d*` at the start of `s`. */
  function UnsignedMatchLen(s: string): (n: nat)
    requires s != [] && IsDigit(s[0])
    ensures 0 < n <= |s|
  {
    var d := DigitRun(s);
    if d < |s| && s[d] == '.' then d + 1 + DigitRun(s[d + 1..]) else d
  }

  /** Length of the match of `-?\d+\.?\d*` that starts at the first character
      of `s`, or 0 when none starts there. The greedy match needs no
      backtracking: a '-' is taken only when a digit follows it. */
  function MatchLen(s: string): (n: nat)
    ensures n <= |s|
  {
    if s != [] && IsDigit(s[0]) then UnsignedMatchLen(s)
    else if |s| > 1 && s[0] == '-' && IsDigit(s[1]) then 1 + UnsignedMatchLen(s[1..])
    else 0
  }

  lemma UnsignedMatchIsNumeral(s: string)
    requires s != [] && IsDigit(s[0])
    ensures IsUnsignedNumeral(s[..UnsignedMatchLen(s)])
  {
    var d := DigitRun(s);
    var n := UnsignedMatchLen(s);
    var u := s[..n];
    if d < |s| && s[d] == '.' {
      var e := DigitRun(s[d + 1..]);
      forall i | 0 <= i < |u|
        ensures IsDigit(u[i]) || (u[i] == '.' && forall j :: 0 <= j < i ==> u[j] != '.')
      {
        if i < d {
          assert u[i] == s[..d][i];
        } else if i == d {
          forall j | 0 <= j < i ensures u[j] != '.' {
            assert u[j] == s[..d][j];
          }
        } else {
          assert u[i] == s[d + 1..][..e][i - d - 1];
        }
      }
    } else {
      assert u == s[..d];
    }
  }

  /** Every match is a whole numeral. */
  lemma MatchIsNumeral(s: string)
    requires MatchLen(s) > 0
    ensures IsNumeral(s[..MatchLen(s)])
  {
    if s != [] && IsDigit(s[0]) {
      UnsignedMatchIsNumeral(s);
    } else {
      UnsignedMatchIsNumeral(s[1..]);
      assert s[..MatchLen(s)][1..] == s[1..][..UnsignedMatchLen(s[1..])];
    }
  }

  /** No numeral `\d+\.?\d*` starting at the first character of `s` is longer
      than the greedy match. */
  lemma UnsignedMatchIsLongest(s: string)
    requires s != [] && IsDigit(s[0])
    ensures forall m :: UnsignedMatchLen(s) < m <= |s| ==> !IsUnsignedNumeral(s[..m])
  {
    var d := DigitRun(s);
    var n := UnsignedMatchLen(s);
    forall m | n < m <= |s| ensures !IsUnsignedNumeral(s[..m]) {
      var u := s[..m];
      assert u[n] == s[n];
      if d < |s| && s[d] == '.' {
        var e := DigitRun(s[d + 1..]);
        assert s[d + 1..][e] == s[n];
        assert u[d] == '.' && d < n;
      }
    }
  }

  /** The match `findall` takes at the start of `s` is the longest numeral
      there, and where it takes none, no prefix of `s` is a numeral. */
  lemma MatchIsLongest(s: string)
    ensures MatchLen(s) > 0 ==> IsNumeral(s[..MatchLen(s)])
    ensures forall m :: MatchLen(s) < m <= |s| ==> !IsNumeral(s[..m])
  {
    if MatchLen(s) > 0 {
      MatchIsNumeral(s);
    }
    if s != [] && IsDigit(s[0]) {
      UnsignedMatchIsLongest(s);
      forall m | MatchLen(s) < m <= |s| ensures !IsNumeral(s[..m]) {
        assert s[..m][0] == s[0];
      }
    } else if |s| > 1 && s[0] == '-' && IsDigit(s[1]) {
      UnsignedMatchIsLongest(s[1..]);
      forall m | MatchLen(s) < m <= |s| ensures !IsNumeral(s[..m]) {
        assert s[..m][0] == '-';
        assert s[..m][1..] == s[1..][..m - 1];
      }
    } else {
      forall m | 0 < m <= |s| ensures !IsNumeral(s[..m]) {
        assert s[..m][0] == s[0];
        if s[0] == '-' && m > 1 {
          assert s[..m][1..][0] == s[1];
        }
      }
    }
  }

  /** `re.findall(r'-?\d+\.?\d*', s)`: the non-overlapping matches, left to
      right; where no match starts, the scan moves on by one character. */
  function Tokens(s: string): (ts: seq<string>)
    ensures forall k :: 0 <= k < |ts| ==> IsNumeral(ts[k])
    decreases |s|
  {
    if s == [] then []
    else
      var n := MatchLen(s);
      if n > 0 then MatchIsNumeral(s); [s[..n]] + Tokens(s[n..])
      else Tokens(s[1..])
  }

  function DigitValue(c: char): nat {
    if IsDigit(c) then c as int - '0' as int else 0
  }

  /** The value of a string of decimal digits. */
  function DigitsValue(s: string): nat {
    if s == [] then 0 else 10 * DigitsValue(s[..|s| - 1]) + DigitValue(s[|s| - 1])
  }

  function Pow10(k: nat): (p: nat)
    ensures p > 0
  {
    if k == 0 then 1 else 10 * Pow10(k - 1)
  }

  /** `float(u)` of an unsigned numeral, as an exact real: the integer digits
      plus the fraction digits scaled down by their count. */
  function UnsignedValue(u: string): real
    requires IsUnsignedNumeral(u)
  {
    var d := DigitRun(u);
    var frac := if d < |u| then u[d + 1..] else "";
    DigitsValue(u[..d]) as real + DigitsValue(frac) as real / Pow10(|frac|) as real
  }

  /** `float(t)` of a numeral, as an exact real. */
  function Value(t: string): real
    requires IsNumeral(t)
  {
    if t[0] == '-' then -UnsignedValue(t[1..]) else UnsignedValue(t)
  }

  function Values(ts: seq<string>): seq<real>
    requires forall k :: 0 <= k < |ts| ==> IsNumeral(ts[k])
  {
    seq(|ts|, k requires 0 <= k < |ts| => Value(ts[k]))
  }

  /** The numbers of one text cell: `[float(n) for n in re.findall(...)]`. */
  function CellNumbers(cell: string): seq<real> {
    Values(Tokens(cell))
  }

  /** The numbers of a row: each cell's numbers, cell after cell in column order. */
  function RowNumbers(row: seq<string>): seq<real> {
    if row == [] then [] else RowNumbers(row[..|row| - 1]) + CellNumbers(row[|row| - 1])
  }

  /** `_extract_numeric_values`: grows the list cell by cell. */
  method ExtractNumericValues(row: seq<string>) returns (values: seq<real>)
    ensures values == RowNumbers(row)
  {
    values := [];
    var i := 0;
    while i < |row|
      invariant 0 <= i <= |row|
      invariant values == RowNumbers(row[..i])
    {
      assert row[..i + 1][..i] == row[..i];
      values := values + CellNumbers(row[i]);
      i := i + 1;
    }
    assert row[..|row|] == row;
  }

  /** A cell yields no number exactly when it holds no digit. */
  lemma {:induction false} TokensEmptyIff(s: string)
    ensures Tokens(s) == [] <==> !HasDigit(s)
    decreases |s|
  {
    if s != [] {
      if MatchLen(s) > 0 {
        assert IsDigit(s[0]) || IsDigit(s[1]);
      } else {
        assert !IsDigit(s[0]);
        TokensEmptyIff(s[1..]);
        if HasDigit(s[1..]) {
          var i :| 0 <= i < |s[1..]| && IsDigit(s[1..][i]);
          assert IsDigit(s[i + 1]);
        }
        if HasDigit(s) {
          var i :| 0 <= i < |s| && IsDigit(s[i]);
          assert IsDigit(s[1..][i - 1]);
        }
      }
    }
  }

  /** A row yields the empty number list exactly when none of its cells holds
      a digit. */
  lemma {:induction false} RowNumbersEmptyIff(row: seq<string>)
    ensures RowNumbers(row) == [] <==> forall j :: 0 <= j < |row| ==> !HasDigit(row[j])
  {
    if row != [] {
      var init, last := row[..|row| - 1], row[|row| - 1];
      RowNumbersEmptyIff(init);
      CellNumbersEmptyIff(last);
      NoDigitCellsSnoc(row);
      assert RowNumbers(row) == RowNumbers(init) + CellNumbers(last);
    }
  }

  lemma CellNumbersEmptyIff(cell: string)
    ensures CellNumbers(cell) == [] <==> !HasDigit(cell)
  {
    TokensEmptyIff(cell);
    assert |CellNumbers(cell)| == |Tokens(cell)|;
  }

  /** None of the cells of a row holds a digit. */
  predicate NoDigitCells(row: seq<string>) {
    forall j :: 0 <= j < |row| ==> !HasDigit(row[j])
  }

  lemma NoDigitCellsSnoc(row: seq<string>)
    requires row != []
    ensures NoDigitCells(row) <==> NoDigitCells(row[..|row| - 1]) && !HasDigit(row[|row| - 1])
  {
    var init := row[..|row| - 1];
    forall j | 0 <= j < |init|
      ensures init[j] == row[j]
    {
    }
  }

  /** Extraction is cell by cell: the numbers of a row split at any column are
      the numbers of the left part followed by those of the right part. */
  lemma {:induction false} RowNumbersAppend(a: seq<string>, b: seq<string>)
    ensures RowNumbers(a + b) == RowNumbers(a) + RowNumbers(b)
  {
    if b != [] {
      var b' := b[..|b| - 1];
      assert (a + b)[..|a + b| - 1] == a + b';
      RowNumbersAppend(a, b');
    } else {
      assert a + b == a;
    }
  }

  /** A cell that is one whole numeral yields exactly that numeral's value. */
  lemma NumeralCellRoundTrip(t: string)
    requires IsNumeral(t)
    ensures Tokens(t) == [t]
    ensures CellNumbers(t) == [Value(t)]
  {
    var u := if t[0] == '-' then t[1..] else t;
    var d := DigitRun(u);
    if d < |u| {
      assert u[d] == '.';
      var rest := u[d + 1..];
      forall i | 0 <= i < |rest| ensures IsDigit(rest[i]) {
        assert rest[i] == u[d + 1 + i];
      }
      DigitRunAll(rest);
    }
    assert MatchLen(t) == |t|;
    assert t[..|t|] == t;
    assert t[|t|..] == [];
  }

  lemma ExampleWordCell()
    ensures CellNumbers("Foo") == []
  {
    assert !IsDigit('F') && !IsDigit('o');
    assert !HasDigit("Foo");
    TokensEmptyIff("Foo");
  }

  lemma ExampleIntegerCell()
    ensures CellNumbers("12") == [12.0]
  {
    NumeralCellRoundTrip("12");
    assert DigitRun("12") == 2;
    assert "12"[..2] == "12";
    assert DigitsValue("12") == 12;
  }

  lemma ExampleDecimalCell()
    ensures CellNumbers("3.5") == [3.5]
  {
    NumeralCellRoundTrip("3.5");
    assert DigitRun("3.5") == 1;
    assert "3.5"[..1] == "3";
    assert "3.5"[2..] == "5";
    assert DigitsValue("5") == 5;
  }

  /** A one-cell row yields that cell's numbers. */
  lemma RowNumbersSingle(cell: string)
    ensures RowNumbers([cell]) == CellNumbers(cell)
  {
    assert [cell][..0] == [];
  }

  /** The worked example: `["Foo", "12", "3.5"]` yields `[12.0, 3.5]`. */
  lemma ExampleRow()
    ensures RowNumbers(["Foo", "12", "3.5"]) == [12.0, 3.5]
  {
    ExampleWordCell();
    ExampleIntegerCell();
    ExampleDecimalCell();
    RowNumbersSingle("Foo");
    RowNumbersSingle("12");
    RowNumbersSingle("3.5");
    RowNumbersAppend(["Foo"], ["12"]);
    RowNumbersAppend(["Foo", "12"], ["3.5"]);
    assert ["Foo"] + ["12"] == ["Foo", "12"];
    assert ["Foo", "12"] + ["3.5"] == ["Foo", "12", "3.5"];
  }
}
