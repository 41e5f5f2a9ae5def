/** The per-row helpers of `ExcelProcessor` in `backend/excel_processor.py`:
    header discovery, the description and section name of a row, the
    positional assignment of a row's numbers to quantity, unit price, total
    and amount, and the section-header test. */
module Fields {
  import opened Text
  import opened Numerals
  import opened Cleaning

  /** A cell holding a character that is not whitespace, that is, one whose
      stripped text is not empty (`Text.StripEmptyIff`). */
  predicate NonBlank(cell: string) {
    !IsBlank(cell)
  }

  /** The index of the first non-blank cell at or after `i`, or the row's length
      when none is. */
  function FirstNonBlankFrom(row: seq<string>, i: nat): (k: nat)
    requires i <= |row|
    ensures i <= k <= |row|
    ensures k < |row| ==> NonBlank(row[k])
    ensures forall j :: i <= j < k ==> !NonBlank(row[j])
    decreases |row| - i
  {
    if i == |row| then i
    else if NonBlank(row[i]) then i
    else FirstNonBlankFrom(row, i + 1)
  }

  /** The index of the first non-blank cell, or the row's length when none is. */
  function FirstNonBlank(row: seq<string>): (k: nat)
    ensures k <= |row|
    ensures k < |row| ==> NonBlank(row[k])
    ensures forall j :: 0 <= j < k ==> !NonBlank(row[j])
  {
    FirstNonBlankFrom(row, 0)
  }

  /** `_find_headers`: row 0's stripped cells when one of them is not blank,
      otherwise the column labels. Only ever asked of a sheet with a row. */
  function FindHeaders(sheet: Sheet): seq<string>
    requires |sheet.rows| > 0
  {
    var first := sheet.rows[0];
    if FirstNonBlank(first) < |first| then
      seq(|first|, j requires 0 <= j < |first| => Strip(first[j]))
    else
      sheet.columns
  }

  /** A row 0 with a non-blank cell gives the headers: its cells, stripped. */
  lemma HeadersFromHeaderRow(sheet: Sheet, k: nat)
    requires |sheet.rows| > 0 && k < |sheet.rows[0]| && NonBlank(sheet.rows[0][k])
    ensures |FindHeaders(sheet)| == |sheet.rows[0]| && FindHeaders(sheet)[k] != ""
    ensures forall j :: 0 <= j < |sheet.rows[0]| ==> FindHeaders(sheet)[j] == Strip(sheet.rows[0][j])
  {
  }

  /** A row 0 whose cells are all blank leaves the column labels as headers. */
  lemma HeadersFromColumns(sheet: Sheet)
    requires |sheet.rows| > 0
    requires forall j :: 0 <= j < |sheet.rows[0]| ==> !NonBlank(sheet.rows[0][j])
    ensures FindHeaders(sheet) == sheet.columns
  {
  }

  /** A cell that can describe a row: not blank, and not one whole numeral. */
  predicate Describes(cell: string) {
    NonBlank(cell) && !IsNumeral(Strip(cell))
  }

  /** The index of the first describing cell at or after `i`, or the row's length
      when none is. */
  function FirstDescribingFrom(row: seq<string>, i: nat): (k: nat)
    requires i <= |row|
    ensures i <= k <= |row|
    ensures k < |row| ==> Describes(row[k])
    ensures forall j :: i <= j < k ==> !Describes(row[j])
    decreases |row| - i
  {
    if i == |row| then i
    else if Describes(row[i]) then i
    else FirstDescribingFrom(row, i + 1)
  }

  /** The index of the first describing cell, or the row's length when none is. */
  function FirstDescribing(row: seq<string>): (k: nat)
    ensures k <= |row|
    ensures k < |row| ==> Describes(row[k])
    ensures forall j :: 0 <= j < k ==> !Describes(row[j])
  {
    FirstDescribingFrom(row, 0)
  }


  /** `_get_description`: the first describing cell, stripped, or "Item";
      never empty. */
  function Description(row: seq<string>): (d: string)
    ensures d != ""
  {
    var k := FirstDescribing(row);
    if k < |row| then Strip(row[k]) else "Item"
  }

  /** `_get_section_name`: the first non-blank cell, stripped, or "Section";
      never empty. */
  function SectionName(row: seq<string>): (name: string)
    ensures name != ""
  {
    var k := FirstNonBlank(row);
    if k < |row| then Strip(row[k]) else "Section"
  }

  /** `_get_quantity`, on the row's numbers: the first, or 1.0. */
  function QuantityOf(v: seq<real>): real {
    if v != [] then v[0] else 1.0
  }

  /** `_get_unit_price`, on the row's numbers: the second, or 0.0. */
  function UnitPriceOf(v: seq<real>): real {
    if |v| > 1 then v[1] else 0.0
  }

  /** `_get_total`, on the row's numbers: the third; with exactly two, their
      product; with one, that one; with none, 0.0. */
  function TotalOf(v: seq<real>): real {
    if |v| >= 3 then v[2]
    else if |v| == 2 then v[0] * v[1]
    else if v != [] then v[0]
    else 0.0
  }

  /** `_get_amount`, on the row's numbers: the last, or 0.0. */
  function AmountOf(v: seq<real>): real {
    if v != [] then v[|v| - 1] else 0.0
  }

  /** The positional rule seen from the item's side: the total is the third
      number, or quantity times unit price when there are only two, or the
      quantity alone when there is one; the defaults apply only to a row
      without numbers. */
  lemma PositionalFields(v: seq<real>)
    ensures v != [] ==> QuantityOf(v) == v[0]
    ensures |v| == 1 ==> UnitPriceOf(v) == 0.0 && TotalOf(v) == QuantityOf(v)
    ensures |v| == 2 ==> TotalOf(v) == QuantityOf(v) * UnitPriceOf(v)
    ensures |v| >= 3 ==> TotalOf(v) == v[2] && UnitPriceOf(v) == v[1]
    ensures v == [] ==> QuantityOf(v) == 1.0 && UnitPriceOf(v) == 0.0 && TotalOf(v) == 0.0
    ensures v != [] ==> TotalOf(v) in v || TotalOf(v) == v[0] * v[1]
    ensures v != [] ==> AmountOf(v) == v[|v| - 1]
  {
  }

  /** The worked examples: numbers [5, 10] give total 50, numbers [5, 10, 52]
      give total 52. */
  lemma ExampleTotals()
    ensures TotalOf([5.0, 10.0]) == 50.0
    ensures TotalOf([5.0, 10.0, 52.0]) == 52.0
  {
  }

  /** `' '.join(str(cell) for cell in row).lower()`. */
  function RowText(row: seq<string>): string {
    Lower(Join(row, " "))
  }

  /** `_is_section_header`: the row's text mentions total, subtotal, summary
      or section. */
  predicate IsSectionHeader(row: seq<string>) {
    var text := RowText(row);
    Contains(text, "total") || Contains(text, "subtotal") || Contains(text, "summary")
    || Contains(text, "section")
  }

  lemma {:induction false} BlankTextContainsNoWord(text: string, word: string)
    requires IsBlank(text)
    requires word != [] && !IsSpace(word[0])
    ensures !Contains(text, word)
    decreases |text|
  {
    if |word| <= |text| {
      assert text[..|word|][0] == text[0];
      if text != [] {
        BlankTextContainsNoWord(text[1..], word);
      }
    }
  }

  lemma {:induction false} JoinOfBlankIsBlank(cells: seq<string>)
    requires forall j :: 0 <= j < |cells| ==> IsBlank(cells[j])
    ensures IsBlank(Join(cells, " "))
  {
    if |cells| > 1 {
      JoinOfBlankIsBlank(cells[..|cells| - 1]);
    }
  }

  /** A section-header row always holds a non-blank cell (the words cannot
      straddle the spaces that join the cells), so its name is never the
      "Section" fallback but its first non-blank cell. */
  lemma SectionHeaderHasName(row: seq<string>)
    requires IsSectionHeader(row)
    ensures FirstNonBlank(row) < |row|
    ensures SectionName(row) == Strip(row[FirstNonBlank(row)])
  {
    if FirstNonBlank(row) == |row| {
      forall j | 0 <= j < |row| ensures IsBlank(row[j]) {
        StripEmptyIff(row[j]);
      }
      JoinOfBlankIsBlank(row);
      var joined := Join(row, " ");
      assert IsBlank(RowText(row)) by {
        forall i | 0 <= i < |joined| ensures IsSpace(RowText(row)[i]) {
          LowerAt(joined, i);
        }
      }
      BlankTextContainsNoWord(RowText(row), "total");
      BlankTextContainsNoWord(RowText(row), "subtotal");
      BlankTextContainsNoWord(RowText(row), "summary");
      BlankTextContainsNoWord(RowText(row), "section");
      assert false;
    }
  }
}
