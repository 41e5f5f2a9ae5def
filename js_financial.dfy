/** `processFinancialStatement` of `netlify/functions/upload.js`: after the
    header row, a row whose first cell is a non-empty string opens a section
    when that string equals its own upper-case form or contains ':', and is
    otherwise an item of the open section; every other row is dropped. */
module JsFinancial {
  import opened Text
  import opened JsValues
  import opened JsEstimate

  /** `firstCell && typeof firstCell === 'string' && firstCell.length > 0`. */
  predicate Labelled(row: Row) {
    Cell(row, 0).Str? && Cell(row, 0).s != ""
  }

  /** `firstCell.toUpperCase() === firstCell || firstCell.includes(':')`. */
  predicate OpensSection(row: Row) {
    Labelled(row) && (Upper(Cell(row, 0).s) == Cell(row, 0).s || ':' in Cell(row, 0).s)
  }

  /** A row that becomes an item of the open section. */
  predicate IsItemRow(row: Row) {
    Labelled(row) && !OpensSection(row)
  }

  datatype JsSection = JsSection(name: string, items: seq<JsObject>)

  datatype JsFinancialResult = JsFinancialResult(
    sheetName: string,
    title: string,
    sections: seq<JsSection>)

  /** The items of the rows before the first section-opening row. */
  function LeadItems(headers: seq<JsValue>, rows: seq<Row>, numText: real -> string): seq<JsObject> {
    if rows == [] || OpensSection(rows[0]) then []
    else (if IsItemRow(rows[0]) then [Record(headers, rows[0], numText)] else [])
         + LeadItems(headers, rows[1..], numText)
  }

  /** The reference grouping: one section per section-opening row, named by
      its first cell, holding the items of the rows up to the next one. */
  function Sections(headers: seq<JsValue>, rows: seq<Row>, numText: real -> string): seq<JsSection> {
    if rows == [] then []
    else if OpensSection(rows[0]) then
      [JsSection(Cell(rows[0], 0).s, LeadItems(headers, rows[1..], numText))] + Sections(headers, rows[1..], numText)
    else Sections(headers, rows[1..], numText)
  }

  /** The sections still to come when `current` is open and `rest` is unread. */
  function Pending(headers: seq<JsValue>, current: Option<JsSection>, rest: seq<Row>, numText: real -> string)
    : seq<JsSection>
  {
    match current
    case None => Sections(headers, rest, numText)
    case Some(s) => [JsSection(s.name, s.items + LeadItems(headers, rest, numText))] + Sections(headers, rest, numText)
  }

  function Closed(current: Option<JsSection>): seq<JsSection> {
    match current
    case None => []
    case Some(s) => [s]
  }

  /** What `processFinancialStatement` returns. */
  function FinancialOf(data: seq<Row>, sheetName: string, numText: real -> string): JsFinancialResult {
    JsFinancialResult(sheetName, sheetName + " - Financial Statement",
                      Sections(HeadersOf(data), DataRows(data), numText))
  }

  /** A section-opening row closes the open section and opens an empty one. */
  lemma PendingAtHeader(headers: seq<JsValue>, current: Option<JsSection>, rest: seq<Row>, numText: real -> string)
    requires rest != [] && OpensSection(rest[0])
    ensures Pending(headers, current, rest, numText) ==
            Closed(current) + Pending(headers, Some(JsSection(Cell(rest[0], 0).s, [])), rest[1..], numText)
  {
    var next := JsSection(Cell(rest[0], 0).s, LeadItems(headers, rest[1..], numText));
    assert Sections(headers, rest, numText) == [next] + Sections(headers, rest[1..], numText);
    assert [] + LeadItems(headers, rest[1..], numText) == LeadItems(headers, rest[1..], numText);
    if current.Some? {
      assert LeadItems(headers, rest, numText) == [];
      assert current.value.items + [] == current.value.items;
    }
  }

  /** An item row adds its record to the open section. */
  lemma PendingAtItem(headers: seq<JsValue>, s: JsSection, rest: seq<Row>, numText: real -> string)
    requires rest != [] && IsItemRow(rest[0])
    ensures Pending(headers, Some(s), rest, numText) ==
            Pending(headers, Some(JsSection(s.name, s.items + [Record(headers, rest[0], numText)])), rest[1..], numText)
  {
    var item := Record(headers, rest[0], numText);
    assert Sections(headers, rest, numText) == Sections(headers, rest[1..], numText);
    assert LeadItems(headers, rest, numText) == [item] + LeadItems(headers, rest[1..], numText);
    assert s.items + LeadItems(headers, rest, numText) == (s.items + [item]) + LeadItems(headers, rest[1..], numText);
  }

  /** Any other row changes nothing. */
  lemma PendingAtOther(headers: seq<JsValue>, current: Option<JsSection>, rest: seq<Row>, numText: real -> string)
    requires rest != [] && !OpensSection(rest[0])
    requires !Labelled(rest[0]) || current.None?
    ensures Pending(headers, current, rest, numText) == Pending(headers, current, rest[1..], numText)
  {
    assert Sections(headers, rest, numText) == Sections(headers, rest[1..], numText);
    if current.Some? {
      assert LeadItems(headers, rest, numText) == LeadItems(headers, rest[1..], numText);
    }
  }

  lemma PendingAtEnd(headers: seq<JsValue>, current: Option<JsSection>, rest: seq<Row>, numText: real -> string)
    requires rest == []
    ensures Pending(headers, current, rest, numText) == Closed(current)
  {
    if current.Some? {
      assert current.value.items + [] == current.value.items;
    }
  }

  lemma RestStep(rows: seq<Row>, i: nat)
    requires i < |rows|
    ensures rows[i..] != [] && rows[i..][0] == rows[i] && rows[i..][1..] == rows[i + 1..]
  {
  }

  /** The loop invariant across a section-opening row at index `i`. */
  lemma HeaderStep(headers: seq<JsValue>, sections: seq<JsSection>, current: Option<JsSection>,
                   rows: seq<Row>, i: nat, numText: real -> string)
    requires i < |rows| && OpensSection(rows[i])
    ensures sections + Pending(headers, current, rows[i..], numText) ==
            (sections + Closed(current)) +
            Pending(headers, Some(JsSection(Cell(rows[i], 0).s, [])), rows[i + 1..], numText)
  {
    RestStep(rows, i);
    PendingAtHeader(headers, current, rows[i..], numText);
  }

  /** The loop invariant across an item row at index `i`, a section being open. */
  lemma ItemStep(headers: seq<JsValue>, sections: seq<JsSection>, s: JsSection,
                 rows: seq<Row>, i: nat, numText: real -> string)
    requires i < |rows| && IsItemRow(rows[i])
    ensures sections + Pending(headers, Some(s), rows[i..], numText) ==
            sections + Pending(headers, Some(JsSection(s.name, s.items + [Record(headers, rows[i], numText)])),
                               rows[i + 1..], numText)
  {
    RestStep(rows, i);
    PendingAtItem(headers, s, rows[i..], numText);
  }

  /** The loop invariant across any other row at index `i`. */
  lemma OtherStep(headers: seq<JsValue>, sections: seq<JsSection>, current: Option<JsSection>,
                  rows: seq<Row>, i: nat, numText: real -> string)
    requires i < |rows| && !OpensSection(rows[i])
    requires !Labelled(rows[i]) || current.None?
    ensures sections + Pending(headers, current, rows[i..], numText) ==
            sections + Pending(headers, current, rows[i + 1..], numText)
  {
    RestStep(rows, i);
    PendingAtOther(headers, current, rows[i..], numText);
  }

  /** `processFinancialStatement`: the `forEach` over the rows after the header
      row, with the closed sections and the open one as its state. */
  method ProcessFinancialStatement(data: seq<Row>, sheetName: string, numText: real -> string)
    returns (f: JsFinancialResult)
    ensures f == FinancialOf(data, sheetName, numText)
  {
    var headers := HeadersOf(data);
    var rows := DataRows(data);
    var sections: seq<JsSection> := [];
    var current: Option<JsSection> := None;
    var i := 0;
    while i < |rows|
      invariant 0 <= i <= |rows|
      invariant sections + Pending(headers, current, rows[i..], numText) == Sections(headers, rows, numText)
    {
      sections, current := ConsumeRow(headers, sections, current, rows, i, numText);
      i := i + 1;
    }
    PendingAtEnd(headers, current, rows[i..], numText);
    f := JsFinancialResult(sheetName, sheetName + " - Financial Statement", sections + Closed(current));
  }

  /** One pass of that `forEach`, on the row at index `i`: a section-opening
      row closes the open section and opens its own, a labelled row joins the
      open section, any other row is passed over; what is still to come is
      unchanged. */
  method ConsumeRow(headers: seq<JsValue>, sections: seq<JsSection>, current: Option<JsSection>,
                    rows: seq<Row>, i: nat, numText: real -> string)
    returns (sections': seq<JsSection>, current': Option<JsSection>)
    requires i < |rows|
    ensures sections' + Pending(headers, current', rows[i + 1..], numText) ==
            sections + Pending(headers, current, rows[i..], numText)
  {
    var row := rows[i];
    var firstCell := Cell(row, 0);
    sections', current' := sections, current;
    if firstCell.Str? && firstCell.s != "" {
      if Upper(firstCell.s) == firstCell.s || ':' in firstCell.s {
        HeaderStep(headers, sections, current, rows, i, numText);
        if current.Some? {
          sections' := sections + [current.value];
        } else {
          assert sections + Closed(current) == sections;
        }
        current' := Some(JsSection(firstCell.s, []));
      } else if current.Some? {
        ItemStep(headers, sections, current.value, rows, i, numText);
        current' := Some(JsSection(current.value.name, current.value.items + [Record(headers, row, numText)]));
      } else {
        OtherStep(headers, sections, current, rows, i, numText);
      }
    } else {
      OtherStep(headers, sections, current, rows, i, numText);
    }
  }

  /** The first cells of the section-opening rows, in row order. */
  function HeaderNames(rows: seq<Row>): seq<string> {
    if rows == [] then []
    else (if OpensSection(rows[0]) then [Cell(rows[0], 0).s] else []) + HeaderNames(rows[1..])
  }

  /** One section per section-opening row, in row order, named by that row's
      first cell. */
  lemma {:induction false} SectionsFollowHeaders(headers: seq<JsValue>, rows: seq<Row>, numText: real -> string)
    ensures |Sections(headers, rows, numText)| == |HeaderNames(rows)|
    ensures forall k :: 0 <= k < |HeaderNames(rows)| ==>
              Sections(headers, rows, numText)[k].name == HeaderNames(rows)[k]
  {
    if rows != [] {
      SectionsFollowHeaders(headers, rows[1..], numText);
    }
  }

  /** Removing the head of `a` from `a + [r] + b` and from `a + b`. */
  lemma SplitAfterHead(a: seq<Row>, r: Row, b: seq<Row>)
    requires a != []
    ensures (a + [r] + b)[0] == a[0] && (a + [r] + b)[1..] == a[1..] + [r] + b
    ensures (a + b)[0] == a[0] && (a + b)[1..] == a[1..] + b
  {
  }

  /** A row that is not labelled adds no leading item wherever it stands. */
  lemma {:induction false} UnlabelledRowNoLeadItem(headers: seq<JsValue>, a: seq<Row>, r: Row, b: seq<Row>,
                                                   numText: real -> string)
    requires !Labelled(r)
    ensures LeadItems(headers, a + [r] + b, numText) == LeadItems(headers, a + b, numText)
  {
    var x := a + [r] + b;
    var y := a + b;
    if a == [] {
      assert x[0] == r && x[1..] == b && y == b;
    } else {
      UnlabelledRowNoLeadItem(headers, a[1..], r, b, numText);
      SplitAfterHead(a, r, b);
    }
  }

  /** A row that is not labelled by a non-empty string first cell is dropped
      wherever it stands. */
  lemma {:induction false} UnlabelledRowIgnored(headers: seq<JsValue>, a: seq<Row>, r: Row, b: seq<Row>,
                                                numText: real -> string)
    requires !Labelled(r)
    ensures Sections(headers, a + [r] + b, numText) == Sections(headers, a + b, numText)
    ensures LeadItems(headers, a + [r] + b, numText) == LeadItems(headers, a + b, numText)
  {
    var x := a + [r] + b;
    var y := a + b;
    UnlabelledRowNoLeadItem(headers, a, r, b, numText);
    if a == [] {
      assert x[0] == r && x[1..] == b && y == b;
    } else {
      UnlabelledRowIgnored(headers, a[1..], r, b, numText);
      SplitAfterHead(a, r, b);
    }
  }

  /** Rows before the first section-opening row contribute nothing. */
  lemma {:induction false} LeadRowsDropped(headers: seq<JsValue>, lead: seq<Row>, rows: seq<Row>,
                                           numText: real -> string)
    requires forall k :: 0 <= k < |lead| ==> !OpensSection(lead[k])
    ensures Sections(headers, lead + rows, numText) == Sections(headers, rows, numText)
  {
    if lead != [] {
      assert (lead + rows)[0] == lead[0];
      assert (lead + rows)[1..] == lead[1..] + rows;
      LeadRowsDropped(headers, lead[1..], rows, numText);
    } else {
      assert lead + rows == rows;
    }
  }

  /** The rows that become items when a section is open. */
  function ItemRows(rows: seq<Row>): seq<Row> {
    if rows == [] then []
    else (if IsItemRow(rows[0]) then [rows[0]] else []) + ItemRows(rows[1..])
  }

  function ItemCount(sections: seq<JsSection>): nat {
    if sections == [] then 0 else |sections[0].items| + ItemCount(sections[1..])
  }

  /** Every item row is an item of exactly one section, except those before
      the first section-opening row. */
  lemma {:induction false} ItemsPartitionItemRows(headers: seq<JsValue>, rows: seq<Row>, numText: real -> string)
    ensures ItemCount(Sections(headers, rows, numText)) + |LeadItems(headers, rows, numText)| == |ItemRows(rows)|
  {
    if rows != [] {
      ItemsPartitionItemRows(headers, rows[1..], numText);
      if OpensSection(rows[0]) {
        assert Sections(headers, rows, numText)[1..] == Sections(headers, rows[1..], numText);
      }
    }
  }

  /** The items of the sections, section after section. */
  function SectionItems(sections: seq<JsSection>): seq<JsObject> {
    if sections == [] then [] else sections[0].items + SectionItems(sections[1..])
  }

  /** The record of each row, row by row. */
  function RecordsOf(headers: seq<JsValue>, rows: seq<Row>, numText: real -> string): seq<JsObject> {
    if rows == [] then [] else [Record(headers, rows[0], numText)] + RecordsOf(headers, rows[1..], numText)
  }

  /** The items the grouping keeps or drops, in row order: the orphaned
      leading items, then the items of every section. */
  function GroupedItems(headers: seq<JsValue>, rows: seq<Row>, numText: real -> string): seq<JsObject> {
    LeadItems(headers, rows, numText) + SectionItems(Sections(headers, rows, numText))
  }

  lemma HeaderFirstItems(headers: seq<JsValue>, rows: seq<Row>, numText: real -> string)
    requires rows != [] && OpensSection(rows[0])
    ensures GroupedItems(headers, rows, numText) == GroupedItems(headers, rows[1..], numText)
    ensures ItemRows(rows) == ItemRows(rows[1..])
  {
    var rest := rows[1..];
    assert Sections(headers, rows, numText) ==
           [JsSection(Cell(rows[0], 0).s, LeadItems(headers, rest, numText))] + Sections(headers, rest, numText);
    assert Sections(headers, rows, numText)[1..] == Sections(headers, rest, numText);
    assert LeadItems(headers, rows, numText) == [];
  }

  lemma ItemFirstItems(headers: seq<JsValue>, rows: seq<Row>, numText: real -> string)
    requires rows != [] && IsItemRow(rows[0])
    ensures GroupedItems(headers, rows, numText) ==
            [Record(headers, rows[0], numText)] + GroupedItems(headers, rows[1..], numText)
    ensures ItemRows(rows) == [rows[0]] + ItemRows(rows[1..])
  {
    var rest := rows[1..];
    assert LeadItems(headers, rows, numText) == [Record(headers, rows[0], numText)] + LeadItems(headers, rest, numText);
    assert Sections(headers, rows, numText) == Sections(headers, rest, numText);
  }

  lemma OtherFirstItems(headers: seq<JsValue>, rows: seq<Row>, numText: real -> string)
    requires rows != [] && !OpensSection(rows[0]) && !IsItemRow(rows[0])
    ensures LeadItems(headers, rows, numText) == LeadItems(headers, rows[1..], numText)
    ensures Sections(headers, rows, numText) == Sections(headers, rows[1..], numText)
    ensures ItemRows(rows) == ItemRows(rows[1..])
  {
    var rest := rows[1..];
    assert [] + LeadItems(headers, rest, numText) == LeadItems(headers, rest, numText);
    assert [] + ItemRows(rest) == ItemRows(rest);
  }

  /** Each item row gives exactly one item, in row order: the orphaned leading
      items followed by the items of every section are the records of the
      item rows. */
  lemma {:induction false} ItemRowsInOrder(headers: seq<JsValue>, rows: seq<Row>, numText: real -> string)
    ensures GroupedItems(headers, rows, numText) == RecordsOf(headers, ItemRows(rows), numText)
  {
    if rows != [] {
      ItemRowsInOrder(headers, rows[1..], numText);
      if OpensSection(rows[0]) {
        HeaderFirstItems(headers, rows, numText);
      } else if IsItemRow(rows[0]) {
        ItemFirstItems(headers, rows, numText);
        var items := ItemRows(rows[1..]);
        assert ([rows[0]] + items)[1..] == items;
      } else {
        OtherFirstItems(headers, rows, numText);
      }
    }
  }

  /** Every item of every section is the record of an item row. */
  lemma {:induction false} SectionItemsAreRecords(headers: seq<JsValue>, rows: seq<Row>, numText: real -> string)
    ensures forall s, it :: s in Sections(headers, rows, numText) && it in s.items ==>
              exists r :: r in rows && IsItemRow(r) && it == Record(headers, r, numText)
  {
    if rows != [] {
      SectionItemsAreRecords(headers, rows[1..], numText);
      LeadItemsAreRecords(headers, rows[1..], numText);
      forall s, it | s in Sections(headers, rows, numText) && it in s.items
        ensures exists r :: r in rows && IsItemRow(r) && it == Record(headers, r, numText)
      {
        var r :| r in rows[1..] && IsItemRow(r) && it == Record(headers, r, numText);
        assert r in rows;
      }
    }
  }

  lemma {:induction false} LeadItemsAreRecords(headers: seq<JsValue>, rows: seq<Row>, numText: real -> string)
    ensures forall it :: it in LeadItems(headers, rows, numText) ==>
              exists r :: r in rows && IsItemRow(r) && it == Record(headers, r, numText)
  {
    if rows != [] && !OpensSection(rows[0]) {
      LeadItemsAreRecords(headers, rows[1..], numText);
      forall it | it in LeadItems(headers, rows, numText)
        ensures exists r :: r in rows && IsItemRow(r) && it == Record(headers, r, numText)
      {
        if it != Record(headers, rows[0], numText) || !IsItemRow(rows[0]) {
          var r :| r in rows[1..] && IsItemRow(r) && it == Record(headers, r, numText);
          assert r in rows;
        }
      }
    }
  }

  /** A first cell written without lower-case letters opens a section: so do
      all-digit labels such as a year. */
  lemma YearLabelOpensSection(rest: Row)
    ensures OpensSection([Str("2023")] + rest)
  {
    assert Cell([Str("2023")] + rest, 0) == Str("2023");
    forall i | 0 <= i < 4 ensures Upper("2023")[i] == "2023"[i] {
      UpperAt("2023", i);
    }
  }
}
