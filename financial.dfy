/** The financial section grouper `_process_financial_statement` of
    `backend/excel_processor.py`: after row 0, every section-header row opens
    a new section named after it, and every other row that yields a number
    becomes an item of the section open at that point; rows met before any
    section is open are dropped. */
module FinancialGrouper {
  import opened Text
  import opened Numerals
  import opened Cleaning
  import opened Fields

  datatype Option<T> = None | Some(value: T)

  datatype FinancialItem = FinancialItem(description: string, amount: real, rowData: seq<string>)

  datatype Section = Section(name: string, items: seq<FinancialItem>)

  datatype FinancialResult = FinancialResult(
    sheetName: string,
    title: string,
    sections: seq<Section>,
    headers: seq<string>)

  /** The item built from a data row. */
  function FinancialItemOf(row: seq<string>): FinancialItem {
    FinancialItem(Description(row), AmountOf(RowNumbers(row)), row)
  }

  /** A row that becomes an item when a section is open. */
  predicate IsItemRow(row: seq<string>) {
    !IsSectionHeader(row) && RowNumbers(row) != []
  }

  /** The items of the rows before the first section header. */
  function LeadItems(rows: seq<seq<string>>): seq<FinancialItem> {
    if rows == [] || IsSectionHeader(rows[0]) then []
    else (if RowNumbers(rows[0]) != [] then [FinancialItemOf(rows[0])] else []) + LeadItems(rows[1..])
  }

  /** The reference grouping: one section per section-header row, in row order,
      holding the items of the rows up to the next header. */
  function Sections(rows: seq<seq<string>>): seq<Section> {
    if rows == [] then []
    else if IsSectionHeader(rows[0]) then
      [Section(SectionName(rows[0]), LeadItems(rows[1..]))] + Sections(rows[1..])
    else Sections(rows[1..])
  }

  /** The sections still to come when `current` is open and `rest` is unread:
      `current` takes the items of `rest` up to its next header. */
  function Pending(current: Option<Section>, rest: seq<seq<string>>): seq<Section> {
    match current
    case None => Sections(rest)
    case Some(s) => [Section(s.name, s.items + LeadItems(rest))] + Sections(rest)
  }

  /** The section `current` closes into, if any. */
  function Closed(current: Option<Section>): seq<Section> {
    match current
    case None => []
    case Some(s) => [s]
  }

  /** What `_process_financial_statement` returns for a sheet with at least one row. */
  function FinancialOf(sheet: Sheet, sheetName: string): FinancialResult
    requires |sheet.rows| > 0
  {
    FinancialResult(sheetName, "Financial Statement - " + sheetName, Sections(sheet.rows[1..]),
                    FindHeaders(sheet))
  }

  /** A header row closes the open section and opens an empty one named after it. */
  lemma PendingAtHeader(current: Option<Section>, rest: seq<seq<string>>)
    requires rest != [] && IsSectionHeader(rest[0])
    ensures Pending(current, rest) ==
            Closed(current) + Pending(Some(Section(SectionName(rest[0]), [])), rest[1..])
  {
    var next := Section(SectionName(rest[0]), LeadItems(rest[1..]));
    assert Sections(rest) == [next] + Sections(rest[1..]);
    assert Pending(Some(Section(SectionName(rest[0]), [])), rest[1..]) == [next] + Sections(rest[1..]) by {
      assert [] + LeadItems(rest[1..]) == LeadItems(rest[1..]);
    }
    if current.Some? {
      assert LeadItems(rest) == [];
      assert current.value.items + [] == current.value.items;
    }
  }

  /** An item row adds its item to the open section. */
  lemma PendingAtItem(s: Section, rest: seq<seq<string>>)
    requires rest != [] && IsItemRow(rest[0])
    ensures Pending(Some(s), rest) ==
            Pending(Some(Section(s.name, s.items + [FinancialItemOf(rest[0])])), rest[1..])
  {
    var item := FinancialItemOf(rest[0]);
    assert Sections(rest) == Sections(rest[1..]);
    assert LeadItems(rest) == [item] + LeadItems(rest[1..]);
    assert s.items + LeadItems(rest) == (s.items + [item]) + LeadItems(rest[1..]);
  }

  /** Any other row changes nothing. */
  lemma PendingAtOther(current: Option<Section>, rest: seq<seq<string>>)
    requires rest != [] && !IsSectionHeader(rest[0])
    requires RowNumbers(rest[0]) == [] || current.None?
    ensures Pending(current, rest) == Pending(current, rest[1..])
  {
    assert Sections(rest) == Sections(rest[1..]);
    if current.Some? {
      assert LeadItems(rest) == LeadItems(rest[1..]);
    }
  }

  /** At the end of the rows the open section, if any, closes as it is. */
  lemma PendingAtEnd(current: Option<Section>, rest: seq<seq<string>>)
    requires rest == []
    ensures Pending(current, rest) == Closed(current)
  {
    if current.Some? {
      assert current.value.items + [] == current.value.items;
    }
  }

  lemma RestStep(rows: seq<seq<string>>, i: nat)
    requires i < |rows|
    ensures rows[i..] != [] && rows[i..][0] == rows[i] && rows[i..][1..] == rows[i + 1..]
  {
  }

  /** The loop invariant across a section-header row at index `i`. */
  lemma HeaderStep(sections: seq<Section>, current: Option<Section>, rows: seq<seq<string>>, i: nat)
    requires i < |rows| && IsSectionHeader(rows[i])
    ensures sections + Pending(current, rows[i..]) ==
            (sections + Closed(current)) + Pending(Some(Section(SectionName(rows[i]), [])), rows[i + 1..])
  {
    RestStep(rows, i);
    PendingAtHeader(current, rows[i..]);
  }

  /** The loop invariant across an item row at index `i`, a section being open. */
  lemma ItemStep(sections: seq<Section>, s: Section, rows: seq<seq<string>>, i: nat)
    requires i < |rows| && IsItemRow(rows[i])
    ensures sections + Pending(Some(s), rows[i..]) ==
            sections + Pending(Some(Section(s.name, s.items + [FinancialItemOf(rows[i])])), rows[i + 1..])
  {
    RestStep(rows, i);
    PendingAtItem(s, rows[i..]);
  }

  /** The loop invariant across any other row at index `i`. */
  lemma OtherStep(sections: seq<Section>, current: Option<Section>, rows: seq<seq<string>>, i: nat)
    requires i < |rows| && !IsSectionHeader(rows[i])
    requires RowNumbers(rows[i]) == [] || current.None?
    ensures sections + Pending(current, rows[i..]) == sections + Pending(current, rows[i + 1..])
  {
    RestStep(rows, i);
    PendingAtOther(current, rows[i..]);
  }

  /** The loop of `_process_financial_statement` over the rows after row 0,
      whose state is the list of closed sections and the open one, if any;
      the open one is closed at the end. */
  method GroupSections(data: seq<seq<string>>) returns (grouped: seq<Section>)
    ensures grouped == Sections(data)
  {
    var sections: seq<Section> := [];
    var current: Option<Section> := None;
    var i := 0;
    while i < |data|
      invariant 0 <= i <= |data|
      invariant sections + Pending(current, data[i..]) == Sections(data)
    {
      sections, current := ConsumeRow(sections, current, data, i);
      i := i + 1;
    }
    PendingAtEnd(current, data[i..]);
    grouped := sections + Closed(current);
  }

  /** One pass of that loop, on the row at index `i`: a header row closes the
      open section and opens its own, an item row joins the open section, any
      other row is passed over; what is still to come is unchanged. */
  method ConsumeRow(sections: seq<Section>, current: Option<Section>, data: seq<seq<string>>, i: nat)
    returns (sections': seq<Section>, current': Option<Section>)
    requires i < |data|
    ensures sections' + Pending(current', data[i + 1..]) == sections + Pending(current, data[i..])
  {
    var row := data[i];
    if IsSectionHeader(row) {
      HeaderStep(sections, current, data, i);
      if current.Some? {
        sections' := sections + [current.value];
      } else {
        sections' := sections;
        assert sections + Closed(current) == sections;
      }
      current' := Some(Section(SectionName(row), []));
    } else {
      var numbers := ExtractNumericValues(row);
      sections' := sections;
      if numbers != [] && current.Some? {
        ItemStep(sections, current.value, data, i);
        current' := Some(Section(current.value.name, current.value.items + [FinancialItemOf(row)]));
      } else {
        OtherStep(sections, current, data, i);
        current' := current;
      }
    }
  }

  /** `_process_financial_statement`: the headers and the sections of the rows
      after row 0. */
  method ProcessFinancialStatement(sheet: Sheet, sheetName: string) returns (f: FinancialResult)
    requires |sheet.rows| > 0
    ensures f == FinancialOf(sheet, sheetName)
  {
    var headers := FindHeaders(sheet);
    var sections := GroupSections(sheet.rows[1..]);
    f := FinancialResult(sheetName, "Financial Statement - " + sheetName, sections, headers);
  }

  /** The section-header rows, in row order. */
  function HeaderRows(rows: seq<seq<string>>): seq<seq<string>> {
    if rows == [] then []
    else (if IsSectionHeader(rows[0]) then [rows[0]] else []) + HeaderRows(rows[1..])
  }

  /** One section per header row. */
  lemma {:induction false} SectionsCountHeaders(rows: seq<seq<string>>)
    ensures |Sections(rows)| == |HeaderRows(rows)|
  {
    if rows != [] {
      SectionsCountHeaders(rows[1..]);
    }
  }

  /** The section at index `k` is named after the header row at index `k`. */
  lemma {:induction false} SectionNamedByHeader(rows: seq<seq<string>>, k: nat)
    requires k < |Sections(rows)|
    ensures k < |HeaderRows(rows)| && Sections(rows)[k].name == SectionName(HeaderRows(rows)[k])
  {
    SectionsCountHeaders(rows);
    if !IsSectionHeader(rows[0]) {
      SectionNamedByHeader(rows[1..], k);
    } else if k > 0 {
      SectionNamedByHeader(rows[1..], k - 1);
    }
  }

  /** One section per header row, in the same order, each named after its row. */
  lemma SectionsFollowHeaders(rows: seq<seq<string>>)
    ensures |Sections(rows)| == |HeaderRows(rows)|
    ensures forall k :: 0 <= k < |Sections(rows)| ==>
              Sections(rows)[k].name == SectionName(HeaderRows(rows)[k])
  {
    SectionsCountHeaders(rows);
    forall k | 0 <= k < |Sections(rows)| ensures Sections(rows)[k].name == SectionName(HeaderRows(rows)[k]) {
      SectionNamedByHeader(rows, k);
    }
  }

  /** Every section is named by the stripped text of its header row's first
      non-blank cell, which always exists. */
  lemma SectionNamesAreHeaderCells(rows: seq<seq<string>>, k: nat)
    requires k < |Sections(rows)|
    ensures k < |HeaderRows(rows)|
    ensures var h := HeaderRows(rows)[k];
            FirstNonBlank(h) < |h| && Sections(rows)[k].name == Strip(h[FirstNonBlank(h)])
  {
    SectionsFollowHeaders(rows);
    HeaderRowsAreHeaders(rows);
    SectionHeaderHasName(HeaderRows(rows)[k]);
  }

  lemma {:induction false} HeaderRowsAreHeaders(rows: seq<seq<string>>)
    ensures forall k :: 0 <= k < |HeaderRows(rows)| ==> IsSectionHeader(HeaderRows(rows)[k])
  {
    if rows != [] {
      HeaderRowsAreHeaders(rows[1..]);
    }
  }

  /** Rows before the first section header contribute nothing: prefixing rows
      that hold no header leaves the sections unchanged. */
  lemma {:induction false} LeadRowsDropped(lead: seq<seq<string>>, rows: seq<seq<string>>)
    requires forall k :: 0 <= k < |lead| ==> !IsSectionHeader(lead[k])
    ensures Sections(lead + rows) == Sections(rows)
  {
    if lead != [] {
      assert (lead + rows)[0] == lead[0];
      assert (lead + rows)[1..] == lead[1..] + rows;
      LeadRowsDropped(lead[1..], rows);
    } else {
      assert lead + rows == rows;
    }
  }

  /** A sheet without a section-header row after row 0 has no sections. */
  lemma NoHeaderNoSections(rows: seq<seq<string>>)
    requires forall k :: 0 <= k < |rows| ==> !IsSectionHeader(rows[k])
    ensures Sections(rows) == []
  {
    LeadRowsDropped(rows, []);
    assert rows + [] == rows;
  }

  /** The rows that become items when a section is open. */
  function ItemRows(rows: seq<seq<string>>): seq<seq<string>> {
    if rows == [] then []
    else (if IsItemRow(rows[0]) then [rows[0]] else []) + ItemRows(rows[1..])
  }

  function ItemCount(sections: seq<Section>): nat {
    if sections == [] then 0 else |sections[0].items| + ItemCount(sections[1..])
  }

  /** There are never more leading items than item rows. */
  lemma {:induction false} LeadItemsOfItemRows(rows: seq<seq<string>>)
    ensures |LeadItems(rows)| <= |ItemRows(rows)|
  {
    if rows != [] && !IsSectionHeader(rows[0]) {
      LeadItemsOfItemRows(rows[1..]);
    }
  }

  /** The leading item at index `j` is the item of one of the rows. */
  lemma {:induction false} LeadItemFromItemRow(rows: seq<seq<string>>, j: nat)
    requires j < |LeadItems(rows)|
    ensures var it := LeadItems(rows)[j];
            it.rowData in rows && IsItemRow(it.rowData) && it == FinancialItemOf(it.rowData)
  {
    var it := LeadItems(rows)[j];
    if RowNumbers(rows[0]) != [] {
      if j > 0 {
        LeadItemFromItemRow(rows[1..], j - 1);
        assert it == LeadItems(rows[1..])[j - 1];
        assert it.rowData in rows[1..];
      }
    } else {
      LeadItemFromItemRow(rows[1..], j);
      assert it.rowData in rows[1..];
    }
  }

  /** Item `j` of section `k` is the item of a row after that section's header. */
  lemma {:induction false} SectionItemFromItemRow(rows: seq<seq<string>>, k: nat, j: nat)
    requires k < |Sections(rows)| && j < |Sections(rows)[k].items|
    ensures var it := Sections(rows)[k].items[j];
            it.rowData in rows && IsItemRow(it.rowData) && it == FinancialItemOf(it.rowData)
  {
    var it := Sections(rows)[k].items[j];
    if !IsSectionHeader(rows[0]) {
      SectionItemFromItemRow(rows[1..], k, j);
    } else if k > 0 {
      SectionItemFromItemRow(rows[1..], k - 1, j);
    } else {
      LeadItemFromItemRow(rows[1..], j);
    }
    assert it.rowData in rows[1..];
  }

  /** Every item-yielding row is an item of exactly one section, except those
      before the first header: section items plus the orphaned leading items
      count the item rows. */
  lemma {:induction false} ItemsPartitionItemRows(rows: seq<seq<string>>)
    ensures ItemCount(Sections(rows)) + |LeadItems(rows)| == |ItemRows(rows)|
  {
    if rows != [] {
      ItemsPartitionItemRows(rows[1..]);
      if IsSectionHeader(rows[0]) {
        assert Sections(rows)[1..] == Sections(rows[1..]);
      }
    }
  }

  /** The items of the sections, section after section. */
  function SectionItems(sections: seq<Section>): seq<FinancialItem> {
    if sections == [] then [] else sections[0].items + SectionItems(sections[1..])
  }

  /** The item of each row, row by row. */
  function ItemsOf(rows: seq<seq<string>>): seq<FinancialItem> {
    if rows == [] then [] else [FinancialItemOf(rows[0])] + ItemsOf(rows[1..])
  }

  /** The items the grouping keeps or drops, in row order: the orphaned
      leading items, then the items of every section. */
  function GroupedItems(rows: seq<seq<string>>): seq<FinancialItem> {
    LeadItems(rows) + SectionItems(Sections(rows))
  }

  lemma HeaderFirstItems(rows: seq<seq<string>>)
    requires rows != [] && IsSectionHeader(rows[0])
    ensures GroupedItems(rows) == GroupedItems(rows[1..])
    ensures ItemRows(rows) == ItemRows(rows[1..])
  {
    var rest := rows[1..];
    assert Sections(rows) == [Section(SectionName(rows[0]), LeadItems(rest))] + Sections(rest);
    assert Sections(rows)[1..] == Sections(rest);
    assert LeadItems(rows) == [];
  }

  lemma ConsAssoc<T>(x: T, a: seq<T>, b: seq<T>)
    ensures ([x] + a) + b == [x] + (a + b)
  {
  }

  lemma ItemsOfCons(r: seq<string>, rows: seq<seq<string>>)
    ensures ItemsOf([r] + rows) == [FinancialItemOf(r)] + ItemsOf(rows)
  {
    assert ([r] + rows)[1..] == rows;
  }

  lemma ItemFirstItems(rows: seq<seq<string>>)
    requires rows != [] && IsItemRow(rows[0])
    ensures LeadItems(rows) == [FinancialItemOf(rows[0])] + LeadItems(rows[1..])
    ensures Sections(rows) == Sections(rows[1..])
    ensures ItemRows(rows) == [rows[0]] + ItemRows(rows[1..])
  {
  }

  lemma OtherFirstItems(rows: seq<seq<string>>)
    requires rows != [] && !IsSectionHeader(rows[0]) && !IsItemRow(rows[0])
    ensures LeadItems(rows) == LeadItems(rows[1..]) && Sections(rows) == Sections(rows[1..])
    ensures ItemRows(rows) == ItemRows(rows[1..])
  {
    var rest := rows[1..];
    assert RowNumbers(rows[0]) == [];
    assert [] + LeadItems(rest) == LeadItems(rest);
    assert [] + ItemRows(rest) == ItemRows(rest);
  }

  /** Each item row gives exactly one item, in row order: the orphaned leading
      items followed by the items of every section are the items of the item
      rows. */
  lemma {:induction false} ItemRowsInOrder(rows: seq<seq<string>>)
    ensures GroupedItems(rows) == ItemsOf(ItemRows(rows))
  {
    if rows != [] {
      ItemRowsInOrder(rows[1..]);
      if IsSectionHeader(rows[0]) {
        HeaderFirstItems(rows);
      } else if IsItemRow(rows[0]) {
        var rest := rows[1..];
        ItemFirstItems(rows);
        ItemsOfCons(rows[0], ItemRows(rest));
        ConsAssoc(FinancialItemOf(rows[0]), LeadItems(rest), SectionItems(Sections(rest)));
      } else {
        OtherFirstItems(rows);
      }
    }
  }

  /** Every item of every section is the item of a non-header row of the
      sheet that yields a number; its amount is that row's last number and its
      description is never empty. */
  lemma SectionItemsComeFromItemRows(rows: seq<seq<string>>)
    ensures forall s, it :: s in Sections(rows) && it in s.items ==>
              it.rowData in rows && IsItemRow(it.rowData) && it == FinancialItemOf(it.rowData) &&
              it.amount == RowNumbers(it.rowData)[|RowNumbers(it.rowData)| - 1] &&
              it.description != ""
  {
    forall s, it | s in Sections(rows) && it in s.items
      ensures it.rowData in rows && IsItemRow(it.rowData) && it == FinancialItemOf(it.rowData)
    {
      var k :| 0 <= k < |Sections(rows)| && Sections(rows)[k] == s;
      var j :| 0 <= j < |s.items| && s.items[j] == it;
      SectionItemFromItemRow(rows, k, j);
    }
  }

  /** A word holding a character the text lacks does not occur in it. */
  lemma {:induction false} AbsentCharNoMatch(text: string, word: string, c: char)
    requires c in word && c !in text
    ensures !Contains(text, word)
    decreases |text|
  {
    if |word| <= |text| {
      if text != [] {
        AbsentCharNoMatch(text[1..], word, c);
      }
    }
  }

  /** A two-cell row whose lower-cased text has neither an 'o' nor a 'u' is
      not a section header: each of the four words holds one of them. */
  lemma TwoCellRowNoHeader(a: string, b: string)
    requires forall i :: 0 <= i < |a| ==> a[i] !in "oOuU"
    requires forall i :: 0 <= i < |b| ==> b[i] !in "oOuU"
    ensures !IsSectionHeader([a, b])
  {
    var joined := Join([a, b], " ");
    assert [a, b][..1] == [a];
    assert Join([a], " ") == a;
    assert joined == a + " " + b;
    var text := RowText([a, b]);
    forall i | 0 <= i < |text| ensures text[i] != 'o' && text[i] != 'u' {
      LowerAt(joined, i);
      if i < |a| {
        assert joined[i] == a[i];
      } else if i > |a| {
        assert joined[i] == b[i - |a| - 1];
      }
    }
    AbsentCharNoMatch(text, "total", 'o');
    AbsentCharNoMatch(text, "subtotal", 'u');
    AbsentCharNoMatch(text, "summary", 'u');
    AbsentCharNoMatch(text, "section", 'o');
  }

  /** A row whose first cell starts with "Total" is a section header. */
  lemma TotalRowIsHeader(a: string, b: string)
    requires |a| >= 5 && a[..5] == "Total"
    ensures IsSectionHeader([a, b])
  {
    var joined := Join([a, b], " ");
    assert [a, b][..1] == [a];
    assert Join([a], " ") == a;
    assert joined == a + " " + b;
    var text := RowText([a, b]);
    forall i | 0 <= i < 5 ensures text[i] == "total"[i] {
      LowerAt(joined, i);
      assert joined[i] == a[i];
    }
    assert text[..5] == "total";
  }

  /** A row of a word without digits and a whole number yields that number. */
  lemma WordAndNumberRow(word: string, n: string)
    requires forall i :: 0 <= i < |word| ==> !IsDigit(word[i])
    requires IsNumeral(n)
    ensures RowNumbers([word, n]) == [Value(n)]
  {
    TokensEmptyIff(word);
    NumeralCellRoundTrip(n);
    RowNumbersSingle(word);
    RowNumbersAppend([word], [n]);
    assert [word] + [n] == [word, n];
    RowNumbersSingle(n);
  }

  /** A "Total ..." row, its label free of surrounding white space, is a
      section header named by its label. */
  lemma ExampleHeaderRow(a: string)
    requires |a| >= 5 && a[..5] == "Total" && !IsSpace(a[|a| - 1])
    ensures IsSectionHeader([a, ""]) && SectionName([a, ""]) == a
  {
    TotalRowIsHeader(a, "");
    assert a[0] == 'T';
    assert FirstNonBlank([a, ""]) == 0;
  }

  /** A row of a word and a whole number, neither holding an 'o' or a 'u', is
      an item row whose item is described by the word and carries the number. */
  lemma ExampleItemRow(word: string, n: string)
    requires word != [] && !IsSpace(word[0]) && !IsSpace(word[|word| - 1]) && !IsDigit(word[0]) && word[0] != '-'
    requires forall i :: 0 <= i < |word| ==> !IsDigit(word[i]) && word[i] !in "oOuU"
    requires IsNumeral(n) && forall i :: 0 <= i < |n| ==> n[i] !in "oOuU"
    ensures IsItemRow([word, n])
    ensures FinancialItemOf([word, n]) == FinancialItem(word, Value(n), [word, n])
  {
    TwoCellRowNoHeader(word, n);
    WordAndNumberRow(word, n);
    assert FirstDescribing([word, n]) == 0;
  }

  /** The worked example: after the header row, "Total Revenue", "Sales 100",
      "Total Expenses", "Rent 40" give exactly two sections, named by the two
      total rows, holding one item each with amounts 100 and 40. */
  lemma ExampleSections()
    ensures var f := FinancialOf(Sheet(["Label", "Value"],
                                       [["Header", ""], ["Total Revenue", ""], ["Sales", "100"],
                                        ["Total Expenses", ""], ["Rent", "40"]]), "Statement");
            f.sections == [Section("Total Revenue", [FinancialItem("Sales", 100.0, ["Sales", "100"])]),
                           Section("Total Expenses", [FinancialItem("Rent", 40.0, ["Rent", "40"])])]
  {
    ExampleHeaders();
    SalesRow();
    RentRow();
    TwoSections(["Total Revenue", ""], ["Sales", "100"], ["Total Expenses", ""], ["Rent", "40"]);
    assert [["Header", ""], ["Total Revenue", ""], ["Sales", "100"], ["Total Expenses", ""], ["Rent", "40"]][1..]
        == [["Total Revenue", ""], ["Sales", "100"], ["Total Expenses", ""], ["Rent", "40"]];
  }

  lemma ExampleHeaders()
    ensures IsSectionHeader(["Total Revenue", ""]) && SectionName(["Total Revenue", ""]) == "Total Revenue"
    ensures IsSectionHeader(["Total Expenses", ""]) && SectionName(["Total Expenses", ""]) == "Total Expenses"
  {
    ExampleHeaderRow("Total Revenue");
    ExampleHeaderRow("Total Expenses");
  }

  lemma SalesRow()
    ensures IsItemRow(["Sales", "100"])
    ensures FinancialItemOf(["Sales", "100"]) == FinancialItem("Sales", 100.0, ["Sales", "100"])
  {
    NumeralValue100();
    assert forall i :: 0 <= i < |"Sales"| ==> !IsDigit("Sales"[i]) && "Sales"[i] !in "oOuU";
    assert forall i :: 0 <= i < |"100"| ==> "100"[i] !in "oOuU";
    ExampleItemRow("Sales", "100");
  }

  lemma RentRow()
    ensures IsItemRow(["Rent", "40"])
    ensures FinancialItemOf(["Rent", "40"]) == FinancialItem("Rent", 40.0, ["Rent", "40"])
  {
    NumeralValue40();
    assert forall i :: 0 <= i < |"Rent"| ==> !IsDigit("Rent"[i]) && "Rent"[i] !in "oOuU";
    assert forall i :: 0 <= i < |"40"| ==> "40"[i] !in "oOuU";
    ExampleItemRow("Rent", "40");
  }

  /** Header, item, header, item: two sections of one item each, as the
      state machine steps through the four rows. */
  lemma TwoSections(r1: seq<string>, r2: seq<string>, r3: seq<string>, r4: seq<string>)
    requires IsSectionHeader(r1) && IsItemRow(r2) && IsSectionHeader(r3) && IsItemRow(r4)
    ensures Sections([r1, r2, r3, r4]) ==
            [Section(SectionName(r1), [FinancialItemOf(r2)]), Section(SectionName(r3), [FinancialItemOf(r4)])]
  {
    var first := OpenThenItem(r1, r2, [r3, r4]);
    var second := OpenThenItem(r3, r4, []);
    ClosedAtHeader(first, [r3, r4]);
    PendingAtEnd(Some(second), []);
    assert [r1, r2] + [r3, r4] == [r1, r2, r3, r4];
    assert [r3, r4] + [] == [r3, r4];
  }

  /** An open section met by a header row is closed as it is. */
  lemma ClosedAtHeader(s: Section, rest: seq<seq<string>>)
    requires rest != [] && IsSectionHeader(rest[0])
    ensures Pending(Some(s), rest) == [s] + Sections(rest)
  {
    assert LeadItems(rest) == [];
    assert s.items + [] == s.items;
  }

  /** A header row opens a section holding the items up to the next header. */
  lemma HeaderRowFirst(h: seq<string>, rest: seq<seq<string>>)
    requires IsSectionHeader(h)
    ensures Sections([h] + rest) == [Section(SectionName(h), LeadItems(rest))] + Sections(rest)
  {
    assert ([h] + rest)[0] == h && ([h] + rest)[1..] == rest;
  }

  /** An item row adds its item to the open section and opens none. */
  lemma ItemRowFirst(r: seq<string>, rest: seq<seq<string>>)
    requires IsItemRow(r)
    ensures LeadItems([r] + rest) == [FinancialItemOf(r)] + LeadItems(rest)
    ensures Sections([r] + rest) == Sections(rest)
  {
    assert ([r] + rest)[0] == r && ([r] + rest)[1..] == rest;
  }

  /** A header row, then an item row, then `rest`: the section they form is
      open with that one item when `rest` starts. */
  lemma OpenThenItem(h: seq<string>, r: seq<string>, rest: seq<seq<string>>) returns (s: Section)
    requires IsSectionHeader(h) && IsItemRow(r)
    ensures s == Section(SectionName(h), [FinancialItemOf(r)])
    ensures Sections([h, r] + rest) == Pending(Some(s), rest)
  {
    s := Section(SectionName(h), [FinancialItemOf(r)]);
    assert [h, r] + rest == [h] + ([r] + rest);
    HeaderRowFirst(h, [r] + rest);
    ItemRowFirst(r, rest);
    assert Sections([h, r] + rest) == [Section(s.name, s.items + LeadItems(rest))] + Sections(rest);
  }

  lemma NumeralValue100()
    ensures IsNumeral("100") && Value("100") == 100.0
  {
    assert DigitRun("100") == 3;
    assert "100"[..3] == "100" && "100"[..2] == "10" && "10"[..1] == "1";
    assert DigitsValue("1") == 1 && DigitsValue("10") == 10 && DigitsValue("100") == 100;
  }

  lemma NumeralValue40()
    ensures IsNumeral("40") && Value("40") == 40.0
  {
    assert DigitRun("40") == 2;
    assert "40"[..2] == "40" && "40"[..1] == "4";
    assert DigitsValue("4") == 4;
    assert DigitsValue("40") == 40;
  }
}
