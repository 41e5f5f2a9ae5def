# Excel estimate and financial-statement processor, modelled in Dafny

The system reads an uploaded Excel workbook and sorts its sheets into
construction-style estimates, financial statements and "mixed" data. It then
extracts line items, sections and totals from them. There are two engines:

* **The Python backend**: class `ExcelProcessor` in `backend/excel_processor.py`.
  - Each sheet is cleaned and becomes a grid of text.
  - The sheet is classified by counting keywords.
  - It is handed to exactly one extractor.
    - The estimate extractor turns every row with a number into a line item.
      The item's quantity, unit price and total come from where its numbers sit.
    - The financial extractor groups rows into sections opened by
      "total/subtotal/summary/section" rows.
    - Mixed sheets are passed through as records.
  - A summary counts the three buckets and adds up the estimate totals.
* **The serverless function**: `processExcelData` in `netlify/functions/upload.js`.
  - Every sheet is stored as a table of records.
  - A sheet is classified by searching for words in its JSON text.
  - Estimates recompute `Total` as `Quantity`×`Rate` or `Hours`×`Rate`.
  - Financial statements group rows into sections. A section opens at a row
    whose first cell is upper-case or contains `:`.

Each extractor has a specification function over the rows, written
recursively (`Items`, `Sections`, `Pending`, `Estimates`, `Tables`, …).
Where the source runs a loop that builds its result step by step, that loop
is also modelled, as an imperative `method` proved equal to the function:

* the row loops of `_process_estimate` and `_process_financial_statement`;
* the sheet loop of `process_file`;
* the row loop of `processFinancialStatement`;
* the sheet loop of `processExcelData`.

`_process_mixed_content` and `processEstimate` build their results with a
single `to_dict`/`map` and no loop, so they are modelled as functions only.

The properties the design promises are lemmas about the specification
functions. Examples:

* cleaning is idempotent;
* classification is an if-and-only-if;
* the estimate items are exactly the items of the numeric rows, one each, in row order;
* sections correspond one-to-one with header rows;
* every routed sheet lands in exactly one bucket;
* `parseFloat` agrees with the Python number extractor on every numeral.

Modules and files, one per core component:

* `text.dfy` (`Text`): character classes, ASCII case mapping, Python `strip`,
  `join` and substring search.
* `numerals.dfy` (`Numerals`): `_extract_numeric_values`, i.e. `re.findall(r'-?\d+\.?\d*')`
  followed by `float`.
* `cleaning.dfy` (`Cleaning`): `_clean_dataframe`.
* `classifier.dfy` (`Classifier`): `_detect_content_type`.
* `fields.dfy` (`Fields`): `_find_headers`, `_get_description`, `_get_quantity`,
  `_get_unit_price`, `_get_total`, `_get_amount`, `_is_section_header`,
  `_get_section_name`.
* `estimate.dfy` (`EstimateExtractor`): `_process_estimate`.
* `financial.dfy` (`FinancialGrouper`): `_process_financial_statement`.
* `mixed.dfy` (`MixedContent`): `_process_mixed_content`.
* `processor.dfy` (`Processor`): the routing loop of `process_file` and
  `_generate_summary`.
* `js_values.dfy` (`JsValues`): JavaScript cell values, truthiness, `parseFloat`
  and property keys.
* `js_estimate.dfy` (`JsEstimate`): `processEstimate`.
* `js_financial.dfy` (`JsFinancial`): `processFinancialStatement`.
* `js_upload.dfy` (`JsUpload`): `processExcelData`.

Where the project's own documentation and the code disagree, the model follows
the code:

* `_process_financial_statement` describes an item with `_get_description`
  (line 165). So an item whose row has no describing cell is called "Item",
  like an estimate item.
* A sheet is an estimate only when its estimate score is strictly greater than
  its financial score, and greater than 2 (line 89). Equal scores give "mixed".
* The Python summary's `total_sheets` is `len(processed_data['sheets'])`
  (line 258). That counts only the mixed sheets. The JavaScript summary's
  `total_sheets` counts every sheet (line 146).

## Model

| member | source | states |
|---|---|---|
| Text.StripStart | backend/excel_processor.py:190-191 | `strip()` removes exactly the leading run of whitespace: the result is a suffix, starts with a non-space, and everything dropped is whitespace |
| Text.StripEnd | backend/excel_processor.py:190-191 | the trailing half of `strip()`: a prefix ending in a non-space, with only whitespace dropped |
| Text.StripEmptyIff | backend/excel_processor.py:190 | a cell strips to "" exactly when all its characters are whitespace (the truthiness test of `str(cell).strip()`) |
| Text.LowerAt | backend/excel_processor.py:84 | `lower()` maps each character in place and keeps the length |
| Text.UpperAt | netlify/functions/upload.js:191 | `toUpperCase()` maps each character in place and keeps the length |
| Numerals.DigitRun | backend/excel_processor.py:204 | the maximal run of digits at the start of a text: all digits, followed by a non-digit or the end |
| Numerals.MatchIsNumeral | backend/excel_processor.py:204 | every match of `-?\d+\.?\d*` found at a position is a numeral of that shape |
| Numerals.Tokens | backend/excel_processor.py:204 | `re.findall` returns only numerals, scanning left to right |
| Numerals.MatchIsLongest | backend/excel_processor.py:204 | the match taken at a position is a numeral and the longest one there: no longer prefix is a numeral, as the greedy regex requires |
| Numerals.TokensEmptyIff | backend/excel_processor.py:204 | a cell yields no number exactly when it holds no digit |
| Numerals.ExtractNumericValues | backend/excel_processor.py:196-206 | the loop over the cells returns the numbers of every cell in order, concatenated (`RowNumbers`) |
| Numerals.RowNumbersEmptyIff | backend/excel_processor.py:196-206 | a row yields no number exactly when none of its cells holds a digit |
| Numerals.RowNumbersAppend | backend/excel_processor.py:199-205 | the numbers of two runs of cells are the numbers of the first followed by those of the second |
| Numerals.NumeralCellRoundTrip | backend/excel_processor.py:204-205 | a cell that is a numeral is matched whole and read back as its own value |
| Numerals.ExampleRow | backend/excel_processor.py:196-206 | the row "Foo", "12", "3.5" yields 12 and 3.5 |
| Cleaning.DropMissingRows | backend/excel_processor.py:68 | `dropna(how='all')` keeps a subsequence of the rows |
| Cleaning.DropMissingRowsSingle | backend/excel_processor.py:68 | a single row is dropped exactly when all its cells are missing, and kept as it is otherwise |
| Cleaning.DropMissingRowsAppend | backend/excel_processor.py:68 | dropping distributes over concatenation, so the kept rows keep their order and multiplicity |
| Cleaning.DropKeepsOnlyPresent | backend/excel_processor.py:68 | every kept row has a present cell |
| Cleaning.DropKeepsEveryPresent | backend/excel_processor.py:68 | every row with a present cell is kept |
| Cleaning.KeptColumnsExact | backend/excel_processor.py:68 | `dropna(axis=1, how='all')` keeps column j exactly when some remaining row has a present cell there |
| Cleaning.KeptColumnsAscending | backend/excel_processor.py:68 | the kept columns keep their order |
| Cleaning.DropOrderIrrelevant | backend/excel_processor.py:68 | dropping the empty rows first changes no column's emptiness |
| Cleaning.TidyHasNoMissingRowOrColumn | backend/excel_processor.py:68 | after both drops no row and no column is entirely missing |
| Cleaning.TidyIdempotent | backend/excel_processor.py:68 | dropping again changes nothing |
| Cleaning.Clean | backend/excel_processor.py:65-79 | the cleaned sheet is a rectangular grid of text no larger than the input |
| Cleaning.AllMissingCleansToEmpty | backend/excel_processor.py:68-77 | a sheet whose every cell is missing cleans to the empty grid |
| Cleaning.CleanRowsIffColumns | backend/excel_processor.py:68 | after cleaning, the sheet has rows exactly when it has columns |
| Classifier.Score | backend/excel_processor.py:86-87 | a score never exceeds the number of keywords |
| Classifier.ScoresCountKeywords | backend/excel_processor.py:84-87 | each score is the number of distinct keywords found in the lower-cased joined sheet text, at most 11 |
| Classifier.DetectContentType | backend/excel_processor.py:81-94 | estimate exactly when the estimate score is strictly above both the financial score and 2; financial symmetrically; mixed otherwise; non-mixed needs a row |
| Classifier.EmptySheetScoresZero | backend/excel_processor.py:84-87 | an empty sheet scores 0 on both lists |
| Fields.FirstNonBlank | backend/excel_processor.py:248-250 | the first cell whose stripped text is non-empty, with every earlier cell blank |
| Fields.HeadersFromHeaderRow | backend/excel_processor.py:189-191 | when row 0 has a non-blank cell, the headers are row 0's cells stripped |
| Fields.HeadersFromColumns | backend/excel_processor.py:193-194 | when row 0 is all blank, the headers are the column labels |
| Fields.FirstDescribing | backend/excel_processor.py:210-212 | the first cell that is non-blank and not a bare numeral once stripped, with no earlier such cell |
| Fields.Description | backend/excel_processor.py:208-213 | the description is never empty (the stripped describing cell, or "Item") |
| Fields.SectionName | backend/excel_processor.py:246-251 | the section name is never empty (the first non-blank cell stripped, or "Section") |
| Fields.PositionalFields | backend/excel_processor.py:215-238 | quantity is the first number or 1; unit price the second or 0; total the third, else quantity×price for two numbers, else the single number or 0; amount the last number or 0 |
| Fields.ExampleTotals | backend/excel_processor.py:225-233 | numbers 5, 10 give total 50; numbers 5, 10, 52 give total 52 |
| Fields.SectionHeaderHasName | backend/excel_processor.py:240-251 | a section-header row always has a non-blank cell, so its name is that cell stripped, never the fallback |
| EstimateExtractor.CollectItems | backend/excel_processor.py:112-126 | the loop yields `Items(data)`: one item per row that yields a number, in row order |
| EstimateExtractor.ProcessEstimate | backend/excel_processor.py:96-131 | the result is the title "Estimate - name", the headers from row 0, the items of the rows after row 0 and the sum of their totals |
| EstimateExtractor.ItemsFromNumericRows | backend/excel_processor.py:117-126 | every item comes from a row that yields a number and is built from that row |
| EstimateExtractor.NumericRowsBecomeItems | backend/excel_processor.py:117-126 | every row that yields a number contributes its item |
| EstimateExtractor.DigitFreeRowsAreSkipped | backend/excel_processor.py:117-118 | an item's row holds a digit somewhere |
| EstimateExtractor.ItemsAppend | backend/excel_processor.py:112-126 | the items of two runs of rows are the items of each, concatenated |
| EstimateExtractor.ItemsAreNumericRows | backend/excel_processor.py:112-126 | the items are exactly the items of the rows that yield a number, one per row, in row order |
| EstimateExtractor.SumTotalsAppend | backend/excel_processor.py:129 | the total adds up over a concatenation |
| EstimateExtractor.EstimateShape | backend/excel_processor.py:112-129 | at most one item per data row, each from a numeric row after row 0, and the total is the sum of the item totals |
| FinancialGrouper.ConsumeRow | backend/excel_processor.py:152-169 | one step of the state machine keeps `sections + Pending(current, rest)` unchanged: a header closes and opens, an item row is appended, another row changes nothing |
| FinancialGrouper.GroupSections | backend/excel_processor.py:146-173 | the loop and the closing of the last section yield `Sections(data)` |
| FinancialGrouper.ProcessFinancialStatement | backend/excel_processor.py:133-175 | the title, the headers from row 0 and the sections of the rows after row 0 |
| FinancialGrouper.PendingAtHeader | backend/excel_processor.py:153-159 | a header row closes the open section, if any, and opens an empty one named after the row |
| FinancialGrouper.PendingAtItem | backend/excel_processor.py:160-169 | a non-header row with numbers adds its item to the open section |
| FinancialGrouper.PendingAtOther | backend/excel_processor.py:162-163 | a row with no number, or any non-header row when no section is open, changes nothing |
| FinancialGrouper.PendingAtEnd | backend/excel_processor.py:171-173 | at the end the open section, if any, is closed as it is |
| FinancialGrouper.SectionsFollowHeaders | backend/excel_processor.py:153-173 | one section per section-header row, in row order, named after that row |
| FinancialGrouper.SectionNamesAreHeaderCells | backend/excel_processor.py:246-251 | each section is named after its header row's first non-blank cell, stripped |
| FinancialGrouper.HeaderRowsAreHeaders | backend/excel_processor.py:153 | the rows that opened sections are section headers |
| FinancialGrouper.SectionItemsComeFromItemRows | backend/excel_processor.py:160-169 | every item comes from a non-header numeric row, its amount is that row's last number and its description is not empty |
| FinancialGrouper.ItemsPartitionItemRows | backend/excel_processor.py:160-169 | counts: the number of items in sections plus the number of items of rows before the first header equals the number of non-header numeric rows |
| FinancialGrouper.ItemRowsInOrder | backend/excel_processor.py:146-173 | the items before the first header followed by the items of every section, in order, are exactly the items of the non-header numeric rows, one per row, in row order |
| FinancialGrouper.LeadRowsDropped | backend/excel_processor.py:163 | rows before the first section header never change the sections |
| FinancialGrouper.NoHeaderNoSections | backend/excel_processor.py:153-173 | a sheet without a section-header row has no sections |
| FinancialGrouper.TwoCellRowNoHeader | backend/excel_processor.py:243-244 | a row none of whose cells holds an o or a u contains none of the four header words |
| FinancialGrouper.TotalRowIsHeader | backend/excel_processor.py:243-244 | a row whose first cell starts with "Total" is a section header |
| FinancialGrouper.TwoSections | backend/excel_processor.py:146-173 | header, item, header, item gives two sections of one item each |
| FinancialGrouper.ExampleSections | backend/excel_processor.py:133-175 | "Total Revenue", "Sales 100", "Total Expenses", "Rent 40" give the sections Total Revenue [Sales 100] and Total Expenses [Rent 40] |
| MixedContent.ProcessMixedContent | backend/excel_processor.py:177-184 | title "Data - name", the column labels as headers, one record per row |
| MixedContent.MixedRecordKeys | backend/excel_processor.py:182 | each record's keys are exactly the column labels |
| MixedContent.MixedRecordsHoldRows | backend/excel_processor.py:182 | with distinct labels, each record maps each label to the row's cell under it |
| MixedContent.RecordRightmost | backend/excel_processor.py:182 | a repeated label keeps the rightmost cell |
| Processor.Route | backend/excel_processor.py:35-42 | each sheet is cleaned and classified, in workbook order and under its own name; every non-mixed sheet has a row |
| Processor.ProcessFile | backend/excel_processor.py:35-57 | the loop yields `DocumentOf`: estimates and statements in workbook order, mixed sheets by name, and the summary of those buckets |
| Processor.GenerateSummary | backend/excel_processor.py:253-266 | the counts are the lengths of the three buckets, and the grand total is the sum of the estimate totals |
| Processor.BucketsPartition | backend/excel_processor.py:45-54 | with distinct sheet names, each sheet lands in exactly one bucket |
| Processor.SummaryCountsSheets | backend/excel_processor.py:253-266 | the three counts add up to the number of sheets, and the grand total counts estimates only |
| Processor.MixedSheetKeys | backend/excel_processor.py:51-54 | a sheet's name is a key of `sheets` exactly when the sheet is mixed |
| Processor.MixedSheetStored | backend/excel_processor.py:53-54 | a mixed sheet not renamed over later is stored with its pass-through result |
| Processor.MixedSheetsAreNamed | backend/excel_processor.py:54 | every key of `sheets` is a sheet name |
| Processor.EmptyWorkbook | backend/excel_processor.py:35-57 | an empty workbook gives an all-zero summary |
| JsValues.TrimStart | netlify/functions/upload.js:162 | `parseFloat` skips exactly the leading white space |
| JsValues.TimesParsed | netlify/functions/upload.js:162-164 | the product is a number exactly when both sides parse, and is then their product; NaN otherwise |
| JsValues.ParsedOrZero | netlify/functions/upload.js:170 | `parseFloat(x) \|\| 0` is the parsed value, or 0 for NaN |
| JsValues.NumeralParsesAlike | netlify/functions/upload.js:162 | on every numeral `-?\d+\.?\d*`, `parseFloat` gives the value the Python extractor gives |
| JsValues.ParseSkipsLeadingSpace | netlify/functions/upload.js:162 | leading white space never changes the result |
| JsValues.ParseIgnoresTrailingText | netlify/functions/upload.js:162 | digits followed by white space and any text parse as the digits alone |
| JsValues.ParseNeedsLeadingDigit | netlify/functions/upload.js:162 | a text starting with anything but white space, a sign, a digit or '.' is NaN (a leading `Infinity`, not modelled, aside) |
| JsValues.ParseBareFraction | netlify/functions/upload.js:162 | ".5" parses like "0.5" |
| JsEstimate.HeaderKeysNamed | netlify/functions/upload.js:156-158 | the object's keys are exactly the keys of the defined headers |
| JsEstimate.Record | netlify/functions/upload.js:155-158 | the record's keys are the header keys |
| JsEstimate.RecordRightmost | netlify/functions/upload.js:156-158 | a header's key holds the cell under it unless a later header has the same key |
| JsEstimate.ProcessEstimate | netlify/functions/upload.js:150-178 | title "name - Project Estimate", exactly one item per row after row 0 in order, each the row's line, and the total is the sum of their parsed totals |
| JsEstimate.LineTotalRule | netlify/functions/upload.js:160-165 | Total is Quantity×Rate when both are truthy, else Hours×Rate when both are truthy, else the row's own Total cell |
| JsEstimate.LineAgreesWithRecord | netlify/functions/upload.js:155-167 | the item keeps every property of the row's record, and only Total may differ |
| JsEstimate.UnparsedTotalsCountZero | netlify/functions/upload.js:170 | items whose Total does not parse add nothing |
| JsEstimate.ExampleQuantityTimesRate | netlify/functions/upload.js:160-162 | Item, Quantity, Rate over Paint, 2, 50 gives Total 100 |
| JsFinancial.ConsumeRow | netlify/functions/upload.js:187-207 | one step of the state machine keeps `sections + Pending(current, rest)` unchanged |
| JsFinancial.ProcessFinancialStatement | netlify/functions/upload.js:180-219 | the loop and the closing of the last section yield the reference sections of the rows after row 0, titled "name - Financial Statement" |
| JsFinancial.PendingAtHeader | netlify/functions/upload.js:191-198 | an upper-case or ':' first cell closes the open section and opens one named by the cell |
| JsFinancial.PendingAtItem | netlify/functions/upload.js:199-205 | another labelled row adds its record to the open section |
| JsFinancial.SectionsFollowHeaders | netlify/functions/upload.js:187-212 | one section per opening row, in order, named by its first cell |
| JsFinancial.UnlabelledRowIgnored | netlify/functions/upload.js:189 | a row whose first cell is not a non-empty string changes nothing, wherever it sits |
| JsFinancial.LeadRowsDropped | netlify/functions/upload.js:199 | rows before the first opening row never change the sections |
| JsFinancial.ItemsPartitionItemRows | netlify/functions/upload.js:199-205 | counts: the number of items in sections plus the number of items of rows before the first opening row equals the number of item rows |
| JsFinancial.ItemRowsInOrder | netlify/functions/upload.js:187-212 | the items before the first opening row followed by the items of every section, in order, are exactly the records of the item rows, one per row, in row order |
| JsFinancial.SectionItemsAreRecords | netlify/functions/upload.js:200-205 | every item is the record of some item row |
| JsFinancial.YearLabelOpensSection | netlify/functions/upload.js:191 | a first cell such as "2023" equals its upper-case form and so opens a section |
| JsUpload.TableOf | netlify/functions/upload.js:117-127 | the stored table has the sheet's title, row 0 as headers and one record per later row |
| JsUpload.ProcessExcelData | netlify/functions/upload.js:99-148 | the loop yields `UploadOf`: every table by name, the estimate and statement lists in sheet order, their counts, all sheets counted and the estimate totals summed |
| JsUpload.EverySheetStored | netlify/functions/upload.js:113-127 | the keys of `sheets` are exactly the sheet names |
| JsUpload.SheetTableOfEachSheet | netlify/functions/upload.js:117-127 | with distinct names, each sheet's table is built from that sheet |
| JsUpload.CountsPartitionSheets | netlify/functions/upload.js:132-146 | each sheet is an estimate, a statement or neither, so the two list counts never exceed `total_sheets` |
| JsUpload.EstimateSheetStep | netlify/functions/upload.js:132-137 | a sheet with an estimate word, whether or not it also has a financial word, appends its estimate to the estimates and leaves the statements unchanged |
| JsUpload.FinancialSheetStep | netlify/functions/upload.js:138-142 | a sheet with a financial word and no estimate word appends its statement and leaves the estimates unchanged |
| JsUpload.OtherSheetStep | netlify/functions/upload.js:132-143 | a sheet with neither kind of word leaves both lists unchanged |

## Left out

- Reading the workbook (`pd.read_excel`, `XLSX.read`, `sheet_to_json`) and the HTTP handler, file upload and front end are left out. A workbook is an input: a sequence of named sheets of cells.
- The text pandas gives a number in `astype(str)` is the parameter `render`. The text JavaScript gives a number used as a property key is the parameter `numText`. Their exact digits are not modelled.
- Numbers are exact reals, not IEEE doubles: no rounding, overflow, `inf` or `-0`.
  - `parseFloat` is modelled with its exponent part, but no lemma is stated about exponents.
  - `Infinity` is not modelled.
- The numeric branch of `_extract_numeric_values` (line 200) is left out. After `_clean_dataframe` every cell is a string, so the branch cannot be reached.
- Text.IsDigit: only the ASCII digits 0-9 are digits. Python's `\d` in `re.findall` also matches other Unicode decimal digits, such as "١٢". So Numerals.Tokens and Numerals.ExtractNumericValues find no number in such a cell, where Python finds one. Numerals.NumeralParsesAlike is unaffected, because JavaScript's `parseFloat` reads ASCII digits only.
- `Text.LowerChar` and `Text.UpperChar` map ASCII letters only. Python's `lower()` and JavaScript's `toUpperCase()` also map other letters.
- JsUpload.HasEstimateWord: `JSON.stringify(data).toLowerCase().includes(word)` is approximated by a search in each lower-cased string cell. A word spread over two cells, over JSON punctuation or over an escape sequence is not found.
- The `subtotals` field of `_process_estimate` is always empty and is not modelled.
- Logging, the `try`/`raise` of `process_file` and the `try`/`catch` of the handler are left out.
- JsUpload.GrandTotal: `estimate.total || 0` is modelled as `estimate.total`. The two differ only when the total is NaN, which cannot happen with exact reals.
- EstimateExtractor.ProcessEstimate, FinancialGrouper.ProcessFinancialStatement: they require a sheet with at least one row. On an empty sheet `_find_headers` raises. The router reaches these extractors only for sheets that have a row, which Classifier.DetectContentType and Processor.Route prove.
- The processor is deterministic: every operation is a function of its inputs, so no lemma about idempotence of the processing itself is stated.
