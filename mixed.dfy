/** The pass-through `_process_mixed_content` of `backend/excel_processor.py`:
    every row of the cleaned sheet, row 0 included, becomes a record keyed by
    the column labels (`df.to_dict('records')`). */
module MixedContent {
  import opened Cleaning

  datatype MixedResult = MixedResult(
    sheetName: string,
    title: string,
    data: seq<map<string, string>>,
    headers: seq<string>)

  /** One record: the label of each column mapped to the row's cell in that
      column, columns taken left to right so that a repeated label keeps its
      rightmost cell. */
  function Record(columns: seq<string>, row: seq<string>): (m: map<string, string>)
    requires |columns| == |row|
    ensures forall c :: c in m <==> c in columns
  {
    if columns == [] then map[]
    else
      var n := |columns| - 1;
      var init := Record(columns[..n], row[..n]);
      assert forall c :: c in columns <==> c in columns[..n] || c == columns[n] by {
        assert columns == columns[..n] + [columns[n]];
      }
      init[columns[n] := row[n]]
  }

  /** A label maps to the cell of its rightmost column. */
  lemma {:induction false} RecordRightmost(columns: seq<string>, row: seq<string>, j: nat)
    requires |columns| == |row| && j < |columns|
    requires forall k :: j < k < |columns| ==> columns[k] != columns[j]
    ensures Record(columns, row)[columns[j]] == row[j]
  {
    var n := |columns| - 1;
    if j < n {
      RecordRightmost(columns[..n], row[..n], j);
    }
  }

  /** With distinct labels, each label maps to its own column's cell. */
  lemma RecordOfDistinctLabels(columns: seq<string>, row: seq<string>)
    requires |columns| == |row|
    requires forall j, k :: 0 <= j < k < |columns| ==> columns[j] != columns[k]
    ensures forall j :: 0 <= j < |columns| ==> Record(columns, row)[columns[j]] == row[j]
  {
    forall j | 0 <= j < |columns| ensures Record(columns, row)[columns[j]] == row[j] {
      RecordRightmost(columns, row, j);
    }
  }

  /** `_process_mixed_content`: one record per row, in row order, and the
      column labels as headers. */
  function ProcessMixedContent(sheet: Sheet, sheetName: string): (m: MixedResult)
    requires Rectangular(sheet)
    ensures m.sheetName == sheetName && m.title == "Data - " + sheetName
    ensures m.headers == sheet.columns
    ensures |m.data| == |sheet.rows|
  {
    var data := seq(|sheet.rows|, i requires 0 <= i < |sheet.rows| =>
                      assert sheet.rows[i] in sheet.rows;
                      Record(sheet.columns, sheet.rows[i]));
    MixedResult(sheetName, "Data - " + sheetName, data, sheet.columns)
  }

  /** Each record is keyed by exactly the column labels. */
  lemma MixedRecordKeys(sheet: Sheet, sheetName: string, i: nat)
    requires Rectangular(sheet) && i < |sheet.rows|
    ensures forall c :: c in ProcessMixedContent(sheet, sheetName).data[i] <==> c in sheet.columns
  {
    assert sheet.rows[i] in sheet.rows;
  }

  /** Each record holds exactly the cells of its row under distinct labels. */
  lemma MixedRecordsHoldRows(sheet: Sheet, sheetName: string, i: nat)
    requires Rectangular(sheet) && i < |sheet.rows|
    requires forall j, k :: 0 <= j < k < |sheet.columns| ==> sheet.columns[j] != sheet.columns[k]
    ensures forall j :: 0 <= j < |sheet.columns| ==>
              ProcessMixedContent(sheet, sheetName).data[i][sheet.columns[j]] == sheet.rows[i][j]
  {
    assert sheet.rows[i] in sheet.rows;
    RecordOfDistinctLabels(sheet.columns, sheet.rows[i]);
  }
}
