/** The content classifier `_detect_content_type` of
    `backend/excel_processor.py`: the sheet's text, lower-cased and joined
    with spaces, is scored against two fixed keyword lists. */
module Classifier {
  import opened Text

  datatype ContentType = Estimate | Financial | Mixed

  const EstimateKeywords: seq<string> :=
    ["estimate", "quote", "proposal", "cost", "price", "amount",
     "labor", "materials", "equipment", "subtotal", "total"]

  const FinancialKeywords: seq<string> :=
    ["revenue", "income", "expense", "profit", "loss", "balance",
     "assets", "liabilities", "equity", "cash flow", "statement"]

  predicate Distinct(s: seq<string>) {
    forall i, j :: 0 <= i < j < |s| ==> s[i] != s[j]
  }

  /** The cells in row-major order (`df.values.flatten()`). */
  function Flatten(rows: seq<seq<string>>): seq<string> {
    if rows == [] then [] else Flatten(rows[..|rows| - 1]) + rows[|rows| - 1]
  }

  /** `' '.join(df.values.flatten()).lower()`. */
  function SheetText(rows: seq<seq<string>>): string {
    Lower(Join(Flatten(rows), " "))
  }

  /** `sum(1 for keyword in keywords if keyword in text)`. */
  function Score(text: string, keywords: seq<string>): (n: nat)
    ensures n <= |keywords|
  {
    if keywords == [] then 0
    else
      Score(text, keywords[..|keywords| - 1])
      + (if Contains(text, keywords[|keywords| - 1]) then 1 else 0)
  }

  function EstimateScore(rows: seq<seq<string>>): nat {
    Score(SheetText(rows), EstimateKeywords)
  }

  function FinancialScore(rows: seq<seq<string>>): nat {
    Score(SheetText(rows), FinancialKeywords)
  }

  /** `_detect_content_type`: exactly one of the three labels. The winner must
      beat the other score and exceed 2; ties and low-signal sheets are mixed,
      and only a sheet with at least one row can be anything but mixed. */
  function DetectContentType(rows: seq<seq<string>>): (t: ContentType)
    ensures t == Estimate <==> EstimateScore(rows) > FinancialScore(rows) && EstimateScore(rows) > 2
    ensures t == Financial <==> FinancialScore(rows) > EstimateScore(rows) && FinancialScore(rows) > 2
    ensures EstimateScore(rows) == FinancialScore(rows) ==> t == Mixed
    ensures EstimateScore(rows) <= 2 && FinancialScore(rows) <= 2 ==> t == Mixed
    ensures t != Mixed ==> |rows| > 0
  {
    if rows == [] then EmptySheetScoresZero(); Mixed
    else
      var est := EstimateScore(rows);
      var fin := FinancialScore(rows);
      if est > fin && est > 2 then Estimate
      else if fin > est && fin > 2 then Financial
      else Mixed
  }

  lemma {:induction false} NothingInEmptyText(keywords: seq<string>)
    requires forall i :: 0 <= i < |keywords| ==> keywords[i] != ""
    ensures Score("", keywords) == 0
  {
    if keywords != [] {
      NothingInEmptyText(keywords[..|keywords| - 1]);
    }
  }

  /** A sheet without rows has the empty text, in which no keyword occurs. */
  lemma EmptySheetScoresZero()
    ensures EstimateScore([]) == 0 && FinancialScore([]) == 0
  {
    assert SheetText([]) == "";
    NothingInEmptyText(EstimateKeywords);
    NothingInEmptyText(FinancialKeywords);
  }

  /** The keywords of the list that occur in the text. */
  function Present(text: string, keywords: seq<string>): set<string> {
    set k | k in keywords && Contains(text, k)
  }

  /** The last keyword joins the keywords present exactly when it occurs. */
  lemma PresentStep(text: string, keywords: seq<string>)
    requires keywords != []
    ensures var init := keywords[..|keywords| - 1];
            var last := keywords[|keywords| - 1];
            Present(text, keywords) == Present(text, init) + (if Contains(text, last) then {last} else {})
  {
    var init := keywords[..|keywords| - 1];
    assert keywords == init + [keywords[|keywords| - 1]];
  }

  /** The score of distinct keywords is the number of them that occur in the text. */
  lemma {:induction false} ScoreCountsKeywordsPresent(text: string, keywords: seq<string>)
    requires Distinct(keywords)
    ensures Score(text, keywords) == |Present(text, keywords)|
  {
    if keywords != [] {
      var init := keywords[..|keywords| - 1];
      var last := keywords[|keywords| - 1];
      ScoreCountsKeywordsPresent(text, init);
      PresentStep(text, keywords);
      assert last !in init;
      assert last !in Present(text, init);
    }
  }

  lemma KeywordListsDistinct()
    ensures Distinct(EstimateKeywords) && Distinct(FinancialKeywords)
  {
  }

  /** Each score counts distinct keywords found in the sheet's text, so it lies
      between 0 and 11. */
  lemma ScoresCountKeywords(rows: seq<seq<string>>)
    ensures EstimateScore(rows) == |Present(SheetText(rows), EstimateKeywords)|
    ensures FinancialScore(rows) == |Present(SheetText(rows), FinancialKeywords)|
    ensures EstimateScore(rows) <= 11 && FinancialScore(rows) <= 11
  {
    KeywordListsDistinct();
    ScoreCountsKeywordsPresent(SheetText(rows), EstimateKeywords);
    ScoreCountsKeywordsPresent(SheetText(rows), FinancialKeywords);
  }
}
