/**
 * The required-column checks of the two CSV loaders. A parsed table is a set of
 * column names and a sequence of rows, every row holding one text cell per column.
 */
module Loader {
  import opened Wrappers

  type Row = map<string, string>

  datatype Table = Table(columns: set<string>, rows: seq<Row>) {

    /** A data frame is rectangular: each row has a cell in every column. */
    predicate WellFormed() {
      forall i :: 0 <= i < |rows| ==> columns <= rows[i].Keys
    }

    /** One column, top to bottom. */
    function Column(name: string): (cells: seq<string>)
      requires WellFormed() && name in columns
      ensures |cells| == |rows|
    {
      seq(|rows|, i requires 0 <= i < |rows| => rows[i][name])
    }
  }

  /** The gold questions and answers, as two parallel lists. */
  datatype GoldPairs = GoldPairs(questions: seq<string>, answers: seq<string>)

  /** The question list: fails unless the table has a `question` column. */
  function LoadQuestions(t: Table): (r: Result<seq<string>, Failure>)
    requires t.WellFormed()
    ensures r.Ok? <==> "question" in t.columns
    ensures r.Err? ==> r.error == MissingQuestionColumn
    ensures r.Ok? ==> |r.value| == |t.rows|
    ensures r.Ok? ==> forall i :: 0 <= i < |t.rows| ==> r.value[i] == t.rows[i]["question"]
  {
    if "question" !in t.columns then Err(MissingQuestionColumn)
    else Ok(t.Column("question"))
  }

  /**
   * The gold pairs: fails unless both `question` and `answer` are columns.
   * The i-th question and the i-th answer come from the same row.
   */
  function LoadGoldPairs(t: Table): (r: Result<GoldPairs, Failure>)
    requires t.WellFormed()
    ensures r.Ok? <==> "question" in t.columns && "answer" in t.columns
    ensures r.Err? ==> r.error == MissingGoldColumns
    ensures r.Ok? ==> |r.value.questions| == |r.value.answers| == |t.rows|
    ensures r.Ok? ==> forall i :: 0 <= i < |t.rows| ==>
      r.value.questions[i] == t.rows[i]["question"] && r.value.answers[i] == t.rows[i]["answer"]
  {
    if !({"question", "answer"} <= t.columns) then Err(MissingGoldColumns)
    else Ok(GoldPairs(t.Column("question"), t.Column("answer")))
  }
}
