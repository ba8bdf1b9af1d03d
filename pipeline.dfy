/**
 * `main` without its command line, file writes and prints: load both tables,
 * align, ask the service for every aligned question, score, and assemble the
 * raw answers and the metrics report.
 */
module Pipeline {
  import opened Wrappers
  import opened Loader
  import opened Aligner
  import opened Text
  import opened Answers
  import opened Scorer
  import opened Report

  /** What the run writes: the raw-answers artifact and the metrics report. */
  datatype Output = Output(answers: seq<AnswerRecord>, report: seq<ReportItem>)

  predicate ColumnsPresent(questionsTable: Table, goldTable: Table) {
    "question" in questionsTable.columns && "question" in goldTable.columns && "answer" in goldTable.columns
  }

  /** The aligned questions of two tables that have their required columns. */
  function AlignedOf(questionsTable: Table, goldTable: Table): (aligned: seq<string>)
    requires questionsTable.WellFormed() && goldTable.WellFormed()
    requires ColumnsPresent(questionsTable, goldTable)
  {
    Aligned(questionsTable.Column("question"), GoldSet(goldTable.Column("question")))
  }

  method Run(questionsTable: Table, goldTable: Table, apiKey: Option<string>,
             ask: string -> Option<string>, m: Metrics)
    returns (r: Result<Output, Failure>, ghost asked: seq<string>)
    requires questionsTable.WellFormed() && goldTable.WellFormed()
    // the scorer's shape check never fires after a successful alignment
    ensures r.Err? ==> r.error != ShapeMismatch
    ensures "question" !in questionsTable.columns ==> r == Err(MissingQuestionColumn) && asked == []
    ensures "question" in questionsTable.columns && !ColumnsPresent(questionsTable, goldTable) ==>
      r == Err(MissingGoldColumns) && asked == []
    ensures ColumnsPresent(questionsTable, goldTable) ==>
      var aligned := AlignedOf(questionsTable, goldTable);
      && (aligned == [] ==> r == Err(NoOverlap) && asked == [])
      && (aligned != [] && !HasKey(apiKey) ==> r == Err(MissingApiKey) && asked == [])
      && |asked| <= |aligned| && asked == aligned[..|asked|]
      && (r.Ok? <==> aligned != [] && HasKey(apiKey) && forall i :: 0 <= i < |aligned| ==> ask(aligned[i]).Some?)
      // a request that raises ends the run, and it is the last request sent
      && (aligned != [] && HasKey(apiKey) && r.Err? ==>
            && r.error == AnswerServiceFailed
            && asked != [] && ask(asked[|asked| - 1]).None?
            && forall i :: 0 <= i < |asked| - 1 ==> ask(asked[i]).Some?)
    ensures r.Ok? ==> ColumnsPresent(questionsTable, goldTable)
    ensures r.Ok? ==>
      var aligned := AlignedOf(questionsTable, goldTable);
      var goldQs := goldTable.Column("question");
      var goldRefs := goldTable.Column("answer");
      && asked == aligned
      && |r.value.answers| == |r.value.report| == |aligned|
      && forall i :: 0 <= i < |aligned| ==>
        && aligned[i] in goldQs
        && ask(aligned[i]).Some?
        && var reference := goldRefs[LastIndex(goldQs, aligned[i])];
           var prediction := Strip(ask(aligned[i]).value);
           && r.value.answers[i] == AnswerRecord(aligned[i], prediction)
           && r.value.report[i] == Item(aligned[i], reference, prediction, ScoreRow(m, reference, prediction))
  {
    asked := [];
    var loadedQuestions := LoadQuestions(questionsTable);
    if loadedQuestions.Err? {
      return Err(loadedQuestions.error), asked;
    }
    var loadedGold := LoadGoldPairs(goldTable);
    if loadedGold.Err? {
      return Err(loadedGold.error), asked;
    }
    var questionsAll, gold := loadedQuestions.value, loadedGold.value;
    assert questionsAll == questionsTable.Column("question");
    assert gold.questions == goldTable.Column("question") && gold.answers == goldTable.Column("answer");

    var alignment := Align(questionsAll, gold.questions, gold.answers);
    if alignment.Err? {
      AlignedEmptyIff(questionsAll, GoldSet(gold.questions));
      return Err(alignment.error), asked;
    }
    var questions, references := alignment.value.questions, alignment.value.references;

    var predictions;
    predictions, asked := AskAll(questions, apiKey, ask);
    if predictions.Err? {
      return Err(predictions.error), asked;
    }
    var answers := AnswerRecords(questions, predictions.value);

    var rows, _ := EvalText(m, references, predictions.value);
    if rows.Err? {
      // the aligned questions are non-empty and every one has a prediction
      assert false;
    }
    var items := BuildReport(questions, references, predictions.value, rows.value);
    r := Ok(Output(answers, items));
  }
}
