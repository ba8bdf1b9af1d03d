/**
 * The two artifacts of a run: the raw answers, one record per aligned question,
 * and the metrics report, one item per aligned question joining the question,
 * its reference, its prediction and its row of metrics.
 */
module Report {
  import opened Wrappers
  import opened Scorer

  /** An entry of the raw-answers file. */
  datatype AnswerRecord = AnswerRecord(question: string, openaiAnswer: string)

  /** An entry of the metrics report. */
  datatype ReportItem = ReportItem(
    question: string, reference: string, prediction: string, bleu: real,
    rouge1F1: real, rouge1P: real, rouge1R: real,
    rouge2F1: real, rouge2P: real, rouge2R: real,
    rougeLsumF1: real, rougeLsumP: real, rougeLsumR: real)

  /** The list comprehension over `zip(questions, predictions)`. */
  function AnswerRecords(questions: seq<string>, predictions: seq<string>): (r: seq<AnswerRecord>)
    ensures |r| == Min(|questions|, |predictions|)
    ensures forall i :: 0 <= i < |r| ==> r[i] == AnswerRecord(questions[i], predictions[i])
  {
    seq(Min(|questions|, |predictions|), i requires 0 <= i < Min(|questions|, |predictions|) =>
      AnswerRecord(questions[i], predictions[i]))
  }

  function QuestionsOf(records: seq<AnswerRecord>): (qs: seq<string>)
    ensures |qs| == |records|
  {
    seq(|records|, i requires 0 <= i < |records| => records[i].question)
  }

  function AnswersOf(records: seq<AnswerRecord>): (ps: seq<string>)
    ensures |ps| == |records|
  {
    seq(|records|, i requires 0 <= i < |records| => records[i].openaiAnswer)
  }

  /** Pairing equally long lists loses and reorders nothing: both lists read back unchanged. */
  lemma AnswerRecordsRoundTrip(questions: seq<string>, predictions: seq<string>)
    requires |questions| == |predictions|
    ensures QuestionsOf(AnswerRecords(questions, predictions)) == questions
    ensures AnswersOf(AnswerRecords(questions, predictions)) == predictions
  {
  }

  /** The item the loop body builds: the metrics come from the row, the texts from the three lists. */
  function Item(question: string, reference: string, prediction: string, row: EvalRow): ReportItem
  {
    ReportItem(question, reference, prediction, row.bleu,
               row.rouge1F1, row.rouge1P, row.rouge1R,
               row.rouge2F1, row.rouge2P, row.rouge2R,
               row.rougeLsumF1, row.rougeLsumP, row.rougeLsumR)
  }

  /** The loop over `zip(questions, references, predictions, rows)`: one item per position, in order. */
  method BuildReport(questions: seq<string>, references: seq<string>, predictions: seq<string>, rows: seq<EvalRow>)
    returns (items: seq<ReportItem>)
    ensures |items| == Min(Min(|questions|, |references|), Min(|predictions|, |rows|))
    ensures forall i :: 0 <= i < |items| ==>
      items[i].question == questions[i] && items[i].reference == references[i] &&
      items[i].prediction == predictions[i] && items[i].bleu == rows[i].bleu &&
      items[i] == Item(questions[i], references[i], predictions[i], rows[i])
  {
    var n := Min(Min(|questions|, |references|), Min(|predictions|, |rows|));
    items := [];
    for i := 0 to n
      invariant |items| == i
      invariant forall k :: 0 <= k < i ==> items[k] == Item(questions[k], references[k], predictions[k], rows[k])
    {
      items := items + [Item(questions[i], references[i], predictions[i], rows[i])];
    }
  }
}
