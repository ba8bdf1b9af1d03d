/**
 * `_eval_text` and `_avg`. Sentence BLEU and the ROUGE scorer are foreign
 * floating-point code; they enter the model as the uninterpreted functions
 * of a `Metrics` value and the model says nothing about their values.
 */
module Scorer {
  import opened Wrappers

  /** One ROUGE variant as the scorer reports it. */
  datatype Score = Score(precision: real, recall: real, fmeasure: real)

  /** The scorer's answer for the variants rouge1, rouge2 and rougeLsum. */
  datatype RougeScores = RougeScores(rouge1: Score, rouge2: Score, rougeLsum: Score)

  /**
   * The two scoring libraries: `sentenceBleu(hypothesis, reference)` and
   * `rouge(target, prediction)`, with their arguments in the order the script passes them.
   */
  datatype Metrics = Metrics(sentenceBleu: (string, string) -> real, rouge: (string, string) -> RougeScores)

  /** One row of the per-pair table. */
  datatype EvalRow = EvalRow(
    reference: string, prediction: string, bleu: real,
    rouge1F1: real, rouge1P: real, rouge1R: real,
    rouge2F1: real, rouge2P: real, rouge2R: real,
    rougeLsumF1: real, rougeLsumP: real, rougeLsumR: real)

  /** The row the loop body builds for one (reference, hypothesis) pair. */
  function ScoreRow(m: Metrics, reference: string, hypothesis: string): EvalRow
  {
    var rs := m.rouge(reference, hypothesis);
    EvalRow(reference, hypothesis, m.sentenceBleu(hypothesis, reference),
            rs.rouge1.fmeasure, rs.rouge1.precision, rs.rouge1.recall,
            rs.rouge2.fmeasure, rs.rouge2.precision, rs.rouge2.recall,
            rs.rougeLsum.fmeasure, rs.rougeLsum.precision, rs.rougeLsum.recall)
  }

  /**
   * Fails, before scoring anything, unless there are as many hypotheses as
   * references and at least one; otherwise one row per pair, in input order.
   * `scored` records the pairs handed to the scoring libraries.
   */
  method EvalText(m: Metrics, references: seq<string>, hypotheses: seq<string>)
    returns (r: Result<seq<EvalRow>, Failure>, ghost scored: seq<(string, string)>)
    ensures r.Err? <==> |references| != |hypotheses| || |references| == 0
    ensures r.Err? ==> r.error == ShapeMismatch && scored == []
    ensures r.Ok? ==> |r.value| == |references| == |scored|
    ensures r.Ok? ==> forall i :: 0 <= i < |references| ==>
      scored[i] == (references[i], hypotheses[i]) &&
      r.value[i].reference == references[i] && r.value[i].prediction == hypotheses[i] &&
      r.value[i] == ScoreRow(m, references[i], hypotheses[i])
  {
    scored := [];
    if |references| != |hypotheses| || |references| == 0 {
      return Err(ShapeMismatch), scored;
    }
    var rows: seq<EvalRow> := [];
    for i := 0 to |references|
      invariant |rows| == i == |scored|
      invariant forall k :: 0 <= k < i ==>
        scored[k] == (references[k], hypotheses[k]) && rows[k] == ScoreRow(m, references[k], hypotheses[k])
    {
      var ref, hyp := references[i], hypotheses[i];
      scored := scored + [(ref, hyp)];
      rows := rows + [ScoreRow(m, ref, hyp)];
    }
    r := Ok(rows);
  }

  /** Python's `sum`, adding left to right from 0. */
  function Sum(xs: seq<real>): real
  {
    if xs == [] then 0.0 else Sum(xs[..|xs| - 1]) + xs[|xs| - 1]
  }

  /** Peeling off the first value gives the same total: the order of adding does not matter. */
  lemma {:induction false} SumFromFront(xs: seq<real>)
    requires xs != []
    ensures Sum(xs) == xs[0] + Sum(xs[1..])
  {
    var init := xs[..|xs| - 1];
    if init != [] {
      SumFromFront(init);
      assert xs[1..][..|xs[1..]| - 1] == init[1..];
    }
  }

  /** `_avg`: the sum divided by the length floored at 1. */
  function Avg(xs: seq<real>): (r: real)
    ensures xs == [] ==> r == 0.0
    ensures xs != [] ==> r * (|xs| as real) == Sum(xs)
  {
    Sum(xs) / (if |xs| > 1 then |xs| else 1) as real
  }

  lemma {:induction false} SumBounds(xs: seq<real>, lo: real, hi: real)
    requires forall i :: 0 <= i < |xs| ==> lo <= xs[i] <= hi
    ensures lo * (|xs| as real) <= Sum(xs) <= hi * (|xs| as real)
  {
    if xs != [] {
      SumBounds(xs[..|xs| - 1], lo, hi);
    }
  }

  /** The mean of values between `lo` and `hi` lies between them. */
  lemma AvgBounds(xs: seq<real>, lo: real, hi: real)
    requires xs != []
    requires forall i :: 0 <= i < |xs| ==> lo <= xs[i] <= hi
    ensures lo <= Avg(xs) <= hi
  {
    SumBounds(xs, lo, hi);
  }

  /** A constant list averages to that constant. */
  lemma {:induction false} AvgOfConstant(xs: seq<real>, c: real)
    requires xs != []
    requires forall i :: 0 <= i < |xs| ==> xs[i] == c
    ensures Avg(xs) == c
  {
    AvgBounds(xs, c, c);
  }
}
