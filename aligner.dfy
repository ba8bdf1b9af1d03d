/**
 * Alignment of the question list with the gold pairs: keep the listed questions
 * that occur among the gold questions (list order, repeats kept), build the
 * question-to-answer map in which a later gold pair overwrites an earlier one,
 * and look up one reference per kept question.
 */
module Aligner {
  import opened Wrappers

  /** The membership set built from the gold questions. */
  function GoldSet(goldQs: seq<string>): (s: set<string>)
    ensures forall q :: q in s <==> q in goldQs
  {
    set q | q in goldQs
  }

  /** The list comprehension keeping the listed questions that are in `gold`. */
  function Aligned(questionsAll: seq<string>, gold: set<string>): (r: seq<string>)
    ensures |r| <= |questionsAll|
    ensures forall i :: 0 <= i < |r| ==> r[i] in gold && r[i] in questionsAll
  {
    if questionsAll == [] then []
    else
      var rest := Aligned(questionsAll[1..], gold);
      if questionsAll[0] in gold then [questionsAll[0]] + rest else rest
  }

  /** `a` is `b` with some elements dropped and the others kept in order. */
  ghost predicate IsSubsequence(a: seq<string>, b: seq<string>)
    decreases |b|
  {
    if b == [] then a == []
    else (a != [] && a[0] == b[0] && IsSubsequence(a[1..], b[1..])) || IsSubsequence(a, b[1..])
  }

  /** The alignment keeps the list order: it is a subsequence of the question list. */
  lemma {:induction false} AlignedIsSubsequence(questionsAll: seq<string>, gold: set<string>)
    ensures IsSubsequence(Aligned(questionsAll, gold), questionsAll)
  {
    if questionsAll != [] {
      AlignedIsSubsequence(questionsAll[1..], gold);
      if questionsAll[0] in gold {
        assert ([questionsAll[0]] + Aligned(questionsAll[1..], gold))[1..] == Aligned(questionsAll[1..], gold);
      }
    }
  }

  /** Every listed question in `gold` is kept as many times as it is listed; no other is kept. */
  lemma {:induction false} AlignedKeepsRepeats(questionsAll: seq<string>, gold: set<string>, q: string)
    ensures multiset(Aligned(questionsAll, gold))[q] == if q in gold then multiset(questionsAll)[q] else 0
  {
    if questionsAll != [] {
      AlignedKeepsRepeats(questionsAll[1..], gold, q);
      assert questionsAll == [questionsAll[0]] + questionsAll[1..];
    }
  }

  /** The alignment is empty exactly when no listed question is in `gold`. */
  lemma {:induction false} AlignedEmptyIff(questionsAll: seq<string>, gold: set<string>)
    ensures Aligned(questionsAll, gold) == [] <==> forall i :: 0 <= i < |questionsAll| ==> questionsAll[i] !in gold
  {
    if questionsAll != [] {
      AlignedEmptyIff(questionsAll[1..], gold);
      assert forall i :: 1 <= i < |questionsAll| ==> questionsAll[i] == questionsAll[1..][i - 1];
    }
  }

  /** The gold pairs as Python's `zip` yields them: as many as the shorter list. */
  function Zip(qs: seq<string>, rs: seq<string>): (ps: seq<(string, string)>)
    ensures |ps| == Min(|qs|, |rs|)
    ensures forall i :: 0 <= i < |ps| ==> ps[i] == (qs[i], rs[i])
  {
    seq(Min(|qs|, |rs|), i requires 0 <= i < Min(|qs|, |rs|) => (qs[i], rs[i]))
  }

  /** The dict comprehension: insert the pairs in order, a later key overwriting an earlier one. */
  function MapOfPairs(ps: seq<(string, string)>): map<string, string>
  {
    if ps == [] then map[]
    else MapOfPairs(ps[..|ps| - 1])[ps[|ps| - 1].0 := ps[|ps| - 1].1]
  }

  /**
   * `ref_map`: the question-to-reference map of the gold pairs. For lists of equal
   * length its keys are exactly the gold questions; `RefMapLastOccurrence` gives the values.
   */
  function RefMap(goldQs: seq<string>, goldRefs: seq<string>): (m: map<string, string>)
    ensures |goldQs| == |goldRefs| ==> forall q :: q in m <==> q in goldQs
  {
    var ps := Zip(goldQs, goldRefs);
    MapOfPairsKeys(ps);
    MapOfPairs(ps)
  }

  /** The map's keys are exactly the questions of the pairs. */
  lemma {:induction false} MapOfPairsKeys(ps: seq<(string, string)>)
    ensures forall q :: q in MapOfPairs(ps) <==> exists i :: 0 <= i < |ps| && ps[i].0 == q
  {
    if ps != [] {
      var init := ps[..|ps| - 1];
      MapOfPairsKeys(init);
      forall q | q in MapOfPairs(ps) && q != ps[|ps| - 1].0
        ensures exists i :: 0 <= i < |ps| && ps[i].0 == q
      {
        assert q in MapOfPairs(init);
        var i :| 0 <= i < |init| && init[i].0 == q;
        assert ps[i].0 == q;
      }
      forall q, i | 0 <= i < |ps| && ps[i].0 == q && q != ps[|ps| - 1].0
        ensures q in MapOfPairs(ps)
      {
        assert init[i].0 == q;
      }
    }
  }

  /** Last write wins: a pair with no later pair of the same key gives the key's value. */
  lemma {:induction false} MapOfPairsLastWins(ps: seq<(string, string)>, i: nat)
    requires i < |ps|
    requires forall j :: i < j < |ps| ==> ps[j].0 != ps[i].0
    ensures ps[i].0 in MapOfPairs(ps) && MapOfPairs(ps)[ps[i].0] == ps[i].1
  {
    if i < |ps| - 1 {
      var init := ps[..|ps| - 1];
      MapOfPairsLastWins(init, i);
    }
  }

  /** The position of the last occurrence of `q`: the reference definition of which pair wins. */
  function LastIndex(qs: seq<string>, q: string): (k: nat)
    requires q in qs
    ensures k < |qs| && qs[k] == q
    ensures forall j :: k < j < |qs| ==> qs[j] != q
  {
    if qs[|qs| - 1] == q then |qs| - 1
    else
      assert q in qs[..|qs| - 1] by {
        var i :| 0 <= i < |qs| && qs[i] == q;
        assert qs[..|qs| - 1][i] == q;
      }
      LastIndex(qs[..|qs| - 1], q)
  }

  /**
   * Every gold question is a key of `ref_map`, and its value is the answer paired
   * with its last occurrence among the gold questions.
   */
  lemma RefMapLastOccurrence(goldQs: seq<string>, goldRefs: seq<string>, q: string)
    requires |goldQs| == |goldRefs|
    requires q in goldQs
    ensures q in RefMap(goldQs, goldRefs)
    ensures RefMap(goldQs, goldRefs)[q] == goldRefs[LastIndex(goldQs, q)]
  {
    var ps := Zip(goldQs, goldRefs);
    MapOfPairsLastWins(ps, LastIndex(goldQs, q));
  }

  /** `ref_map[q]` at each aligned question never misses. */
  lemma AlignedHaveReferences(questionsAll: seq<string>, goldQs: seq<string>, goldRefs: seq<string>)
    requires |goldQs| == |goldRefs|
    ensures forall q :: q in Aligned(questionsAll, GoldSet(goldQs)) ==> q in RefMap(goldQs, goldRefs)
  {
    // every aligned question is a gold question (`Aligned`), and those are the keys (`RefMap`)
  }

  /** The aligned questions and one reference for each. */
  datatype Alignment = Alignment(questions: seq<string>, references: seq<string>)

  /** Lines 159-169 of the script: align, abort on an empty alignment, look the references up. */
  function Align(questionsAll: seq<string>, goldQs: seq<string>, goldRefs: seq<string>): (r: Result<Alignment, Failure>)
    requires |goldQs| == |goldRefs|
    ensures r.Err? <==> forall i :: 0 <= i < |questionsAll| ==> questionsAll[i] !in goldQs
    ensures r.Err? ==> r.error == NoOverlap
    ensures r.Ok? ==> r.value.questions == Aligned(questionsAll, GoldSet(goldQs)) != []
    ensures r.Ok? ==> |r.value.references| == |r.value.questions|
    ensures r.Ok? ==> forall i :: 0 <= i < |r.value.questions| ==>
      r.value.questions[i] in goldQs &&
      r.value.references[i] == goldRefs[LastIndex(goldQs, r.value.questions[i])]
  {
    var gold := GoldSet(goldQs);
    var questions := Aligned(questionsAll, gold);
    AlignedEmptyIff(questionsAll, gold);
    if questions == [] then Err(NoOverlap)
    else
      var refMap := RefMap(goldQs, goldRefs);
      AlignedHaveReferences(questionsAll, goldQs, goldRefs);
      var references := seq(|questions|, i requires 0 <= i < |questions| => refMap[questions[i]]);
      assert forall i :: 0 <= i < |questions| ==> references[i] == goldRefs[LastIndex(goldQs, questions[i])] by {
        forall i | 0 <= i < |questions|
          ensures references[i] == goldRefs[LastIndex(goldQs, questions[i])]
        {
          RefMapLastOccurrence(goldQs, goldRefs, questions[i]);
        }
      }
      Ok(Alignment(questions, references))
  }

  /** Q2 is not a gold question: Q1 and Q3 are kept, in list order, with their answers. */
  lemma AlignDropsUnknownQuestion()
    ensures Align(["Q1", "Q2", "Q3"], ["Q1", "Q3"], ["A1", "A3"]) == Ok(Alignment(["Q1", "Q3"], ["A1", "A3"]))
  {
    var goldQs := ["Q1", "Q3"];
    AlignedDropsQ2();
    var r := Align(["Q1", "Q2", "Q3"], goldQs, ["A1", "A3"]);
    assert LastIndex(goldQs, "Q1") == 0 && LastIndex(goldQs, "Q3") == 1;
    assert r.value.references == ["A1", "A3"];
  }

  /** The filtering step of that scenario on its own. */
  lemma AlignedDropsQ2()
    ensures Aligned(["Q1", "Q2", "Q3"], GoldSet(["Q1", "Q3"])) == ["Q1", "Q3"]
  {
  }

  /** A gold question listed twice takes the answer of its second row. */
  lemma AlignDuplicateGoldTakesLast()
    ensures Align(["Q1"], ["Q1", "Q1"], ["A1", "A1-dup"]) == Ok(Alignment(["Q1"], ["A1-dup"]))
  {
    var goldQs := ["Q1", "Q1"];
    var r := Align(["Q1"], goldQs, ["A1", "A1-dup"]);
    assert Aligned(["Q1"], GoldSet(goldQs)) == ["Q1"];
    assert r.Ok? && r.value.questions == ["Q1"];
    assert LastIndex(goldQs, "Q1") == 1;
    assert r.value.references == ["A1-dup"];
  }

  /** No listed question is a gold question: the run stops with `NoOverlap`. */
  lemma AlignWithoutOverlapFails()
    ensures Align(["Q1", "Q2"], ["Q3"], ["A3"]) == Err(NoOverlap)
  {
  }
}
