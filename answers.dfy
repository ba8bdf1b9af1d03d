/**
 * `_ask_openai`: one chat-completion request per question, strictly in order,
 * each answer stripped of surrounding whitespace. The service is the opaque
 * function `ask`; `None` stands for a request that raised, which ends the run.
 */
module Answers {
  import opened Wrappers
  import opened Text

  /** The API key read from the environment is usable: set and not empty. */
  predicate HasKey(apiKey: Option<string>) {
    apiKey.Some? && apiKey.value != []
  }

  method AskAll(questions: seq<string>, apiKey: Option<string>, ask: string -> Option<string>)
    returns (r: Result<seq<string>, Failure>, ghost asked: seq<string>)
    ensures !HasKey(apiKey) ==> r == Err(MissingApiKey) && asked == []
    ensures r.Err? ==> r.error in {MissingApiKey, AnswerServiceFailed}
    ensures HasKey(apiKey) && r.Err? ==> r.error == AnswerServiceFailed
    // requests go out in question order and stop at the first that fails
    ensures |asked| <= |questions| && asked == questions[..|asked|]
    ensures forall i :: 0 <= i < |asked| - 1 ==> ask(asked[i]).Some?
    ensures HasKey(apiKey) ==> (r.Ok? <==> forall i :: 0 <= i < |questions| ==> ask(questions[i]).Some?)
    ensures r.Err? && r.error == AnswerServiceFailed ==> asked != [] && ask(asked[|asked| - 1]).None?
    ensures r.Ok? ==> asked == questions && |r.value| == |questions|
    ensures r.Ok? ==> forall i :: 0 <= i < |questions| ==>
      ask(questions[i]).Some? && r.value[i] == Strip(ask(questions[i]).value)
  {
    asked := [];
    if !HasKey(apiKey) {
      return Err(MissingApiKey), asked;
    }
    var answers: seq<string> := [];
    for n := 0 to |questions|
      invariant asked == questions[..n] && |answers| == n
      invariant forall i :: 0 <= i < n ==>
        ask(questions[i]).Some? && answers[i] == Strip(ask(questions[i]).value)
    {
      var resp := ask(questions[n]);
      asked := asked + [questions[n]];
      assert asked == questions[..n + 1];
      if resp.None? {
        assert !ask(questions[n]).Some?;
        return Err(AnswerServiceFailed), asked;
      }
      answers := answers + [Strip(resp.value)];
    }
    assert asked == questions;
    r := Ok(answers);
  }
}
