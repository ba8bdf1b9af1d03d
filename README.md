# Alignment and report assembly of `evaluate_and_ask.py`

The script asks a chat-completion service a short question for every entry of a
question list, scores each answer against a gold answer with sentence BLEU and
ROUGE-1, ROUGE-2 and ROUGE-Lsum, and writes two JSON files: the raw answers and a
per-question metrics report. This project models the part of the script with
statable behaviour, in Dafny:

- `Loader` (loader.dfy): the required-column checks of the two CSV loaders, over a
  parsed table (a set of column names and rows of text cells).
- `Aligner` (aligner.dfy): keep the listed questions that are gold questions, in list
  order and with repeats; build the question-to-answer map in which a later gold
  row overwrites an earlier one; look up one reference per kept question; stop with
  `NoOverlap` when nothing is kept. Python's `zip`, set and dict comprehensions are
  written out as functions.
- `Text` (text.dfy): `str.strip()`, applied to every answer of the service.
- `Answers` (answers.dfy): `_ask_openai` as a loop over the aligned questions. The
  service is an opaque function `ask: string -> Option<string>`; `None` is a request
  that raised. A ghost out-parameter records the questions sent, in order.
- `Scorer` (scorer.dfy): `_eval_text` as a loop that emits one row per
  (reference, prediction) pair after the shape check, and `_avg`. BLEU and ROUGE are
  uninterpreted functions held in a `Metrics` value.
- `Report` (report.dfy): the raw-answers records and the report loop that joins
  question, reference, prediction and metric row.
- `Pipeline` (pipeline.dfy): `main` from loading to the report, stating every exit
  of the run and the content of both artifacts.
- `Wrappers` (wrappers.dfy): `Option`, `Result` and the run's failures, one per exit.

Two points about the order of effects and the metrics:

- The script creates the output directory before loading anything, and writes the
  answers file before scoring. So a failing run can leave a directory behind. The
  model returns both artifacts together. This changes nothing observable, because
  the scoring shape check can never fail after a successful alignment
  (`Pipeline.Run` proves it).
- No range for BLEU or ROUGE and no F1 = 1 for identical texts is claimed: nothing
  in the script establishes either.

## Model

| member | source | states |
|---|---|---|
| `Loader.LoadQuestions` | evaluate_and_ask.py:27-32 | succeeds iff the table has a `question` column, else fails with `MissingQuestionColumn`; on success one question per row, in row order |
| `Loader.LoadGoldPairs` | evaluate_and_ask.py:16-24 | succeeds iff both `question` and `answer` are columns, else `MissingGoldColumns`; on success two equally long lists whose i-th entries come from the same row |
| `Aligner.GoldSet` | evaluate_and_ask.py:160 | `set(gold_qs)`: a text is a member exactly when it is one of the gold questions |
| `Aligner.Aligned` | evaluate_and_ask.py:160-161 | the aligned list is no longer than the question list, and each of its entries is a listed question and a gold question |
| `Aligner.AlignedIsSubsequence` | evaluate_and_ask.py:161 | the aligned list is a subsequence of the question list, so the original order is kept |
| `Aligner.AlignedKeepsRepeats` | evaluate_and_ask.py:161 | a gold question occurs in the aligned list exactly as often as in the question list; any other question never occurs |
| `Aligner.AlignedEmptyIff` | evaluate_and_ask.py:160-162 | the aligned list is empty exactly when no listed question is a gold question |
| `Aligner.Zip` | evaluate_and_ask.py:168 | `zip(gold_qs, gold_refs)`: as many pairs as the shorter list, pair i holding question i and answer i |
| `Aligner.RefMap` | evaluate_and_ask.py:168 | `ref_map`: for gold lists of equal length, its keys are exactly the gold questions |
| `Aligner.MapOfPairsKeys` | evaluate_and_ask.py:168 | the keys of the dict built from the pairs are exactly the questions of the pairs |
| `Aligner.MapOfPairsLastWins` | evaluate_and_ask.py:168 | a pair with no later pair of the same question decides that question's value (last write wins) |
| `Aligner.LastIndex` | evaluate_and_ask.py:168 | reference definition of the winning row: the last position holding the question |
| `Aligner.RefMapLastOccurrence` | evaluate_and_ask.py:168 | every gold question is a key of `ref_map`, mapped to the answer of its last gold row |
| `Aligner.AlignedHaveReferences` | evaluate_and_ask.py:160-169 | the lookup `ref_map[q]` never misses for an aligned question |
| `Aligner.Align` | evaluate_and_ask.py:159-169 | fails with `NoOverlap` iff no listed question is a gold question; otherwise the aligned list is non-empty and has one reference per question, and that reference is the answer of the question's last gold row |
| `Aligner.AlignDropsUnknownQuestion` | evaluate_and_ask.py:159-169 | questions Q1,Q2,Q3 against gold Q1,Q3 align to Q1,Q3 with answers A1,A3 |
| `Aligner.AlignDuplicateGoldTakesLast` | evaluate_and_ask.py:168-169 | gold rows (Q1,A1),(Q1,A1-dup) give Q1 the reference A1-dup |
| `Aligner.AlignWithoutOverlapFails` | evaluate_and_ask.py:162-165 | disjoint question and gold lists stop the run with `NoOverlap` |
| `Text.LeadingSpaces` | evaluate_and_ask.py:110 | the count of leading characters that `strip` removes: all of them are whitespace, and the next one is not |
| `Text.TrailingSpaces` | evaluate_and_ask.py:110 | the count of trailing characters that `strip` removes: all of them are whitespace, and the one before them is not |
| `Text.Strip` | evaluate_and_ask.py:110 | the result is a contiguous part of the input between a whitespace prefix and a whitespace suffix, and neither starts nor ends with whitespace |
| `Text.StripIdempotent` | evaluate_and_ask.py:110 | stripping a stripped answer changes nothing |
| `Text.StripKeepsTrimmed` | evaluate_and_ask.py:110 | a text with no whitespace at either end is returned unchanged |
| `Answers.AskAll` | evaluate_and_ask.py:84-111 | fails with `MissingApiKey` before any request when the key is unset or empty; with a usable key, every failure is `AnswerServiceFailed`: requests go out in question order and stop at the first that raises; succeeds iff every request succeeds, with answer i the stripped reply to question i |
| `Scorer.EvalText` | evaluate_and_ask.py:52-81 | fails with `ShapeMismatch`, before scoring any pair, iff the counts differ or are zero; otherwise exactly one row per pair, in order, row i carrying reference i, prediction i and the metrics of that pair |
| `Scorer.Avg` | evaluate_and_ask.py:41-42 | the empty list averages to 0; otherwise the mean times the length is the sum |
| `Scorer.SumFromFront` | evaluate_and_ask.py:42 | the sum equals the first value plus the sum of the rest, so the order of adding does not change the total |
| `Scorer.SumBounds` | evaluate_and_ask.py:42 | the sum of n values in [lo, hi] lies in [n*lo, n*hi] |
| `Scorer.AvgBounds` | evaluate_and_ask.py:41-42 | the mean of a non-empty list lies between any lower and upper bound of its values |
| `Scorer.AvgOfConstant` | evaluate_and_ask.py:41-42 | a non-empty list of one repeated value averages to that value |
| `Report.AnswerRecords` | evaluate_and_ask.py:177-181 | as many raw-answer records as the shorter list, record i pairing question i with answer i |
| `Report.AnswerRecordsRoundTrip` | evaluate_and_ask.py:178-181 | for equally long lists the records give back the questions and the answers unchanged, so nothing is dropped or reordered |
| `Report.BuildReport` | evaluate_and_ask.py:191-210 | one item per position of the four zipped lists; item i joins question i, reference i, prediction i and the metrics of row i |
| `Pipeline.Run` | evaluate_and_ask.py:156-214 | each exit of the run: missing columns, `NoOverlap` and a missing key all happen before any request; a request that raises ends the run with `AnswerServiceFailed`, as the last request sent, after only successful ones; never `ShapeMismatch`; on success both artifacts have one entry per aligned question, entry i pairing question i with its stripped answer, its last-row gold reference and the metrics of that pair |

## Left out

- CSV parsing and the `astype(str)` conversion: the tables arrive already parsed, with text cells.
- Creating the output directory, the JSON writes, their encoding and indentation: file-system I/O.
- The command line, its defaults and the final prints: interface plumbing.
- The service client: the API key lookup is a parameter (`Option<string>`), and each request is the opaque `ask`. The model name, token limit, temperature and system prompt are folded into `ask`. A reply whose content is missing raises in the script; that is a `None` of `ask`.
- The BLEU and ROUGE values: foreign floating-point libraries, held as uninterpreted functions. No range and no value is claimed.
- The unused `RougeTriple` dataclass and the unused `corpus_bleu` import.
- `Answers.AskAll`: the answer service is treated as deterministic. A question that occurs twice in the aligned list gets one reply and one failure status, though the script sends a separate request for each repeat, and the two replies could differ.
- `Pipeline.Run`: inherits that assumption. Its answers and report items for a repeated question carry the same reply.
- `Aligner.Align`: requires the gold question and answer lists to be equally long. The loader guarantees this, since both come from the rows of one table. For unequal lists, Python's `zip` would silently truncate the map.
- Floating point: metric values and `_avg` are over `real`, without rounding.
