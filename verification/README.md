# Argument scorer of the SRL challenge-set evaluation

This project models the scoring core of `evaluation.py`, a harness that runs
pretrained semantic role labelling and open information extraction models on
hand-annotated test sentences. Each test record has `tokens` and a parallel
list of `BIO` tags. The model's prediction for a sentence is a list of
`verbs`, each with a free-text `description` such as
`"[ARG0: Cats] chase [ARG1: mice]"`.

The model covers three parts:

- the construction of the model's input sentence: tokens joined by single
  spaces, trailing whitespace removed, and a full stop appended;
- `generate_predictions`, with the model's `predict` call as a function
  parameter;
- `evaluate_predicted_arguments`, which returns `(successful, total, failed)`.
  For each sentence it takes the token at the first position tagged `ARG0`
  and the token at the first position tagged `ARG1`. Each token must occur,
  lower-cased, as a substring of the lower-cased description of at least
  one predicted verb. The two tokens may be matched by different verbs. Both
  flags start false, so a sentence without one of the tags always fails.

Modules:

- `Wrappers` (`wrappers.dfy`): `Option` and `Result`. A `Failure` stands for
  the `IndexError` the Python code raises.
- `Text` (`text.dfy`): Python's `str.isspace`, `str.lower` (ASCII letters
  only), the `in` substring test, `str.join`, `str.split` as the partner of
  join, and `str.rstrip`.
- `Records` (`records.dfy`): test records, predictions, verbs and the tally.
- `Evaluation` (`evaluation.dfy`): the sentence builder and the scorer. The
  scorer is written twice. The functional version is the recursive
  `Verdicts` (the per-sentence verdicts, or the first error), tallied by
  `Count` and wrapped by `Evaluate`. `EvaluatePredictedArguments` is the
  loop of `evaluate_predicted_arguments`, statement by statement, and is
  proved equal to `Evaluate`.
- `Examples` (`examples.dfy`): concrete sentences and the verdicts proved for them.

Errors follow the code. The scorer raises when there are fewer records than
predictions (`MissingRecord`). It also raises when the first position of a
present tag has no token (`TaggedTokenMissing`). `ARG0` is looked up before
`ARG1`, so when both lookups would fail the `ARG0` error is the one raised.
Records beyond the last prediction are never read. Nothing requires
`tokens` and `BIO` to have the same length. Only the lookup that is actually
made can fail.

A sentence with neither tag fails rather than passing vacuously: both
flags start `False` (evaluation.py:31-32) and are set only inside the
`if "ARGn" in BIO` branches (`MissingTagFails`, `UntaggedSentenceFails`).

## Model

| member | source | states |
|---|---|---|
| Text.LowerChar | evaluation.py:38 | the lower-cased character is never an upper-case ASCII letter; A-Z map to a-z, and every other character is unchanged |
| Text.LowerIdempotent | evaluation.py:38 | lower-casing an already lower-cased string changes nothing |
| Text.Contains | evaluation.py:38 | Python's `in` on strings: true whenever the needle is empty, and only when the needle is no longer than the string searched |
| Text.ContainsLower | evaluation.py:38 | a substring that occurs in a description still occurs once both are lower-cased, so case never prevents a match |
| Text.ContainsEmpty | evaluation.py:38 | the empty string is contained in every string, as Python's `in` has it |
| Text.RStrip | evaluation.py:16 | the result is a prefix of the input, everything removed is whitespace, and the result does not end in whitespace |
| Text.RStripUnique | evaluation.py:16 | those three properties determine the stripped string uniquely |
| Text.JoinSplit | evaluation.py:16 | joining the pieces of a split at a character gives back the original string |
| Text.SplitJoin | evaluation.py:16 | splitting a space-join of a non-empty list of space-free pieces gives back exactly the pieces, so the join loses nothing |
| Text.Join | evaluation.py:16 | `' '.join`: a non-empty join starts with its first piece |
| Text.JoinEndsWithLast | evaluation.py:16 | a non-empty join ends with its last piece |
| Evaluation.InputSentence | evaluation.py:16 | the sentence ends in '.'; before the '.' is a prefix of the space-joined tokens; only whitespace was cut; no whitespace comes right before the '.' |
| Evaluation.InputSentenceKeepsJoin | evaluation.py:16 | when the last token is non-empty and does not end in whitespace, the sentence is exactly the joined tokens plus '.' |
| Evaluation.InputSentenceRecoversTokens | evaluation.py:16 | for whitespace-free tokens with a non-empty last token, dropping the '.' and splitting at spaces recovers the tokens |
| Evaluation.GeneratePredictions | evaluation.py:12-20 | one prediction per record, in record order, each the model's answer on that record's input sentence |
| Evaluation.FirstIndex | evaluation.py:34-35 | None exactly when the tag is absent (`in` is false); otherwise the position holds the tag and no earlier position does (`list.index`) |
| Evaluation.Mentions | evaluation.py:38 | the lower-cased token occurs in the lower-cased description: always for an empty token, never for a token longer than the description |
| Evaluation.ArgumentFlag | evaluation.py:31-48 | raises exactly when the tag's first position has no token; otherwise true iff the tag is present and its first token is mentioned by some verb; false whenever the tag is absent |
| Evaluation.ScoreSentence | evaluation.py:29-53 | succeeds exactly when neither lookup raises; then passes iff both ARG0 and ARG1 are found; a failure names ARG0 if its lookup raises, else ARG1 |
| Evaluation.AnyVerbMentions | evaluation.py:37-40 | the loop with `break` returns true iff some verb's lower-cased description contains the lower-cased token |
| Evaluation.JudgeSentence | evaluation.py:29-53 | the per-sentence statements of the loop compute the same verdict or error as `ScoreSentence` |
| Evaluation.EmptyTokenAlwaysMentioned | evaluation.py:37-40 | an empty token is found whenever the prediction has at least one verb |
| Evaluation.MissingTagFails | evaluation.py:31-34 | a sentence lacking ARG0 or ARG1 never passes; lacking both, it is scored as a failure without raising |
| Evaluation.NoVerbsFails | evaluation.py:37-51 | a prediction with an empty verb list never passes, whatever the tags |
| Evaluation.PassCharacterisation | evaluation.py:34-53 | the sentence passes iff both tags occur, both first positions have tokens, and each of the two tokens is mentioned by some verb, not necessarily the same verb |
| Evaluation.OnlyFirstOccurrenceMatters | evaluation.py:35-43 | once both tags have occurred before position j, changing, removing or appending tags from j on does not change the verdict |
| Evaluation.SameFirstIndicesSameVerdict | evaluation.py:33-43 | two tag lists with the same first position of ARG0 and of ARG1 give the same verdict or error, whatever else they hold |
| Evaluation.VerdictIgnoresCase | evaluation.py:38-46 | sentences and predictions that agree after lower-casing every token and description get the same verdict |
| Evaluation.Verdicts | evaluation.py:28-53 | on success, exactly one verdict per sentence scored; its meaning is stated by the three lemmas below |
| Evaluation.VerdictsSucceedIff | evaluation.py:28-43 | scoring the first n sentences raises nothing iff there are at least n records and none of them has a first ARG0 or first ARG1 position without a token |
| Evaluation.VerdictsAgreeWithPasses | evaluation.py:28-53 | the i-th verdict is the pass criterion applied to prediction i and record i |
| Evaluation.VerdictsFirstFault | evaluation.py:28-43 | an error names the first record that is missing or whose first ARG0 or ARG1 position has no token |
| Evaluation.Count | evaluation.py:50-53 | the number of verdicts equal to a given value, never more than there are verdicts; `CountIsCardinality` makes it the size of the matching index set |
| Evaluation.CountPartition | evaluation.py:50-53 | every verdict is counted as a pass or as a failure, never both |
| Evaluation.Evaluate | evaluation.py:23-55 | succeeds iff no lookup raises; then total is the number of predictions and successful + failed = total; otherwise the first fault is reported |
| Evaluation.EvaluatePredictedArguments | evaluation.py:23-55 | the imperative loop returns exactly what `Evaluate` returns, with total = number of predictions and successful + failed = total |
| Evaluation.CountIsCardinality | evaluation.py:50-53 | the count of verdicts equal to b is the number of indices holding b |
| Evaluation.TallyCountsPasses | evaluation.py:50-55 | successful is the number of indices whose sentence passes, and failed the number whose sentence does not |
| Evaluation.EvaluateIgnoresSurplusRecords | evaluation.py:28-30 | records beyond the number of predictions do not affect the result |
| Examples.CaseInsensitiveMatch | evaluation.py:38 | the token "Cats" is mentioned by a description containing "cats" |
| Examples.SubstringMatch | evaluation.py:38 | the token "cat" is mentioned by "[ARG0: Cats] chase [ARG1: mice]", with no word boundary required |
| Examples.CatsChaseMicePasses | evaluation.py:34-53 | Cats/chase/mice tagged ARG0/O/ARG1 passes against "[ARG0: Cats] chase [ARG1: mice]" |
| Examples.RepeatedTagIgnored | evaluation.py:33-35 | a second ARG0 placed before the first ARG1 does not change the verdict |
| Examples.UntaggedSentenceFails | evaluation.py:31-51 | the same sentence tagged O/O/O fails, though every token is mentioned |
| Examples.ShortTokensRaise | evaluation.py:42-43 | a tag whose first position is past the last token raises |
| Examples.SmallFileTally | evaluation.py:23-55 | two passing records and one failing record tally to (2, 3, 1) |

## Left out

- `load_data` (evaluation.py:7-9) is file I/O and JSON parsing. The records are given as values.
- Loading the pretrained models and calling `predict` (evaluation.py:17, 62, 77-78) is network access and neural inference in an external library. `predict` is a function parameter of `GeneratePredictions`.
- `main` (evaluation.py:58-91) is hard-coded orchestration, console output and writing `outputs/{m}_{file}`.
- The failure percentage `round((failed/total)*100, 2)` (evaluation.py:71, 87) is floating-point arithmetic, and it divides by zero on an empty file.
- Text.Lower: lower-cases only the ASCII letters A-Z. Python's `str.lower` also lower-cases other Unicode letters, and for a few of them it changes the string's length.
- A `KeyError` from a record or prediction that lacks `tokens`, `BIO`, `verbs` or `description` is not modelled, because the datatypes always have these fields.
