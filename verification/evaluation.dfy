/** The scoring half of evaluation.py: building the model's input sentence
    from a record's tokens, and tallying which predictions locate the
    annotated ARG0 and ARG1 tokens. */
module Evaluation {
  import opened Wrappers
  import opened Text
  import opened Records

  const Arg0: string := "ARG0"
  const Arg1: string := "ARG1"

  /** The IndexError the scorer can raise, and where. */
  datatype ScoreError =
    | /** `data[index]` with fewer records than predictions */
      MissingRecord(index: nat)
    | /** the first position tagged `tag` has no token at that position */
      TaggedTokenMissing(index: nat, tag: string)

  // ---------------------------------------------------------------------
  // Building the input sentence
  // ---------------------------------------------------------------------

  /** The sentence handed to the model: the tokens joined by single
      spaces, trailing whitespace removed, and a full stop appended. */
  function InputSentence(tokens: seq<string>): (r: string)
    ensures |r| >= 1 && r[|r| - 1] == '.'
    ensures var joined := Join(tokens, " ");
      && |r| - 1 <= |joined|
      && r[..|r| - 1] == joined[..|r| - 1]
      && (forall i :: |r| - 1 <= i < |joined| ==> IsSpace(joined[i]))
      && (|r| == 1 || !IsSpace(r[|r| - 2]))
  {
    RStrip(Join(tokens, " ")) + "."
  }

  /** When the last token does not end in whitespace nothing is stripped,
      and the sentence is exactly the space-joined tokens plus a full stop. */
  lemma InputSentenceKeepsJoin(tokens: seq<string>)
    requires |tokens| >= 1
    requires var last := tokens[|tokens| - 1]; |last| >= 1 && !IsSpace(last[|last| - 1])
    ensures InputSentence(tokens) == Join(tokens, " ") + "."
  {
    var joined := Join(tokens, " ");
    JoinEndsWithLast(tokens, " ");
    assert joined[|joined| - 1] == tokens[|tokens| - 1][|tokens[|tokens| - 1]| - 1];
    RStripUnique(joined, joined);
  }

  /** Tokens that hold no whitespace and are not empty at the end can be
      recovered from the sentence by dropping the full stop and splitting
      at spaces. */
  lemma InputSentenceRecoversTokens(tokens: seq<string>)
    requires |tokens| >= 1 && |tokens[|tokens| - 1]| >= 1
    requires forall k, j :: 0 <= k < |tokens| && 0 <= j < |tokens[k]| ==> !IsSpace(tokens[k][j])
    ensures var r := InputSentence(tokens); Split(r[..|r| - 1], ' ') == tokens
  {
    var last := tokens[|tokens| - 1];
    assert !IsSpace(last[|last| - 1]);
    InputSentenceKeepsJoin(tokens);
    var r := InputSentence(tokens);
    assert r[..|r| - 1] == Join(tokens, " ");
    SplitJoin(tokens, ' ');
  }

  /** generate_predictions: one prediction per record, in order, each the
      model's answer on that record's input sentence. The model is a
      parameter. */
  method GeneratePredictions(data: seq<SentenceRecord>, predict: string -> Prediction)
    returns (predictions: seq<Prediction>)
    ensures |predictions| == |data|
    ensures forall i :: 0 <= i < |data| ==> predictions[i] == predict(InputSentence(data[i].tokens))
  {
    predictions := [];
    for i := 0 to |data|
      invariant |predictions| == i
      invariant forall k :: 0 <= k < i ==> predictions[k] == predict(InputSentence(data[k].tokens))
    {
      var sentence := InputSentence(data[i].tokens);
      predictions := predictions + [predict(sentence)];
    }
  }

  // ---------------------------------------------------------------------
  // Matching one argument
  // ---------------------------------------------------------------------

  /** `k` is the position `list.index(x)` reports: the first `x` in `xs`. */
  predicate IsFirstIndex(xs: seq<string>, x: string, k: int) {
    0 <= k < |xs| && xs[k] == x && forall j :: 0 <= j < k ==> xs[j] != x
  }

  /** `xs.index(x)` guarded by `x in xs`: the first position of `x`, or
      None when `x` does not occur. */
  function FirstIndex(xs: seq<string>, x: string): (r: Option<nat>)
    ensures r.None? <==> x !in xs
    ensures r.Some? ==> IsFirstIndex(xs, x, r.value)
  {
    if |xs| == 0 then None
    else if xs[0] == x then Some(0)
    else match FirstIndex(xs[1..], x)
      case None => None
      case Some(k) => Some(k + 1)
  }

  /** Case-insensitive substring test of a token against one verb's
      description. */
  predicate Mentions(v: Verb, token: string): (b: bool)
    ensures |token| == 0 ==> b
    ensures b ==> |token| <= |v.description|
  {
    Contains(Lower(v.description), Lower(token))
  }

  /** At least one predicted verb mentions the token; which verb does not
      matter. */
  predicate MentionedBySomeVerb(verbs: seq<Verb>, token: string) {
    exists j | 0 <= j < |verbs| :: Mentions(verbs[j], token)
  }

  /** The lookup `tokens[BIO.index(tag)]` cannot raise: the tag is absent,
      or its first position has a token. */
  ghost predicate TagInRange(s: SentenceRecord, tag: string) {
    forall k :: IsFirstIndex(s.bio, tag, k) ==> k < |s.tokens|
  }

  /** Scoring the sentence cannot raise. */
  ghost predicate WellFormed(s: SentenceRecord) {
    TagInRange(s, Arg0) && TagInRange(s, Arg1)
  }

  /** The tag is present and the token at its first position is mentioned
      by some predicted verb. */
  ghost predicate ArgumentFound(p: Prediction, s: SentenceRecord, tag: string) {
    exists k :: IsFirstIndex(s.bio, tag, k) && k < |s.tokens| && MentionedBySomeVerb(p.verbs, s.tokens[k])
  }

  /** The pass criterion: both ARG0 and ARG1 are found. */
  ghost predicate SentencePasses(p: Prediction, s: SentenceRecord) {
    ArgumentFound(p, s, Arg0) && ArgumentFound(p, s, Arg1)
  }

  /** One `is_argN_correct` flag of sentence `i`: false unless the tag is
      present, an IndexError when its first position has no token. */
  function ArgumentFlag(p: Prediction, s: SentenceRecord, tag: string, i: nat): (r: Result<bool, ScoreError>)
    ensures r.Failure? <==> !TagInRange(s, tag)
    ensures r.Failure? ==> r.error == TaggedTokenMissing(i, tag)
    ensures r.Success? ==> (r.value <==> ArgumentFound(p, s, tag))
    ensures tag !in s.bio ==> r == Success(false)
  {
    match FirstIndex(s.bio, tag)
    case None => Success(false)
    case Some(k) =>
      if k < |s.tokens| then Success(MentionedBySomeVerb(p.verbs, s.tokens[k]))
      else Failure(TaggedTokenMissing(i, tag))
  }

  /** The verdict on sentence `i`: ARG0 is looked up before ARG1, so an
      ARG0 lookup that raises wins over an ARG1 lookup that raises. */
  function ScoreSentence(p: Prediction, s: SentenceRecord, i: nat): (r: Result<bool, ScoreError>)
    ensures r.Success? <==> WellFormed(s)
    ensures r.Success? ==> (r.value <==> SentencePasses(p, s))
    ensures r.Failure? ==> r.error == TaggedTokenMissing(i, if TagInRange(s, Arg0) then Arg1 else Arg0)
  {
    var arg0Correct :- ArgumentFlag(p, s, Arg0, i);
    var arg1Correct :- ArgumentFlag(p, s, Arg1, i);
    Success(arg0Correct && arg1Correct)
  }

  // ---------------------------------------------------------------------
  // The tally
  // ---------------------------------------------------------------------

  /** `e` is what the scorer raises on the first `n` sentences: it names
      the first position that cannot be scored. */
  ghost predicate IsFirstFault(data: seq<SentenceRecord>, e: ScoreError, n: nat) {
    var k := e.index;
    && k < n
    && k <= |data|
    && (forall j :: 0 <= j < k ==> WellFormed(data[j]))
    && (k == |data| ==> e == MissingRecord(k))
    && (k < |data| ==> !WellFormed(data[k]) && e == TaggedTokenMissing(k, if TagInRange(data[k], Arg0) then Arg1 else Arg0))
  }

  /** The verdicts on the first `n` sentences, in order, or the first
      error. */
  function Verdicts(predictions: seq<Prediction>, data: seq<SentenceRecord>, n: nat): (r: Result<seq<bool>, ScoreError>)
    requires n <= |predictions|
    ensures r.Success? ==> |r.value| == n
  {
    if n == 0 then Success([])
    else
      var earlier :- Verdicts(predictions, data, n - 1);
      if n - 1 >= |data| then Failure(MissingRecord(n - 1))
      else
        var verdict :- ScoreSentence(predictions[n - 1], data[n - 1], n - 1);
        Success(earlier + [verdict])
  }

  /** Scoring the first `n` sentences succeeds exactly when there are `n`
      records and none of them makes a lookup raise. */
  lemma {:induction false} VerdictsSucceedIff(predictions: seq<Prediction>, data: seq<SentenceRecord>, n: nat)
    requires n <= |predictions|
    ensures Verdicts(predictions, data, n).Success? <==> n <= |data| && forall i :: 0 <= i < n ==> WellFormed(data[i])
  {
    if n > 0 {
      VerdictsSucceedIff(predictions, data, n - 1);
    }
  }

  /** Verdict `i` is the pass criterion applied to sentence `i`. */
  lemma {:induction false} VerdictAgreesWithPass(predictions: seq<Prediction>, data: seq<SentenceRecord>, n: nat, i: nat)
    requires i < n <= |predictions|
    requires Verdicts(predictions, data, n).Success?
    ensures i < |data|
    ensures Verdicts(predictions, data, n).value[i] <==> SentencePasses(predictions[i], data[i])
  {
    var earlier := Verdicts(predictions, data, n - 1).value;
    var verdict := ScoreSentence(predictions[n - 1], data[n - 1], n - 1).value;
    assert Verdicts(predictions, data, n).value == earlier + [verdict];
    if i < n - 1 {
      VerdictAgreesWithPass(predictions, data, n - 1, i);
    }
  }

  /** Each verdict is the pass criterion applied to its sentence. */
  lemma VerdictsAgreeWithPasses(predictions: seq<Prediction>, data: seq<SentenceRecord>, n: nat)
    requires n <= |predictions|
    requires Verdicts(predictions, data, n).Success?
    ensures n <= |data|
    ensures forall i :: 0 <= i < n ==> (Verdicts(predictions, data, n).value[i] <==> SentencePasses(predictions[i], data[i]))
  {
    VerdictsSucceedIff(predictions, data, n);
    forall i | 0 <= i < n
      ensures Verdicts(predictions, data, n).value[i] <==> SentencePasses(predictions[i], data[i])
    {
      VerdictAgreesWithPass(predictions, data, n, i);
    }
  }

  /** When scoring raises, it raises at the first record that is missing
      or makes a lookup raise. */
  lemma {:induction false} VerdictsFirstFault(predictions: seq<Prediction>, data: seq<SentenceRecord>, n: nat)
    requires n <= |predictions|
    requires Verdicts(predictions, data, n).Failure?
    ensures IsFirstFault(data, Verdicts(predictions, data, n).error, n)
  {
    if n > 0 && Verdicts(predictions, data, n - 1).Failure? {
      VerdictsFirstFault(predictions, data, n - 1);
    } else if n > 0 {
      VerdictsSucceedIff(predictions, data, n - 1);
    }
  }

  /** Scoring one more sentence appends its verdict. */
  lemma VerdictsStep(predictions: seq<Prediction>, data: seq<SentenceRecord>, n: nat)
    requires n < |predictions| && n < |data|
    requires Verdicts(predictions, data, n).Success?
    requires ScoreSentence(predictions[n], data[n], n).Success?
    ensures Verdicts(predictions, data, n + 1)
      == Success(Verdicts(predictions, data, n).value + [ScoreSentence(predictions[n], data[n], n).value])
  {
  }

  /** How many of the verdicts equal `b`. */
  function Count(verdicts: seq<bool>, b: bool): (c: nat)
    ensures c <= |verdicts|
  {
    if |verdicts| == 0 then 0
    else Count(verdicts[..|verdicts| - 1], b) + (if verdicts[|verdicts| - 1] == b then 1 else 0)
  }

  /** Appending a verdict adds one to its own count only. */
  lemma CountAppend(verdicts: seq<bool>, v: bool)
    ensures Count(verdicts + [v], v) == Count(verdicts, v) + 1
    ensures Count(verdicts + [v], !v) == Count(verdicts, !v)
  {
    assert (verdicts + [v])[..|verdicts|] == verdicts;
  }

  /** Every verdict is a pass or a failure. */
  lemma {:induction false} CountPartition(verdicts: seq<bool>)
    ensures Count(verdicts, true) + Count(verdicts, false) == |verdicts|
  {
    if |verdicts| > 0 {
      CountPartition(verdicts[..|verdicts| - 1]);
    }
  }

  /** evaluate_predicted_arguments as a function: the tally
      (successful, total, failed), or the IndexError it raises. */
  function Evaluate(predictions: seq<Prediction>, data: seq<SentenceRecord>): (r: Result<Tally, ScoreError>)
    ensures r.Success? <==> |predictions| <= |data| && forall i :: 0 <= i < |predictions| ==> WellFormed(data[i])
    ensures r.Success? ==> r.value.total == |predictions|
    ensures r.Success? ==> r.value.successful + r.value.failed == r.value.total
    ensures r.Failure? ==> IsFirstFault(data, r.error, |predictions|)
  {
    VerdictsSucceedIff(predictions, data, |predictions|);
    match Verdicts(predictions, data, |predictions|)
    case Failure(e) =>
      VerdictsFirstFault(predictions, data, |predictions|);
      Failure(e)
    case Success(verdicts) =>
      CountPartition(verdicts);
      Success(Tally(Count(verdicts, true), |predictions|, Count(verdicts, false)))
  }

  /** Once scoring raises on a prefix it raises the same error on every
      longer prefix. */
  lemma {:induction false} VerdictsFailurePersists(predictions: seq<Prediction>, data: seq<SentenceRecord>, m: nat, n: nat)
    requires m <= n <= |predictions|
    requires Verdicts(predictions, data, m).Failure?
    ensures Verdicts(predictions, data, n) == Verdicts(predictions, data, m)
  {
    if m < n {
      VerdictsFailurePersists(predictions, data, m, n - 1);
      var earlier := Verdicts(predictions, data, n - 1);
      assert earlier.IsFailure();
      assert Verdicts(predictions, data, n) == earlier.PropagateFailure();
    }
  }

  // ---------------------------------------------------------------------
  // Properties of the verdict on one sentence
  // ---------------------------------------------------------------------

  /** A sentence lacking ARG0 or ARG1 never passes: the flag of the
      missing tag stays false. */
  lemma MissingTagFails(p: Prediction, s: SentenceRecord, i: nat)
    requires Arg0 !in s.bio || Arg1 !in s.bio
    ensures ScoreSentence(p, s, i) != Success(true)
    ensures Arg0 !in s.bio && Arg1 !in s.bio ==> ScoreSentence(p, s, i) == Success(false)
  {
  }

  /** A prediction with no verbs never passes, whatever the tags. */
  lemma NoVerbsFails(p: Prediction, s: SentenceRecord, i: nat)
    requires |p.verbs| == 0
    ensures ScoreSentence(p, s, i) != Success(true)
  {
  }

  /** An empty token is contained in every description, so it is found
      as soon as there is at least one verb. */
  lemma EmptyTokenAlwaysMentioned(verbs: seq<Verb>)
    requires |verbs| > 0
    ensures MentionedBySomeVerb(verbs, "")
  {
    ContainsEmpty(Lower(verbs[0].description));
    assert Mentions(verbs[0], "");
  }

  /** The verdict written out: the sentence passes exactly when both tags
      occur, their first positions have tokens, and each of those tokens
      is mentioned by some verb (not necessarily the same one). */
  lemma PassCharacterisation(p: Prediction, s: SentenceRecord, i: nat)
    ensures ScoreSentence(p, s, i) == Success(true) <==>
      && Arg0 in s.bio && Arg1 in s.bio
      && FirstIndex(s.bio, Arg0).value < |s.tokens|
      && FirstIndex(s.bio, Arg1).value < |s.tokens|
      && MentionedBySomeVerb(p.verbs, s.tokens[FirstIndex(s.bio, Arg0).value])
      && MentionedBySomeVerb(p.verbs, s.tokens[FirstIndex(s.bio, Arg1).value])
  {
    if Arg0 in s.bio && Arg1 in s.bio {
      var k0 := FirstIndex(s.bio, Arg0).value;
      var k1 := FirstIndex(s.bio, Arg1).value;
      assert IsFirstIndex(s.bio, Arg0, k0) && IsFirstIndex(s.bio, Arg1, k1);
    }
  }

  /** There is only one first position. */
  lemma IsFirstIndexUnique(xs: seq<string>, x: string, k: int, k': int)
    requires IsFirstIndex(xs, x, k) && IsFirstIndex(xs, x, k')
    ensures k == k'
  {
  }

  /** Two lists that agree before position `j`, where `x` already occurs,
      have the same first position of `x`. */
  lemma FirstIndexAgreeingPrefix(xs: seq<string>, ys: seq<string>, x: string, j: nat)
    requires j <= |xs| && j <= |ys| && xs[..j] == ys[..j]
    requires x in xs[..j]
    ensures FirstIndex(ys, x) == FirstIndex(xs, x)
  {
    var m :| 0 <= m < j && xs[m] == x;
    var k := FirstIndex(xs, x).value;
    assert k <= m;
    forall i | 0 <= i <= k
      ensures ys[i] == xs[i]
    {
      assert ys[i] == ys[..j][i];
    }
    assert IsFirstIndex(ys, x, k);
    IsFirstIndexUnique(ys, x, k, FirstIndex(ys, x).value);
  }

  /** Only the first occurrence of each tag matters: once both tags have
      occurred before position `j`, the tags from `j` on (changed,
      removed or appended) do not affect the verdict. */
  lemma OnlyFirstOccurrenceMatters(p: Prediction, s: SentenceRecord, bio: seq<string>, j: nat, i: nat)
    requires j <= |s.bio| && j <= |bio| && bio[..j] == s.bio[..j]
    requires Arg0 in s.bio[..j] && Arg1 in s.bio[..j]
    ensures ScoreSentence(p, s.(bio := bio), i) == ScoreSentence(p, s, i)
  {
    FirstIndexAgreeingPrefix(s.bio, bio, Arg0, j);
    FirstIndexAgreeingPrefix(s.bio, bio, Arg1, j);
  }

  /** The verdict depends on the tags only through the first position of
      ARG0 and of ARG1: two tag lists that agree on both get the same
      verdict (or the same error), whatever else they hold. */
  lemma SameFirstIndicesSameVerdict(p: Prediction, s: SentenceRecord, bio: seq<string>, i: nat)
    requires FirstIndex(bio, Arg0) == FirstIndex(s.bio, Arg0)
    requires FirstIndex(bio, Arg1) == FirstIndex(s.bio, Arg1)
    ensures ScoreSentence(p, s.(bio := bio), i) == ScoreSentence(p, s, i)
  {
  }

  /** Matching compares lower-cased text: a sentence and a prediction
      that agree with another pair once every token and description is
      lower-cased get the same verdict. */
  lemma VerdictIgnoresCase(p: Prediction, s: SentenceRecord, p': Prediction, s': SentenceRecord, i: nat)
    requires s'.bio == s.bio && |s'.tokens| == |s.tokens|
    requires forall k :: 0 <= k < |s.tokens| ==> Lower(s'.tokens[k]) == Lower(s.tokens[k])
    requires |p'.verbs| == |p.verbs|
    requires forall j :: 0 <= j < |p.verbs| ==> Lower(p'.verbs[j].description) == Lower(p.verbs[j].description)
    ensures ScoreSentence(p', s', i) == ScoreSentence(p, s, i)
  {
    forall k | 0 <= k < |s.tokens|
      ensures MentionedBySomeVerb(p'.verbs, s'.tokens[k]) == MentionedBySomeVerb(p.verbs, s.tokens[k])
    {
      assert forall j :: 0 <= j < |p.verbs| ==> (Mentions(p'.verbs[j], s'.tokens[k]) <==> Mentions(p.verbs[j], s.tokens[k]));
    }
    assert ArgumentFlag(p', s', Arg0, i) == ArgumentFlag(p, s, Arg0, i);
    assert ArgumentFlag(p', s', Arg1, i) == ArgumentFlag(p, s, Arg1, i);
  }

  // ---------------------------------------------------------------------
  // Properties of the tally
  // ---------------------------------------------------------------------

  /** The number of `b` verdicts is the number of positions holding `b`. */
  lemma {:induction false} CountIsCardinality(verdicts: seq<bool>, b: bool)
    ensures Count(verdicts, b) == |set i | 0 <= i < |verdicts| && verdicts[i] == b|
  {
    if |verdicts| > 0 {
      var n := |verdicts| - 1;
      var init := verdicts[..n];
      CountIsCardinality(init, b);
      var before := set i | 0 <= i < n && init[i] == b;
      var after := set i | 0 <= i < |verdicts| && verdicts[i] == b;
      if verdicts[n] == b {
        assert after == before + {n};
      } else {
        assert after == before;
      }
    }
  }

  /** `successful` counts the sentences that pass and `failed` those that
      do not. */
  lemma TallyCountsPasses(predictions: seq<Prediction>, data: seq<SentenceRecord>)
    requires Evaluate(predictions, data).Success?
    ensures Evaluate(predictions, data).value.successful
      == |set i | 0 <= i < |predictions| && SentencePasses(predictions[i], data[i])|
    ensures Evaluate(predictions, data).value.failed
      == |set i | 0 <= i < |predictions| && !SentencePasses(predictions[i], data[i])|
  {
    var verdicts := Verdicts(predictions, data, |predictions|).value;
    VerdictsSucceedIff(predictions, data, |predictions|);
    VerdictsAgreeWithPasses(predictions, data, |predictions|);
    CountIsCardinality(verdicts, true);
    CountIsCardinality(verdicts, false);
    assert (set i | 0 <= i < |verdicts| && verdicts[i] == true)
      == (set i | 0 <= i < |predictions| && SentencePasses(predictions[i], data[i]));
    assert (set i | 0 <= i < |verdicts| && verdicts[i] == false)
      == (set i | 0 <= i < |predictions| && !SentencePasses(predictions[i], data[i]));
  }

  /** Records beyond the last prediction are never looked at. */
  lemma {:induction false} VerdictsIgnoreSurplusRecords(predictions: seq<Prediction>, data: seq<SentenceRecord>, m: nat, n: nat)
    requires n <= |predictions| && n <= m <= |data|
    ensures Verdicts(predictions, data[..m], n) == Verdicts(predictions, data, n)
  {
    if n > 0 {
      VerdictsIgnoreSurplusRecords(predictions, data, m, n - 1);
      assert data[..m][n - 1] == data[n - 1];
    }
  }

  /** Only the first |predictions| records matter to the tally. */
  lemma EvaluateIgnoresSurplusRecords(predictions: seq<Prediction>, data: seq<SentenceRecord>)
    requires |predictions| <= |data|
    ensures Evaluate(predictions, data[..|predictions|]) == Evaluate(predictions, data)
  {
    VerdictsIgnoreSurplusRecords(predictions, data, |predictions|, |predictions|);
  }

  /** The imperative scorer: the loop of `evaluate_predicted_arguments`,
      statement by statement. */
  method EvaluatePredictedArguments(predictions: seq<Prediction>, data: seq<SentenceRecord>)
    returns (r: Result<Tally, ScoreError>)
    ensures r == Evaluate(predictions, data)
    ensures r.Success? ==> r.value.total == |predictions| && r.value.successful + r.value.failed == r.value.total
  {
    var total := |predictions|;
    var successful := 0;
    var failed := 0;
    ghost var verdicts: seq<bool> := [];
    var i := 0;
    while i < |predictions|
      invariant i <= |predictions|
      invariant Verdicts(predictions, data, i) == Success(verdicts)
      invariant successful == Count(verdicts, true)
      invariant failed == Count(verdicts, false)
    {
      if i >= |data| {
        assert Verdicts(predictions, data, i + 1) == Failure(MissingRecord(i));
        VerdictsFailurePersists(predictions, data, i + 1, |predictions|);
        return Failure(MissingRecord(i));
      }
      var verdict := JudgeSentence(predictions[i], data[i], i);
      if verdict.Failure? {
        assert Verdicts(predictions, data, i + 1) == Failure(verdict.error);
        VerdictsFailurePersists(predictions, data, i + 1, |predictions|);
        return Failure(verdict.error);
      }
      var passed := verdict.value;
      VerdictsStep(predictions, data, i);
      CountAppend(verdicts, passed);
      verdicts := verdicts + [passed];
      if !passed {
        failed := failed + 1;
      } else {
        successful := successful + 1;
      }
      i := i + 1;
    }
    return Success(Tally(successful, total, failed));
  }

  /** One pass of the loop of `evaluate_predicted_arguments`, for
      sentence `i`: both flags start false, each is set only when its tag
      is present. */
  method JudgeSentence(prediction: Prediction, sentence: SentenceRecord, i: nat)
    returns (r: Result<bool, ScoreError>)
    ensures r == ScoreSentence(prediction, sentence, i)
  {
    var arg0Correct := false;
    var arg1Correct := false;
    if Arg0 in sentence.bio {
      var k := FirstIndex(sentence.bio, Arg0).value;
      if k >= |sentence.tokens| {
        return Failure(TaggedTokenMissing(i, Arg0));
      }
      arg0Correct := AnyVerbMentions(prediction.verbs, sentence.tokens[k]);
    }
    if Arg1 in sentence.bio {
      var k := FirstIndex(sentence.bio, Arg1).value;
      if k >= |sentence.tokens| {
        return Failure(TaggedTokenMissing(i, Arg1));
      }
      arg1Correct := AnyVerbMentions(prediction.verbs, sentence.tokens[k]);
    }
    return Success(arg0Correct && arg1Correct);
  }

  /** The loop over the predicted verbs that stops at the first
      description mentioning the token. */
  method AnyVerbMentions(verbs: seq<Verb>, token: string) returns (found: bool)
    ensures found <==> MentionedBySomeVerb(verbs, token)
  {
    found := false;
    var j := 0;
    while j < |verbs|
      invariant j <= |verbs|
      invariant !found
      invariant forall m :: 0 <= m < j ==> !Mentions(verbs[m], token)
    {
      if Contains(Lower(verbs[j].description), Lower(token)) {
        found := true;
        break;
      }
      j := j + 1;
    }
  }
}
