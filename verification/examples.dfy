/** Concrete sentences and the verdicts proved for them: the matching
    rule on the cases a reader is most likely to get wrong. */
module Examples {
  import opened Wrappers
  import opened Text
  import opened Records
  import opened Evaluation

  const CatsChaseMice: Verb := Verb("[ARG0: Cats] chase [ARG1: mice]")

  /** A token is mentioned by a verb whose description holds some
      capitalisation of it. */
  lemma MentionsByOccurrence(v: Verb, token: string, written: string, at: nat)
    requires OccursAt(v.description, written, at)
    requires Lower(written) == Lower(token)
    ensures Mentions(v, token)
  {
    ContainsLower(v.description, written);
  }

  /** Where "Cats" sits in the description. */
  lemma CatsAt7()
    ensures OccursAt(CatsChaseMice.description, "Cats", 7)
    ensures OccursAt(CatsChaseMice.description, "Cat", 7)
  {
    OccursAtPointwise(CatsChaseMice.description, "Cats", 7);
    OccursAtPointwise(CatsChaseMice.description, "Cat", 7);
  }

  /** Where "mice" sits in the description. */
  lemma MiceAt26()
    ensures OccursAt(CatsChaseMice.description, "mice", 26)
  {
    OccursAtPointwise(CatsChaseMice.description, "mice", 26);
  }

  lemma MiceMentioned()
    ensures Mentions(CatsChaseMice, "mice")
  {
    MiceAt26();
    MentionsByOccurrence(CatsChaseMice, "mice", "mice", 26);
  }

  /** A prediction whose one verb mentions the token. */
  lemma SoleVerbMentions(p: Prediction, token: string)
    requires p == Prediction([CatsChaseMice])
    requires Mentions(CatsChaseMice, token)
    ensures MentionedBySomeVerb(p.verbs, token)
  {
    assert p.verbs[0] == CatsChaseMice;
  }

  /** Case does not matter: "Cats" is found in a lower-cased description. */
  lemma CaseInsensitiveMatch()
    ensures Mentions(Verb("[arg0: cats] chase"), "Cats")
  {
    assert Lower("cats") == Lower("Cats");
    MentionsByOccurrence(Verb("[arg0: cats] chase"), "Cats", "cats", 7);
  }

  /** Containment is enough: "cat" is found inside "Cats". */
  lemma SubstringMatch()
    ensures Mentions(CatsChaseMice, "cat")
  {
    assert Lower("Cat") == Lower("cat");
    CatsAt7();
    MentionsByOccurrence(CatsChaseMice, "cat", "Cat", 7);
  }

  /** Cats chase mice, annotated ARG0 O ARG1, passes against its own
      bracketed description. */
  lemma CatsChaseMicePasses(p: Prediction, s: SentenceRecord, i: nat)
    requires p == Prediction([CatsChaseMice])
    requires s == SentenceRecord(["Cats", "chase", "mice"], ["ARG0", "O", "ARG1"])
    ensures ScoreSentence(p, s, i) == Success(true)
  {
    CatsAt7();
    MentionsByOccurrence(CatsChaseMice, "Cats", "Cats", 7);
    SoleVerbMentions(p, "Cats");
    MiceMentioned();
    SoleVerbMentions(p, "mice");
    assert FirstIndex(s.bio, Arg0) == Some(0);
    assert FirstIndex(s.bio, Arg1) == Some(2) by {
      assert s.bio[1..] == ["O", "ARG1"] && s.bio[1..][1..] == ["ARG1"];
    }
    PassCharacterisation(p, s, i);
  }

  /** With no tags at all the sentence fails, even though every token is
      mentioned. */
  lemma UntaggedSentenceFails()
    ensures ScoreSentence(Prediction([CatsChaseMice]),
                          SentenceRecord(["Cats", "chase", "mice"], ["O", "O", "O"]), 0)
         == Success(false)
  {
  }

  /** A tag whose first position is past the last token raises. */
  lemma ShortTokensRaise()
    ensures ScoreSentence(Prediction([CatsChaseMice]),
                          SentenceRecord(["Cats"], ["ARG0", "O", "ARG1"]), 4)
         == Failure(TaggedTokenMissing(4, "ARG1"))
  {
  }

  /** A second ARG0 before the first ARG1 changes nothing: only the
      first position of each tag is looked up. */
  lemma RepeatedTagIgnored(p: Prediction, s: SentenceRecord, i: nat)
    requires s == SentenceRecord(["Cats", "chase", "cats", "mice"], ["ARG0", "O", "O", "ARG1"])
    ensures ScoreSentence(p, s.(bio := ["ARG0", "O", "ARG0", "ARG1"]), i) == ScoreSentence(p, s, i)
  {
    var bio: seq<string> := ["ARG0", "O", "ARG0", "ARG1"];
    assert FirstIndex(bio, Arg0) == Some(0) == FirstIndex(s.bio, Arg0);
    assert FirstIndex(bio, Arg1) == Some(3) by {
      assert bio[1..] == ["O", "ARG0", "ARG1"] && bio[1..][1..] == ["ARG0", "ARG1"]
        && bio[1..][1..][1..] == ["ARG1"];
    }
    assert FirstIndex(s.bio, Arg1) == Some(3) by {
      assert s.bio[1..] == ["O", "O", "ARG1"] && s.bio[1..][1..] == ["O", "ARG1"]
        && s.bio[1..][1..][1..] == ["ARG1"];
    }
    SameFirstIndicesSameVerdict(p, s, bio, i);
  }

  /** "cat" alone, tagged ARG0, passes against the description naming
      "Cats". */
  lemma CatMicePasses(p: Prediction, s: SentenceRecord, i: nat)
    requires p == Prediction([CatsChaseMice])
    requires s == SentenceRecord(["cat", "mice"], ["ARG0", "ARG1"])
    ensures ScoreSentence(p, s, i) == Success(true)
  {
    SubstringMatch();
    SoleVerbMentions(p, "cat");
    MiceMentioned();
    SoleVerbMentions(p, "mice");
    assert FirstIndex(s.bio, Arg0) == Some(0);
    assert FirstIndex(s.bio, Arg1) == Some(1) by {
      assert s.bio[1..] == ["ARG1"];
    }
    PassCharacterisation(p, s, i);
  }

  /** The verdicts on three sentences, two passing and one failing. */
  lemma ThreeVerdicts(p0: Prediction, p1: Prediction, p2: Prediction,
                      s0: SentenceRecord, s1: SentenceRecord, s2: SentenceRecord)
    requires ScoreSentence(p0, s0, 0) == Success(true)
    requires ScoreSentence(p1, s1, 1) == Success(true)
    requires ScoreSentence(p2, s2, 2) == Success(false)
    ensures Verdicts([p0, p1, p2], [s0, s1, s2], 3) == Success([true, true, false])
  {
    var ps := [p0, p1, p2];
    var ds := [s0, s1, s2];
    assert ps[0] == p0 && ps[1] == p1 && ps[2] == p2;
    assert ds[0] == s0 && ds[1] == s1 && ds[2] == s2;
    assert Verdicts(ps, ds, 0) == Success([]);
    VerdictsStep(ps, ds, 0);
    assert Verdicts(ps, ds, 0).value + [true] == [true];
    VerdictsStep(ps, ds, 1);
    assert Verdicts(ps, ds, 1).value + [true] == [true, true];
    VerdictsStep(ps, ds, 2);
    assert Verdicts(ps, ds, 2).value + [false] == [true, true, false];
  }

  /** Two passing sentences and one failing sentence tally to (2, 3, 1). */
  lemma TallyOfThree(p0: Prediction, p1: Prediction, p2: Prediction,
                     s0: SentenceRecord, s1: SentenceRecord, s2: SentenceRecord)
    requires ScoreSentence(p0, s0, 0) == Success(true)
    requires ScoreSentence(p1, s1, 1) == Success(true)
    requires ScoreSentence(p2, s2, 2) == Success(false)
    ensures Evaluate([p0, p1, p2], [s0, s1, s2]) == Success(Tally(2, 3, 1))
  {
    ThreeVerdicts(p0, p1, p2, s0, s1, s2);
    assert [true, true, false][..2] == [true, true];
    assert [true, true][..1] == [true];
  }

  /** A small test file: "Cats chase mice" and "cat mice" pass against
      the description, and "Cats chase mice" against a prediction with no
      verbs fails, so the tally is (2, 3, 1). */
  lemma SmallFileTally(predictions: seq<Prediction>, data: seq<SentenceRecord>)
    requires predictions == [Prediction([CatsChaseMice]), Prediction([CatsChaseMice]), Prediction([])]
    requires data == [SentenceRecord(["Cats", "chase", "mice"], ["ARG0", "O", "ARG1"]),
                      SentenceRecord(["cat", "mice"], ["ARG0", "ARG1"]),
                      SentenceRecord(["Cats", "chase", "mice"], ["ARG0", "O", "ARG1"])]
    ensures Evaluate(predictions, data) == Success(Tally(2, 3, 1))
  {
    CatsChaseMicePasses(predictions[0], data[0], 0);
    CatMicePasses(predictions[1], data[1], 1);
    // Scoring record 2 against the first prediction shows that record 2
    // is well formed, so against the verb-less prediction it fails
    // without raising.
    CatsChaseMicePasses(predictions[0], data[2], 2);
    NoVerbsFails(predictions[2], data[2], 2);
    TallyOfThree(predictions[0], predictions[1], predictions[2], data[0], data[1], data[2]);
    assert predictions == [predictions[0], predictions[1], predictions[2]];
    assert data == [data[0], data[1], data[2]];
  }
}
