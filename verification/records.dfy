/** The records the evaluation script reads and produces. */
module Records {

  /** One predicted predicate: the model's free-text rendering of the verb
      with its bracketed arguments, e.g. "[ARG0: Cats] chase [ARG1: mice]". */
  datatype Verb = Verb(description: string)

  /** What the model returns for one sentence; the scorer only looks at
      the `verbs` field. */
  datatype Prediction = Prediction(verbs: seq<Verb>)

  /** One hand-annotated test sentence: its tokens and, position by
      position, their tags ("ARG0", "ARG1", "O", ...). The two lists are
      meant to be equally long, but nothing checks it. */
  datatype SentenceRecord = SentenceRecord(tokens: seq<string>, bio: seq<string>)

  /** The triple `evaluate_predicted_arguments` returns, in the order of
      the Python tuple. */
  datatype Tally = Tally(successful: nat, total: nat, failed: nat)
}
