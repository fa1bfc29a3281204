/** An embedding provider: each call may raise or return the wrong number of vectors; when the number is
    right, every text gets the vector that the model gives it. */
module EmbeddingProvider {
  import opened Strings
  import opened Models
  import opened SyncPlan

  datatype Answer = Answers | Raises | Returns(vectors: seq<Vector>)

  /** The call is answered with n vectors. */
  predicate Right(answer: Answer, n: nat) {
    answer.Answers? || (answer.Returns? && |answer.vectors| == n)
  }

  /** Every one of the calls, the first of which is number `from`, is answered with a vector for each text. */
  predicate Answered(answers: nat -> Answer, from: nat, calls: seq<seq<string>>) {
    forall i | 0 <= i < |calls| :: Right(answers(from + i), |calls[i]|)
  }

  class Embedder {
    const embedding: Embedding
    const answers: nat -> Answer     // what happens at each call
    var calls: seq<seq<string>>      // the inputs of the calls made so far

    constructor (embedding: Embedding, answers: nat -> Answer)
      ensures this.embedding == embedding && this.answers == answers && calls == []
    {
      this.embedding, this.answers, calls := embedding, answers, [];
    }

    /** None is an exception of the provider. */
    method Embed(texts: seq<string>) returns (vectors: Option<seq<Vector>>)
      modifies `calls
      ensures calls == old(calls) + [texts]
      ensures vectors.Some? && |vectors.value| == |texts| <==> Right(answers(|old(calls)|), |texts|)
      ensures vectors.Some? && |vectors.value| == |texts| ==> vectors.value == Vectors(embedding, texts)
    {
      var answer := answers(|calls|);
      calls := calls + [texts];
      match answer
      case Answers => vectors := Some(Vectors(embedding, texts));
      case Raises => vectors := None;
      case Returns(wrong) =>
        vectors := Some(if |wrong| == |texts| then Vectors(embedding, texts) else wrong);
    }
  }
}
