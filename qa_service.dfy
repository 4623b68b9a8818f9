/** QAService.swift: the chat log. Each question is appended together with
    an answer assembled from the retrieved chunks. */
module QAService {
  import opened Base
  import opened Embeddings
  import opened Store
  import opened Retriever

  datatype Role = User | Assistant | System

  /** `ChatMessage` (its UI identifier is not modelled). */
  datatype ChatMessage = ChatMessage(role: Role, text: seq<char>)

  const RetrievalLimit := 5
  // The fixed texts are written in pieces so that the verifier can see their characters.
  const NoMatchAnswer := "I couldn't find " + "matching notes. " + "Try different keywords."
  const AnswerHeader := "Here's what I found " + "related to your " + "question:\n\n"
  const Bullet := "\U{2022} "

  /** `joined(separator:)` */
  function Joined(lines: seq<seq<char>>, separator: seq<char>): seq<char>
  {
    if |lines| == 0 then []
    else if |lines| == 1 then lines[0]
    else lines[0] + separator + Joined(lines[1..], separator)
  }

  /** `hits.map { "• \($0.text)" }` */
  function BulletLines(hits: seq<RetrievedChunk>): (lines: seq<seq<char>>)
    ensures |lines| == |hits|
  {
    seq(|hits|, k requires 0 <= k < |hits| => Bullet + hits[k].text)
  }

  /** The bullet list of the hits, one per line, in retrieval order. */
  function HitList(hits: seq<RetrievedChunk>): seq<char>
  {
    Joined(BulletLines(hits), "\n")
  }

  /** The answer `ask` posts for these hits. */
  function Answer(hits: seq<RetrievedChunk>): seq<char>
  {
    var context := HitList(hits);
    if context == [] then NoMatchAnswer else AnswerHeader + context
  }

  /** Appending a line to a non-empty list appends the separator and the line. */
  lemma {:induction false} JoinedAppend(lines: seq<seq<char>>, line: seq<char>, separator: seq<char>)
    requires lines != []
    ensures Joined(lines + [line], separator) == Joined(lines, separator) + separator + line
    decreases |lines|
  {
    if |lines| > 1 {
      assert (lines + [line])[1..] == lines[1..] + [line];
      JoinedAppend(lines[1..], line, separator);
    }
  }

  /** The hit list is empty exactly when there are no hits (every line
      carries at least the bullet). */
  lemma HitListEmptyIff(hits: seq<RetrievedChunk>)
    ensures HitList(hits) == [] <==> hits == []
  {
    if hits != [] {
      var lines := BulletLines(hits);
      assert |lines[0]| >= |Bullet| > 0;
      if |lines| > 1 {
        assert Joined(lines, "\n") == lines[0] + "\n" + Joined(lines[1..], "\n");
      }
    }
  }

  /** One more hit adds one more bullet line at the end. */
  lemma HitListAppend(hits: seq<RetrievedChunk>, h: RetrievedChunk)
    requires hits != []
    ensures HitList(hits + [h]) == HitList(hits) + "\n" + Bullet + h.text
  {
    assert BulletLines(hits + [h]) == BulletLines(hits) + [Bullet + h.text];
    JoinedAppend(BulletLines(hits), Bullet + h.text, "\n");
  }

  /** The answer is the fixed no-match text exactly when nothing was
      retrieved, and otherwise the fixed header followed by the hit list. */
  lemma AnswerIff(hits: seq<RetrievedChunk>)
    ensures Answer(hits) == NoMatchAnswer <==> hits == []
    ensures hits != [] ==> Answer(hits) == AnswerHeader + HitList(hits)
  {
    HitListEmptyIff(hits);
    if hits != [] {
      assert Answer(hits) == AnswerHeader + HitList(hits);
      assert Answer(hits)[0] == AnswerHeader[0] == 'H';
      assert NoMatchAnswer[0] == 'I';
    }
  }

  /** Without a query embedding, with a provider of no dimension, or when the
      store cannot be read, the question is answered with the no-match text. */
  lemma NoMatchWithoutHits(fp: FloatArithmetic, embeddings: EmbeddingsProvider,
                           fetched: Result<seq<ChunkRecord>, StoreError>, question: seq<char>)
    requires Conforms(embeddings)
    requires embeddings.embedSentence(question).None? || embeddings.dimension <= 0 || fetched.Failure?
    ensures Answer(TopChunks(fp, embeddings, fetched, question, RetrievalLimit)) == NoMatchAnswer
  {
    HitListEmptyIff([]);
  }

  /** The chat service over a store, answering with the given provider. */
  class QAService {
    var messages: seq<ChatMessage>
    const store: Context
    const fp: FloatArithmetic
    const embeddings: EmbeddingsProvider

    ghost predicate Valid()
    {
      Conforms(embeddings)
    }

    constructor (store: Context, fp: FloatArithmetic, embeddings: EmbeddingsProvider)
      requires Conforms(embeddings)
      ensures Valid()
      ensures messages == [] && this.store == store && this.fp == fp && this.embeddings == embeddings
    {
      this.store := store;
      this.fp := fp;
      this.embeddings := embeddings;
      messages := [];
    }

    /** The hits `ask` works from; `fetchFailed` says whether reading the
        store failed. */
    function Hits(question: seq<char>, fetchFailed: bool): seq<RetrievedChunk>
      requires Valid()
      reads this, store
    {
      TopChunks(fp, embeddings, if fetchFailed then Failure(FetchFailed) else Success(store.chunks),
                question, RetrievalLimit)
    }

    /** `ask`: log the question, retrieve at most five chunks, log the answer. */
    method Ask(question: seq<char>, fetchFailed: bool)
      requires Valid()
      modifies this
      ensures Valid()
      ensures messages == old(messages) +
                [ChatMessage(User, question), ChatMessage(Assistant, Answer(Hits(question, fetchFailed)))]
    {
      messages := messages + [ChatMessage(User, question)];
      var hits := Hits(question, fetchFailed);
      var context := HitList(hits);
      var answer: seq<char>;
      if context == [] {
        answer := NoMatchAnswer;
      } else {
        answer := AnswerHeader + context;
      }
      messages := messages + [ChatMessage(Assistant, answer)];
    }
  }
}
