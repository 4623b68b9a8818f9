/** Retriever.swift: rank the stored chunks against a query by cosine
    similarity and return the best `limit` of them. */
module Retriever {
  import opened Base
  import opened Embeddings
  import opened Store
  import Chunking

  /** `RetrievedChunk`: a stored chunk's identity and text with its score. */
  datatype RetrievedChunk = RetrievedChunk(id: Uuid, entryId: Uuid, text: seq<char>, score: Float32)

  /** The part of a chunk that a result carries over. */
  datatype Origin = Origin(id: Uuid, entryId: Uuid, text: seq<char>)

  function OriginOf(x: RetrievedChunk): Origin
  {
    Origin(x.id, x.entryId, x.text)
  }

  function OriginsOf(r: seq<RetrievedChunk>): (o: seq<Origin>)
    ensures |o| == |r|
  {
    if r == [] then [] else [OriginOf(r[0])] + OriginsOf(r[1..])
  }

  function StoredOrigins(chunks: seq<ChunkRecord>): (o: seq<Origin>)
    ensures |o| == |chunks|
  {
    if chunks == [] then [] else [Origin(chunks[0].id, chunks[0].entryId, chunks[0].text)] + StoredOrigins(chunks[1..])
  }

  /** The closure of `compactMap`: score against the stored vector when it
      has the provider's dimension, otherwise against a fresh embedding of
      the chunk's text, and drop the chunk when that is absent or of another
      length than the query vector. */
  function Score(fp: FloatArithmetic, embeddings: EmbeddingsProvider, qv: seq<Float32>, mo: ChunkRecord): (r: Option<RetrievedChunk>)
    requires |qv| == embeddings.dimension
    ensures r.Some? ==> r.value.id == mo.id && r.value.entryId == mo.entryId && r.value.text == mo.text
  {
    if mo.vector.Some? && |ToFloatArray(mo.vector.value)| == embeddings.dimension then
      Some(RetrievedChunk(mo.id, mo.entryId, mo.text, Cosine(fp, qv, ToFloatArray(mo.vector.value))))
    else
      match embeddings.embedSentence(mo.text)
      case Some(tv) =>
        if |tv| == |qv| then Some(RetrievedChunk(mo.id, mo.entryId, mo.text, Cosine(fp, qv, tv))) else None
      case None => None
  }

  /** The scored chunks, in fetch order. */
  function Scored(fp: FloatArithmetic, embeddings: EmbeddingsProvider, qv: seq<Float32>, chunks: seq<ChunkRecord>): (r: seq<RetrievedChunk>)
    requires |qv| == embeddings.dimension
    ensures |r| <= |chunks|
    ensures multiset(OriginsOf(r)) <= multiset(StoredOrigins(chunks))
  {
    if chunks == [] then []
    else
      var rest := Scored(fp, embeddings, qv, chunks[1..]);
      match Score(fp, embeddings, qv, chunks[0])
      case Some(x) =>
        assert ([x] + rest)[1..] == rest;
        [x] + rest
      case None => rest
  }

  /** Ordered by non-increasing score (`$0.score > $1.score`). */
  ghost predicate SortedByScore(fp: FloatArithmetic, s: seq<RetrievedChunk>)
  {
    forall i, j :: 0 <= i < j < |s| ==> RankAt(fp, s, i) >= RankAt(fp, s, j)
  }

  /** The rank of the score at position `i`. */
  function RankAt(fp: FloatArithmetic, s: seq<RetrievedChunk>, i: int): int
    requires 0 <= i < |s|
  {
    fp.rank(s[i].score)
  }

  lemma SortedPrefix(fp: FloatArithmetic, s: seq<RetrievedChunk>, k: nat)
    requires SortedByScore(fp, s) && k <= |s|
    ensures SortedByScore(fp, s[..k])
  {
    forall i, j | 0 <= i < j < k
      ensures RankAt(fp, s[..k], i) >= RankAt(fp, s[..k], j)
    {
      assert RankAt(fp, s, i) >= RankAt(fp, s, j);
    }
  }

  lemma SortedTail(fp: FloatArithmetic, s: seq<RetrievedChunk>)
    requires SortedByScore(fp, s) && s != []
    ensures SortedByScore(fp, s[1..])
  {
    forall i, j | 0 <= i < j < |s| - 1
      ensures RankAt(fp, s[1..], i) >= RankAt(fp, s[1..], j)
    {
      assert RankAt(fp, s, i + 1) >= RankAt(fp, s, j + 1);
    }
  }

  lemma SortedCons(fp: FloatArithmetic, x: RetrievedChunk, s: seq<RetrievedChunk>)
    requires SortedByScore(fp, s) && (s != [] ==> fp.rank(x.score) >= RankAt(fp, s, 0))
    ensures SortedByScore(fp, [x] + s)
  {
    var r := [x] + s;
    forall i, j | 0 <= i < j < |r|
      ensures RankAt(fp, r, i) >= RankAt(fp, r, j)
    {
      if i > 0 {
        assert RankAt(fp, s, i - 1) >= RankAt(fp, s, j - 1);
      } else if j > 1 {
        assert RankAt(fp, s, 0) >= RankAt(fp, s, j - 1);
      }
    }
  }

  function Insert(fp: FloatArithmetic, x: RetrievedChunk, s: seq<RetrievedChunk>): (r: seq<RetrievedChunk>)
    requires SortedByScore(fp, s)
    ensures SortedByScore(fp, r)
    ensures multiset(r) == multiset(s) + multiset{x}
  {
    if s == [] then [x]
    else if fp.rank(x.score) >= fp.rank(s[0].score) then
      SortedCons(fp, x, s);
      [x] + s
    else
      SortedTail(fp, s);
      var rest := Insert(fp, x, s[1..]);
      assert s == [s[0]] + s[1..];
      InsertHead(fp, s[0], x, s[1..], rest);
      [s[0]] + rest
  }

  lemma {:induction false} InsertOrigins(fp: FloatArithmetic, x: RetrievedChunk, s: seq<RetrievedChunk>)
    requires SortedByScore(fp, s)
    ensures multiset(OriginsOf(Insert(fp, x, s))) == multiset(OriginsOf(s)) + multiset{OriginOf(x)}
  {
    if s == [] {
    } else if fp.rank(x.score) >= fp.rank(s[0].score) {
      var r := [x] + s;
      assert Insert(fp, x, s) == r;
      assert r[1..] == s;
      assert OriginsOf(r) == [OriginOf(x)] + OriginsOf(s);
    } else {
      SortedTail(fp, s);
      var rest := Insert(fp, x, s[1..]);
      var r := [s[0]] + rest;
      assert Insert(fp, x, s) == r;
      InsertOrigins(fp, x, s[1..]);
      assert r[1..] == rest;
      assert OriginsOf(r) == [OriginOf(s[0])] + OriginsOf(rest);
      assert OriginsOf(s) == [OriginOf(s[0])] + OriginsOf(s[1..]);
    }
  }

  lemma {:induction false} SortOrigins(fp: FloatArithmetic, s: seq<RetrievedChunk>)
    ensures multiset(OriginsOf(SortByScore(fp, s))) == multiset(OriginsOf(s))
  {
    if s != [] {
      SortOrigins(fp, s[1..]);
      InsertOrigins(fp, s[0], SortByScore(fp, s[1..]));
    }
  }

  lemma InsertHead(fp: FloatArithmetic, h: RetrievedChunk, x: RetrievedChunk, s: seq<RetrievedChunk>, rest: seq<RetrievedChunk>)
    requires SortedByScore(fp, [h] + s) && SortedByScore(fp, rest)
    requires multiset(rest) == multiset(s) + multiset{x}
    requires fp.rank(x.score) < fp.rank(h.score)
    ensures SortedByScore(fp, [h] + rest)
  {
    forall k | 0 <= k < |rest|
      ensures fp.rank(h.score) >= fp.rank(rest[k].score)
    {
      assert rest[k] in multiset(rest);
      if rest[k] != x {
        assert rest[k] in multiset(s);
        var j :| 0 <= j < |s| && s[j] == rest[k];
        assert RankAt(fp, [h] + s, 0) >= RankAt(fp, [h] + s, j + 1);
      }
    }
    var r := [h] + rest;
    forall i, j | 0 <= i < j < |r|
      ensures RankAt(fp, r, i) >= RankAt(fp, r, j)
    {
      if i > 0 {
        assert RankAt(fp, rest, i - 1) >= RankAt(fp, rest, j - 1);
      } else {
        assert r[j] == rest[j - 1];
      }
    }
  }

  /** `sorted(by:)`: a permutation ordered by non-increasing score. The order
      of equal scores is not fixed. */
  function SortByScore(fp: FloatArithmetic, s: seq<RetrievedChunk>): (r: seq<RetrievedChunk>)
    ensures SortedByScore(fp, r)
    ensures multiset(r) == multiset(s)
  {
    if s == [] then []
    else
      assert s == [s[0]] + s[1..];
      Insert(fp, s[0], SortByScore(fp, s[1..]))
  }

  /** `topChunks(for:limit:)`; `fetched` is the outcome of fetching every
      stored chunk. */
  function TopChunks(fp: FloatArithmetic, embeddings: EmbeddingsProvider, fetched: Result<seq<ChunkRecord>, StoreError>,
                     query: seq<char>, limit: int): (r: seq<RetrievedChunk>)
    requires 0 <= limit
    requires embeddings.embedSentence(query).Some? ==> |embeddings.embedSentence(query).value| == embeddings.dimension
    ensures |r| <= limit
    ensures SortedByScore(fp, r)
    ensures embeddings.embedSentence(query).None? || embeddings.dimension <= 0 || fetched.Failure? ==> r == []
  {
    match embeddings.embedSentence(query)
    case None => []
    case Some(qv) =>
      if embeddings.dimension <= 0 then []
      else
        match fetched
        case Failure(_) => []
        case Success(chunks) =>
          var sorted := SortByScore(fp, Scored(fp, embeddings, qv, chunks));
          SortedPrefix(fp, sorted, Min(limit, |sorted|));
          sorted[..Min(limit, |sorted|)]
  }

  /** Top-k: the result is a sub-multiset of the scored chunks of size
      `min(limit, #scored)`, and no scored chunk left out ranks above any
      returned one. */
  lemma TopChunksSelection(fp: FloatArithmetic, embeddings: EmbeddingsProvider, chunks: seq<ChunkRecord>,
                           query: seq<char>, limit: int)
    requires 0 <= limit && embeddings.dimension > 0
    requires embeddings.embedSentence(query).Some?
    requires |embeddings.embedSentence(query).value| == embeddings.dimension
    ensures var scored := Scored(fp, embeddings, embeddings.embedSentence(query).value, chunks);
      var r := TopChunks(fp, embeddings, Success(chunks), query, limit);
      && |r| == Min(limit, |scored|)
      && multiset(r) <= multiset(scored)
      && forall x: RetrievedChunk, y: RetrievedChunk :: x in multiset(scored) - multiset(r) && y in r ==> fp.rank(x.score) <= fp.rank(y.score)
  {
    var scored := Scored(fp, embeddings, embeddings.embedSentence(query).value, chunks);
    var sorted := SortByScore(fp, scored);
    var k := Min(limit, |sorted|);
    assert sorted[..k] == TopChunks(fp, embeddings, Success(chunks), query, limit);
    SortedPrefixIsTop(fp, sorted, k);
  }

  /** A prefix of a list sorted by score holds its highest-ranked elements. */
  lemma SortedPrefixIsTop(fp: FloatArithmetic, sorted: seq<RetrievedChunk>, k: nat)
    requires SortedByScore(fp, sorted) && k <= |sorted|
    ensures multiset(sorted[..k]) <= multiset(sorted)
    ensures forall x: RetrievedChunk, y: RetrievedChunk :: x in multiset(sorted) - multiset(sorted[..k]) && y in sorted[..k] ==>
              fp.rank(x.score) <= fp.rank(y.score)
  {
    var r := sorted[..k];
    assert sorted == r + sorted[k..];
    assert multiset(sorted) == multiset(r) + multiset(sorted[k..]);
    forall x: RetrievedChunk, y: RetrievedChunk | x in multiset(sorted) - multiset(r) && y in r
      ensures fp.rank(x.score) <= fp.rank(y.score)
    {
      assert x in multiset(sorted[k..]);
      var j :| k <= j < |sorted| && sorted[j] == x;
      var i :| 0 <= i < k && r[i] == y;
      assert RankAt(fp, sorted, i) >= RankAt(fp, sorted, j);
    }
  }

  /** Every returned item carries the id, entry id and text of a stored
      chunk, and no stored chunk is returned more often than it is stored. */
  lemma TopChunksFromStore(fp: FloatArithmetic, embeddings: EmbeddingsProvider, chunks: seq<ChunkRecord>,
                           query: seq<char>, limit: int)
    requires 0 <= limit
    requires embeddings.embedSentence(query).Some? ==> |embeddings.embedSentence(query).value| == embeddings.dimension
    ensures multiset(OriginsOf(TopChunks(fp, embeddings, Success(chunks), query, limit))) <= multiset(StoredOrigins(chunks))
  {
    var r := TopChunks(fp, embeddings, Success(chunks), query, limit);
    if r != [] {
      var qv := embeddings.embedSentence(query).value;
      var scored := Scored(fp, embeddings, qv, chunks);
      var sorted := SortByScore(fp, scored);
      assert r == sorted[..|r|];
      PrefixOrigins(sorted, |r|);
      SortOrigins(fp, scored);
    }
  }

  lemma PrefixOrigins(s: seq<RetrievedChunk>, k: nat)
    requires k <= |s|
    ensures multiset(OriginsOf(s[..k])) <= multiset(OriginsOf(s))
  {
    assert s == s[..k] + s[k..];
    OriginsAppend(s[..k], s[k..]);
  }

  lemma {:induction false} OriginsAppend(a: seq<RetrievedChunk>, b: seq<RetrievedChunk>)
    ensures OriginsOf(a + b) == OriginsOf(a) + OriginsOf(b)
  {
    if a == [] {
      assert a + b == b;
    } else {
      assert (a + b)[0] == a[0] && (a + b)[1..] == a[1..] + b;
      OriginsAppend(a[1..], b);
    }
  }

  /** A chunk whose stored vector has the provider's dimension is scored
      against it, whatever the provider would embed its text as. */
  lemma StoredVectorPreferred(fp: FloatArithmetic, embeddings: EmbeddingsProvider, other: EmbeddingsProvider,
                              qv: seq<Float32>, mo: ChunkRecord)
    requires |qv| == embeddings.dimension == other.dimension
    requires mo.vector.Some? && |ToFloatArray(mo.vector.value)| == embeddings.dimension
    ensures Score(fp, embeddings, qv, mo) == Score(fp, other, qv, mo)
    ensures Score(fp, embeddings, qv, mo).Some? &&
            Score(fp, embeddings, qv, mo).value.score == Cosine(fp, qv, ToFloatArray(mo.vector.value))
  {
  }

  /** Without a usable stored vector a chunk is kept exactly when its text
      embeds to a vector as long as the query's, and is then scored against it. */
  lemma FallbackScoring(fp: FloatArithmetic, embeddings: EmbeddingsProvider, qv: seq<Float32>, mo: ChunkRecord)
    requires |qv| == embeddings.dimension
    requires mo.vector.None? || |ToFloatArray(mo.vector.value)| != embeddings.dimension
    ensures var tv := embeddings.embedSentence(mo.text);
      && (Score(fp, embeddings, qv, mo).Some? <==> tv.Some? && |tv.value| == |qv|)
      && (Score(fp, embeddings, qv, mo).Some? ==> Score(fp, embeddings, qv, mo).value.score == Cosine(fp, qv, tv.value))
  {
  }

  /** A chunk written by `index` with a conforming provider is retrieved by
      the same provider exactly when its window could be embedded, and then
      scored against the stored vector, which equals that embedding. */
  lemma IndexedChunkScore(fp: FloatArithmetic, embeddings: EmbeddingsProvider, qv: seq<Float32>,
                          id: Uuid, entryId: Uuid, window: seq<char>)
    requires Conforms(embeddings) && |qv| == embeddings.dimension
    ensures var mo := Chunking.NewChunk(embeddings, id, entryId, window);
      var tv := embeddings.embedSentence(window);
      && (Score(fp, embeddings, qv, mo).Some? <==> tv.Some?)
      && (tv.Some? ==> mo.vector.Some? && ToFloatArray(mo.vector.value) == tv.value &&
                       Score(fp, embeddings, qv, mo) == Some(RetrievedChunk(id, entryId, window, Cosine(fp, qv, tv.value))))
  {
    var tv := embeddings.embedSentence(window);
    if tv.Some? {
      ToFloatArrayOfData(tv.value);
    }
  }
}
