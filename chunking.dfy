/** Chunking.swift: `TranscriptChunker.chunk`, a sliding window over the
    characters of a transcript, and `ChunkIndexer.index`, which stores one
    chunk record per window. */
module Chunking {
  import opened Base
  import opened Embeddings
  import opened Store

  /** The default window size and overlap of `chunk`. */
  const DefaultMaxChars := 1200
  const DefaultOverlap := 200

  /** The character range `[start, end)` of one window. */
  datatype Span = Span(start: nat, end: nat)

  /** The windows the loop of `chunk` emits once its offset is `i`: each ends
      at `min(start + maxChars, n)`, and the next starts `overlap` characters
      before that end. */
  function SpansFrom(n: nat, maxChars: int, overlap: int, i: nat): (r: seq<Span>)
    requires 0 < maxChars && overlap < maxChars
    ensures forall k :: 0 <= k < |r| ==> i <= r[k].start < r[k].end <= n
    ensures forall k :: 0 <= k < |r| ==> r[k].end == Min(r[k].start + maxChars, n)
    decreases n - i
  {
    if i >= n then []
    else
      var end := Min(i + maxChars, n);
      if end >= n then [Span(i, end)]
      else [Span(i, end)] + SpansFrom(n, maxChars, overlap, Max(0, end - overlap))
  }

  /** The windows over a text of `n` characters. */
  function Spans(n: nat, maxChars: int, overlap: int): seq<Span>
    requires 0 < maxChars && overlap < maxChars
  {
    SpansFrom(n, maxChars, overlap, 0)
  }

  /** What `chunk` returns: the text of each window. */
  function Windows(text: seq<char>, maxChars: int, overlap: int): (r: seq<seq<char>>)
    requires 0 < maxChars && overlap < maxChars
    ensures |r| == |Spans(|text|, maxChars, overlap)|
    ensures forall k :: 0 <= k < |r| ==> 0 < |r[k]| <= maxChars
    ensures |text| == 0 ==> r == []
    ensures 0 < |text| <= maxChars ==> r == [text]
  {
    var sp := Spans(|text|, maxChars, overlap);
    var r := seq(|sp|, k requires 0 <= k < |sp| => text[sp[k].start..sp[k].end]);
    assert 0 < |text| <= maxChars ==> sp == [Span(0, |text|)] && |r| == 1 && r[0] == text[0..|text|] == text;
    r
  }

  /** `TranscriptChunker.chunk`. The source requires nothing; this model
      admits `0 < maxChars` and `overlap < maxChars`, which every caller
      meets (1200/200). Outside that range the source behaves otherwise:
      with `0 < maxChars <= overlap` its loop never advances, with
      `maxChars == 0` and a negative overlap it emits empty strings, and
      with `maxChars < 0` the slice traps. A negative overlap within range
      terminates, leaving gaps. */
  method Chunk(text: seq<char>, maxChars: int, overlap: int) returns (chunks: seq<seq<char>>)
    requires 0 < maxChars && overlap < maxChars
    ensures chunks == Windows(text, maxChars, overlap)
  {
    if |text| == 0 {
      return [];
    }
    var n := |text|;
    var i: nat := 0;
    chunks := [];
    WindowsFromStart(text, maxChars, overlap);
    while i < n
      invariant chunks + WindowsFrom(text, maxChars, overlap, i) == Windows(text, maxChars, overlap)
      decreases n - i
    {
      var end := Min(i + maxChars, n);
      WindowsAdvance(text, maxChars, overlap, chunks, i);
      chunks := chunks + [text[i..end]];
      if end >= n {
        break;
      }
      i := Max(0, end - overlap);
    }
  }

  /** The chunks the loop of `chunk` still emits once its offset is `i`. */
  function WindowsFrom(text: seq<char>, maxChars: int, overlap: int, i: nat): seq<seq<char>>
    requires 0 < maxChars && overlap < maxChars
    decreases |text| - i
  {
    if i >= |text| then []
    else
      var end := Min(i + maxChars, |text|);
      if end >= |text| then [text[i..end]]
      else [text[i..end]] + WindowsFrom(text, maxChars, overlap, Max(0, end - overlap))
  }

  /** `WindowsFrom` is the text of each span of `SpansFrom`. */
  lemma {:induction false} WindowsFromSpans(text: seq<char>, maxChars: int, overlap: int, i: nat)
    requires 0 < maxChars && overlap < maxChars
    ensures var sp := SpansFrom(|text|, maxChars, overlap, i);
      var w := WindowsFrom(text, maxChars, overlap, i);
      |w| == |sp| && forall k :: 0 <= k < |sp| ==> w[k] == text[sp[k].start..sp[k].end]
    decreases |text| - i
  {
    var n := |text|;
    if i < n {
      var end := Min(i + maxChars, n);
      if end < n {
        WindowsFromSpans(text, maxChars, overlap, Max(0, end - overlap));
      }
    }
  }

  lemma WindowsFromStart(text: seq<char>, maxChars: int, overlap: int)
    requires 0 < maxChars && overlap < maxChars
    ensures WindowsFrom(text, maxChars, overlap, 0) == Windows(text, maxChars, overlap)
  {
    WindowsFromSpans(text, maxChars, overlap, 0);
  }

  /** The loop invariant of `chunk` carried over one emitted window. */
  lemma WindowsAdvance(text: seq<char>, maxChars: int, overlap: int, chunks: seq<seq<char>>, i: nat)
    requires 0 < maxChars && overlap < maxChars && i < |text|
    requires chunks + WindowsFrom(text, maxChars, overlap, i) == Windows(text, maxChars, overlap)
    ensures var end := Min(i + maxChars, |text|);
      if end >= |text| then chunks + [text[i..end]] == Windows(text, maxChars, overlap)
      else (chunks + [text[i..end]]) + WindowsFrom(text, maxChars, overlap, Max(0, end - overlap)) == Windows(text, maxChars, overlap)
  {
    var end := Min(i + maxChars, |text|);
    if end < |text| {
      var rest := WindowsFrom(text, maxChars, overlap, Max(0, end - overlap));
      assert chunks + ([text[i..end]] + rest) == (chunks + [text[i..end]]) + rest;
    }
  }

  /** Consecutive windows: every window but the last is a full `maxChars`
      long and ends before the text does, and the next one starts `overlap`
      characters before that end, so the start offset grows by
      `maxChars - overlap > 0` each step. */
  ghost predicate Stepped(r: seq<Span>, n: nat, maxChars: int, overlap: int)
  {
    forall k :: 0 <= k < |r| - 1 ==>
      r[k].end == r[k].start + maxChars < n && r[k + 1].start == r[k].end - overlap
  }

  lemma {:induction false} SpansStep(n: nat, maxChars: int, overlap: int, i: nat)
    requires 0 < maxChars && overlap < maxChars
    ensures Stepped(SpansFrom(n, maxChars, overlap, i), n, maxChars, overlap)
    decreases n - i
  {
    var r := SpansFrom(n, maxChars, overlap, i);
    var end := Min(i + maxChars, n);
    if i < n && end < n {
      var next := Max(0, end - overlap);
      assert next == end - overlap;
      var tail := SpansFrom(n, maxChars, overlap, next);
      SpansStep(n, maxChars, overlap, next);
      assert r == [Span(i, end)] + tail;
      forall k | 0 <= k < |r| - 1
        ensures r[k].end == r[k].start + maxChars < n && r[k + 1].start == r[k].end - overlap
      {
        if k == 0 {
          assert tail[0].start == next;
        } else {
          assert r[k] == tail[k - 1] && r[k + 1] == tail[k];
        }
      }
    }
  }

  /** With a non-negative overlap the last window ends at the end of the text. */
  lemma {:induction false} SpansReachEnd(n: nat, maxChars: int, overlap: int, i: nat)
    requires 0 < maxChars && 0 <= overlap < maxChars && i < n
    ensures var r := SpansFrom(n, maxChars, overlap, i);
      |r| > 0 && r[0].start == i && r[|r| - 1].end == n
    decreases n - i
  {
    var end := Min(i + maxChars, n);
    if end < n {
      SpansReachEnd(n, maxChars, overlap, Max(0, end - overlap));
    }
  }

  /** Position `p` lies in one of the windows `r`. */
  ghost predicate Covered(r: seq<Span>, p: nat)
  {
    exists k :: 0 <= k < |r| && r[k].start <= p < r[k].end
  }

  /** No gaps: with `0 <= overlap`, every position from `i` on lies in some window. */
  lemma {:induction false} SpansCover(n: nat, maxChars: int, overlap: int, i: nat, p: nat)
    requires 0 < maxChars && 0 <= overlap < maxChars && i <= p < n
    ensures Covered(SpansFrom(n, maxChars, overlap, i), p)
    decreases n - i
  {
    var r := SpansFrom(n, maxChars, overlap, i);
    var end := Min(i + maxChars, n);
    if p < end {
      assert r[0].start <= p < r[0].end;
    } else {
      var next := Max(0, end - overlap);
      SpansCover(n, maxChars, overlap, next, p);
      var tail := SpansFrom(n, maxChars, overlap, next);
      var k :| 0 <= k < |tail| && tail[k].start <= p < tail[k].end;
      assert r == [Span(i, end)] + tail;
      assert r[k + 1] == tail[k];
    }
  }

  /** The chunks of a non-empty text start at offset 0, the last one ends at
      the end of the text, and every character lies in some chunk. */
  lemma Coverage(text: seq<char>, maxChars: int, overlap: int)
    requires 0 < maxChars && 0 <= overlap < maxChars && |text| > 0
    ensures var r := Spans(|text|, maxChars, overlap);
      && |r| > 0 && r[0].start == 0 && r[|r| - 1].end == |text|
      && forall p :: 0 <= p < |text| ==> Covered(r, p)
  {
    SpansReachEnd(|text|, maxChars, overlap, 0);
    forall p | 0 <= p < |text|
      ensures Covered(Spans(|text|, maxChars, overlap), p)
    {
      SpansCover(|text|, maxChars, overlap, 0, p);
    }
  }

  /** Each next chunk begins with exactly the last `overlap` characters of the
      chunk before it. */
  lemma ConsecutiveChunksOverlap(text: seq<char>, maxChars: int, overlap: int, k: nat)
    requires 0 < maxChars && 0 <= overlap < maxChars
    requires k + 1 < |Windows(text, maxChars, overlap)|
    ensures var w := Windows(text, maxChars, overlap);
      |w[k]| == maxChars && overlap < |w[k + 1]| &&
      w[k][maxChars - overlap..] == w[k + 1][..overlap]
  {
    var sp := Spans(|text|, maxChars, overlap);
    SpansStep(|text|, maxChars, overlap, 0);
    var s, e := sp[k].start, sp[k].end;
    assert e == s + maxChars < |text|;
    assert sp[k + 1].start == e - overlap;
    assert sp[k + 1].end > e;
    SliceOverlap(text, s, e, sp[k + 1].end, maxChars, overlap);
  }

  /** Two slices of `text`, `[s, s + maxChars)` and one starting `overlap`
      before its end and reaching past it, share exactly those characters. */
  lemma SliceOverlap(text: seq<char>, s: nat, e: nat, e2: nat, maxChars: int, overlap: int)
    requires 0 <= overlap < maxChars && e == s + maxChars && e < e2 <= |text|
    ensures text[s..e][maxChars - overlap..] == text[e - overlap..e2][..overlap]
  {
    assert text[s..e][maxChars - overlap..] == text[e - overlap..e];
    assert text[e - overlap..e2][..overlap] == text[e - overlap..e];
  }

  /** The default parameters on a 2500-character text give the windows
      [0,1200), [1000,2200) and [2000,2500). */
  lemma DefaultWindowsOf2500()
    ensures Spans(2500, DefaultMaxChars, DefaultOverlap) == [Span(0, 1200), Span(1000, 2200), Span(2000, 2500)]
  {
    assert SpansFrom(2500, 1200, 200, 2000) == [Span(2000, 2500)];
    assert SpansFrom(2500, 1200, 200, 1000) == [Span(1000, 2200), Span(2000, 2500)];
  }

  // ---------------------------------------------------------------------------
  // ChunkIndexer.index

  /** The record `index` inserts for window `t`: nil summary and tags, the
      character count as token count, and the serialised embedding if the
      provider produced one. */
  function NewChunk(embeddings: EmbeddingsProvider, id: Uuid, entryId: Uuid, t: seq<char>): ChunkRecord
  {
    ChunkRecord(id, entryId, t, None, None,
                match embeddings.embedSentence(t)
                case Some(v) => Some(AsFloat32Data(v))
                case None => None,
                |t|)
  }

  /** The records for `parts`, with the consecutive identifiers from `firstId`. */
  function NewChunks(embeddings: EmbeddingsProvider, firstId: Uuid, entryId: Uuid, parts: seq<seq<char>>): (r: seq<ChunkRecord>)
    ensures |r| == |parts|
  {
    seq(|parts|, k requires 0 <= k < |parts| => NewChunk(embeddings, firstId + k, entryId, parts[k]))
  }

  /** One pass of the loop of `index`: a record with a fresh identifier for
      window `t`, its vector serialised when the provider embeds `t`. */
  method AddChunk(ctx: Context, embeddings: EmbeddingsProvider, entryId: Uuid, t: seq<char>)
    requires ctx.Valid()
    modifies ctx
    ensures ctx.Valid()
    ensures ctx.entries == old(ctx.entries)
    ensures ctx.nextId == old(ctx.nextId) + 1
    ensures ctx.chunks == old(ctx.chunks) + [NewChunk(embeddings, old(ctx.nextId), entryId, t)]
  {
    var id := ctx.NewId();
    var vector: Option<seq<Byte>> := None;
    var v := embeddings.embedSentence(t);
    if v.Some? {
      vector := Some(AsFloat32Data(v.value));
    }
    ctx.InsertChunk(ChunkRecord(id, entryId, t, None, None, vector, |t|));
  }

  /** `ChunkIndexer.index`: one new record per window of the default chunking,
      appended after everything already stored (earlier chunks of the same
      entry included). */
  method Index(ctx: Context, embeddings: EmbeddingsProvider, entry: EntryRecord, text: seq<char>)
    requires ctx.Valid()
    modifies ctx
    ensures ctx.Valid()
    ensures ctx.entries == old(ctx.entries)
    ensures ctx.chunks == old(ctx.chunks) +
              NewChunks(embeddings, old(ctx.nextId), entry.id, Windows(text, DefaultMaxChars, DefaultOverlap))
    ensures ctx.nextId == old(ctx.nextId) + |Windows(text, DefaultMaxChars, DefaultOverlap)|
  {
    var parts := Chunk(text, DefaultMaxChars, DefaultOverlap);
    ghost var before := ctx.chunks;
    for k := 0 to |parts|
      invariant ctx.Valid()
      invariant ctx.entries == old(ctx.entries)
      invariant ctx.nextId == old(ctx.nextId) + k
      invariant ctx.chunks == before + NewChunks(embeddings, old(ctx.nextId), entry.id, parts[..k])
    {
      ghost var prefix := NewChunks(embeddings, old(ctx.nextId), entry.id, parts[..k]);
      AddChunk(ctx, embeddings, entry.id, parts[k]);
      NewChunksSnoc(embeddings, old(ctx.nextId), entry.id, parts, k);
      assert (before + prefix) + [NewChunk(embeddings, old(ctx.nextId) + k, entry.id, parts[k])] ==
             before + (prefix + [NewChunk(embeddings, old(ctx.nextId) + k, entry.id, parts[k])]);
    }
    assert parts[..|parts|] == parts;
  }

  lemma NewChunksSnoc(embeddings: EmbeddingsProvider, firstId: Uuid, entryId: Uuid, parts: seq<seq<char>>, k: nat)
    requires k < |parts|
    ensures NewChunks(embeddings, firstId, entryId, parts[..k + 1]) ==
            NewChunks(embeddings, firstId, entryId, parts[..k]) + [NewChunk(embeddings, firstId + k, entryId, parts[k])]
  {
    assert parts[..k + 1][k] == parts[k];
  }

  /** The chunks stored for one entry, in store order. */
  function ChunksOf(chunks: seq<ChunkRecord>, entryId: Uuid): (r: seq<ChunkRecord>)
    ensures forall k :: 0 <= k < |r| ==> r[k].entryId == entryId
  {
    if chunks == [] then []
    else ChunksOf(chunks[..|chunks| - 1], entryId) +
         if chunks[|chunks| - 1].entryId == entryId then [chunks[|chunks| - 1]] else []
  }

  lemma {:induction false} ChunksOfAppend(xs: seq<ChunkRecord>, ys: seq<ChunkRecord>, entryId: Uuid)
    ensures ChunksOf(xs + ys, entryId) == ChunksOf(xs, entryId) + ChunksOf(ys, entryId)
    decreases |ys|
  {
    if ys == [] {
      assert xs + ys == xs;
    } else {
      assert (xs + ys)[..|xs + ys| - 1] == xs + ys[..|ys| - 1];
      ChunksOfAppend(xs, ys[..|ys| - 1], entryId);
    }
  }

  lemma {:induction false} ChunksOfOwn(ys: seq<ChunkRecord>, entryId: Uuid)
    requires forall k :: 0 <= k < |ys| ==> ys[k].entryId == entryId
    ensures ChunksOf(ys, entryId) == ys
  {
    if ys != [] {
      ChunksOfOwn(ys[..|ys| - 1], entryId);
      assert ys[..|ys| - 1] + [ys[|ys| - 1]] == ys;
    }
  }

  /** Indexing an entry's text again keeps its earlier chunks and adds the
      new batch (of any windows, the default ones of `Index` included) after
      them: the entry's chunk list only grows. */
  lemma ReindexAppends(old_chunks: seq<ChunkRecord>, embeddings: EmbeddingsProvider, firstId: Uuid, entryId: Uuid,
                        parts: seq<seq<char>>)
    ensures var batch := NewChunks(embeddings, firstId, entryId, parts);
      ChunksOf(old_chunks + batch, entryId) == ChunksOf(old_chunks, entryId) + batch
  {
    var batch := NewChunks(embeddings, firstId, entryId, parts);
    ChunksOfAppend(old_chunks, batch, entryId);
    ChunksOfOwn(batch, entryId);
  }

  /** A new record keeps a vector exactly when the provider embedded its
      window; the stored bytes read back as that embedding, which for a
      conforming provider has `dimension` components. The token count is the
      window length, at most 1200, so `Int32(t.count)` cannot trap. */
  lemma NewChunkVector(embeddings: EmbeddingsProvider, firstId: Uuid, entryId: Uuid, text: seq<char>, k: nat)
    requires k < |Windows(text, DefaultMaxChars, DefaultOverlap)|
    ensures var w := Windows(text, DefaultMaxChars, DefaultOverlap)[k];
      var c := NewChunks(embeddings, firstId, entryId, Windows(text, DefaultMaxChars, DefaultOverlap))[k];
      && c.id == firstId + k && c.entryId == entryId && c.text == w
      && c.summary.None? && c.tags.None?
      && c.tokenCount == |w| && 0 < c.tokenCount <= DefaultMaxChars
      && (c.vector.Some? <==> embeddings.embedSentence(w).Some?)
      && (c.vector.Some? ==> ToFloatArray(c.vector.value) == embeddings.embedSentence(w).value)
      && (c.vector.Some? && Conforms(embeddings) ==> |ToFloatArray(c.vector.value)| == embeddings.dimension)
  {
    var w := Windows(text, DefaultMaxChars, DefaultOverlap)[k];
    match embeddings.embedSentence(w)
    case Some(v) => ToFloatArrayOfData(v);
    case None =>
  }
}
