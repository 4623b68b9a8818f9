/** The embedding side of the retrieval core (EmbeddingsProvider.swift):
    the `EmbeddingsProvider` capability, the bag-of-words mean embedding of
    `NLEmbeddingsProvider`, cosine similarity, and the `Float` array <-> `Data`
    conversions used to store vectors.

    Float arithmetic is not interpreted: every single-precision operation the
    source performs is a field of `FloatArithmetic`, so the results below are
    exact about WHICH operations are applied to WHICH operands, and say nothing
    about their numeric values. */
module Embeddings {
  import opened Base

  /** The IEEE-754 single-precision operations the source uses, uninterpreted.
      `rank` models the comparison `x > y` on scores as `rank(x) > rank(y)`. */
  datatype FloatArithmetic = FloatArithmetic(
    zero: Float32,
    add: (Float32, Float32) -> Float32,
    mul: (Float32, Float32) -> Float32,
    div: (Float32, Float32) -> Float32,
    squareRoot: Float32 -> Float32,
    fromInt: int -> Float32,
    fromDouble: Float64 -> Float32,
    epsilon: Float32,
    rank: Float32 -> int)

  /** The `EmbeddingsProvider` protocol: a dimension and a sentence embedder
      (the unused language hint is dropped). */
  datatype EmbeddingsProvider = EmbeddingsProvider(
    dimension: int,
    embedSentence: seq<char> -> Option<seq<Float32>>)

  /** What callers of the protocol rely on: every embedding it produces has
      `dimension` components. */
  ghost predicate Conforms(p: EmbeddingsProvider)
  {
    forall text :: p.embedSentence(text).Some? ==> |p.embedSentence(text).value| == p.dimension
  }

  // ---------------------------------------------------------------------------
  // NLEmbeddingsProvider

  /** A loaded word embedding: its dimension and its per-word lookup
      (`NLEmbedding.vector(for:)`, which yields `[Double]`). */
  datatype WordTable = WordTable(dimension: nat, vector: seq<char> -> Option<seq<Float64>>)

  ghost predicate WellFormed(t: WordTable)
  {
    forall w :: t.vector(w).Some? ==> |t.vector(w).value| == t.dimension
  }

  /** A word table whose vectors all have the table's dimension. */
  type WordEmbedding = t: WordTable | WellFormed(t) witness WordTable(0, w => None)

  /** The linguistic services the provider calls: word segmentation
      (`enumerateSubstrings(..., .byWords)`) and `lowercased()`. */
  datatype TextAnalysis = TextAnalysis(
    words: seq<char> -> seq<seq<char>>,
    lowercased: seq<char> -> seq<char>)

  /** `embedding` is absent when no word embedding exists for the language. */
  datatype NLEmbeddingsProvider = NLEmbeddingsProvider(
    embedding: Option<WordEmbedding>,
    analysis: TextAnalysis)

  /** `embedding?.dimension ?? 0` */
  function Dimension(p: NLEmbeddingsProvider): nat
  {
    match p.embedding
    case None => 0
    case Some(t) => t.dimension
  }

  /** The vectors of the words whose lowercased form the table knows, in word
      order. Their number is the divisor of the mean. */
  function Matched(t: WordEmbedding, a: TextAnalysis, words: seq<seq<char>>): (vs: seq<seq<Float64>>)
    ensures |vs| <= |words|
    ensures forall k :: 0 <= k < |vs| ==> |vs[k]| == t.dimension
  {
    if words == [] then []
    else
      Matched(t, a, words[..|words| - 1]) +
      match t.vector(a.lowercased(words[|words| - 1]))
      case Some(v) => [v]
      case None => []
  }

  function Zeros(fp: FloatArithmetic, n: nat): (r: seq<Float32>)
    ensures |r| == n && forall i :: 0 <= i < n ==> r[i] == fp.zero
  {
    seq(n, _ => fp.zero)
  }

  /** `sum[i] += Float(v[i])` for every component. */
  function Accumulate(fp: FloatArithmetic, sum: seq<Float32>, v: seq<Float64>): (r: seq<Float32>)
    requires |v| == |sum|
  {
    seq(|sum|, i requires 0 <= i < |sum| => fp.add(sum[i], fp.fromDouble(v[i])))
  }

  /** The component-wise sum of `vs`, accumulated left to right from zeros. */
  function VectorSum(fp: FloatArithmetic, dim: nat, vs: seq<seq<Float64>>): (r: seq<Float32>)
    requires forall k :: 0 <= k < |vs| ==> |vs[k]| == dim
    ensures |r| == dim
  {
    if vs == [] then Zeros(fp, dim)
    else Accumulate(fp, VectorSum(fp, dim, vs[..|vs| - 1]), vs[|vs| - 1])
  }

  /** `sum[i] /= Float(count)` for every component. */
  function Scale(fp: FloatArithmetic, sum: seq<Float32>, count: int): (r: seq<Float32>)
  {
    seq(|sum|, i requires 0 <= i < |sum| => fp.div(sum[i], fp.fromInt(count)))
  }

  /** The mean of the known word vectors of `words`, absent when none is known. */
  function MeanEmbedding(fp: FloatArithmetic, t: WordEmbedding, a: TextAnalysis, words: seq<seq<char>>): (r: Option<seq<Float32>>)
    ensures r.Some? ==> |r.value| == t.dimension
  {
    var vs := Matched(t, a, words);
    if |vs| == 0 then None
    else Some(Scale(fp, VectorSum(fp, t.dimension, vs), |vs|))
  }

  /** What `embedSentence` returns. */
  function Embed(fp: FloatArithmetic, p: NLEmbeddingsProvider, text: seq<char>): (r: Option<seq<Float32>>)
    ensures r.Some? ==> |r.value| == Dimension(p)
  {
    match p.embedding
    case None => None
    case Some(t) => MeanEmbedding(fp, t, p.analysis, p.analysis.words(text))
  }

  /** The inner loop of `embedSentence`: `sum[i] += Float(v[i])`. */
  method AddInto(fp: FloatArithmetic, sum: seq<Float32>, v: seq<Float64>) returns (r: seq<Float32>)
    requires |v| == |sum|
    ensures r == Accumulate(fp, sum, v)
  {
    r := sum;
    for i := 0 to |sum|
      invariant |r| == |sum|
      invariant forall m :: 0 <= m < i ==> r[m] == fp.add(sum[m], fp.fromDouble(v[m]))
      invariant forall m :: i <= m < |sum| ==> r[m] == sum[m]
    {
      r := r[i := fp.add(r[i], fp.fromDouble(v[i]))];
    }
  }

  /** The final loop of `embedSentence`: `sum[i] /= Float(count)`. */
  method DivideBy(fp: FloatArithmetic, sum: seq<Float32>, count: int) returns (r: seq<Float32>)
    ensures r == Scale(fp, sum, count)
  {
    r := sum;
    for i := 0 to |sum|
      invariant |r| == |sum|
      invariant forall m :: 0 <= m < i ==> r[m] == fp.div(sum[m], fp.fromInt(count))
      invariant forall m :: i <= m < |sum| ==> r[m] == sum[m]
    {
      r := r[i := fp.div(r[i], fp.fromInt(count))];
    }
  }

  /** `NLEmbeddingsProvider.embedSentence`: accumulate the vectors of the
      known words, then divide by their number. */
  method EmbedSentence(fp: FloatArithmetic, p: NLEmbeddingsProvider, text: seq<char>) returns (r: Option<seq<Float32>>)
    ensures r == Embed(fp, p, text)
  {
    if p.embedding.None? {
      return None;
    }
    var emb := p.embedding.value;
    var sum := Zeros(fp, emb.dimension);
    var count := 0;
    var words := p.analysis.words(text);
    for n := 0 to |words|
      invariant sum == VectorSum(fp, emb.dimension, Matched(emb, p.analysis, words[..n]))
      invariant count == |Matched(emb, p.analysis, words[..n])|
    {
      assert words[..n + 1][..n] == words[..n];
      var v := emb.vector(p.analysis.lowercased(words[n]));
      ghost var init := Matched(emb, p.analysis, words[..n]);
      if v.Some? {
        assert Matched(emb, p.analysis, words[..n + 1]) == init + [v.value];
        assert (init + [v.value])[..|init|] == init;
        sum := AddInto(fp, sum, v.value);
        count := count + 1;
      } else {
        assert Matched(emb, p.analysis, words[..n + 1]) == init;
      }
    }
    assert words[..|words|] == words;
    if count == 0 {
      return None;
    }
    sum := DivideBy(fp, sum, count);
    return Some(sum);
  }

  /** The provider seen through the protocol. */
  function AsProvider(fp: FloatArithmetic, p: NLEmbeddingsProvider): (q: EmbeddingsProvider)
    ensures Conforms(q)
    ensures q.dimension == 0 <==> p.embedding.None? || p.embedding.value.dimension == 0
  {
    EmbeddingsProvider(Dimension(p), text => Embed(fp, p, text))
  }

  /** `Matched` distributes over concatenation of word lists. */
  lemma {:induction false} MatchedAppend(t: WordEmbedding, a: TextAnalysis, xs: seq<seq<char>>, ys: seq<seq<char>>)
    ensures Matched(t, a, xs + ys) == Matched(t, a, xs) + Matched(t, a, ys)
    decreases |ys|
  {
    if ys == [] {
      assert xs + ys == xs;
    } else {
      var init := ys[..|ys| - 1];
      assert (xs + ys)[..|xs + ys| - 1] == xs + init;
      assert (xs + ys)[|xs + ys| - 1] == ys[|ys| - 1];
      MatchedAppend(t, a, xs, init);
    }
  }

  /** Some word is matched exactly when some word's lowercased form is known. */
  lemma {:induction false} MatchedNonEmptyIff(t: WordEmbedding, a: TextAnalysis, words: seq<seq<char>>)
    ensures |Matched(t, a, words)| > 0 <==> exists k :: 0 <= k < |words| && t.vector(a.lowercased(words[k])).Some?
  {
    if words != [] {
      var init := words[..|words| - 1];
      MatchedNonEmptyIff(t, a, init);
      if |Matched(t, a, init)| > 0 {
        var k :| 0 <= k < |init| && t.vector(a.lowercased(init[k])).Some?;
        assert words[k] == init[k];
      }
      forall k | 0 <= k < |words| - 1
        ensures words[k] == init[k]
      {
      }
    }
  }

  /** `embedSentence` is absent exactly when no table is loaded or no word of
      the text has a known vector; otherwise it has the table's dimension. */
  lemma EmbedPresentIff(fp: FloatArithmetic, p: NLEmbeddingsProvider, text: seq<char>)
    ensures Embed(fp, p, text).Some? <==>
              p.embedding.Some? &&
              exists k :: 0 <= k < |p.analysis.words(text)| &&
                          p.embedding.value.vector(p.analysis.lowercased(p.analysis.words(text)[k])).Some?
    ensures Embed(fp, p, text).Some? ==> |Embed(fp, p, text).value| == Dimension(p)
  {
    if p.embedding.Some? {
      MatchedNonEmptyIff(p.embedding.value, p.analysis, p.analysis.words(text));
    }
  }

  /** A word whose lowercased form has no vector contributes neither to the
      sum nor to the divisor: removing it leaves the embedding unchanged. */
  lemma UnknownWordIgnored(fp: FloatArithmetic, t: WordEmbedding, a: TextAnalysis, words: seq<seq<char>>, k: nat)
    requires k < |words|
    requires t.vector(a.lowercased(words[k])).None?
    ensures MeanEmbedding(fp, t, a, words) == MeanEmbedding(fp, t, a, words[..k] + words[k + 1..])
  {
    assert [words[k]][..0] == [];
    assert Matched(t, a, [words[k]]) == [];
    assert words == words[..k] + [words[k]] + words[k + 1..];
    MatchedAppend(t, a, words[..k] + [words[k]], words[k + 1..]);
    MatchedAppend(t, a, words[..k], [words[k]]);
    MatchedAppend(t, a, words[..k], words[k + 1..]);
    assert Matched(t, a, words) == Matched(t, a, words[..k] + words[k + 1..]);
  }

  // ---------------------------------------------------------------------------
  // cosineSimilarity

  /** The three accumulators of the cosine loop. */
  datatype Sums = Sums(dot: Float32, na: Float32, nb: Float32)

  /** The accumulators after the first `k` components. */
  function SumsUpTo(fp: FloatArithmetic, a: seq<Float32>, b: seq<Float32>, k: nat): Sums
    requires |a| == |b| && k <= |a|
  {
    if k == 0 then Sums(fp.zero, fp.zero, fp.zero)
    else
      var s := SumsUpTo(fp, a, b, k - 1);
      Sums(fp.add(s.dot, fp.mul(a[k - 1], b[k - 1])),
           fp.add(s.na, fp.mul(a[k - 1], a[k - 1])),
           fp.add(s.nb, fp.mul(b[k - 1], b[k - 1])))
  }

  /** `dot / (sqrt(na) * sqrt(nb) + 1e-8)` over the whole vectors. */
  function Cosine(fp: FloatArithmetic, a: seq<Float32>, b: seq<Float32>): Float32
    requires |a| == |b|
  {
    var s := SumsUpTo(fp, a, b, |a|);
    fp.div(s.dot, fp.add(fp.mul(fp.squareRoot(s.na), fp.squareRoot(s.nb)), fp.epsilon))
  }

  /** `cosineSimilarity`, whose precondition is that the lengths agree. */
  method CosineSimilarity(fp: FloatArithmetic, a: seq<Float32>, b: seq<Float32>) returns (r: Float32)
    requires |a| == |b|
    ensures r == Cosine(fp, a, b)
  {
    var dot, na, nb := fp.zero, fp.zero, fp.zero;
    for i := 0 to |a|
      invariant SumsUpTo(fp, a, b, i) == Sums(dot, na, nb)
    {
      dot := fp.add(dot, fp.mul(a[i], b[i]));
      na := fp.add(na, fp.mul(a[i], a[i]));
      nb := fp.add(nb, fp.mul(b[i], b[i]));
    }
    var denom := fp.add(fp.mul(fp.squareRoot(na), fp.squareRoot(nb)), fp.epsilon);
    r := fp.div(dot, denom);
  }

  /** IEEE multiplication is commutative, and then the similarity is symmetric. */
  lemma {:induction false} SumsSwap(fp: FloatArithmetic, a: seq<Float32>, b: seq<Float32>, k: nat)
    requires |a| == |b| && k <= |a|
    requires forall x, y :: fp.mul(x, y) == fp.mul(y, x)
    ensures SumsUpTo(fp, b, a, k) == Sums(SumsUpTo(fp, a, b, k).dot, SumsUpTo(fp, a, b, k).nb, SumsUpTo(fp, a, b, k).na)
  {
    if k > 0 {
      SumsSwap(fp, a, b, k - 1);
      assert fp.mul(b[k - 1], a[k - 1]) == fp.mul(a[k - 1], b[k - 1]);
    }
  }

  lemma CosineSymmetric(fp: FloatArithmetic, a: seq<Float32>, b: seq<Float32>)
    requires |a| == |b|
    requires forall x, y :: fp.mul(x, y) == fp.mul(y, x)
    ensures Cosine(fp, a, b) == Cosine(fp, b, a)
  {
    var s := SumsUpTo(fp, a, b, |a|);
    SumsSwap(fp, a, b, |a|);
    assert fp.mul(fp.squareRoot(s.nb), fp.squareRoot(s.na)) == fp.mul(fp.squareRoot(s.na), fp.squareRoot(s.nb));
  }

  // ---------------------------------------------------------------------------
  // [Float].asFloat32Data() and Data.toFloatArray(), little-endian

  /** The four bytes of one `Float`, least significant first. */
  function Float32Bytes(x: Float32): seq<Byte>
  {
    [(x & 0xFF) as Byte, ((x >> 8) & 0xFF) as Byte, ((x >> 16) & 0xFF) as Byte, (x >> 24) as Byte]
  }

  function Float32FromBytes(b0: Byte, b1: Byte, b2: Byte, b3: Byte): Float32
  {
    (b0 as Float32) | ((b1 as Float32) << 8) | ((b2 as Float32) << 16) | ((b3 as Float32) << 24)
  }

  lemma BytesRoundTrip(x: Float32)
    ensures var d := Float32Bytes(x); Float32FromBytes(d[0], d[1], d[2], d[3]) == x
  {
  }

  lemma FloatRoundTrip(b0: Byte, b1: Byte, b2: Byte, b3: Byte)
    ensures Float32Bytes(Float32FromBytes(b0, b1, b2, b3)) == [b0, b1, b2, b3]
  {
  }

  /** `asFloat32Data`: the raw bytes, four per element. */
  function AsFloat32Data(v: seq<Float32>): (d: seq<Byte>)
    ensures |d| == 4 * |v|
  {
    if v == [] then [] else Float32Bytes(v[0]) + AsFloat32Data(v[1..])
  }

  /** `toFloatArray`: one element per whole group of four bytes; trailing
      bytes are dropped. */
  function ToFloatArray(d: seq<Byte>): (v: seq<Float32>)
    ensures |v| == |d| / 4
  {
    if |d| < 4 then [] else [Float32FromBytes(d[0], d[1], d[2], d[3])] + ToFloatArray(d[4..])
  }

  lemma {:induction false} ToFloatArrayOfData(v: seq<Float32>)
    ensures ToFloatArray(AsFloat32Data(v)) == v
  {
    if v != [] {
      var d := AsFloat32Data(v);
      assert d[..4] == Float32Bytes(v[0]);
      assert d[4..] == AsFloat32Data(v[1..]);
      BytesRoundTrip(v[0]);
      ToFloatArrayOfData(v[1..]);
    }
  }

  lemma {:induction false} DataOfToFloatArray(d: seq<Byte>)
    ensures AsFloat32Data(ToFloatArray(d)) == d[..|d| / 4 * 4]
  {
    if |d| >= 4 {
      var v := ToFloatArray(d);
      assert v[1..] == ToFloatArray(d[4..]);
      DataOfToFloatArray(d[4..]);
      FloatRoundTrip(d[0], d[1], d[2], d[3]);
      assert |d[4..]| / 4 * 4 == |d| / 4 * 4 - 4;
      assert d[..|d| / 4 * 4] == d[..4] + d[4..][..|d[4..]| / 4 * 4];
    }
  }
}
