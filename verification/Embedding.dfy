/** Embedding the chunks of a document in batches, padding the local model's vectors, and storing the chunks
    (backend/src/services/rag_ingestion.py, lines 83-147; backend/src/services/llm.py, lines 106-138). */
module Embedding {
  import opened Options
  import Chunker

  type Vector = seq<real>

  const BATCH: nat := 20
  const DIMENSION: nat := 1536

  datatype Reply = Raised | Vectors(vs: seq<Vector>)

  /** The remote model, and the local one where it is installed. */
  datatype Models = Models(primary: seq<string> -> Reply, local: Option<seq<string> -> Reply>)

  // ---- padding ----

  function Pad(v: Vector): Vector {
    if |v| < DIMENSION then v + seq(DIMENSION - |v|, _ => 0.0) else v[..DIMENSION]
  }

  function Dot(u: Vector, v: Vector): real
    requires |u| == |v|
  {
    if u == [] then 0.0 else Dot(u[..|u| - 1], v[..|v| - 1]) + u[|u| - 1] * v[|v| - 1]
  }

  lemma {:induction false} DotParts(u: Vector, v: Vector, s: Vector, t: Vector)
    requires |u| == |v| && |s| == |t|
    ensures Dot(u + s, v + t) == Dot(u, v) + Dot(s, t)
  {
    if s == [] {
      assert u + s == u && v + t == v;
    } else {
      var n := |s| - 1;
      assert (u + s)[..|u + s| - 1] == u + s[..n] && (v + t)[..|v + t| - 1] == v + t[..n];
      DotParts(u, v, s[..n], t[..n]);
    }
  }

  lemma {:induction false} DotZeros(n: nat)
    ensures Dot(seq(n, _ => 0.0), seq(n, _ => 0.0)) == 0.0
  {
    if n > 0 {
      var z: Vector := seq(n, _ => 0.0);
      assert z[..n - 1] == seq(n - 1, _ => 0.0);
      DotZeros(n - 1);
    }
  }

  function Beyond(v: Vector): Vector {
    if |v| <= DIMENSION then [] else v[DIMENSION..]
  }

  /** A padded vector has the width of the column, and padding two vectors of equal length takes from their
      inner product what lies beyond that width: nothing, when they are no longer than it. */
  lemma {:induction false} PaddingKeepsDot(u: Vector, v: Vector)
    requires |u| == |v|
    ensures |Pad(u)| == |Pad(v)| == DIMENSION
    ensures Dot(Pad(u), Pad(v)) == Dot(u, v) - Dot(Beyond(u), Beyond(v))
    ensures |u| <= DIMENSION ==> Dot(Pad(u), Pad(v)) == Dot(u, v)
  {
    hide Dot;
    DotEmpty();
    if |u| < DIMENSION {
      var zeros: Vector := seq(DIMENSION - |u|, _ => 0.0);
      DotParts(u, v, zeros, zeros);
      DotZeros(DIMENSION - |u|);
    } else {
      Cut(u);
      Cut(v);
      DotParts(Pad(u), Pad(v), Beyond(u), Beyond(v));
      if |u| == DIMENSION {
        assert Pad(u) == u && Pad(v) == v;
      }
    }
  }

  lemma {:induction false} DotEmpty()
    ensures Dot([], []) == 0.0
  {
  }

  lemma {:induction false} Cut(v: Vector)
    requires |v| >= DIMENSION
    ensures v == Pad(v) + Beyond(v) && |Pad(v)| == DIMENSION
  {
  }

  /** What the fallback answers. */
  function Embed(m: Models, texts: seq<string>): Reply {
    match m.primary(texts)
    case Vectors(vs) => Vectors(vs)
    case Raised =>
      if m.local == None then Raised
      else
        match m.local.value(texts)
        case Raised => Raised
        case Vectors(vs) => Vectors(seq(|vs|, i requires 0 <= i < |vs| => Pad(vs[i])))
  }

  /** The primary model's vectors as they are, or else the local model's, one by one and in order, each cut to 1536
      numbers or filled up with zeros. */
  lemma {:induction false} EmbedAnswers(m: Models, texts: seq<string>)
    ensures m.primary(texts).Vectors? ==> Embed(m, texts) == m.primary(texts)
    ensures Embed(m, texts).Raised? <==>
            m.primary(texts).Raised? && (m.local == None || m.local.value(texts).Raised?)
    ensures m.primary(texts).Raised? && m.local.Some? && m.local.value(texts).Vectors? ==>
              var given, r := m.local.value(texts).vs, Embed(m, texts).vs;
              && |r| == |given|
              && forall k | 0 <= k < |r| :: PaddedFrom(given[k], r[k])
  {
  }

  predicate PaddedFrom(v: Vector, r: Vector) {
    |r| == 1536 && forall j | 0 <= j < 1536 :: r[j] == if j < |v| then v[j] else 0.0
  }

  method GenerateEmbeddingsFallback(m: Models, texts: seq<string>) returns (r: Reply)
    ensures r == Embed(m, texts)
  {
    r := m.primary(texts);
    if r.Raised? && m.local.Some? {
      r := m.local.value(texts);
      if r.Vectors? {
        var padded: seq<Vector> := [];
        for k := 0 to |r.vs|
          invariant |padded| == k && forall i | 0 <= i < k :: padded[i] == Pad(r.vs[i])
        {
          var v := r.vs[k];
          padded := padded + [if |v| < DIMENSION then v + seq(DIMENSION - |v|, _ => 0.0) else v[..DIMENSION]];
        }
        r := Vectors(padded);
      }
    }
  }

  // ---- batches ----

  function Min(a: nat, b: nat): nat {
    if a < b then a else b
  }

  function Batch(texts: seq<string>, i: nat): seq<string>
    requires i <= |texts|
  {
    texts[i..Min(i + BATCH, |texts|)]
  }

  /** The vectors of the texts from `i` on, batch by batch; the first exception ends it. */
  function EmbedFrom(m: Models, texts: seq<string>, i: nat): Reply
    requires i <= |texts|
    decreases |texts| - i
  {
    if i == |texts| then Vectors([])
    else
      match Embed(m, Batch(texts, i))
      case Raised => Raised
      case Vectors(vs) =>
        match EmbedFrom(m, texts, Min(i + BATCH, |texts|))
        case Raised => Raised
        case Vectors(more) => Vectors(vs + more)
  }

  method EmbedChunks(m: Models, texts: seq<string>) returns (r: Reply)
    ensures r == EmbedFrom(m, texts, 0)
  {
    hide Embed;
    var embeddings: seq<Vector> := [];
    var i := 0;
    while i < |texts|
      invariant i <= |texts|
      invariant EmbedFrom(m, texts, 0) == match EmbedFrom(m, texts, i)
                                          case Raised => Raised
                                          case Vectors(more) => Vectors(embeddings + more)
    {
      var batch := texts[i..Min(i + BATCH, |texts|)];
      var reply := GenerateEmbeddingsFallback(m, batch);
      if reply.Raised? {
        return Raised;
      }
      match EmbedFrom(m, texts, Min(i + BATCH, |texts|)) {
        case Raised =>
        case Vectors(more) => assert embeddings + (reply.vs + more) == (embeddings + reply.vs) + more;
      }
      embeddings := embeddings + reply.vs;
      i := Min(i + BATCH, |texts|);
    }
    assert embeddings + [] == embeddings;
    return Vectors(embeddings);
  }

  /** The batch of 20 texts, or of what is left, that begins at `b` cannot be embedded. */
  predicate BatchRaises(m: Models, texts: seq<string>, b: nat) {
    b < |texts| && b % 20 == 0 && Embed(m, texts[b..if b + 20 <= |texts| then b + 20 else |texts|]).Raised?
  }

  /** The whole raises exactly if one of the batches does. */
  lemma {:induction false} RaisesExactly(m: Models, texts: seq<string>, i: nat)
    requires i <= |texts| && (i % BATCH == 0 || i == |texts|)
    ensures EmbedFrom(m, texts, i).Raised? <==> exists b: nat :: i <= b && BatchRaises(m, texts, b)
    decreases |texts| - i
  {
    hide Embed;
    if i < |texts| {
      var next := Min(i + BATCH, |texts|);
      SameBatch(i, i);
      assert Batch(texts, i) == texts[i..if i + 20 <= |texts| then i + 20 else |texts|];
      RaisesExactly(m, texts, next);
      forall b: nat | i < b && BatchRaises(m, texts, b) ensures next <= b {
        NextBatch(i, b);
      }
      assert BatchRaises(m, texts, i) <==> Embed(m, Batch(texts, i)).Raised?;
    }
  }

  /** The models answer with one vector for each text. */
  ghost predicate OnePerText(m: Models) {
    forall texts :: Embed(m, texts).Vectors? ==> |Embed(m, texts).vs| == |texts|
  }

  /** Then the vector at each index is the one its text got within its batch, whatever the number of texts. */
  lemma {:induction false} BatchesAlign(m: Models, texts: seq<string>, i: nat, k: nat)
    requires OnePerText(m) && i <= k < |texts| && i % BATCH == 0 && EmbedFrom(m, texts, i).Vectors?
    ensures |EmbedFrom(m, texts, i).vs| == |texts| - i
    ensures var first := k / 20 * 20;
            first <= |texts| && var reply := Embed(m, Batch(texts, first));
            reply.Vectors? && k - first < |reply.vs| && EmbedFrom(m, texts, i).vs[k - i] == reply.vs[k - first]
    decreases |texts| - i
  {
    var next := Min(i + BATCH, |texts|);
    var reply := Embed(m, Batch(texts, i));
    assert |reply.vs| == next - i;
    SameBatch(i, k);
    if next < |texts| {
      BatchesAlign(m, texts, next, if k < next then next else k);
    }
  }

  lemma {:induction false} SameBatch(i: nat, k: nat)
    requires i % BATCH == 0 && i <= k
    ensures k < i + BATCH ==> k / BATCH * BATCH == i
    ensures (i + BATCH) % BATCH == 0
  {
  }

  /** The models embed every text by itself. */
  ghost predicate PerText(m: Models, f: string -> Vector) {
    forall texts :: Embed(m, texts).Vectors? ==>
      |Embed(m, texts).vs| == |texts| && forall i | 0 <= i < |texts| :: Embed(m, texts).vs[i] == f(texts[i])
  }

  /** Then cutting the list into batches makes no difference. */
  lemma {:induction false} BatchingInvisible(m: Models, f: string -> Vector, texts: seq<string>, i: nat)
    requires PerText(m, f) && i <= |texts| && EmbedFrom(m, texts, i).Vectors?
    ensures EmbedFrom(m, texts, i).vs == seq(|texts| - i, k requires 0 <= k < |texts| - i => f(texts[i + k]))
    decreases |texts| - i
  {
    hide Embed;
    if i < |texts| {
      var next := Min(i + BATCH, |texts|);
      var batch := Batch(texts, i);
      assert forall k | 0 <= k < |batch| :: Embed(m, batch).vs[k] == f(batch[k]);
      BatchingInvisible(m, f, texts, next);
      var vs, n := EmbedFrom(m, texts, i).vs, |batch|;
      assert |vs| == |texts| - i;
      forall k | 0 <= k < |vs| ensures vs[k] == f(texts[i + k]) {
        if k < n {
          assert batch[k] == texts[i + k];
        } else {
          assert vs[k] == EmbedFrom(m, texts, next).vs[k - n];
        }
      }
    }
  }

  /** A model that leaves out a vector moves every later one up: after a first batch that comes back one
      short, the last text of that batch has the vector of the first text of the next. */
  lemma {:induction false} ShortBatchShifts(m: Models, texts: seq<string>)
    requires |texts| > BATCH && EmbedFrom(m, texts, 0).Vectors?
    requires Embed(m, Batch(texts, 0)).Vectors? && |Embed(m, Batch(texts, 0)).vs| == BATCH - 1
    requires Embed(m, Batch(texts, BATCH)).Vectors? && |Embed(m, Batch(texts, BATCH)).vs| > 0
    ensures |EmbedFrom(m, texts, 0).vs| >= BATCH
    ensures EmbedFrom(m, texts, 0).vs[BATCH - 1] == Embed(m, Batch(texts, BATCH)).vs[0]
  {
    hide Embed;
    var rest := EmbedFrom(m, texts, BATCH);
    assert rest.Vectors?;
    assert EmbedFrom(m, texts, 0).vs == Embed(m, Batch(texts, 0)).vs + rest.vs;
  }

  // ---- exactly when the vectors stay aligned ----

  /** The text that each vector of the result is the answer for: the n-th vector of a batch answers its n-th text. */
  function Sources(m: Models, texts: seq<string>, i: nat): (r: seq<nat>)
    requires i <= |texts| && EmbedFrom(m, texts, i).Vectors?
    ensures |r| == |EmbedFrom(m, texts, i).vs|
    ensures forall k | 0 <= k < |r| :: r[k] >= i
    decreases |texts| - i
  {
    if i == |texts| then []
    else
      var n := |Embed(m, Batch(texts, i)).vs|;
      seq(n, k requires 0 <= k < n => i + k) + Sources(m, texts, Min(i + BATCH, |texts|))
  }

  /** No batch is answered with more vectors than it has texts. */
  ghost predicate AtMostOnePerText(m: Models, texts: seq<string>) {
    forall i: nat | i < |texts| && i % BATCH == 0 :: AnswersAtMost(m, texts, i)
  }

  predicate AnswersAtMost(m: Models, texts: seq<string>, i: nat)
    requires i <= |texts|
  {
    Embed(m, Batch(texts, i)).Vectors? ==> |Embed(m, Batch(texts, i)).vs| <= |Batch(texts, i)|
  }

  /** The vector is the one its text got within its batch. */
  lemma {:induction false} SourceOfVector(m: Models, texts: seq<string>, i: nat, k: nat)
    requires i <= |texts| && (i % BATCH == 0 || i == |texts|) && EmbedFrom(m, texts, i).Vectors?
             && AtMostOnePerText(m, texts)
    requires k < |EmbedFrom(m, texts, i).vs|
    ensures var t := Sources(m, texts, i)[k];
            var first := t / BATCH * BATCH;
            && first <= t < |texts| && Embed(m, Batch(texts, first)).Vectors?
            && t - first < |Embed(m, Batch(texts, first)).vs|
            && EmbedFrom(m, texts, i).vs[k] == Embed(m, Batch(texts, first)).vs[t - first]
    decreases |texts| - i
  {
    hide Embed;
    var n := |Embed(m, Batch(texts, i)).vs|;
    assert AnswersAtMost(m, texts, i);
    if k < n {
      SameBatch(i, i + k);
    } else {
      SameBatch(i, i);
      SourceOfVector(m, texts, Min(i + BATCH, |texts|), k - n);
    }
  }

  predicate Short(m: Models, texts: seq<string>, i: nat)
    requires i <= |texts|
  {
    Embed(m, Batch(texts, i)).Vectors? && |Embed(m, Batch(texts, i)).vs| < |Batch(texts, i)|
  }

  predicate Silent(m: Models, texts: seq<string>, i: nat)
    requires i <= |texts|
  {
    Embed(m, Batch(texts, i)).Vectors? && Embed(m, Batch(texts, i)).vs == []
  }

  /** From batch `i` on, no short batch is followed by one that returns any vector. */
  ghost predicate NothingAfterShort(m: Models, texts: seq<string>, i: nat) {
    forall a: nat, b: nat | i <= a < b < |texts| && a % BATCH == 0 && b % BATCH == 0 && Short(m, texts, a) ::
      Silent(m, texts, b)
  }

  /** Every vector from text `i` on is the one of the text at its index. */
  ghost predicate AlignedFrom(m: Models, texts: seq<string>, i: nat)
    requires i <= |texts| && EmbedFrom(m, texts, i).Vectors?
  {
    forall k | 0 <= k < |Sources(m, texts, i)| :: Sources(m, texts, i)[k] == i + k
  }

  lemma {:induction false} SilentFrom(m: Models, texts: seq<string>, i: nat)
    requires i <= |texts| && (i % BATCH == 0 || i == |texts|) && EmbedFrom(m, texts, i).Vectors?
    ensures Sources(m, texts, i) == [] <==> forall b: nat | i <= b < |texts| && b % BATCH == 0 :: Silent(m, texts, b)
    decreases |texts| - i
  {
    hide Embed;
    if i < |texts| {
      SameBatch(i, i);
      var next := Min(i + BATCH, |texts|);
      SilentFrom(m, texts, next);
      if Sources(m, texts, i) == [] {
        forall b: nat | i <= b < |texts| && b % BATCH == 0 ensures Silent(m, texts, b) {
          if i < b {
            NextBatch(i, b);
          }
        }
      } else {
        assert Silent(m, texts, i) ==> Sources(m, texts, next) != [];
      }
    }
  }

  lemma {:induction false} NextBatch(i: nat, b: nat)
    requires i < b && i % BATCH == 0 && b % BATCH == 0
    ensures i + BATCH <= b
  {
  }

  lemma {:induction false} AlignmentFrom(m: Models, texts: seq<string>, i: nat)
    requires i <= |texts| && (i % BATCH == 0 || i == |texts|) && EmbedFrom(m, texts, i).Vectors?
             && AtMostOnePerText(m, texts)
    ensures AlignedFrom(m, texts, i) <==> NothingAfterShort(m, texts, i)
    decreases |texts| - i
  {
    hide Embed;
    if i < |texts| {
      var next := Min(i + BATCH, |texts|);
      SameBatch(i, i);
      assert AnswersAtMost(m, texts, i);
      AlignmentFrom(m, texts, next);
      forall b: nat | i < b < |texts| && b % BATCH == 0 ensures next <= b {
        NextBatch(i, b);
      }
      if Short(m, texts, i) {
        SilentFrom(m, texts, next);
        AfterShort(m, texts, i);
      } else {
        AfterFull(m, texts, i);
      }
    }
  }

  /** After a short batch the rest is aligned only when there is none. */
  lemma {:induction false} AfterShort(m: Models, texts: seq<string>, i: nat)
    requires i < |texts| && EmbedFrom(m, texts, i).Vectors? && Short(m, texts, i)
    ensures AlignedFrom(m, texts, i) <==> Sources(m, texts, Min(i + BATCH, |texts|)) == []
  {
    hide Embed;
    var n, rest := |Embed(m, Batch(texts, i)).vs|, Sources(m, texts, Min(i + BATCH, |texts|));
    if rest != [] {
      assert Sources(m, texts, i)[n] == rest[0];
    }
  }

  lemma {:induction false} AfterFull(m: Models, texts: seq<string>, i: nat)
    requires i < |texts| && EmbedFrom(m, texts, i).Vectors? && !Short(m, texts, i) && AnswersAtMost(m, texts, i)
    ensures AlignedFrom(m, texts, i) <==> AlignedFrom(m, texts, Min(i + BATCH, |texts|))
  {
    hide Embed;
    var next := Min(i + BATCH, |texts|);
    var n, rest := |Embed(m, Batch(texts, i)).vs|, Sources(m, texts, next);
    assert n == next - i;
    forall k | 0 <= k < |rest| ensures Sources(m, texts, i)[n + k] == rest[k] && i + (n + k) == next + k {
    }
  }

  /** With at most one vector for each text, every vector is that of the text at its index if and only if no
      short batch is followed by a batch that returns any vector. */
  lemma {:induction false} AlignedExactly(m: Models, texts: seq<string>)
    requires EmbedFrom(m, texts, 0).Vectors? && AtMostOnePerText(m, texts)
    ensures AlignedFrom(m, texts, 0) <==> NothingAfterShort(m, texts, 0)
  {
    hide Embed, NothingAfterShort, AlignedFrom;
    AlignmentFrom(m, texts, 0);
  }

  // ---- storing a document ----

  datatype Status = Processing | Completed | Failed

  datatype StoredChunk = StoredChunk(content: string, index: nat, tokens: nat, embedding: Option<Vector>)

  class Document {
    var status: Status
    var chunkCount: nat
    var failed: bool

    constructor ()
      ensures status == Processing && chunkCount == 0 && !failed
    {
      status, chunkCount, failed := Processing, 0, false;
    }
  }

  /** Parses, splits, embeds and stores. `text` is what the parser gives, or None when it raises; so does
      the method when `raised` is returned. */
  method ProcessDocument(m: Models, est: string -> nat, text: Option<string>, document: Document)
    returns (chunks: seq<StoredChunk>, raised: bool)
    modifies document
    ensures raised <==> text == None || EmbedFrom(m, Contents(est, text.value), 0).Raised?
    ensures raised ==>
              document.status == Failed && document.failed && document.chunkCount == old(document.chunkCount)
              && chunks == []
    ensures !raised ==> document.status == Completed && document.chunkCount == |chunks| == |Contents(est, text.value)|
    ensures !raised ==>
              var contents, vs := Contents(est, text.value), EmbedFrom(m, Contents(est, text.value), 0).vs;
              forall k | 0 <= k < |chunks| ::
                chunks[k] == StoredChunk(contents[k], k, est(contents[k]), if k < |vs| then Some(vs[k]) else None)
  {
    hide Embed;
    chunks, raised := [], true;
    if text.Some? {
      var contents := Chunker.ChunkText(est, text.value);
      var embeddings := EmbedChunks(m, contents);
      if embeddings.Vectors? {
        for idx := 0 to |contents|
          invariant |chunks| == idx
          invariant forall k | 0 <= k < idx ::
                      chunks[k] == StoredChunk(contents[k], k, est(contents[k]),
                                               if k < |embeddings.vs| then Some(embeddings.vs[k]) else None)
        {
          var embedding := if idx < |embeddings.vs| then Some(embeddings.vs[idx]) else None;
          chunks := chunks + [StoredChunk(contents[idx], idx, est(contents[idx]), embedding)];
        }
        document.status, document.chunkCount, raised := Completed, |contents|, false;
      }
    }
    if raised {
      document.status, document.failed := Failed, true;
    }
  }

  function Contents(est: string -> nat, text: string): seq<string> {
    Chunker.LargeOnly(est, Chunker.AllChunks(est, Chunker.CHUNK_SIZE, Chunker.Paragraphs(text)))
  }

  /** A document whose paragraphs come to at most 1000 tokens is one chunk, and one of more, with two paragraphs at
      least, is several. */
  lemma {:induction false} OneChunkDocument(est: string -> nat, text: string)
    requires Chunker.Paragraphs(text) != []
    ensures |Chunker.AllChunks(est, Chunker.CHUNK_SIZE, Chunker.Paragraphs(text))| == 1 <==>
            |Chunker.Paragraphs(text)| == 1 || Chunker.SumTokens(est, Chunker.Paragraphs(text)) <= 1000
  {
    hide Chunker.AllChunks, Chunker.SumTokens, Chunker.Paragraphs;
    Chunker.OneChunkExactly(est, Chunker.CHUNK_SIZE, Chunker.Paragraphs(text));
  }
}
