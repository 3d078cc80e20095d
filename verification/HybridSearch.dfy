/** Hybrid search over one process's index cache
    (backend/src/services/rag_query.py, lines 90-112, 138-148 and 175-223). */
module HybridSearch {
  import opened Options
  import Bm25
  import opened ChunkIds
  import opened Fusion
  import IndexCache
  import opened StableSort
  import opened Totals

  datatype StoredChunk = StoredChunk(content: string, documentId: nat, chunkIndex: nat, tokenCount: nat)
  datatype Hit = Hit(id: ChunkId, chunk: StoredChunk, score: real)

  /** The module-level dictionary of BM25 indexes. */
  class Cache {
    var indexes: map<IndexCache.Key, Bm25.Index>

    ghost predicate Valid()
      reads this, indexes.Values
    {
      forall k | k in indexes :: indexes[k].Valid()
    }

    constructor ()
      ensures Valid() && indexes == map[]
    {
      indexes := map[];
    }

    /** The cached index, or a new one built from the rows the query returns. */
    method GetOrBuild(key: IndexCache.Key, rows: IndexCache.Rows) returns (index: Bm25.Index)
      requires Valid()
      modifies this
      ensures Valid() && indexes == old(indexes)[key := index]
      ensures index.Valid()
      ensures key in old(indexes) ==> index == old(indexes)[key]
      ensures key !in old(indexes) ==> fresh(index) && index.Docs() == Bm25.DocsOf(rows)
    {
      if key in indexes {
        index := indexes[key];
      } else {
        index := new Bm25.Index();
        index.IndexChunks(rows);
        assert [] + Bm25.DocsOf(rows) == Bm25.DocsOf(rows);
        indexes := indexes[key := index];
      }
    }

    /** Removes the index of a tenant; a missing one is no error. */
    method Invalidate(key: IndexCache.Key)
      requires Valid()
      modifies this
      ensures Valid() && indexes == old(indexes) - {key}
    {
      indexes := indexes - {key};
    }

    /** Searches the cached index, however old it is, or a new one. */
    method Search(log: real -> real, key: IndexCache.Key, rows: IndexCache.Rows, query: string, topK: nat)
      returns (r: Results)
      requires Valid()
      modifies this
      ensures Valid()
      ensures r == Take(Bm25.Ranked(log, if key in old(indexes) then old(indexes[key].Docs()) else Bm25.DocsOf(rows),
                                    Bm25.Tokenize(query)), topK)
    {
      var index := GetOrBuild(key, rows);
      var results := index.Score(log, Bm25.Tokenize(query));
      r := Take(results, topK);
    }
  }

  /** The chunk table and the two endpoints that change it (backend/src/api/v1/rag.py, lines 59-83 and
      115-128): they commit, then remove the tenant's index under its UUID key. */
  class Library {
    const cache: Cache
    var chunks: map<IndexCache.Tenant, IndexCache.Chunks>

    constructor (cache: Cache)
      ensures this.cache == cache && chunks == map[]
    {
      this.cache, chunks := cache, map[];
    }

    function Of(tenant: IndexCache.Tenant): IndexCache.Chunks
      reads this
    {
      if tenant in chunks then chunks[tenant] else map[]
    }

    /** `added` is None when the ingestion raises; then the transaction is rolled back. */
    method UploadDocument(tenant: IndexCache.Tenant, added: Option<IndexCache.Chunks>) returns (ok: bool)
      requires cache.Valid()
      modifies this, cache
      ensures cache.Valid() && (ok <==> added.Some?)
      ensures forall t :: Of(t) == if ok && t == tenant then old(Of(t)) + added.value else old(Of(t))
      ensures cache.indexes == old(cache.indexes) - if ok then {IndexCache.UuidKey(tenant)} else {}
    {
      ok := added.Some?;
      if ok {
        chunks := chunks[tenant := Of(tenant) + added.value];
        cache.Invalidate(IndexCache.UuidKey(tenant));
      }
    }

    /** `removed` holds the chunks of the document, and is None when the tenant has no such document. */
    method DeleteDocument(tenant: IndexCache.Tenant, removed: Option<set<ChunkId>>) returns (found: bool)
      requires cache.Valid()
      modifies this, cache
      ensures cache.Valid() && (found <==> removed.Some?)
      ensures forall t :: Of(t) == if found && t == tenant then old(Of(t)) - removed.value else old(Of(t))
      ensures cache.indexes == old(cache.indexes) - if found then {IndexCache.UuidKey(tenant)} else {}
    {
      found := removed.Some?;
      if found {
        chunks := chunks[tenant := Of(tenant) - removed.value];
        cache.Invalidate(IndexCache.UuidKey(tenant));
      }
    }
  }

  /** The hits for a list of ranked ids: the chunks that still exist, in ranked order. */
  function Assemble(ranked: Results, fetched: map<ChunkId, StoredChunk>): seq<Hit> {
    if ranked == [] then []
    else
      var last := ranked[|ranked| - 1];
      Assemble(ranked[..|ranked| - 1], fetched)
      + if last.0 in fetched then [Hit(last.0, fetched[last.0], last.1)] else []
  }

  method AssembleHits(top: Results, fetched: map<ChunkId, StoredChunk>) returns (output: seq<Hit>)
    ensures output == Assemble(top, fetched)
  {
    output := [];
    for i := 0 to |top|
      invariant output == Assemble(top[..i], fetched)
    {
      var (chunkId, score) := top[i];
      assert top[..i + 1][..i] == top[..i];
      if chunkId in fetched {
        output := output + [Hit(chunkId, fetched[chunkId], score)];
      }
    }
    assert top[..|top|] == top;
  }

  /** `vecResults` is what the vector query returned, `rows` what the chunk query returns on a cache
      miss, and `fetched` the chunk table when the chunks are read. */
  method Hybrid(cache: Cache, log: real -> real, key: IndexCache.Key, rows: IndexCache.Rows, query: string,
                vecResults: Results, topK: nat, fetched: map<ChunkId, StoredChunk>)
    returns (output: seq<Hit>)
    requires cache.Valid()
    modifies cache
    ensures cache.Valid()
    ensures var docs := if key in old(cache.indexes) then old(cache.indexes[key].Docs()) else Bm25.DocsOf(rows);
            var bm25Results := Take(Bm25.Ranked(log, docs, Bm25.Tokenize(query)), 2 * topK);
            output == Assemble(Take(Fused(vecResults, bm25Results, RRF_K, VECTOR_WEIGHT, BM25_WEIGHT), topK), fetched)
  {
    hide Fused, Bm25.Ranked, Bm25.Tokenize, Bm25.DocsOf;
    var bm25Results := cache.Search(log, key, rows, query, topK * 2);
    var fused := ReciprocalRankFusion(vecResults, bm25Results);
    if Take(fused, topK) == [] {
      return [];
    }
    output := AssembleHits(Take(fused, topK), fetched);
  }

  /** The positions in the ranked list from which the hits come. */
  lemma {:induction false} AssembleSources(ranked: Results, fetched: map<ChunkId, StoredChunk>) returns (src: seq<nat>)
    ensures |src| == |Assemble(ranked, fetched)|
    ensures forall i | 0 <= i < |src| :: src[i] < |ranked| && ranked[src[i]].0 in fetched
              && Assemble(ranked, fetched)[i] == Hit(ranked[src[i]].0, fetched[ranked[src[i]].0], ranked[src[i]].1)
    ensures forall i, j | 0 <= i < j < |src| :: src[i] < src[j]
    ensures forall p: nat | p < |ranked| && ranked[p].0 in fetched :: p in src
  {
    if ranked == [] {
      src := [];
    } else {
      src := AssembleSources(ranked[..|ranked| - 1], fetched);
      if ranked[|ranked| - 1].0 in fetched {
        src := src + [|ranked| - 1];
        assert src[|src| - 1] == |ranked| - 1;
      }
    }
  }

  /** Whatever the two legs returned, and however stale the index was, the output has at most `topK`
      hits with distinct ids, all in the chunk table when it was read, in non-increasing fused score. */
  lemma {:induction false} HybridOutput(v: Results, b: Results, topK: nat, fetched: map<ChunkId, StoredChunk>, k: nat,
                                        vw: real, bw: real)
    ensures var out := Assemble(Take(Fused(v, b, k, vw, bw), topK), fetched);
            && |out| <= topK
            && (forall i | 0 <= i < |out| :: out[i].id in fetched && out[i].chunk == fetched[out[i].id]
                                             && out[i].score == FusedScore(v, b, out[i].id, k, vw, bw))
            && (forall i, j | 0 <= i < j < |out| :: out[i].id != out[j].id && out[i].score >= out[j].score)
  {
    var fused := Fused(v, b, k, vw, bw);
    var top := Take(fused, topK);
    FusedEntries(v, b, k, vw, bw);
    var src := AssembleSources(top, fetched);
    assert forall p | 0 <= p < |top| :: top[p] == fused[p];
    IncreasingBelow(src, |top|);
  }

  lemma {:induction false} IncreasingBelow(src: seq<nat>, n: nat)
    requires forall i | 0 <= i < |src| :: src[i] < n
    requires forall i, j | 0 <= i < j < |src| :: src[i] < src[j]
    ensures |src| <= n
  {
    if src != [] {
      IncreasingBelow(src[..|src| - 1], src[|src| - 1]);
    }
  }

  // ---- when keyword search cannot add a result ----

  lemma {:induction false} DistinctIdsSize(list: Results)
    requires Distinct(list)
    ensures |set i | 0 <= i < |list| :: list[i].0| == |list|
  {
    if list != [] {
      var front, last := list[..|list| - 1], list[|list| - 1];
      DistinctIdsSize(front);
      assert (set i | 0 <= i < |list| :: list[i].0) == (set i | 0 <= i < |front| :: front[i].0) + {last.0};
    }
  }

  lemma {:induction false} IdsSizeAtMost(list: Results)
    ensures |set i | 0 <= i < |list| :: list[i].0| <= |list|
  {
    if list != [] {
      var front, last := list[..|list| - 1], list[|list| - 1];
      IdsSizeAtMost(front);
      assert (set i | 0 <= i < |list| :: list[i].0) == (set i | 0 <= i < |front| :: front[i].0) + {last.0};
    }
  }

  /** Every one of the top `topK` fused ids comes from the vector leg. */
  ghost predicate TopFromVector(v: Results, b: Results, topK: nat, k: nat, vw: real, bw: real) {
    forall q | 0 <= q < topK && q < |Fused(v, b, k, vw, bw)| :: Fused(v, b, k, vw, bw)[q].0 in Ids(v)
  }

  /** A vector leg of at least `topK` chunks fills the whole top when the best share of a keyword result is
      no more than the share at vector rank `topK`, however long the two lists are. */
  lemma {:induction false} VectorFillsTop(v: Results, b: Results, topK: nat, k: nat, vw: real, bw: real)
    requires Distinct(v) && Distinct(b) && vw > 0.0 && bw > 0.0 && |v| >= topK
    requires vw * (k + 1) as real >= bw * (k + topK) as real
    ensures TopFromVector(v, b, topK, k, vw, bw)
  {
    hide Fused;
    var fused := Fused(v, b, k, vw, bw);
    forall q | 0 <= q < topK && q < |fused| ensures fused[q].0 in Ids(v) {
      if fused[q].0 !in Ids(v) {
        LeadersBelow(v, b, topK, k, vw, bw, q);
      }
    }
  }

  lemma {:induction false} LeadersBelow(v: Results, b: Results, topK: nat, k: nat, vw: real, bw: real, q: nat)
    requires Distinct(v) && Distinct(b) && vw > 0.0 && bw > 0.0 && |v| >= topK
    requires vw * (k + 1) as real >= bw * (k + topK) as real
    requires q < |Fused(v, b, k, vw, bw)| && Fused(v, b, k, vw, bw)[q].0 !in Ids(v)
    ensures topK <= q
  {
    hide Fused;
    var fused, top := Fused(v, b, k, vw, bw), v[..topK];
    var leaders := set i | 0 <= i < |top| :: top[i].0;
    var before := set i | 0 <= i < |fused[..q]| :: fused[..q][i].0;
    forall x | x in leaders ensures x in before {
      assert x in Ids(top);
      LeaderInList(v, topK, x);
      var p := FusedPosition(v, b, k, vw, bw, x);
      LeadersFirst(v, b, k, vw, bw, topK, p, q);
      assert fused[..q][p].0 == x;
    }
    assert Distinct(top) by {
      DistinctPrefix(v, topK);
    }
    DistinctIdsSize(top);
    IdsSizeAtMost(fused[..q]);
    SubsetSize(leaders, before);
  }

  lemma {:induction false} DistinctPrefix(v: Results, n: nat)
    requires Distinct(v) && n <= |v|
    ensures Distinct(v[..n])
  {
  }

  /** Below that threshold some keyword result enters the top, within the limits of both legs. */
  lemma {:induction false} KeywordEntersTop(topK: nat, k: nat, vw: real, bw: real) returns (v: Results, b: Results)
    requires topK > 0 && vw > 0.0 && bw > 0.0
    requires vw * (k + 1) as real < bw * (k + topK) as real
    ensures Distinct(v) && Distinct(b) && |v| == topK && |b| == 1 && !TopFromVector(v, b, topK, k, vw, bw)
  {
    hide Fused;
    v, b := Bm25Overtakes(topK, k, vw, bw);
    var fused := Fused(v, b, k, vw, bw);
    FusedSize(v, b, k, vw, bw);
    if TopFromVector(v, b, topK, k, vw, bw) {
      forall p, q | 0 <= p < |fused| && 0 <= q < |fused| && fused[p].0 in Ids(v) && fused[q].0 !in Ids(v)
        ensures p < q {
        FusedEntries(v, b, k, vw, bw);
      }
      assert false;
    }
  }

  lemma {:induction false} FusedSize(v: Results, b: Results, k: nat, vw: real, bw: real)
    ensures |Fused(v, b, k, vw, bw)| <= |v| + |b|
  {
    hide Fused;
    var fused := Fused(v, b, k, vw, bw);
    FusedEntries(v, b, k, vw, bw);
    DistinctIdsSize(fused);
    var all := set i | 0 <= i < |fused| :: fused[i].0;
    var vs, bs := set i | 0 <= i < |v| :: v[i].0, set i | 0 <= i < |b| :: b[i].0;
    forall x | x in all ensures x in vs + bs {
      assert x in Ids(v) || x in Ids(b);
    }
    IdsSizeAtMost(v);
    IdsSizeAtMost(b);
    SubsetSize(all, vs + bs);
    assert |vs + bs| <= |vs| + |bs|;
  }

  /** The exact condition under which keyword search can only reorder what a full vector leg found; each leg
      is asked for twice `topK`. */
  lemma {:induction false} KeywordsOnlyReorder(topK: nat, k: nat, vw: real, bw: real)
    requires vw > 0.0 && bw > 0.0
    ensures (forall v: Results, b: Results | Distinct(v) && Distinct(b) && topK <= |v| <= 2 * topK && |b| <= 2 * topK ::
               TopFromVector(v, b, topK, k, vw, bw))
            <==> topK == 0 || vw * (k + 1) as real >= bw * (k + topK) as real
  {
    hide Fused;
    if topK > 0 && vw * (k + 1) as real >= bw * (k + topK) as real {
      forall v: Results, b: Results | Distinct(v) && Distinct(b) && topK <= |v| <= 2 * topK && |b| <= 2 * topK
        ensures TopFromVector(v, b, topK, k, vw, bw)
      {
        VectorFillsTop(v, b, topK, k, vw, bw);
      }
    } else if topK > 0 {
      var v, b := KeywordEntersTop(topK, k, vw, bw);
    }
  }

  /** With the built-in constants that is a `topK` of at most 82. */
  lemma {:induction false} DefaultReorderReach(topK: nat)
    ensures (forall v: Results, b: Results | Distinct(v) && Distinct(b) && topK <= |v| <= 2 * topK && |b| <= 2 * topK ::
               TopFromVector(v, b, topK, RRF_K, VECTOR_WEIGHT, BM25_WEIGHT))
            <==> topK <= 82
  {
    hide TopFromVector;
    KeywordsOnlyReorder(topK, RRF_K, VECTOR_WEIGHT, BM25_WEIGHT);
  }
}
