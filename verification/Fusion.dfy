/** Weighted reciprocal rank fusion of two result lists
    (backend/src/services/rag_query.py, lines 19-21 and 151-172). */
module Fusion {
  import opened ChunkIds
  import opened StableSort

  type Results = seq<(ChunkId, real)>

  const RRF_K := 60
  const VECTOR_WEIGHT := 0.7
  const BM25_WEIGHT := 0.3

  function Ids(list: Results): (r: seq<ChunkId>)
    ensures |r| == |list|
    ensures forall i | 0 <= i < |r| :: r[i] == list[i].0
  {
    seq(|list|, i requires 0 <= i < |list| => list[i].0)
  }

  ghost predicate Distinct(list: Results) {
    forall i, j | 0 <= i < j < |list| :: list[i].0 != list[j].0
  }

  /** The summed contributions of one list to an id: `w / (k + rank + 1)` for each occurrence. */
  function Contribution(list: Results, id: ChunkId, k: nat, w: real): real {
    if list == [] then 0.0
    else
      Contribution(list[..|list| - 1], id, k, w)
      + if list[|list| - 1].0 == id then Share(w, k + |list|) else 0.0
  }

  function Share(w: real, n: nat): real
    requires n > 0
  {
    w / n as real
  }

  function FusedScore(v: Results, b: Results, id: ChunkId, k: nat, vw: real, bw: real): real {
    Contribution(v, id, k, vw) + Contribution(b, id, k, bw)
  }

  /** `seen`, followed by the ids of the list that are not among those before them. */
  function SeenAfter(seen: seq<ChunkId>, list: Results): seq<ChunkId> {
    if list == [] then seen
    else
      var front, last := SeenAfter(seen, list[..|list| - 1]), list[|list| - 1].0;
      if last in front then front else front + [last]
  }

  lemma {:induction false} SeenAfterFacts(seen: seq<ChunkId>, list: Results)
    requires forall i, j | 0 <= i < j < |seen| :: seen[i] != seen[j]
    ensures seen <= SeenAfter(seen, list)
    ensures forall x :: x in SeenAfter(seen, list) <==> x in seen || x in Ids(list)
    ensures forall i, j | 0 <= i < j < |SeenAfter(seen, list)| :: SeenAfter(seen, list)[i] != SeenAfter(seen, list)[j]
  {
    if list != [] {
      var front, last := list[..|list| - 1], list[|list| - 1].0;
      SeenAfterFacts(seen, front);
      assert Ids(list) == Ids(front) + [last];
    }
  }

  /** Each id of the two lists once, in the order in which it is first seen. */
  function FirstSeen(v: Results, b: Results): (r: seq<ChunkId>)
    ensures forall x :: x in r <==> x in Ids(v) || x in Ids(b)
    ensures forall i, j | 0 <= i < j < |r| :: r[i] != r[j]
  {
    SeenAfterFacts([], v);
    SeenAfterFacts(SeenAfter([], v), b);
    SeenAfter(SeenAfter([], v), b)
  }

  /** The dictionary of scores, as its list of items in insertion order. */
  function Items(v: Results, b: Results, k: nat, vw: real, bw: real): (r: Results)
    ensures |r| == |FirstSeen(v, b)|
    ensures forall i | 0 <= i < |r| ::
              r[i].0 == FirstSeen(v, b)[i] && r[i].1 == FusedScore(v, b, r[i].0, k, vw, bw)
  {
    var order := FirstSeen(v, b);
    seq(|order|, i requires 0 <= i < |order| => (order[i], FusedScore(v, b, order[i], k, vw, bw)))
  }

  function Fused(v: Results, b: Results, k: nat, vw: real, bw: real): Results {
    SortDesc(Items(v, b, k, vw, bw))
  }

  /** A dictionary that remembers the order in which its keys were inserted. */
  class ScoreTable {
    var order: seq<ChunkId>
    var scores: map<ChunkId, real>

    ghost predicate Valid()
      reads this
    {
      && (forall x :: x in order <==> x in scores)
      && (forall i, j | 0 <= i < j < |order| :: order[i] != order[j])
    }

    constructor ()
      ensures Valid() && order == [] && scores == map[]
    {
      order, scores := [], map[];
    }

    method Add(id: ChunkId, amount: real)
      requires Valid()
      modifies this
      ensures Valid()
      ensures order == if id in old(order) then old(order) else old(order) + [id]
      ensures forall x :: Get(scores, x) == Get(old(scores), x) + if x == id then amount else 0.0
    {
      if id !in scores {
        order := order + [id];
        scores := scores[id := 0.0];
      }
      scores := scores[id := scores[id] + amount];
    }

    /** Adds the contributions of one result list. */
    method AddList(list: Results, k: nat, w: real)
      requires Valid()
      modifies this
      ensures Valid()
      ensures order == SeenAfter(old(order), list)
      ensures forall x :: Get(scores, x) == Get(old(scores), x) + Contribution(list, x, k, w)
    {
      for rank := 0 to |list|
        invariant Valid()
        invariant order == SeenAfter(old(order), list[..rank])
        invariant forall x :: Get(scores, x) == Get(old(scores), x) + Contribution(list[..rank], x, k, w)
      {
        var chunkId := list[rank].0;
        assert list[..rank + 1][..rank] == list[..rank];
        ContributionOneMore(list, rank, k, w);
        Add(chunkId, Share(w, k + rank + 1));
      }
      assert list[..|list|] == list;
    }
  }

  function Get(scores: map<ChunkId, real>, id: ChunkId): real {
    if id in scores then scores[id] else 0.0
  }

  lemma {:induction false} ContributionOneMore(list: Results, rank: nat, k: nat, w: real)
    requires rank < |list|
    ensures forall x :: Contribution(list[..rank + 1], x, k, w)
                        == Contribution(list[..rank], x, k, w)
                           + if list[rank].0 == x then Share(w, k + rank + 1) else 0.0
  {
    assert list[..rank + 1][..rank] == list[..rank];
  }

  method ReciprocalRankFusion(vectorResults: Results, bm25Results: Results,
                              k: nat := RRF_K, vectorWeight: real := VECTOR_WEIGHT, bm25Weight: real := BM25_WEIGHT)
    returns (fused: Results)
    ensures fused == Fused(vectorResults, bm25Results, k, vectorWeight, bm25Weight)
  {
    var table := new ScoreTable();
    table.AddList(vectorResults, k, vectorWeight);
    table.AddList(bm25Results, k, bm25Weight);
    assert forall x | x in table.scores ::
        table.scores[x] == Get(table.scores, x)
        == FusedScore(vectorResults, bm25Results, x, k, vectorWeight, bm25Weight);
    ItemsAgree(table.order, table.scores, vectorResults, bm25Results, k, vectorWeight, bm25Weight);
    fused := SortDesc(ItemsOf(table.order, table.scores));
  }

  lemma {:induction false} ItemsAgree(order: seq<ChunkId>, scores: map<ChunkId, real>, v: Results, b: Results, k: nat,
                                      vw: real, bw: real)
    requires order == FirstSeen(v, b)
    requires forall x | x in order :: x in scores && scores[x] == FusedScore(v, b, x, k, vw, bw)
    ensures ItemsOf(order, scores) == Items(v, b, k, vw, bw)
  {
  }

  function ItemsOf(order: seq<ChunkId>, scores: map<ChunkId, real>): (r: Results)
    requires forall x | x in order :: x in scores
    ensures |r| == |order|
    ensures forall i | 0 <= i < |r| :: r[i] == (order[i], scores[order[i]])
  {
    seq(|order|, i requires 0 <= i < |order| && order[i] in scores => (order[i], scores[order[i]]))
  }

  lemma {:induction false} SeenOnce(v: Results)
    requires Distinct(v)
    ensures SeenAfter([], v) == Ids(v)
  {
    if v != [] {
      var front, last := v[..|v| - 1], v[|v| - 1].0;
      SeenOnce(front);
      assert Ids(v) == Ids(front) + [last];
      assert last !in Ids(front);
    } else {
      assert Ids(v) == [];
    }
  }

  /** The ids that are not among those seen, in order. */
  function Without(ids: seq<ChunkId>, seen: seq<ChunkId>): seq<ChunkId> {
    if ids == [] then []
    else Without(ids[..|ids| - 1], seen) + if ids[|ids| - 1] in seen then [] else [ids[|ids| - 1]]
  }

  /** First-seen order for lists without repeats: the vector list's ids in rank order, then those of the keyword list
      that are not among them, in rank order. */
  lemma {:induction false} FirstSeenIs(v: Results, b: Results)
    requires Distinct(v) && Distinct(b)
    ensures FirstSeen(v, b) == Ids(v) + Without(Ids(b), Ids(v))
  {
    SeenOnce(v);
    SeenIs(Ids(v), b);
  }

  lemma {:induction false} SeenIs(seen: seq<ChunkId>, b: Results)
    requires Distinct(b) && forall i, j | 0 <= i < j < |seen| :: seen[i] != seen[j]
    ensures SeenAfter(seen, b) == seen + Without(Ids(b), seen)
  {
    if b == [] {
      assert seen + [] == seen;
    } else {
      var n := |b| - 1;
      SeenIs(seen, b[..n]);
      SeenAfterFacts(seen, b[..n]);
      NotBefore(b, n);
      assert Ids(b)[..n] == Ids(b[..n]);
      assert seen + (Without(Ids(b[..n]), seen) + [b[n].0]) == seen + Without(Ids(b[..n]), seen) + [b[n].0];
      assert Without(Ids(b[..n]), seen) + [] == Without(Ids(b[..n]), seen);
    }
  }

  lemma {:induction false} NotBefore(b: Results, n: nat)
    requires Distinct(b) && n < |b|
    ensures b[n].0 !in Ids(b[..n])
  {
  }

  // ---- what the fused list is ----

  /** Where an id lies in the fused list. */
  lemma {:induction false} FusedPosition(v: Results, b: Results, k: nat, vw: real, bw: real, id: ChunkId)
    returns (p: nat)
    requires id in Ids(v) || id in Ids(b)
    ensures p < |Fused(v, b, k, vw, bw)|
    ensures Fused(v, b, k, vw, bw)[p] == (id, FusedScore(v, b, id, k, vw, bw))
  {
    var order := FirstSeen(v, b);
    assert id in order;
    var i: nat :| i < |order| && order[i] == id;
    p := SortedPosition(Items(v, b, k, vw, bw), i);
  }

  /** The fused list holds each id of the two lists once, with its fused score. */
  lemma {:induction false} FusedEntries(v: Results, b: Results, k: nat, vw: real, bw: real)
    ensures forall id :: (exists p :: 0 <= p < |Fused(v, b, k, vw, bw)| && Fused(v, b, k, vw, bw)[p].0 == id)
                         <==> id in Ids(v) || id in Ids(b)
    ensures Distinct(Fused(v, b, k, vw, bw))
    ensures forall p | 0 <= p < |Fused(v, b, k, vw, bw)| ::
              Fused(v, b, k, vw, bw)[p].1 == FusedScore(v, b, Fused(v, b, k, vw, bw)[p].0, k, vw, bw)
  {
    var items := Items(v, b, k, vw, bw);
    var fused := Fused(v, b, k, vw, bw);
    var ord := Order(Keys(items));
    forall id | id in Ids(v) || id in Ids(b) ensures exists p :: 0 <= p < |fused| && fused[p].0 == id {
      var p := FusedPosition(v, b, k, vw, bw, id);
    }
    forall p | 0 <= p < |fused| ensures fused[p].0 in Ids(v) || fused[p].0 in Ids(b) {
      assert fused[p] == items[ord[p]];
      assert items[ord[p]].0 in FirstSeen(v, b);
    }
    forall p, q | 0 <= p < q < |fused| ensures fused[p].0 != fused[q].0 {
      assert Before(Keys(items), ord[p], ord[q]);
      assert ord[p] != ord[q];
    }
  }

  /** The list is in descending order of score and, among equal scores, in first-seen order. */
  lemma {:induction false} FusedOrder(v: Results, b: Results, k: nat, vw: real, bw: real, i: nat, j: nat, p: nat,
                                      q: nat)
    requires i < |FirstSeen(v, b)| && j < |FirstSeen(v, b)|
    requires p < |Fused(v, b, k, vw, bw)| && q < |Fused(v, b, k, vw, bw)|
    requires Fused(v, b, k, vw, bw)[p].0 == FirstSeen(v, b)[i]
    requires Fused(v, b, k, vw, bw)[q].0 == FirstSeen(v, b)[j]
    ensures p < q <==>
            || Fused(v, b, k, vw, bw)[p].1 > Fused(v, b, k, vw, bw)[q].1
            || (Fused(v, b, k, vw, bw)[p].1 == Fused(v, b, k, vw, bw)[q].1 && i < j)
  {
    var items := Items(v, b, k, vw, bw);
    var ord := Order(Keys(items));
    assert items[ord[p]].0 == items[i].0 && items[ord[q]].0 == items[j].0;
    assert ord[p] == i && ord[q] == j;
    if p < q {
      assert Before(Keys(items), ord[p], ord[q]);
    } else if q < p {
      assert Before(Keys(items), ord[q], ord[p]);
    }
  }

  // ---- fusion of lists with distinct ids ----

  /** The rank of an id in a list without repeats; the length of the list when it is absent. */
  ghost function Rank(list: Results, id: ChunkId): (r: nat)
    ensures r <= |list|
    ensures r < |list| ==> list[r].0 == id
    ensures r < |list| <==> id in Ids(list)
  {
    if id in Ids(list) then
      var r: nat :| r < |list| && Ids(list)[r] == id;
      r
    else |list|
  }

  /** A list without repeats contributes to an id once, at its rank. */
  lemma {:induction false} ContributionAtRank(list: Results, id: ChunkId, k: nat, w: real)
    requires Distinct(list)
    ensures id in Ids(list) ==> Contribution(list, id, k, w) == Share(w, k + Rank(list, id) + 1)
    ensures id in Ids(list) ==> Contribution(list, id, k, w) == w / (k + Rank(list, id) + 1) as real
    ensures id !in Ids(list) ==> Contribution(list, id, k, w) == 0.0
  {
    if list != [] {
      var front, last := list[..|list| - 1], list[|list| - 1];
      ContributionAtRank(front, id, k, w);
      assert Ids(list) == Ids(front) + [last.0];
      RankUnique(list, id);
      RankUnique(front, id);
    }
  }

  /** With the built-in constants an id scores 0.7 / (61 + its vector rank) and 0.3 / (61 + its keyword rank), each
      where it has one, with ranks from 0. */
  lemma {:induction false} DefaultScore(v: Results, b: Results, id: ChunkId)
    requires Distinct(v) && Distinct(b)
    ensures FusedScore(v, b, id, RRF_K, VECTOR_WEIGHT, BM25_WEIGHT)
         == (if id in Ids(v) then 0.7 / (61 + Rank(v, id)) as real else 0.0)
            + (if id in Ids(b) then 0.3 / (61 + Rank(b, id)) as real else 0.0)
  {
    ContributionAtRank(v, id, RRF_K, VECTOR_WEIGHT);
    ContributionAtRank(b, id, RRF_K, BM25_WEIGHT);
    assert 60 + Rank(v, id) + 1 == 61 + Rank(v, id) && 60 + Rank(b, id) + 1 == 61 + Rank(b, id);
  }

  lemma {:induction false} RankUnique(list: Results, id: ChunkId)
    requires Distinct(list)
    ensures forall r: nat | r < |list| && list[r].0 == id :: Rank(list, id) == r
  {
    forall r: nat | r < |list| && list[r].0 == id ensures Rank(list, id) == r {
      assert Ids(list)[r] == id;
      var s := Rank(list, id);
      assert list[s].0 == id;
    }
  }

  lemma {:induction false} ShareMonotone(w: real, m: nat, n: nat)
    requires 0 < m <= n && w > 0.0
    ensures 0.0 < Share(w, n) <= Share(w, m)
    ensures m < n ==> Share(w, n) < Share(w, m)
  {
    var a, b := w / m as real, w / n as real;
    assert a * m as real == w && b * n as real == w;
    assert b > 0.0;
    assert b * n as real - b * m as real == b * (n - m) as real;
    assert b * m as real <= w;
    assert a - b == (w - b * m as real) / m as real;
    if m < n {
      assert b * (n - m) as real > 0.0;
      assert w - b * m as real > 0.0;
    }
  }

  /** The better an id ranks in a list, the more the list contributes to it. */
  lemma {:induction false} ContributionOrder(list: Results, x: ChunkId, y: ChunkId, k: nat, w: real)
    requires Distinct(list) && w > 0.0
    requires Rank(list, x) <= Rank(list, y)
    ensures Contribution(list, x, k, w) >= Contribution(list, y, k, w)
    ensures Rank(list, x) < Rank(list, y) ==> Contribution(list, x, k, w) > Contribution(list, y, k, w)
  {
    ContributionAtRank(list, x, k, w);
    ContributionAtRank(list, y, k, w);
    SharesOrdered(w, k, |list|, Rank(list, x), Rank(list, y), Contribution(list, x, k, w), Contribution(list, y, k, w));
  }

  lemma {:induction false} SharesOrdered(w: real, k: nat, n: nat, rx: nat, ry: nat, cx: real, cy: real)
    requires w > 0.0 && rx <= ry <= n
    requires if rx < n then cx == Share(w, k + rx + 1) else cx == 0.0
    requires if ry < n then cy == Share(w, k + ry + 1) else cy == 0.0
    ensures cx >= cy
    ensures rx < ry ==> cx > cy
  {
    if ry < n {
      ShareMonotone(w, k + rx + 1, k + ry + 1);
    } else if rx < n {
      ShareMonotone(w, k + rx + 1, k + rx + 1);
    }
  }

  lemma {:induction false} ContributionBounds(list: Results, id: ChunkId, k: nat, w: real)
    requires Distinct(list) && w > 0.0
    ensures 0.0 <= Contribution(list, id, k, w) <= Share(w, k + 1)
    ensures id in Ids(list) ==> Contribution(list, id, k, w) >= Share(w, k + |list|) > 0.0
  {
    ContributionAtRank(list, id, k, w);
    ShareMonotone(w, k + 1, k + 1);
    if id in Ids(list) {
      ShareMonotone(w, k + 1, k + Rank(list, id) + 1);
      ShareMonotone(w, k + Rank(list, id) + 1, k + |list|);
    }
  }

  lemma {:induction false} SharesAdd(x: real, y: real, n: nat)
    requires n > 0
    ensures Share(x, n) + Share(y, n) == Share(x + y, n)
  {
  }

  /** Fused scores lie above 0 and at most at the sum of the two best shares. */
  lemma {:induction false} FusedScoreBounds(v: Results, b: Results, k: nat, vw: real, bw: real, p: nat)
    requires Distinct(v) && Distinct(b) && vw > 0.0 && bw > 0.0
    requires p < |Fused(v, b, k, vw, bw)|
    ensures 0.0 < Fused(v, b, k, vw, bw)[p].1 <= (vw + bw) / (k + 1) as real
  {
    FusedEntries(v, b, k, vw, bw);
    var id := Fused(v, b, k, vw, bw)[p].0;
    ContributionBounds(v, id, k, vw);
    ContributionBounds(b, id, k, bw);
    SharesAdd(vw, bw, k + 1);
  }

  /** Of two ids, `x` ranks no worse than `y` in both lists and strictly better in one. */
  ghost predicate RanksBetter(v: Results, b: Results, x: ChunkId, y: ChunkId) {
    && Rank(v, x) <= Rank(v, y) && Rank(b, x) <= Rank(b, y)
    && (Rank(v, x) < Rank(v, y) || Rank(b, x) < Rank(b, y))
  }

  lemma {:induction false} BetterRankedScoresHigher(v: Results, b: Results, k: nat, vw: real, bw: real, x: ChunkId,
                                                    y: ChunkId)
    requires Distinct(v) && Distinct(b) && vw > 0.0 && bw > 0.0 && RanksBetter(v, b, x, y)
    ensures FusedScore(v, b, x, k, vw, bw) > FusedScore(v, b, y, k, vw, bw)
  {
    ContributionOrder(v, x, y, k, vw);
    ContributionOrder(b, x, y, k, bw);
  }

  /** An id that ranks no worse in both lists, and strictly better in one, comes strictly earlier. */
  lemma {:induction false} BetterRankedFirst(v: Results, b: Results, k: nat, vw: real, bw: real, p: nat, q: nat)
    requires Distinct(v) && Distinct(b) && vw > 0.0 && bw > 0.0
    requires p < |Fused(v, b, k, vw, bw)| && q < |Fused(v, b, k, vw, bw)|
    requires RanksBetter(v, b, Fused(v, b, k, vw, bw)[p].0, Fused(v, b, k, vw, bw)[q].0)
    ensures p < q
  {
    var fused := Fused(v, b, k, vw, bw);
    BetterRankedScoresHigher(v, b, k, vw, bw, fused[p].0, fused[q].0);
    FusedEntries(v, b, k, vw, bw);
    assert forall i, j | 0 <= i < j < |fused| :: fused[i].1 >= fused[j].1;
  }

  // ---- when the vector list decides alone ----

  /** Every id of the vector list comes before every id found by BM25 only. */
  ghost predicate VectorFirst(v: Results, b: Results, k: nat, vw: real, bw: real) {
    forall p, q | 0 <= p < |Fused(v, b, k, vw, bw)| && 0 <= q < |Fused(v, b, k, vw, bw)|
                  && Fused(v, b, k, vw, bw)[p].0 in Ids(v) && Fused(v, b, k, vw, bw)[q].0 !in Ids(v) ::
      p < q
  }

  /** Where the best share of a keyword result is no more than the share at vector rank `n`, the first
      `n` vector results come before every id found by BM25 only. */
  lemma {:induction false} LeadersFirst(v: Results, b: Results, k: nat, vw: real, bw: real, n: nat, p: nat, q: nat)
    requires Distinct(v) && Distinct(b) && vw > 0.0 && bw > 0.0 && n <= |v|
    requires vw * (k + 1) as real >= bw * (k + n) as real
    requires p < |Fused(v, b, k, vw, bw)| && q < |Fused(v, b, k, vw, bw)|
    requires Fused(v, b, k, vw, bw)[p].0 in Ids(v[..n]) && Fused(v, b, k, vw, bw)[q].0 !in Ids(v)
    ensures p < q
  {
    var fused := Fused(v, b, k, vw, bw);
    FusedEntries(v, b, k, vw, bw);
    LeaderScoreNotLower(v, b, k, vw, bw, n, fused[p].0, fused[q].0);
    LeaderInList(v, n, fused[p].0);
    var i, j := SeenEarlier(v, b, fused[p].0, fused[q].0);
    FusedOrder(v, b, k, vw, bw, i, j, p, q);
  }

  lemma {:induction false} LeaderInList(v: Results, n: nat, x: ChunkId)
    requires Distinct(v) && n <= |v| && x in Ids(v[..n])
    ensures x in Ids(v) && Rank(v, x) < n
  {
    var i :| 0 <= i < n && Ids(v[..n])[i] == x;
    assert Ids(v)[i] == x;
    RankUnique(v, x);
  }

  lemma {:induction false} LeaderScoreNotLower(v: Results, b: Results, k: nat, vw: real, bw: real, n: nat, x: ChunkId,
                                               y: ChunkId)
    requires Distinct(v) && Distinct(b) && vw > 0.0 && bw > 0.0 && n <= |v|
    requires vw * (k + 1) as real >= bw * (k + n) as real
    requires x in Ids(v[..n]) && y !in Ids(v)
    ensures FusedScore(v, b, x, k, vw, bw) >= FusedScore(v, b, y, k, vw, bw)
  {
    LeaderInList(v, n, x);
    ContributionAtRank(v, x, k, vw);
    ShareMonotone(vw, k + Rank(v, x) + 1, k + n);
    ContributionBounds(b, x, k, bw);
    ContributionAtRank(v, y, k, vw);
    ContributionBounds(b, y, k, bw);
    WeightsCross(k, n, vw, bw);
  }

  lemma {:induction false} VectorFirstIfWeighty(v: Results, b: Results, k: nat, vw: real, bw: real)
    requires Distinct(v) && Distinct(b) && vw > 0.0 && bw > 0.0
    requires vw * (k + 1) as real >= bw * (k + |v|) as real
    ensures VectorFirst(v, b, k, vw, bw)
  {
    var fused := Fused(v, b, k, vw, bw);
    assert v[..|v|] == v;
    forall p, q | 0 <= p < |fused| && 0 <= q < |fused| && fused[p].0 in Ids(v) && fused[q].0 !in Ids(v)
      ensures p < q
    {
      LeadersFirst(v, b, k, vw, bw, |v|, p, q);
    }
  }

  lemma {:induction false} SeenEarlier(v: Results, b: Results, x: ChunkId, y: ChunkId) returns (i: nat, j: nat)
    requires x in Ids(v) && y !in Ids(v) && y in Ids(b)
    ensures i < j < |FirstSeen(v, b)|
    ensures FirstSeen(v, b)[i] == x && FirstSeen(v, b)[j] == y
  {
    var seen, all := SeenAfter([], v), FirstSeen(v, b);
    SeenAfterFacts([], v);
    SeenAfterFacts(seen, b);
    assert x in seen && y !in seen && y in all;
    i :| 0 <= i < |seen| && seen[i] == x;
    j :| 0 <= j < |all| && all[j] == y;
    assert all[i] == x;
    assert forall h | 0 <= h < |seen| :: all[h] == seen[h];
  }

  lemma {:induction false} ProductSign(x: real, y: real)
    requires y > 0.0
    ensures x >= 0.0 <==> x * y >= 0.0
  {
    if x < 0.0 {
      assert (-x) * y > 0.0;
      assert (-x) * y == -(x * y);
    }
  }

  lemma {:induction false} WeightsCross(k: nat, m: nat, vw: real, bw: real)
    requires m > 0 && vw > 0.0 && bw > 0.0
    ensures vw * (k + 1) as real >= bw * (k + m) as real <==> Share(vw, k + m) >= Share(bw, k + 1)
  {
    var s, t := (k + m) as real, (k + 1) as real;
    var a, c := vw / s, bw / t;
    assert a * s == vw && c * t == bw;
    assert s * t > 0.0;
    calc {
      (a - c) * (s * t);
      (a * s) * t - (c * t) * s;
      vw * t - bw * s;
    }
    ProductSign(a - c, s * t);
  }

  function Numbered(m: nat): (r: Results)
    ensures |r| == m
    ensures forall i | 0 <= i < m :: r[i] == (i, 0.0)
  {
    seq(m, i requires 0 <= i < m => (i, 0.0))
  }

  /** The exact condition: vector lists of `m` results always come first iff
      `vw * (k + 1) >= bw * (k + m)`. */
  lemma {:induction false} VectorFirstExactly(m: nat, k: nat, vw: real, bw: real)
    requires m > 0 && vw > 0.0 && bw > 0.0
    ensures (forall v: Results, b: Results | Distinct(v) && Distinct(b) && |v| == m :: VectorFirst(v, b, k, vw, bw))
            <==> vw * (k + 1) as real >= bw * (k + m) as real
  {
    if vw * (k + 1) as real >= bw * (k + m) as real {
      forall v: Results, b: Results | Distinct(v) && Distinct(b) && |v| == m ensures VectorFirst(v, b, k, vw, bw) {
        VectorFirstIfWeighty(v, b, k, vw, bw);
      }
    } else {
      var v, b := Bm25Overtakes(m, k, vw, bw);
    }
  }

  lemma {:induction false} Bm25Overtakes(m: nat, k: nat, vw: real, bw: real) returns (v: Results, b: Results)
    requires m > 0 && vw > 0.0 && bw > 0.0
    requires vw * (k + 1) as real < bw * (k + m) as real
    ensures Distinct(v) && Distinct(b) && |v| == m && |b| == 1 && !VectorFirst(v, b, k, vw, bw)
  {
    v, b := Numbered(m), [(m, 0.0)];
    var last := m - 1;
    assert Ids(v)[last] == last && Ids(b) == [m];
    var p := FusedPosition(v, b, k, vw, bw, last);
    var q := FusedPosition(v, b, k, vw, bw, m);
    assert FusedScore(v, b, last, k, vw, bw) < FusedScore(v, b, m, k, vw, bw) by {
      RankUnique(v, last);
      ContributionAtRank(v, last, k, vw);
      ContributionAtRank(v, m, k, vw);
      RankUnique(b, m);
      ContributionAtRank(b, last, k, bw);
      ContributionAtRank(b, m, k, bw);
      WeightsCross(k, m, vw, bw);
    }
    var fused := Fused(v, b, k, vw, bw);
    assert forall i, j | 0 <= i < j < |fused| :: fused[i].1 >= fused[j].1;
    assert m !in Ids(v);
  }

  /** With the built-in constants the condition is a vector list of at most 82 results. */
  lemma {:induction false} DefaultWeightsReach(m: nat)
    requires m > 0
    ensures (forall v: Results, b: Results | Distinct(v) && Distinct(b) && |v| == m ::
               VectorFirst(v, b, RRF_K, VECTOR_WEIGHT, BM25_WEIGHT))
            <==> m <= 82
  {
    VectorFirstExactly(m, RRF_K, VECTOR_WEIGHT, BM25_WEIGHT);
  }
}
