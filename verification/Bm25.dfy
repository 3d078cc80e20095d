/** BM25 keyword index (backend/src/services/rag_query.py, lines 27-87). */
module Bm25 {
  import opened ChunkIds
  import opened Text
  import opened Totals
  import opened StableSort

  /** A stored chunk as the index sees it. */
  datatype Doc = Doc(id: ChunkId, tokens: seq<string>)

  const BM25_K1 := 1.5
  const BM25_B := 0.75

  /** All that is used of `math.log`: positive and monotone above 1. */
  ghost predicate LogLike(log: real -> real) {
    && (forall x: real | 1.0 < x :: log(x) > 0.0)
    && (forall x: real, y: real | 1.0 < x <= y :: log(x) <= log(y))
  }

  function Tokenize(text: string): seq<string> {
    Words(Lower(text), 0)
  }

  /** A character that is no word character separates tokens, and a run of word characters is one token, in lower
      case: this determines the tokens of every text. */
  lemma {:induction false} TokenizeParts(a: string, c: char, b: string)
    requires !IsWord(c)
    ensures Tokenize(a + [c] + b) == Tokenize(a) + Tokenize(b)
  {
    assert Lower(a + [c] + b) == Lower(a) + [LowerChar(c)] + Lower(b);
    WordsParts(Lower(a), LowerChar(c), Lower(b));
  }

  lemma {:induction false} TokenizeWord(w: string)
    requires w != "" && forall i | 0 <= i < |w| :: IsWord(w[i])
    ensures Tokenize(w) == [Lower(w)]
    ensures Tokenize("") == []
  {
    assert Lower("") == "";
    WordsOne(Lower(w));
  }

  // ---- BM25 from scratch, on the documents alone ----

  function Holds(t: string): Doc -> int {
    (d: Doc) => if t in d.tokens then 1 else 0
  }

  function Length(): Doc -> int {
    (d: Doc) => |d.tokens|
  }

  /** How many documents contain the term. */
  function DocFreq(docs: seq<Doc>, t: string): int {
    Sum(Holds(t), docs)
  }

  function TotalLength(docs: seq<Doc>): int {
    Sum(Length(), docs)
  }

  function AvgLength(docs: seq<Doc>): real {
    if docs == [] then 0.0 else TotalLength(docs) as real / |docs| as real
  }

  lemma {:induction false} DocFreqBounds(docs: seq<Doc>, t: string)
    ensures 0 <= DocFreq(docs, t) <= |docs|
    ensures DocFreq(docs, t) > 0 <==> exists d :: d in docs && t in d.tokens
    ensures DocFreq(docs, t) <= TotalLength(docs)
  {
    if docs != [] {
      var front, last := docs[..|docs| - 1], docs[|docs| - 1];
      DocFreqBounds(front, t);
      assert docs == front + [last];
      if t in last.tokens {
        assert |last.tokens| >= 1;
      }
    }
  }

  /** A term that occurs somewhere makes the average length positive. */
  lemma {:induction false} AvgPositive(docs: seq<Doc>, t: string)
    requires DocFreq(docs, t) > 0
    ensures docs != [] && AvgLength(docs) > 0.0
  {
    DocFreqBounds(docs, t);
    var total, n := TotalLength(docs) as real, |docs| as real;
    assert total / n > 0.0;
  }

  function Idf(log: real -> real, n: int, df: int): real
    requires 0 <= df <= n
  {
    log(1.0 + (n as real - df as real + 0.5) / (df as real + 0.5))
  }

  /** What one query token adds to the score of a document of `len` tokens in which it occurs `tf` times. */
  function TermWeight(idf: real, tf: nat, len: nat, avg: real): real
    requires avg > 0.0
  {
    var numerator := tf as real * (BM25_K1 + 1.0);
    var denominator := tf as real + BM25_K1 * (1.0 - BM25_B + BM25_B * len as real / avg);
    DenominatorPositive(tf, len, avg);
    idf * numerator / denominator
  }

  lemma {:induction false} DenominatorPositive(tf: nat, len: nat, avg: real)
    requires avg > 0.0
    ensures tf as real + BM25_K1 * (1.0 - BM25_B + BM25_B * len as real / avg) > 0.0
  {
    assert BM25_B * len as real >= 0.0;
    assert BM25_B * len as real / avg >= 0.0;
  }

  function TermScore(log: real -> real, docs: seq<Doc>, doc: Doc, t: string): real {
    if DocFreq(docs, t) <= 0 then 0.0
    else
      DocFreqBounds(docs, t);
      AvgPositive(docs, t);
      TermWeight(Idf(log, |docs|, DocFreq(docs, t)), multiset(doc.tokens)[t], |doc.tokens|, AvgLength(docs))
  }

  /** The BM25 score of a document for a query. */
  function DocScore(log: real -> real, docs: seq<Doc>, doc: Doc, query: seq<string>): real {
    if query == [] then 0.0
    else
      DocScore(log, docs, doc, query[..|query| - 1]) + TermScore(log, docs, doc, query[|query| - 1])
  }

  /** The documents of `part` with a positive score, in corpus order. */
  function Scored(log: real -> real, docs: seq<Doc>, part: seq<Doc>, query: seq<string>): seq<(ChunkId, real)> {
    if part == [] then []
    else
      var last := part[|part| - 1];
      var score := DocScore(log, docs, last, query);
      Scored(log, docs, part[..|part| - 1], query) + if score > 0.0 then [(last.id, score)] else []
  }

  function Ranked(log: real -> real, docs: seq<Doc>, query: seq<string>): seq<(ChunkId, real)> {
    SortDesc(Scored(log, docs, docs, query))
  }

  predicate SharesToken(doc: Doc, query: seq<string>) {
    exists i | 0 <= i < |query| :: query[i] in doc.tokens
  }

  // ---- what the scores mean ----

  /** The inverse document frequency is always taken of a number above 1. */
  lemma {:induction false} IdfPositive(log: real -> real, n: int, df: int)
    requires LogLike(log) && 0 <= df <= n
    ensures 1.0 + (n as real - df as real + 0.5) / (df as real + 0.5) > 1.0
    ensures Idf(log, n, df) > 0.0
  {
    assert (n as real - df as real + 0.5) / (df as real + 0.5) > 0.0;
  }

  lemma {:induction false} RarerTermsWeighNoLess(log: real -> real, n: int, df1: int, df2: int)
    requires LogLike(log) && 0 <= df1 <= df2 <= n
    ensures Idf(log, n, df1) >= Idf(log, n, df2)
  {
    var a, b := n as real - df1 as real + 0.5, df1 as real + 0.5;
    var c, d := n as real - df2 as real + 0.5, df2 as real + 0.5;
    FractionMonotone(a, b, c, d);
    IdfPositive(log, n, df2);
  }

  lemma {:induction false} FractionMonotone(a: real, b: real, c: real, d: real)
    requires a >= c > 0.0 && 0.0 < b <= d
    ensures a / b >= c / d
  {
    assert a / b >= c / b by { assert (a - c) / b >= 0.0; }
    var y := c / d;
    assert y * b <= y * d;
    assert c / b - y == (c - y * b) / b;
  }

  lemma {:induction false} TermWeightSign(idf: real, tf: nat, len: nat, avg: real)
    requires idf > 0.0 && avg > 0.0
    ensures TermWeight(idf, tf, len, avg) >= 0.0
    ensures TermWeight(idf, tf, len, avg) > 0.0 <==> tf > 0
  {
    var numerator := tf as real * (BM25_K1 + 1.0);
    var denominator := tf as real + BM25_K1 * (1.0 - BM25_B + BM25_B * len as real / avg);
    DenominatorPositive(tf, len, avg);
    assert TermWeight(idf, tf, len, avg) == idf * numerator / denominator;
    if tf > 0 {
      assert numerator > 0.0;
      assert idf * numerator > 0.0;
      assert idf * numerator / denominator > 0.0;
    } else {
      assert idf * numerator == 0.0;
    }
  }

  lemma {:induction false} TermScoreSign(log: real -> real, docs: seq<Doc>, doc: Doc, t: string)
    requires LogLike(log) && doc in docs
    ensures TermScore(log, docs, doc, t) >= 0.0
    ensures TermScore(log, docs, doc, t) > 0.0 <==> t in doc.tokens
  {
    DocFreqBounds(docs, t);
    if DocFreq(docs, t) > 0 {
      AvgPositive(docs, t);
      IdfPositive(log, |docs|, DocFreq(docs, t));
      TermWeightSign(Idf(log, |docs|, DocFreq(docs, t)), multiset(doc.tokens)[t], |doc.tokens|, AvgLength(docs));
      assert t in doc.tokens <==> multiset(doc.tokens)[t] > 0;
    }
  }

  /** A document scores above zero exactly when it shares a token with the query. */
  lemma {:induction false} PositiveIffShares(log: real -> real, docs: seq<Doc>, doc: Doc, query: seq<string>)
    requires LogLike(log) && doc in docs
    ensures DocScore(log, docs, doc, query) >= 0.0
    ensures DocScore(log, docs, doc, query) > 0.0 <==> SharesToken(doc, query)
  {
    if query != [] {
      var front := query[..|query| - 1];
      PositiveIffShares(log, docs, doc, front);
      TermScoreSign(log, docs, doc, query[|query| - 1]);
      assert SharesToken(doc, query) <==> SharesToken(doc, front) || query[|query| - 1] in doc.tokens;
    }
  }

  /** Where the scored documents sit in the corpus: an increasing list of positions. */
  function Hits(log: real -> real, docs: seq<Doc>, n: nat, query: seq<string>): (r: seq<nat>)
    requires n <= |docs|
    ensures forall a | 0 <= a < |r| :: r[a] < n
    ensures forall a, b | 0 <= a < b < |r| :: r[a] < r[b]
    ensures forall i: nat | i < n :: i in r <==> DocScore(log, docs, docs[i], query) > 0.0
  {
    if n == 0 then []
    else
      var front := Hits(log, docs, n - 1, query);
      if DocScore(log, docs, docs[n - 1], query) > 0.0 then front + [n - 1] else front
  }

  /** The scored documents are those at these positions. */
  lemma {:induction false} HitsScored(log: real -> real, docs: seq<Doc>, n: nat, query: seq<string>)
    requires n <= |docs|
    ensures |Scored(log, docs, docs[..n], query)| == |Hits(log, docs, n, query)|
    ensures forall a | 0 <= a < |Hits(log, docs, n, query)| ::
              var i := Hits(log, docs, n, query)[a];
              Scored(log, docs, docs[..n], query)[a] == (docs[i].id, DocScore(log, docs, docs[i], query))
  {
    hide DocScore;
    if n > 0 {
      HitsScored(log, docs, n - 1, query);
      assert docs[..n][..n - 1] == docs[..n - 1];
    }
  }

  /** `Ranked` lists exactly the documents that share a token with the query, each with its BM25
      score, in descending order of score, and documents of equal score in corpus order. */
  lemma {:induction false} RankedMeaning(log: real -> real, docs: seq<Doc>, query: seq<string>) returns (ord: seq<nat>)
    requires LogLike(log)
    ensures |ord| == |Ranked(log, docs, query)|
    ensures forall a | 0 <= a < |ord| :: ord[a] < |docs|
    ensures forall a | 0 <= a < |ord| ::
              Ranked(log, docs, query)[a] == (docs[ord[a]].id, DocScore(log, docs, docs[ord[a]], query))
    ensures forall i: nat | i < |docs| :: i in ord <==> SharesToken(docs[i], query)
    ensures forall a, b | 0 <= a < b < |ord| ::
              var x, y := DocScore(log, docs, docs[ord[a]], query), DocScore(log, docs, docs[ord[b]], query);
              x > y || (x == y && ord[a] < ord[b])
  {
    hide DocScore, Scored, Hits, SharesToken;
    var hits := Hits(log, docs, |docs|, query);
    HitsScored(log, docs, |docs|, query);
    assert docs[..|docs|] == docs;
    var scored := Scored(log, docs, docs, query);
    var scores := seq(|docs|, i requires 0 <= i < |docs| => DocScore(log, docs, docs[i], query));
    ord := OrderThroughHits(scores, hits, Keys(scored));
    forall i: nat | i < |docs| ensures i in ord <==> SharesToken(docs[i], query) {
      PositiveIffShares(log, docs, docs[i], query);
    }
    forall a, b | 0 <= a < b < |ord|
      ensures var x, y := DocScore(log, docs, docs[ord[a]], query), DocScore(log, docs, docs[ord[b]], query);
              x > y || (x == y && ord[a] < ord[b])
    {
      assert Before(scores, ord[a], ord[b]);
    }
  }

  /** Sorting the keys found at increasing positions sorts the positions themselves. */
  lemma {:induction false} OrderThroughHits(scores: seq<real>, hits: seq<nat>, keys: seq<real>) returns (ord: seq<nat>)
    requires |keys| == |hits|
    requires forall a | 0 <= a < |hits| :: hits[a] < |scores| && keys[a] == scores[hits[a]]
    requires forall a, b | 0 <= a < b < |hits| :: hits[a] < hits[b]
    ensures |ord| == |hits|
    ensures forall a | 0 <= a < |ord| :: ord[a] < |scores| && ord[a] == hits[Order(keys)[a]]
    ensures forall i :: i in ord <==> i in hits
    ensures forall a, b | 0 <= a < b < |ord| :: Before(scores, ord[a], ord[b])
  {
    var perm := Order(keys);
    ord := seq(|perm|, a requires 0 <= a < |perm| => hits[perm[a]]);
    forall i | i in hits ensures i in ord {
      var h: nat :| h < |hits| && hits[h] == i;
      assert h in perm;
      var p :| 0 <= p < |perm| && perm[p] == h;
      assert ord[p] == i;
    }
    forall a, b | 0 <= a < b < |ord| ensures Before(scores, ord[a], ord[b]) {
      assert Before(keys, perm[a], perm[b]);
    }
  }

  // ---- how frequency and length decide ----

  lemma {:induction false} FractionLess(a: real, b: real, c: real, d: real)
    requires b > 0.0 && d > 0.0
    ensures a / b < c / d <==> a * d < c * b
  {
    var x, y := a / b, c / d;
    assert x * b == a && y * d == c;
    assert b * d > 0.0;
    assert (y - x) * (b * d) == c * b - a * d by {
      assert (y * d) * b - (x * b) * d == (y - x) * (b * d);
    }
    ProductPositive(y - x, b * d);
  }

  lemma {:induction false} ProductPositive(x: real, y: real)
    requires y > 0.0
    ensures x > 0.0 <==> x * y > 0.0
  {
    if x <= 0.0 {
      assert (-x) * y >= 0.0;
      assert (-x) * y == -(x * y);
    }
  }

  function Weighed(idf: real, t: real, x: real): real
    requires t + 0.375 * (1.0 + 3.0 * x) > 0.0
  {
    idf * (2.5 * t) / (t + 0.375 * (1.0 + 3.0 * x))
  }

  /** The weight with `k1 = 1.5` and `b = 0.75` written out, and the lengths counted in multiples of the average. */
  lemma {:induction false} WeightIs(idf: real, tf: nat, len: nat, avg: real, x: real)
    requires avg > 0.0 && x * avg == len as real
    ensures tf as real + 0.375 * (1.0 + 3.0 * x) > 0.0
    ensures TermWeight(idf, tf, len, avg) == Weighed(idf, tf as real, x)
  {
    ProductPositive(-x, avg);
    assert (-x) * avg == -(x * avg);
    assert x >= 0.0;
    assert 0.75 * len as real / avg == 0.75 * x by {
      assert 0.75 * len as real == (0.75 * x) * avg;
      Divided(0.75 * x, avg);
    }
  }

  lemma {:induction false} Quotient(a: real, b: real, q: real)
    requires b > 0.0 && q * b == a
    ensures a / b == q
  {
    Divided(q, b);
  }

  lemma {:induction false} Divided(x: real, y: real)
    requires y > 0.0
    ensures x * y / y == x
  {
  }

  /** Exactly how two documents compare in one token: the more occurrences and the fewer tokens the better, where a
      document counts for a quarter as one of average length. */
  lemma {:induction false} WeightOrder(idf: real, tf1: nat, len1: nat, tf2: nat, len2: nat, avg: real)
    requires idf > 0.0 && avg > 0.0
    ensures TermWeight(idf, tf1, len1, avg) < TermWeight(idf, tf2, len2, avg) <==>
            tf1 as real * (avg + 3.0 * len2 as real) < tf2 as real * (avg + 3.0 * len1 as real)
  {
    hide TermWeight, Weighed;
    var x1, x2 := len1 as real / avg, len2 as real / avg;
    WeightIs(idf, tf1, len1, avg, x1);
    WeightIs(idf, tf2, len2, avg, x2);
    FractionOrder(idf, tf1 as real, tf2 as real, x1, x2, avg, len1 as real, len2 as real);
  }

  lemma {:induction false} FractionOrder(idf: real, t1: real, t2: real, x1: real, x2: real, avg: real, len1: real,
                                         len2: real)
    requires idf > 0.0 && avg > 0.0 && x1 * avg == len1 && x2 * avg == len2
    requires t1 + 0.375 * (1.0 + 3.0 * x1) > 0.0 && t2 + 0.375 * (1.0 + 3.0 * x2) > 0.0
    ensures Weighed(idf, t1, x1) < Weighed(idf, t2, x2) <==>
            t1 * (avg + 3.0 * len2) < t2 * (avg + 3.0 * len1)
  {
    var d1, d2 := t1 + 0.375 * (1.0 + 3.0 * x1), t2 + 0.375 * (1.0 + 3.0 * x2);
    var n1, n2 := idf * (2.5 * t1), idf * (2.5 * t2);
    var gap := t2 * (1.0 + 3.0 * x1) - t1 * (1.0 + 3.0 * x2);
    FractionLess(n1, d1, n2, d2);
    CrossProducts(idf, t1, t2, x1, x2);
    assert n2 * d1 - n1 * d2 == gap * (0.9375 * idf);
    ProductPositive(gap, 0.9375 * idf);
    GapTimesAverage(t1, t2, x1, x2, avg, len1, len2);
    ProductPositive(gap, avg);
    var l, r := t1 * (avg + 3.0 * len2), t2 * (avg + 3.0 * len1);
    assert gap * avg == r - l;
  }

  lemma {:induction false} GapTimesAverage(t1: real, t2: real, x1: real, x2: real, avg: real, len1: real, len2: real)
    requires x1 * avg == len1 && x2 * avg == len2
    ensures (t2 * (1.0 + 3.0 * x1) - t1 * (1.0 + 3.0 * x2)) * avg == t2 * (avg + 3.0 * len1) - t1 * (avg + 3.0 * len2)
  {
    TimesAverage(t2, x1, avg, len1);
    TimesAverage(t1, x2, avg, len2);
  }

  lemma {:induction false} CrossProducts(idf: real, t1: real, t2: real, x1: real, x2: real)
    ensures (idf * (2.5 * t2)) * (t1 + 0.375 * (1.0 + 3.0 * x1)) - (idf * (2.5 * t1)) * (t2 + 0.375 * (1.0 + 3.0 * x2))
         == (t2 * (1.0 + 3.0 * x1) - t1 * (1.0 + 3.0 * x2)) * (0.9375 * idf)
  {
    var y1, y2 := 1.0 + 3.0 * x1, 1.0 + 3.0 * x2;
    calc {
      (idf * (2.5 * t2)) * (t1 + 0.375 * y1) - (idf * (2.5 * t1)) * (t2 + 0.375 * y2);
      2.5 * idf * (t2 * (t1 + 0.375 * y1) - t1 * (t2 + 0.375 * y2));
      2.5 * idf * (0.375 * (t2 * y1) - 0.375 * (t1 * y2));
      (t2 * y1 - t1 * y2) * (0.9375 * idf);
    }
  }

  lemma {:induction false} TimesAverage(t: real, x: real, avg: real, len: real)
    requires x * avg == len
    ensures t * (1.0 + 3.0 * x) * avg == t * (avg + 3.0 * len)
  {
    assert (1.0 + 3.0 * x) * avg == avg + 3.0 * (x * avg);
  }

  /** One occurrence in a document of average length weighs the token's inverse document frequency, and no number of
      occurrences weighs two and a half times that. */
  lemma {:induction false} WeightScale(idf: real, tf: nat, len: nat, avg: real)
    requires idf > 0.0 && avg > 0.0
    ensures TermWeight(idf, tf, len, avg) < 2.5 * idf
    ensures avg == len as real ==> TermWeight(idf, tf, len, avg) == idf * (2.5 * tf as real) / (tf as real + 1.5)
    ensures avg == len as real && tf == 1 ==> TermWeight(idf, tf, len, avg) == idf
  {
    hide TermWeight, Weighed;
    var x := len as real / avg;
    WeightIs(idf, tf, len, avg, x);
    WeighedBelow(idf, tf as real, x);
    if avg == len as real {
      Quotient(len as real, avg, 1.0);
      WeighedAtAverage(idf, tf as real);
    }
  }

  lemma {:induction false} WeighedBelow(idf: real, t: real, x: real)
    requires idf > 0.0 && x >= 0.0 && t + 0.375 * (1.0 + 3.0 * x) > 0.0
    ensures Weighed(idf, t, x) < 2.5 * idf
  {
    var d := t + 0.375 * (1.0 + 3.0 * x);
    FractionLess(idf * (2.5 * t), d, 2.5 * idf, 1.0);
    ProductPositive(2.5 * idf, 0.375 * (1.0 + 3.0 * x));
    assert (2.5 * idf) * d - idf * (2.5 * t) == (2.5 * idf) * (0.375 * (1.0 + 3.0 * x));
    assert 2.5 * idf / 1.0 == 2.5 * idf;
  }

  lemma {:induction false} WeighedAtAverage(idf: real, t: real)
    requires t >= 0.0
    ensures Weighed(idf, t, 1.0) == idf * (2.5 * t) / (t + 1.5)
    ensures t == 1.0 ==> Weighed(idf, t, 1.0) == idf
  {
    Divided(idf, 2.5);
  }

  /** The inverse document frequency in lowest terms: the logarithm of `(2n + 2) / (2df + 1)`. */
  lemma {:induction false} IdfIs(log: real -> real, n: int, df: int)
    requires 0 <= df <= n
    ensures Idf(log, n, df) == log((2.0 * n as real + 2.0) / (2.0 * df as real + 1.0))
  {
    var x, d := (n as real - df as real + 0.5) / (df as real + 0.5), df as real + 0.5;
    assert x * d == n as real - df as real + 0.5;
    assert (1.0 + x) * (2.0 * d) == 2.0 * n as real + 2.0;
    assert 2.0 * d == 2.0 * df as real + 1.0;
    Quotient(2.0 * n as real + 2.0, 2.0 * df as real + 1.0, 1.0 + x);
  }

  /** A query's score is the sum of its tokens' scores, repeated tokens counted each time. */
  lemma {:induction false} ScoreAdds(log: real -> real, docs: seq<Doc>, doc: Doc, query: seq<string>, more: seq<string>)
    ensures DocScore(log, docs, doc, query + more) == DocScore(log, docs, doc, query) + DocScore(log, docs, doc, more)
  {
    hide TermScore;
    if more == [] {
      assert query + more == query;
    } else {
      var n := |more| - 1;
      assert (query + more)[..|query + more| - 1] == query + more[..n];
      ScoreAdds(log, docs, doc, query, more[..n]);
    }
  }

  lemma {:induction false} OneToken(log: real -> real, docs: seq<Doc>, doc: Doc, t: string)
    ensures DocFreq(docs, t) == 0 ==> DocScore(log, docs, doc, [t]) == 0.0
    ensures DocFreq(docs, t) > 0 ==>
              && 0 < DocFreq(docs, t) <= |docs| && AvgLength(docs) > 0.0
              && DocScore(log, docs, doc, [t])
                 == TermWeight(Idf(log, |docs|, DocFreq(docs, t)), multiset(doc.tokens)[t], |doc.tokens|,
                               AvgLength(docs))
  {
    hide TermWeight, Idf, AvgLength;
    assert [t][..0] == [];
    DocFreqBounds(docs, t);
    if DocFreq(docs, t) > 0 {
      AvgPositive(docs, t);
    }
  }

  /** The document frequency is the number of documents that hold the term. */
  lemma {:induction false} DocFreqCounts(docs: seq<Doc>, t: string)
    ensures DocFreq(docs, t) == |Where((d: Doc) => t in d.tokens, docs)|
  {
    SumExtensional(Holds(t), Indicator((d: Doc) => t in d.tokens), docs);
    SumOfIndicator((d: Doc) => t in d.tokens, docs);
  }

  /** The average length times the number of documents is the number of their tokens. */
  lemma {:induction false} AverageIs(docs: seq<Doc>)
    ensures docs != [] ==> AvgLength(docs) * |docs| as real == TotalLength(docs) as real
    ensures docs != [] ==> TotalLength(docs) == TotalLength(docs[..|docs| - 1]) + |docs[|docs| - 1].tokens|
    ensures TotalLength([]) == 0
  {
  }

  function Occurrences(doc: Doc, t: string): nat {
    multiset(doc.tokens)[t]
  }

  /** For a query of one known token the order of two documents is decided by their frequencies and lengths alone:
      `i` scores higher than `j` exactly if `tf(i) * (avg + 3 * len(j)) > tf(j) * (avg + 3 * len(i))`. */
  lemma {:induction false} OneTokenOrder(log: real -> real, docs: seq<Doc>, t: string, i: nat, j: nat)
    requires LogLike(log) && i < |docs| && j < |docs| && t in docs[i].tokens
    ensures DocScore(log, docs, docs[i], [t]) > DocScore(log, docs, docs[j], [t]) <==>
            Occurrences(docs[i], t) as real * (AvgLength(docs) + 3.0 * |docs[j].tokens| as real)
            > Occurrences(docs[j], t) as real * (AvgLength(docs) + 3.0 * |docs[i].tokens| as real)
  {
    hide TermWeight, DocScore, Idf, AvgLength;
    DocFreqBounds(docs, t);
    assert docs[i] in docs;
    OneToken(log, docs, docs[i], t);
    OneToken(log, docs, docs[j], t);
    IdfPositive(log, |docs|, DocFreq(docs, t));
    WeightOrder(Idf(log, |docs|, DocFreq(docs, t)), Occurrences(docs[j], t), |docs[j].tokens|,
                Occurrences(docs[i], t), |docs[i].tokens|, AvgLength(docs));
  }

  /** Of two documents with the same positive number of occurrences the shorter scores strictly higher and is ranked
      first; of two of the same length the one with more occurrences. */
  lemma {:induction false} ShorterFirst(log: real -> real, docs: seq<Doc>, t: string, i: nat, j: nat)
    returns (p: nat, q: nat)
    requires LogLike(log) && i < |docs| && j < |docs| && t in docs[i].tokens && t in docs[j].tokens
    requires || (Occurrences(docs[i], t) == Occurrences(docs[j], t) && |docs[i].tokens| < |docs[j].tokens|)
             || (Occurrences(docs[i], t) > Occurrences(docs[j], t) && |docs[i].tokens| == |docs[j].tokens|)
    ensures DocScore(log, docs, docs[i], [t]) > DocScore(log, docs, docs[j], [t])
    ensures p < q < |Ranked(log, docs, [t])|
    ensures Ranked(log, docs, [t])[p] == (docs[i].id, DocScore(log, docs, docs[i], [t]))
    ensures Ranked(log, docs, [t])[q] == (docs[j].id, DocScore(log, docs, docs[j], [t]))
  {
    hide DocScore, AvgLength, Ranked;
    OneTokenOrder(log, docs, t, i, j);
    FewerTokensWin(docs, t, i, j);
    var ord := RankedMeaning(log, docs, [t]);
    assert [t][0] == t;
    assert i in ord && j in ord;
    p :| 0 <= p < |ord| && ord[p] == i;
    q :| 0 <= q < |ord| && ord[q] == j;
  }

  lemma {:induction false} FewerTokensWin(docs: seq<Doc>, t: string, i: nat, j: nat)
    requires i < |docs| && j < |docs| && t in docs[i].tokens && t in docs[j].tokens
    requires || (Occurrences(docs[i], t) == Occurrences(docs[j], t) && |docs[i].tokens| < |docs[j].tokens|)
             || (Occurrences(docs[i], t) > Occurrences(docs[j], t) && |docs[i].tokens| == |docs[j].tokens|)
    ensures Occurrences(docs[i], t) as real * (AvgLength(docs) + 3.0 * |docs[j].tokens| as real)
            > Occurrences(docs[j], t) as real * (AvgLength(docs) + 3.0 * |docs[i].tokens| as real)
  {
    hide AvgLength;
    var a, b := Occurrences(docs[i], t) as real, Occurrences(docs[j], t) as real;
    var x, y := AvgLength(docs) + 3.0 * |docs[j].tokens| as real, AvgLength(docs) + 3.0 * |docs[i].tokens| as real;
    AvgIsPositive(docs, i, t);
    Wins(a, b, x, y);
  }

  lemma {:induction false} Wins(a: real, b: real, x: real, y: real)
    requires a > 0.0 && x > 0.0 && ((a == b && x > y) || (a > b && x == y))
    ensures a * x > b * y
  {
    if a == b {
      ProductPositive(x - y, a);
      assert (x - y) * a == a * x - b * y;
    } else {
      ProductPositive(a - b, x);
      assert (a - b) * x == a * x - b * y;
    }
  }

  lemma {:induction false} AvgIsPositive(docs: seq<Doc>, i: nat, t: string)
    requires i < |docs| && t in docs[i].tokens
    ensures AvgLength(docs) > 0.0
  {
    DocFreqBounds(docs, t);
    assert docs[i] in docs;
    AvgPositive(docs, t);
  }

  /** A search of indexed chunks finds exactly those that share a token with the query text. */
  lemma {:induction false} SearchFinds(log: real -> real, chunks: seq<(ChunkId, string)>, query: string, id: ChunkId)
    requires LogLike(log)
    ensures (exists score :: (id, score) in Ranked(log, DocsOf(chunks), Tokenize(query))) <==>
            exists i, t :: 0 <= i < |chunks| && chunks[i].0 == id && t in Tokenize(query) && t in Tokenize(chunks[i].1)
  {
    hide DocScore, Ranked, Tokenize, SharesToken;
    var docs, q := DocsOf(chunks), Tokenize(query);
    if score :| (id, score) in Ranked(log, docs, q) {
      RankedMembers(log, docs, q, (id, score));
      var d :| d in docs && (id, score) == (d.id, DocScore(log, docs, d, q)) && score > 0.0;
      PositiveIffShares(log, docs, d, q);
      var i :| 0 <= i < |docs| && docs[i] == d;
      var t := SharedToken(d, q);
      assert chunks[i].0 == id && t in Tokenize(chunks[i].1);
    }
    if i, t :| 0 <= i < |chunks| && chunks[i].0 == id && t in q && t in Tokenize(chunks[i].1) {
      assert docs[i] in docs;
      SharesIt(docs[i], q, t);
      PositiveIffShares(log, docs, docs[i], q);
      RankedMembers(log, docs, q, (id, DocScore(log, docs, docs[i], q)));
    }
  }

  lemma {:induction false} SharedToken(d: Doc, query: seq<string>) returns (t: string)
    requires SharesToken(d, query)
    ensures t in query && t in d.tokens
  {
    var i :| 0 <= i < |query| && query[i] in d.tokens;
    t := query[i];
  }

  lemma {:induction false} SharesIt(d: Doc, query: seq<string>, t: string)
    requires t in query && t in d.tokens
    ensures SharesToken(d, query)
  {
  }

  // ---- the order of the documents does not matter to the scores ----

  lemma {:induction false} ScoresPermuted(log: real -> real, docs1: seq<Doc>, docs2: seq<Doc>, doc: Doc,
                                          query: seq<string>)
    requires multiset(docs1) == multiset(docs2)
    ensures DocScore(log, docs1, doc, query) == DocScore(log, docs2, doc, query)
  {
    assert |docs1| == |multiset(docs1)| == |multiset(docs2)| == |docs2|;
    SumPermuted(Length(), docs1, docs2);
    if query != [] {
      ScoresPermuted(log, docs1, docs2, doc, query[..|query| - 1]);
      SumPermuted(Holds(query[|query| - 1]), docs1, docs2);
    }
  }

  lemma {:induction false} ScoredMembers(log: real -> real, docs: seq<Doc>, part: seq<Doc>, query: seq<string>,
                                         e: (ChunkId, real))
    ensures e in Scored(log, docs, part, query) <==>
            exists d :: d in part && e == (d.id, DocScore(log, docs, d, query)) && e.1 > 0.0
  {
    if part != [] {
      var front, last := part[..|part| - 1], part[|part| - 1];
      ScoredMembers(log, docs, front, query, e);
      assert part == front + [last];
    }
  }

  /** Searching two listings of the same documents finds the same documents with the same scores;
      each result is in descending order, so only ties can be listed differently. */
  lemma {:induction false} RankedPermuted(log: real -> real, docs1: seq<Doc>, docs2: seq<Doc>, query: seq<string>)
    requires multiset(docs1) == multiset(docs2)
    ensures forall e :: e in Ranked(log, docs1, query) <==> e in Ranked(log, docs2, query)
  {
    forall e ensures e in Ranked(log, docs1, query) <==> e in Ranked(log, docs2, query) {
      RankedMembers(log, docs1, query, e);
      RankedMembers(log, docs2, query, e);
      forall d ensures d in docs1 <==> d in docs2 {
        assert d in multiset(docs1) <==> d in multiset(docs2);
      }
      forall d ensures DocScore(log, docs1, d, query) == DocScore(log, docs2, d, query) {
        ScoresPermuted(log, docs1, docs2, d, query);
      }
    }
  }

  lemma {:induction false} ScoredDistinct(log: real -> real, docs: seq<Doc>, part: seq<Doc>, query: seq<string>)
    requires forall i, j | 0 <= i < j < |part| :: part[i].id != part[j].id
    ensures NoRepeats(Scored(log, docs, part, query))
  {
    if part != [] {
      var front, last := part[..|part| - 1], part[|part| - 1];
      ScoredDistinct(log, docs, front, query);
      ScoredMembers(log, docs, front, query, (last.id, DocScore(log, docs, last, query)));
    }
  }

  /** A ranking of documents with different ids has no entry twice. */
  lemma {:induction false} RankedDistinct(log: real -> real, docs: seq<Doc>, query: seq<string>)
    requires forall i, j | 0 <= i < j < |docs| :: docs[i].id != docs[j].id
    ensures NoRepeats(Ranked(log, docs, query)) && Descending(Ranked(log, docs, query))
  {
    hide Scored;
    var scored := Scored(log, docs, docs, query);
    ScoredDistinct(log, docs, docs, query);
    var ord := Order(Keys(scored));
    forall a, b | 0 <= a < b < |ord| ensures SortDesc(scored)[a] != SortDesc(scored)[b] {
      assert Before(Keys(scored), ord[a], ord[b]);
      assert ord[a] != ord[b];
    }
  }

  lemma {:induction false} RankedMembers(log: real -> real, docs: seq<Doc>, query: seq<string>, e: (ChunkId, real))
    ensures e in Ranked(log, docs, query) <==>
            exists d :: d in docs && e == (d.id, DocScore(log, docs, d, query)) && e.1 > 0.0
  {
    var scored := Scored(log, docs, docs, query);
    ScoredMembers(log, docs, docs, query, e);
    if e in scored {
      var i: nat :| i < |scored| && scored[i] == e;
      var p := SortedPosition(scored, i);
    }
  }

  // ---- the incremental index ----

  function Zip(ids: seq<ChunkId>, tokens: seq<seq<string>>): (r: seq<Doc>)
    requires |ids| == |tokens|
    ensures |r| == |ids|
    ensures forall i | 0 <= i < |r| :: r[i] == Doc(ids[i], tokens[i])
  {
    seq(|ids|, i requires 0 <= i < |ids| == |tokens| => Doc(ids[i], tokens[i]))
  }

  /** The score after one more token of a query. */
  lemma {:induction false} OneMoreToken(log: real -> real, docs: seq<Doc>, doc: Doc, query: seq<string>,
                                        token: seq<string>)
    requires |token| <= 1
    ensures DocScore(log, docs, doc, []) == 0.0
    ensures token == [] || DocFreq(docs, token[0]) == 0 ==>
              DocScore(log, docs, doc, query + token) == DocScore(log, docs, doc, query)
    ensures token != [] && DocFreq(docs, token[0]) > 0 ==>
              && DocFreq(docs, token[0]) <= |docs| && AvgLength(docs) > 0.0
              && DocScore(log, docs, doc, query + token)
                 == DocScore(log, docs, doc, query)
                    + TermWeight(Idf(log, |docs|, DocFreq(docs, token[0])), multiset(doc.tokens)[token[0]],
                                 |doc.tokens|, AvgLength(docs))
  {
    hide TermWeight, Idf, AvgLength, DocFreq;
    if token == [] {
      assert query + token == query;
    } else {
      assert token == [token[0]];
      ScoreAdds(log, docs, doc, query, token);
      OneToken(log, docs, doc, token[0]);
      DocFreqBounds(docs, token[0]);
    }
  }

  class Index {
    var corpusTokens: seq<seq<string>>
    var docLengths: seq<nat>
    var avgdl: real
    var df: map<string, nat>
    var n: nat
    var chunkIds: seq<ChunkId>

    /** The documents indexed so far. */
    function Docs(): (r: seq<Doc>)
      reads `chunkIds, `corpusTokens
      requires |chunkIds| == |corpusTokens|
    {
      Zip(chunkIds, corpusTokens)
    }

    /** The document-frequency and length tables agree with the documents. */
    ghost predicate TablesAgree()
      reads this
    {
      && |chunkIds| == |docLengths| == |corpusTokens|
      && (forall i | 0 <= i < |docLengths| :: docLengths[i] == |corpusTokens[i]|)
      && (forall t :: t in df <==> DocFreq(Docs(), t) > 0)
      && (forall t | t in df :: df[t] == DocFreq(Docs(), t))
    }

    ghost predicate Valid()
      reads this
    {
      TablesAgree() && n == |corpusTokens| && avgdl == AvgLength(Docs())
    }

    constructor ()
      ensures Valid() && Docs() == []
    {
      corpusTokens, docLengths, avgdl, df, n, chunkIds := [], [], 0.0, map[], 0, [];
    }

    /** Adds chunks to the index and brings every table up to date. */
    method IndexChunks(chunks: seq<(ChunkId, string)>)
      requires Valid()
      modifies this
      ensures Valid()
      ensures Docs() == old(Docs()) + DocsOf(chunks)
    {
      ghost var start := Docs();
      for k := 0 to |chunks|
        invariant TablesAgree()
        invariant Docs() == start + DocsOf(chunks[..k])
        invariant n == |start| && avgdl == AvgLength(start)
      {
        AddChunk(chunks[k].0, chunks[k].1);
        assert DocsOf(chunks[..k + 1]) == DocsOf(chunks[..k]) + [Doc(chunks[k].0, Tokenize(chunks[k].1))];
      }
      assert chunks[..|chunks|] == chunks;
      LengthsAgree(docLengths, Docs());
      n := |corpusTokens|;
      if n > 0 {
        avgdl := SumNat(docLengths) as real / n as real;
      }
    }

    /** One round of the indexing loop. */
    method AddChunk(chunkId: ChunkId, content: string)
      requires TablesAgree()
      modifies this
      ensures TablesAgree()
      ensures Docs() == old(Docs()) + [Doc(chunkId, Tokenize(content))]
      ensures n == old(n) && avgdl == old(avgdl)
    {
      var tokens := Tokenize(content);
      CountTerms(tokens);
      corpusTokens := corpusTokens + [tokens];
      docLengths := docLengths + [|tokens|];
      chunkIds := chunkIds + [chunkId];
      assert Docs() == old(Docs()) + [Doc(chunkId, tokens)];
      forall t ensures t in df <==> DocFreq(Docs(), t) > 0
               ensures t in df ==> df[t] == DocFreq(Docs(), t)
      {
        SumAppend(Holds(t), old(Docs()), Doc(chunkId, tokens));
        DocFreqBounds(old(Docs()), t);
      }
    }

    /** Adds one to the document frequency of each distinct token. */
    method CountTerms(tokens: seq<string>)
      modifies this`df
      ensures forall t :: t in df <==> t in old(df) || t in tokens
      ensures forall t | t in df ::
                df[t] == (if t in old(df) then old(df)[t] else 0) + (if t in tokens then 1 else 0)
    {
      var unique := set t | t in tokens;
      var pending := unique;
      while pending != {}
        invariant pending <= unique
        invariant forall t :: t in df <==> t in old(df) || t in unique - pending
        invariant forall t | t in df ::
                    df[t] == (if t in old(df) then old(df)[t] else 0) + (if t in unique - pending then 1 else 0)
        decreases pending
      {
        var t :| t in pending;
        df := df[t := (if t in df then df[t] else 0) + 1];
        pending := pending - {t};
      }
    }

    function ComputeIdf(log: real -> real, t: string): (r: real)
      reads this
      requires Valid()
      ensures DocFreq(Docs(), t) == 0 ==> r == 0.0
      ensures DocFreq(Docs(), t) > 0 ==> DocFreq(Docs(), t) <= |Docs()| && r == Idf(log, |Docs()|, DocFreq(Docs(), t))
    {
      DocFreqBounds(Docs(), t);
      if t !in df || df[t] == 0 then 0.0
      else log(1.0 + (n as real - df[t] as real + 0.5) / (df[t] as real + 0.5))
    }

    /** The score of one document. The division is safe: the average length is used only when some
        document holds the token, and then it is positive. */
    method ScoreDoc(log: real -> real, query: seq<string>, idx: nat) returns (score: real)
      requires Valid() && idx < n
      ensures score == DocScore(log, Docs(), Docs()[idx], query)
    {
      hide DocScore, TermScore, Idf, AvgLength, DocFreq;
      ghost var docs := Docs();
      OneMoreToken(log, docs, docs[idx], [], []);
      var docLen := docLengths[idx];
      var tfCounts := multiset(corpusTokens[idx]);
      score := 0.0;
      for q := 0 to |query|
        invariant score == DocScore(log, docs, docs[idx], query[..q])
      {
        var token := query[q];
        assert query[..q + 1] == query[..q] + [token];
        OneMoreToken(log, docs, docs[idx], query[..q], [token]);
        DocFreqBounds(docs, token);
        if token in df {
          AvgPositive(docs, token);
          var tf := tfCounts[token];
          var idf := ComputeIdf(log, token);
          var numerator := tf as real * (BM25_K1 + 1.0);
          var denominator := tf as real + BM25_K1 * (1.0 - BM25_B + BM25_B * docLen as real / avgdl);
          DenominatorPositive(tf, docLen, avgdl);
          score := score + idf * numerator / denominator;
        }
      }
      assert query[..|query|] == query;
    }

    /** Scores every document against the query and sorts. */
    method Score(log: real -> real, query: seq<string>) returns (r: seq<(ChunkId, real)>)
      requires Valid()
      ensures r == Ranked(log, Docs(), query)
    {
      if n == 0 {
        return [];
      }
      ghost var docs := Docs();
      var scores: seq<(ChunkId, real)> := [];
      for idx := 0 to |corpusTokens|
        invariant scores == Scored(log, docs, docs[..idx], query)
      {
        var score := ScoreDoc(log, query, idx);
        assert docs[..idx + 1][..idx] == docs[..idx];
        if score > 0.0 {
          scores := scores + [(chunkIds[idx], score)];
        }
      }
      assert docs[..|docs|] == docs;
      r := SortDesc(scores);
    }
  }

  function DocsOf(chunks: seq<(ChunkId, string)>): (r: seq<Doc>)
    ensures |r| == |chunks|
  {
    seq(|chunks|, i requires 0 <= i < |chunks| => Doc(chunks[i].0, Tokenize(chunks[i].1)))
  }

  function SumNat(s: seq<nat>): nat {
    if s == [] then 0 else SumNat(s[..|s| - 1]) + s[|s| - 1]
  }

  lemma {:induction false} LengthsAgree(lengths: seq<nat>, docs: seq<Doc>)
    requires |lengths| == |docs|
    requires forall i | 0 <= i < |docs| :: lengths[i] == |docs[i].tokens|
    ensures SumNat(lengths) == TotalLength(docs)
  {
    if lengths != [] {
      LengthsAgree(lengths[..|lengths| - 1], docs[..|docs| - 1]);
    }
  }
}
