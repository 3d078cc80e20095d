/** Python's `list.sort(key=..., reverse=True)`: a stable sort into descending key order.
    The sort is described by the order in which it lists the original positions. */
module StableSort {

  /** Position `i` is listed before position `j`: a larger key, or an equal key seen earlier. */
  predicate Before(keys: seq<real>, i: nat, j: nat)
    requires i < |keys| && j < |keys|
  {
    keys[i] > keys[j] || (keys[i] == keys[j] && i < j)
  }

  /** `ord` lists every position of `keys` once, each one before all that follow it. */
  ghost predicate IsRanking(keys: seq<real>, ord: seq<nat>) {
    && (forall a | 0 <= a < |ord| :: ord[a] < |keys|)
    && (forall i: nat | i < |keys| :: i in ord)
    && (forall a, b | 0 <= a < b < |ord| :: Before(keys, ord[a], ord[b]))
  }

  function Insert(keys: seq<real>, ord: seq<nat>, i: nat): (r: seq<nat>)
    requires i < |keys|
    requires forall a | 0 <= a < |ord| :: ord[a] < i
    requires forall a, b | 0 <= a < b < |ord| :: Before(keys, ord[a], ord[b])
    ensures |r| == |ord| + 1
    ensures forall x :: x in r <==> x in ord || x == i
    ensures forall a | 0 <= a < |r| :: r[a] <= i
    ensures forall a, b | 0 <= a < b < |r| :: Before(keys, r[a], r[b])
  {
    if ord == [] then [i]
    else
      var last := |ord| - 1;
      if keys[ord[last]] >= keys[i] then
        assert forall x | x in ord :: Before(keys, x, i) by {
          forall a | 0 <= a < |ord| ensures Before(keys, ord[a], i) {
            assert a < last ==> Before(keys, ord[a], ord[last]);
          }
        }
        ord + [i]
      else
        assert ord == ord[..last] + [ord[last]];
        var front := Insert(keys, ord[..last], i);
        assert forall x | x in front :: Before(keys, x, ord[last]) by {
          assert forall x | x in front :: x == i || exists a | 0 <= a < last :: ord[a] == x;
        }
        front + [ord[last]]
  }

  function OrderOfFirst(keys: seq<real>, n: nat): (r: seq<nat>)
    requires n <= |keys|
    ensures |r| == n
    ensures forall x :: x in r <==> 0 <= x < n
    ensures forall a | 0 <= a < |r| :: r[a] < n
    ensures forall a, b | 0 <= a < b < |r| :: Before(keys, r[a], r[b])
  {
    if n == 0 then [] else Insert(keys, OrderOfFirst(keys, n - 1), n - 1)
  }

  /** The order in which the stable descending sort lists the positions of `keys`. */
  function Order(keys: seq<real>): (r: seq<nat>)
    ensures |r| == |keys|
    ensures IsRanking(keys, r)
  {
    OrderOfFirst(keys, |keys|)
  }

  /** A ranking is determined by the keys: `IsRanking` leaves the sort no freedom. */
  lemma {:induction false} RankingUnique(keys: seq<real>, r1: seq<nat>, r2: seq<nat>)
    requires forall a | 0 <= a < |r1| :: r1[a] < |keys|
    requires forall a | 0 <= a < |r2| :: r2[a] < |keys|
    requires forall x :: x in r1 <==> x in r2
    requires forall a, b | 0 <= a < b < |r1| :: Before(keys, r1[a], r1[b])
    requires forall a, b | 0 <= a < b < |r2| :: Before(keys, r2[a], r2[b])
    ensures r1 == r2
  {
    if r1 == [] {
      assert forall a | 0 <= a < |r2| :: r2[a] in r1;
    } else {
      assert r1[0] in r2;
      assert r2[0] in r1;
      assert r1[0] == r2[0];
      forall x ensures x in r1[1..] <==> x in r2[1..] {
        assert x in r1 <==> x == r1[0] || x in r1[1..];
        assert x in r2 <==> x == r2[0] || x in r2[1..];
        assert r1[0] !in r1[1..] && r2[0] !in r2[1..];
      }
      RankingUnique(keys, r1[1..], r2[1..]);
      assert r1 == [r1[0]] + r1[1..] && r2 == [r2[0]] + r2[1..];
    }
  }

  /** So the sort's order is the only ranking of the keys. */
  lemma {:induction false} OnlyRanking(keys: seq<real>, r: seq<nat>)
    requires IsRanking(keys, r)
    ensures r == Order(keys)
  {
    RankingUnique(keys, r, Order(keys));
  }

  function Keys<T>(s: seq<(T, real)>): (r: seq<real>)
    ensures |r| == |s|
    ensures forall i | 0 <= i < |s| :: r[i] == s[i].1
  {
    seq(|s|, i requires 0 <= i < |s| => s[i].1)
  }

  /** The sorted list itself. */
  function SortDesc<T>(s: seq<(T, real)>): (r: seq<(T, real)>)
    ensures |r| == |s|
    ensures forall a | 0 <= a < |r| :: r[a] == s[Order(Keys(s))[a]]
    ensures forall a, b | 0 <= a < b < |r| :: r[a].1 >= r[b].1
  {
    var ord := Order(Keys(s));
    seq(|s|, a requires 0 <= a < |s| => s[ord[a]])
  }

  /** Where an element of the input lands in the sorted list. */
  lemma {:induction false} SortedPosition<T>(s: seq<(T, real)>, i: nat) returns (p: nat)
    requires i < |s|
    ensures p < |s| && Order(Keys(s))[p] == i && SortDesc(s)[p] == s[i]
  {
    var ord := Order(Keys(s));
    assert i in ord;
    p :| 0 <= p < |ord| && ord[p] == i;
  }

  // ---- the first entries of two sorted lists ----

  /** The slice `s[:n]`. */
  function Take<T>(s: seq<T>, n: nat): (r: seq<T>)
    ensures r <= s && |r| <= n
    ensures |r| == if |s| >= n then n else |s|
  {
    if n <= |s| then s[..n] else s
  }

  predicate Descending<T>(s: seq<(T, real)>) {
    forall a, b | 0 <= a < b < |s| :: s[a].1 >= s[b].1
  }

  predicate NoRepeats<T(==)>(s: seq<T>) {
    forall a, b | 0 <= a < b < |s| :: s[a] != s[b]
  }

  /** The lists have the same length and the same scores at every position, and each has every entry of the other
      that scores above its last. */
  ghost predicate SameToTies<T>(s: seq<(T, real)>, t: seq<(T, real)>) {
    && |s| == |t|
    && (forall i | 0 <= i < |s| :: s[i].1 == t[i].1)
    && (forall i | 0 <= i < |s| && s[i].1 > s[|s| - 1].1 :: s[i] in t)
    && (forall i | 0 <= i < |t| && t[i].1 > t[|t| - 1].1 :: t[i] in s)
  }

  function Elements<T>(s: seq<T>): set<T> {
    set x | x in s
  }

  lemma {:induction false} DistinctCount<T>(s: seq<T>)
    requires NoRepeats(s)
    ensures |Elements(s)| == |s|
  {
    if s != [] {
      var front, last := s[..|s| - 1], s[|s| - 1];
      DistinctCount(front);
      assert s == front + [last];
      assert Elements(s) == Elements(front) + {last};
    }
  }

  lemma {:induction false} SubsetCount<T>(small: set<T>, large: set<T>)
    requires small <= large
    ensures |small| <= |large|
  {
    if small != {} {
      var x :| x in small;
      SubsetCount(small - {x}, large - {x});
    }
  }

  /** Of two sorted lists of the same entries neither scores higher than the other at any position. */
  lemma {:induction false} ScoreAt<T>(s: seq<(T, real)>, t: seq<(T, real)>, i: nat)
    requires Descending(s) && Descending(t) && NoRepeats(s) && NoRepeats(t)
    requires (forall e :: e in s <==> e in t) && i < |t|
    ensures i < |s| && s[i].1 >= t[i].1
  {
    if i >= |s| || s[i].1 < t[i].1 {
      var m := if i < |s| then i else |s|;
      forall e | e in Elements(t[..i + 1]) ensures e in Elements(s[..m]) {
        assert e in t && e in s && e.1 >= t[i].1;
      }
      SubsetCount(Elements(t[..i + 1]), Elements(s[..m]));
      DistinctCount(t[..i + 1]);
      DistinctCount(s[..m]);
      assert false;
    }
  }

  lemma {:induction false} SameScores<T>(s: seq<(T, real)>, t: seq<(T, real)>)
    requires Descending(s) && Descending(t) && NoRepeats(s) && NoRepeats(t)
    requires forall e :: e in s <==> e in t
    ensures |s| == |t| && forall i | 0 <= i < |s| :: s[i].1 == t[i].1
  {
    forall i: nat | i < |t| ensures i < |s| && s[i].1 >= t[i].1 {
      ScoreAt(s, t, i);
    }
    forall i: nat | i < |s| ensures i < |t| && t[i].1 >= s[i].1 {
      ScoreAt(t, s, i);
    }
    if t != [] {
      ScoreAt(s, t, |t| - 1);
    }
    if s != [] {
      ScoreAt(t, s, |s| - 1);
    }
  }

  /** An entry above the cut is among the entries taken. */
  lemma {:induction false} AboveCut<T>(s: seq<(T, real)>, t: seq<(T, real)>, n: nat, i: nat)
    requires Descending(t) && |s| == |t| && (forall i | 0 <= i < |s| :: s[i].1 == t[i].1)
    requires i < |Take(s, n)| && s[i] in t && s[i].1 > Take(s, n)[|Take(s, n)| - 1].1
    ensures s[i] in Take(t, n)
  {
    var p :| 0 <= p < |t| && t[p] == s[i];
    var last := |Take(s, n)| - 1;
    assert t[last].1 == s[last].1;
    assert p < last;
    assert Take(t, n)[p] == s[i];
  }

  lemma {:induction false} CutHas<T>(s: seq<(T, real)>, t: seq<(T, real)>, n: nat)
    requires Descending(t) && |s| == |t| && (forall i | 0 <= i < |s| :: s[i].1 == t[i].1)
    requires forall i | 0 <= i < |s| :: s[i] in t
    ensures forall i | 0 <= i < |Take(s, n)| && Take(s, n)[i].1 > Take(s, n)[|Take(s, n)| - 1].1 ::
              Take(s, n)[i] in Take(t, n)
  {
    hide Descending;
    var cut := Take(s, n);
    forall i | 0 <= i < |cut| && cut[i].1 > cut[|cut| - 1].1 ensures cut[i] in Take(t, n) {
      AboveCut(s, t, n, i);
    }
  }

  /** Two sorted lists of the same entries agree after any cut, up to the choice among entries that tie with the
      last one taken. */
  lemma {:induction false} CutsAgree<T>(s: seq<(T, real)>, t: seq<(T, real)>, n: nat)
    requires Descending(s) && Descending(t) && NoRepeats(s) && NoRepeats(t)
    requires forall e :: e in s <==> e in t
    ensures SameToTies(Take(s, n), Take(t, n))
  {
    hide Descending, NoRepeats;
    SameScores(s, t);
    CutHas(s, t, n);
    CutHas(t, s, n);
  }
}
