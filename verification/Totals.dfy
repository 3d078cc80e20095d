/** Sums of an integer measure over a sequence. */
module Totals {

  function Sum<T>(f: T -> int, s: seq<T>): int {
    if s == [] then 0 else Sum(f, s[..|s| - 1]) + f(s[|s| - 1])
  }

  lemma {:induction false} SumOfParts<T>(f: T -> int, s: seq<T>, t: seq<T>)
    ensures Sum(f, s + t) == Sum(f, s) + Sum(f, t)
  {
    if t == [] {
      assert s + t == s;
    } else {
      var last := |t| - 1;
      assert (s + t)[..|s + t| - 1] == s + t[..last];
      SumOfParts(f, s, t[..last]);
    }
  }

  lemma {:induction false} SumAppend<T>(f: T -> int, s: seq<T>, x: T)
    ensures Sum(f, s + [x]) == Sum(f, s) + f(x)
  {
    assert (s + [x])[..|s|] == s;
  }

  lemma {:induction false} SumUpdate<T>(f: T -> int, s: seq<T>, i: nat, x: T)
    requires i < |s|
    ensures Sum(f, s[i := x]) == Sum(f, s) - f(s[i]) + f(x)
  {
    var a, b := s[..i], s[i + 1..];
    assert s == a + [s[i]] + b;
    assert s[i := x] == a + [x] + b;
    SumOfParts(f, a + [s[i]], b);
    SumOfParts(f, a + [x], b);
    SumAppend(f, a, s[i]);
    SumAppend(f, a, x);
  }

  /** Two measures that agree on every element have the same sum. */
  lemma {:induction false} SumExtensional<T>(f: T -> int, g: T -> int, s: seq<T>)
    requires forall x | x in s :: f(x) == g(x)
    ensures Sum(f, s) == Sum(g, s)
  {
    if s != [] {
      assert s[|s| - 1] in s;
      SumExtensional(f, g, s[..|s| - 1]);
    }
  }

  /** A sum does not depend on the order of the elements. */
  lemma {:induction false} SumPermuted<T>(f: T -> int, s: seq<T>, t: seq<T>)
    requires multiset(s) == multiset(t)
    ensures Sum(f, s) == Sum(f, t)
  {
    if s == [] {
      assert |multiset(t)| == 0;
      assert t == [];
    } else {
      var x := s[0];
      assert x in multiset(s);
      assert x in t;
      var i :| 0 <= i < |t| && t[i] == x;
      var rest := t[..i] + t[i + 1..];
      assert s == [x] + s[1..];
      assert t == t[..i] + [x] + t[i + 1..];
      assert multiset(t) == multiset(rest) + multiset{x};
      assert multiset(s) == multiset{x} + multiset(s[1..]);
      assert multiset(s[1..]) == multiset(s) - multiset{x};
      assert multiset(rest) == multiset(t) - multiset{x};
      SumPermuted(f, s[1..], rest);
      SumOfParts(f, [x], s[1..]);
      SumOfParts(f, t[..i] + [x], t[i + 1..]);
      SumAppend(f, t[..i], x);
      SumOfParts(f, t[..i], t[i + 1..]);
      SumAppend(f, [], x);
      assert [] + [x] == [x];
    }
  }

  function Indicator<T>(p: T -> bool): T -> int {
    (x: T) => if p(x) then 1 else 0
  }

  /** The positions of the elements that satisfy `p`. */
  function Where<T>(p: T -> bool, s: seq<T>): set<nat> {
    set j: nat | j < |s| && p(s[j])
  }

  lemma {:induction false} SumOfIndicator<T>(p: T -> bool, s: seq<T>)
    ensures Sum(Indicator(p), s) == |Where(p, s)|
  {
    if s == [] {
      assert Where(p, s) == {};
    } else {
      var n := |s| - 1;
      SumOfIndicator(p, s[..n]);
      assert Where(p, s) == Where(p, s[..n]) + if p(s[n]) then {n} else {};
    }
  }

  lemma {:induction false} SubsetSize<T>(a: set<T>, b: set<T>)
    requires a <= b
    ensures |a| <= |b|
  {
    assert b == a + (b - a);
  }
}
