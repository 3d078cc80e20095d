/** Characters and strings: the word characters of `\w`, lower-casing, white space. */
module Text {

  /** The ASCII characters of `\w`. */
  predicate IsWord(c: char) {
    'a' <= c <= 'z' || 'A' <= c <= 'Z' || '0' <= c <= '9' || c == '_'
  }

  predicate IsDigit(c: char) {
    '0' <= c <= '9'
  }

  /** The ASCII characters that `str.strip`, `str.split()` and `\s` treat as white space. */
  predicate IsSpace(c: char) {
    c == ' ' || c == '\t' || c == '\n' || c == '\r' || c as int == 11 || c as int == 12
    || 28 <= c as int <= 31
  }

  function LowerChar(c: char): char {
    if 'A' <= c <= 'Z' then (c as int + 32) as char else c
  }

  function Lower(s: string): (r: string)
    ensures |r| == |s|
    ensures forall i | 0 <= i < |s| :: r[i] == LowerChar(s[i])
  {
    seq(|s|, i requires 0 <= i < |s| => LowerChar(s[i]))
  }

  /** The classes by code: tab to carriage return, the four separators and the space; letters, digits and the
      underscore; and lower-casing, which moves the capitals to the small letters and leaves the rest. */
  lemma {:induction false} CharacterClasses(c: char)
    ensures IsSpace(c) <==> c as int in {9, 10, 11, 12, 13, 28, 29, 30, 31, 32}
    ensures IsDigit(c) <==> 48 <= c as int <= 57
    ensures IsWord(c) <==> 97 <= LowerChar(c) as int <= 122 || IsDigit(c) || c as int == 95
    ensures LowerChar(c) as int == if 65 <= c as int <= 90 then c as int + 32 else c as int
  {
  }

  /** The end of the run of word characters that starts at `i`. */
  function RunEnd(s: string, i: nat): (e: nat)
    requires i <= |s|
    ensures i <= e <= |s|
    ensures forall k | i <= k < e :: IsWord(s[k])
    ensures e < |s| ==> !IsWord(s[e])
    decreases |s| - i
  {
    if i < |s| && IsWord(s[i]) then RunEnd(s, i + 1) else i
  }

  /** `re.findall(r"\w+", s)` from position `i` on. */
  function Words(s: string, i: nat): (r: seq<string>)
    requires i <= |s|
    ensures forall w | w in r :: w != [] && forall c | c in w :: IsWord(c)
    decreases |s| - i
  {
    if i == |s| then []
    else if IsWord(s[i]) then [s[i..RunEnd(s, i)]] + Words(s, RunEnd(s, i))
    else Words(s, i + 1)
  }

  lemma {:induction false} RunEndInPart(s: string, a: string, i: nat)
    requires a <= s && i <= |a| < |s| && !IsWord(s[|a|])
    ensures RunEnd(s, i) == RunEnd(a, i)
    decreases |a| - i
  {
    if i < |a| && IsWord(s[i]) {
      RunEndInPart(s, a, i + 1);
    }
  }

  lemma {:induction false} RunEndAfter(s: string, b: string, n: nat, j: nat)
    requires n <= |s| && s[n..] == b && j <= |b|
    ensures RunEnd(s, n + j) == n + RunEnd(b, j)
    decreases |b| - j
  {
    assert j < |b| ==> s[n + j] == b[j];
    if j < |b| && IsWord(b[j]) {
      RunEndAfter(s, b, n, j + 1);
    }
  }

  lemma {:induction false} SliceAfter(s: string, b: string, n: nat, j: nat, e: nat)
    requires n <= |s| && s[n..] == b && j <= e <= |b|
    ensures s[n + j..n + e] == b[j..e]
  {
    forall k | 0 <= k < e - j ensures s[n + j..n + e][k] == b[j..e][k] {
      assert s[n..][j + k] == s[n + (j + k)];
    }
  }

  lemma {:induction false} WordsFrom(s: string, i: nat)
    requires i <= |s|
    ensures i == |s| ==> Words(s, i) == []
    ensures i < |s| && IsWord(s[i]) ==>
              i < RunEnd(s, i) && Words(s, i) == [s[i..RunEnd(s, i)]] + Words(s, RunEnd(s, i))
    ensures i < |s| && !IsWord(s[i]) ==> Words(s, i) == Words(s, i + 1)
  {
  }

  lemma {:induction false} WordsAfter(s: string, b: string, n: nat, j: nat)
    requires n <= |s| && s[n..] == b && j <= |b|
    ensures Words(s, n + j) == Words(b, j)
    decreases |b| - j
  {
    hide Words, RunEnd;
    WordsFrom(s, n + j);
    WordsFrom(b, j);
    if j < |b| {
      assert s[n + j] == b[j];
      if IsWord(b[j]) {
        var e := RunEnd(b, j);
        RunEndAfter(s, b, n, j);
        SliceAfter(s, b, n, j, e);
        WordsAfter(s, b, n, e);
      } else {
        WordsAfter(s, b, n, j + 1);
      }
    }
  }

  lemma {:induction false} WordsBefore(s: string, a: string, i: nat)
    requires a <= s && i <= |a| < |s| && !IsWord(s[|a|])
    ensures Words(s, i) == Words(a, i) + Words(s, |a| + 1)
    decreases |a| - i
  {
    hide Words, RunEnd;
    WordsFrom(s, i);
    WordsFrom(a, i);
    if i < |a| {
      assert a[i] == s[i];
      if IsWord(s[i]) {
        var e := RunEnd(a, i);
        RunEndInPart(s, a, i);
        WordsBefore(s, a, e);
        assert s[i..e] == a[i..e];
        assert [a[i..e]] + (Words(a, e) + Words(s, |a| + 1)) == ([a[i..e]] + Words(a, e)) + Words(s, |a| + 1);
      } else {
        WordsBefore(s, a, i + 1);
      }
    } else {
      assert Words(a, i) == [];
    }
  }

  /** A character that is no word character separates words. */
  lemma {:induction false} WordsParts(a: string, c: char, b: string)
    requires !IsWord(c)
    ensures Words(a + [c] + b, 0) == Words(a, 0) + Words(b, 0)
  {
    var s := a + [c] + b;
    WordsBefore(s, a, 0);
    WordsAfter(s, b, |a| + 1, 0);
  }

  /** A run of word characters is one word. */
  lemma {:induction false} WordsOne(w: string)
    requires w != "" && forall i | 0 <= i < |w| :: IsWord(w[i])
    ensures Words(w, 0) == [w]
  {
    assert RunEnd(w, 0) == |w|;
    assert w[0..|w|] == w;
  }

  predicate IsBlank(s: string) {
    forall i | 0 <= i < |s| :: IsSpace(s[i])
  }

  function Strip(s: string): string
    decreases |s|
  {
    if s == "" then ""
    else if IsSpace(s[0]) then Strip(s[1..])
    else if IsSpace(s[|s| - 1]) then Strip(s[..|s| - 1])
    else s
  }

  /** Stripping takes white space off both ends and nothing else. */
  lemma {:induction false} StripParts(s: string) returns (a: string, b: string)
    ensures s == a + Strip(s) + b && IsBlank(a) && IsBlank(b)
    decreases |s|
  {
    hide IsBlank, IsSpace;
    a, b := "", "";
    BlankParts("", "");
    if s != "" && IsSpace(s[0]) {
      a, b := StripParts(s[1..]);
      BlankParts([s[0]], a);
      a := [s[0]] + a;
      assert s == [s[0]] + s[1..];
    } else if s != "" && IsSpace(s[|s| - 1]) {
      a, b := StripParts(s[..|s| - 1]);
      BlankParts(b, [s[|s| - 1]]);
      b := b + [s[|s| - 1]];
      assert s == s[..|s| - 1] + [s[|s| - 1]];
    }
  }

  lemma {:induction false} BlankParts(a: string, b: string)
    ensures IsBlank("")
    ensures (IsBlank(a) || (|a| == 1 && IsSpace(a[0]))) && (IsBlank(b) || (|b| == 1 && IsSpace(b[0]))) ==>
              IsBlank(a + b)
  {
  }

  lemma {:induction false} StripEnds(s: string)
    ensures Strip(s) != "" ==> !IsSpace(Strip(s)[0]) && !IsSpace(Strip(s)[|Strip(s)| - 1])
    decreases |s|
  {
    if s != "" && IsSpace(s[0]) {
      StripEnds(s[1..]);
    } else if s != "" && IsSpace(s[|s| - 1]) {
      StripEnds(s[..|s| - 1]);
    }
  }

  /** The characters of a text that are no white space, in order. */
  function Visible(s: string): string {
    if s == "" then "" else (if IsSpace(s[0]) then "" else [s[0]]) + Visible(s[1..])
  }

  lemma {:induction false} VisibleParts(a: string, b: string)
    ensures Visible(a + b) == Visible(a) + Visible(b)
  {
    if a == "" {
      assert a + b == b;
    } else {
      assert (a + b)[1..] == a[1..] + b;
      VisibleParts(a[1..], b);
    }
  }

  lemma {:induction false} BlankIsInvisible(s: string)
    requires IsBlank(s)
    ensures Visible(s) == ""
  {
    if s != "" {
      BlankIsInvisible(s[1..]);
    }
  }

  lemma {:induction false} StripKeepsVisible(s: string)
    ensures Visible(Strip(s)) == Visible(s)
  {
    var a, b := StripParts(s);
    VisibleParts(a + Strip(s), b);
    VisibleParts(a, Strip(s));
    BlankIsInvisible(a);
    BlankIsInvisible(b);
  }
}
