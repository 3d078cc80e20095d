/** The in-process SQL validator (backend/src/services/sandbox.py, lines 232-284). */
module Sandbox {
  import opened Text
  import opened Options
  import opened SchemaReflection

  // ---- the regular expressions it uses, searched without regard to case ----

  datatype Re =
    | Eps
    | Lit(c: char)            // a character, given in lower case
    | Space | Digit
    | NotQuote                // [^']
    | AnyChar                 // any character but a line feed
    | Edge                    // a word boundary
    | Star(body: Re)
    | Then(first: Re, second: Re)
    | Or(left: Re, right: Re)

  predicate AtEdge(s: string, i: nat)
    requires i <= |s|
  {
    (i > 0 && IsWord(s[i - 1])) != (i < |s| && IsWord(s[i]))
  }

  function Size(re: Re): (n: nat)
    ensures n > 0
  {
    match re
    case Star(body) => 1 + Size(body)
    case Then(first, second) => 1 + Size(first) + Size(second)
    case Or(left, right) => 1 + Size(left) + Size(right)
    case _ => 1
  }

  /** The expression matches the characters of `s` from `i` up to but not including `j`. */
  predicate Matches(re: Re, s: string, i: nat, j: nat)
    requires i <= j <= |s|
    decreases Size(re), j - i, j - i + 1
  {
    match re
    case Eps => i == j
    case Lit(c) => j == i + 1 && LowerChar(s[i]) == c
    case Space => j == i + 1 && IsSpace(s[i])
    case Digit => j == i + 1 && IsDigit(s[i])
    case NotQuote => j == i + 1 && s[i] != '\''
    case AnyChar => j == i + 1 && s[i] != '\n'
    case Edge => i == j && AtEdge(s, i)
    case Star(body) => i == j || StarFrom(body, s, i, i + 1, j)
    case Then(first, second) => ThenFrom(first, second, s, i, i, j)
    case Or(left, right) => Matches(left, s, i, j) || Matches(right, s, i, j)
  }

  /** `first` matches up to some position from `k` on, and `second` matches the rest. */
  predicate ThenFrom(first: Re, second: Re, s: string, i: nat, k: nat, j: nat)
    requires i <= k <= j <= |s|
    decreases Size(first) + Size(second), j - i, j - k
  {
    (Matches(first, s, i, k) && Matches(second, s, k, j)) || (k < j && ThenFrom(first, second, s, i, k + 1, j))
  }

  /** One round of the star ends at some position from `k` on, and further rounds match the rest. */
  predicate StarFrom(body: Re, s: string, i: nat, k: nat, j: nat)
    requires i < k && i < j <= |s| && k <= j
    decreases 1 + Size(body), j - i, j - k
  {
    (Matches(body, s, i, k) && Matches(Star(body), s, k, j)) || (k < j && StarFrom(body, s, i, k + 1, j))
  }

  /** `re.search(pattern, s, re.IGNORECASE)`. */
  predicate Search(re: Re, s: string) {
    exists i, j | 0 <= i <= j <= |s| :: Matches(re, s, i, j)
  }

  function Some1(re: Re): Re {
    Then(re, Star(re))
  }

  function Literal(w: string): Re {
    if w == "" then Eps else Then(Lit(w[0]), Literal(w[1..]))
  }

  function Keyword(w: string): Re {
    Then(Edge, Then(Literal(w), Edge))
  }

  function Sequence(parts: seq<Re>): Re {
    if parts == [] then Eps else Then(parts[0], Sequence(parts[1..]))
  }

  const Quoted := Sequence([Lit('\''), Star(NotQuote), Lit('\'')])

  datatype Pattern = Word(w: string) | CopyFrom | CommentAfterEnd | Tautology | QuotedTautology

  function Regex(p: Pattern): Re {
    match p
    case Word(w) => Keyword(w)
    case CopyFrom => Sequence([Literal("copy"), Some1(Space), Star(AnyChar), Some1(Space), Literal("from")])
    case CommentAfterEnd => Sequence([Lit(';'), Star(Space), Literal("--")])
    case Tautology => Sequence([Edge, Literal("or"), Some1(Space), Lit('1'), Star(Space), Lit('='), Star(Space),
                                Lit('1'), Edge])
    case QuotedTautology =>
      Sequence([Edge, Literal("or"), Some1(Space), Quoted, Star(Space), Lit('='), Star(Space), Quoted, Edge])
  }

  datatype Rule = Rule(pattern: Pattern, message: string)

  /** The statements refused outright, with the messages that say so. */
  function Dangerous(): seq<Rule> {
    [
      Rule(Word("drop"), "DROP operations not permitted"),
      Rule(Word("truncate"), "TRUNCATE operations not permitted"),
      Rule(Word("alter"), "ALTER operations not permitted"),
      Rule(Word("create"), "CREATE operations not permitted"),
      Rule(Word("grant"), "GRANT operations not permitted"),
      Rule(Word("revoke"), "REVOKE operations not permitted"),
      Rule(CopyFrom, "COPY FROM operations not permitted"),
      Rule(CommentAfterEnd, "Potential SQL injection via comment"),
      Rule(Tautology, "Tautology injection pattern detected"),
      Rule(QuotedTautology, "Tautology string injection pattern detected")
    ]
  }

  const WriteWord := Or(Literal("insert"), Or(Literal("update"), Literal("delete")))
  const Placeholder := Then(Lit('$'), Some1(Digit))

  lemma {:induction false} LiteralMatches(w: string, s: string, i: nat, j: nat)
    requires i <= j <= |s|
    ensures Matches(Literal(w), s, i, j) <==> j == i + |w| && Lower(s[i..j]) == w
  {
    if w == "" {
    } else {
      if i < j {
        LiteralMatches(w[1..], s, i + 1, j);
        assert Lower(s[i..j]) == [LowerChar(s[i])] + Lower(s[i + 1..j]);
        assert w == [w[0]] + w[1..];
        ThenMatches(Lit(w[0]), Literal(w[1..]), s, i, j);
        assert SplitsAt(Lit(w[0]), Literal(w[1..]), s, i, i + 1, j) <==>
               LowerChar(s[i]) == w[0] && Matches(Literal(w[1..]), s, i + 1, j);
      } else {
        ThenMatches(Lit(w[0]), Literal(w[1..]), s, i, j);
      }
    }
  }

  /** `s` holds the word `w`, in any case, at `i`. */
  predicate WordAt(w: string, s: string, i: nat) {
    i + |w| <= |s| && Lower(s[i..i + |w|]) == w
  }

  /** The word stands at `i` as a whole word: the characters next to it, if any, are no word characters. */
  predicate WholeWordAt(w: string, s: string, i: nat) {
    WordAt(w, s, i) && (i == 0 || !IsWord(s[i - 1])) && (i + |w| == |s| || !IsWord(s[i + |w|]))
  }

  /** A keyword pattern finds exactly the whole words. */
  lemma {:induction false} KeywordFinds(w: string, s: string)
    requires w != "" && forall c | c in w :: 'a' <= c <= 'z'
    ensures Search(Keyword(w), s) <==>
            exists i: nat :: WholeWordAt(w, s, i)
  {
    hide Matches, Keyword;
    if Search(Keyword(w), s) {
      var i: nat, j: nat :| i <= j <= |s| && Matches(Keyword(w), s, i, j);
      KeywordAt(w, s, i, j);
    }
    if i: nat :| WholeWordAt(w, s, i) {
      KeywordAt(w, s, i, i + |w|);
    }
  }

  predicate SplitsAt(first: Re, second: Re, s: string, i: nat, k: nat, j: nat)
    requires i <= k <= j <= |s|
  {
    Matches(first, s, i, k) && Matches(second, s, k, j)
  }

  lemma {:induction false} ThenFromMeaning(first: Re, second: Re, s: string, i: nat, k: nat, j: nat)
    requires i <= k <= j <= |s|
    ensures ThenFrom(first, second, s, i, k, j) <==>
            exists l: nat :: k <= l <= j && SplitsAt(first, second, s, i, l, j)
    decreases j - k
  {
    if k < j {
      ThenFromMeaning(first, second, s, i, k + 1, j);
    }
    assert SplitsAt(first, second, s, i, k, j) ==> ThenFrom(first, second, s, i, k, j);
  }

  lemma {:induction false} ThenMatches(first: Re, second: Re, s: string, i: nat, j: nat)
    requires i <= j <= |s|
    ensures Matches(Then(first, second), s, i, j) <==>
            exists k: nat :: i <= k <= j && SplitsAt(first, second, s, i, k, j)
  {
    ThenFromMeaning(first, second, s, i, i, j);
  }

  lemma {:induction false} KeywordAt(w: string, s: string, i: nat, j: nat)
    requires w != "" && (forall c | c in w :: 'a' <= c <= 'z') && i <= j <= |s|
    ensures Matches(Keyword(w), s, i, j) <==>
            j == i + |w| && WholeWordAt(w, s, i)
  {
    hide Matches;
    LiteralMatches(w, s, i, j);
    WithEdges(Literal(w), s, i, j);
    if j == i + |w| && Lower(s[i..j]) == w {
      assert WordAt(w, s, i);
      LowerLetters(w, s, i);
      assert AtEdge(s, i) <==> (i == 0 || !IsWord(s[i - 1]));
      assert AtEdge(s, j) <==> (j == |s| || !IsWord(s[j]));
    }
  }

  /** An edge before and after an expression tests the two ends of what it matches. */
  lemma {:induction false} WithEdges(re: Re, s: string, i: nat, j: nat)
    requires i <= j <= |s|
    ensures Matches(Then(Edge, Then(re, Edge)), s, i, j) <==> AtEdge(s, i) && Matches(re, s, i, j) && AtEdge(s, j)
  {
    var inner := Then(re, Edge);
    ThenMatches(Edge, inner, s, i, j);
    ThenMatches(re, Edge, s, i, j);
    assert SplitsAt(re, Edge, s, i, j, j) <==> Matches(re, s, i, j) && AtEdge(s, j);
    assert SplitsAt(Edge, inner, s, i, i, j) <==> AtEdge(s, i) && Matches(inner, s, i, j);
  }

  lemma {:induction false} LowerLetters(w: string, s: string, i: nat)
    requires w != "" && (forall c | c in w :: 'a' <= c <= 'z') && WordAt(w, s, i)
    ensures IsWord(s[i]) && IsWord(s[i + |w| - 1])
  {
    var part := s[i..i + |w|];
    assert Lower(part)[0] == w[0] && Lower(part)[|w| - 1] == w[|w| - 1];
    assert w[0] in w && w[|w| - 1] in w;
    assert LowerChar(s[i]) == w[0] && LowerChar(s[i + |w| - 1]) == w[|w| - 1];
  }

  /** A statement names its values by placeholders when a dollar sign is followed by a digit. */
  lemma {:induction false} PlaceholderFinds(s: string)
    ensures Search(Placeholder, s) <==> exists i: nat :: i + 1 < |s| && s[i] == '$' && IsDigit(s[i + 1])
  {
    if Search(Placeholder, s) {
      var i: nat, j: nat :| i <= j <= |s| && Matches(Placeholder, s, i, j);
      ThenMatches(Lit('$'), Some1(Digit), s, i, j);
      var k: nat :| i <= k <= j && SplitsAt(Lit('$'), Some1(Digit), s, i, k, j);
      ThenMatches(Digit, Star(Digit), s, k, j);
      var l: nat :| k <= l <= j && SplitsAt(Digit, Star(Digit), s, k, l, j);
      assert LowerChar(s[i]) == '$';
    }
    if i: nat :| i + 1 < |s| && s[i] == '$' && IsDigit(s[i + 1]) {
      ThenMatches(Digit, Star(Digit), s, i + 1, i + 2);
      assert SplitsAt(Digit, Star(Digit), s, i + 1, i + 2, i + 2);
      ThenMatches(Lit('$'), Some1(Digit), s, i, i + 2);
      assert SplitsAt(Lit('$'), Some1(Digit), s, i, i + 1, i + 2);
    }
  }

  // ---- what the quoted tautology pattern finds ----

  /** The k-th part of a sequence matches between the k-th and the next cut. */
  predicate PartAt(parts: seq<Re>, s: string, cuts: seq<nat>, k: nat)
    requires k < |parts| && |cuts| == |parts| + 1
  {
    cuts[k] <= cuts[k + 1] <= |s| && Matches(parts[k], s, cuts[k], cuts[k + 1])
  }

  predicate CutsFit(parts: seq<Re>, s: string, i: nat, j: nat, cuts: seq<nat>) {
    && |cuts| == |parts| + 1 && cuts[0] == i && cuts[|parts|] == j
    && forall k | 0 <= k < |parts| :: PartAt(parts, s, cuts, k)
  }

  /** A sequence matches exactly where cuts can be made between its parts. */
  lemma {:induction false} SequenceMatches(parts: seq<Re>, s: string, i: nat, j: nat) returns (cuts: seq<nat>)
    requires i <= j <= |s| && Matches(Sequence(parts), s, i, j)
    ensures CutsFit(parts, s, i, j, cuts)
    decreases |parts|
  {
    hide Matches;
    if parts == [] {
      EpsMatches(s, i, j);
      cuts := [i];
    } else {
      ThenMatches(parts[0], Sequence(parts[1..]), s, i, j);
      var k: nat :| i <= k <= j && SplitsAt(parts[0], Sequence(parts[1..]), s, i, k, j);
      var rest := SequenceMatches(parts[1..], s, k, j);
      cuts := [i] + rest;
      forall n | 0 <= n < |parts| ensures PartAt(parts, s, cuts, n) {
        if n > 0 {
          assert PartAt(parts[1..], s, rest, n - 1);
        }
      }
    }
  }

  lemma {:induction false} CutsMatch(parts: seq<Re>, s: string, i: nat, j: nat, cuts: seq<nat>)
    requires CutsFit(parts, s, i, j, cuts) && i <= |s|
    ensures i <= j <= |s| && Matches(Sequence(parts), s, i, j)
    decreases |parts|
  {
    hide Matches;
    if parts == [] {
      EpsMatches(s, i, j);
    } else {
      var rest := cuts[1..];
      assert PartAt(parts, s, cuts, 0);
      forall n | 0 <= n < |parts| - 1 ensures PartAt(parts[1..], s, rest, n) {
        assert PartAt(parts, s, cuts, n + 1);
      }
      CutsMatch(parts[1..], s, cuts[1], j, rest);
      assert SplitsAt(parts[0], Sequence(parts[1..]), s, i, cuts[1], j);
      ThenMatches(parts[0], Sequence(parts[1..]), s, i, j);
    }
  }

  lemma {:induction false} EpsMatches(s: string, i: nat, j: nat)
    requires i <= j <= |s|
    ensures Matches(Sequence([]), s, i, j) <==> i == j
  {
  }

  predicate AllSpaces(s: string, i: nat, j: nat) {
    i <= j <= |s| && forall k | i <= k < j :: IsSpace(s[k])
  }

  predicate NoQuotes(s: string, i: nat, j: nat) {
    i <= j <= |s| && forall k | i <= k < j :: s[k] != '\''
  }

  lemma {:induction false} StarFromMeaning(body: Re, s: string, i: nat, k: nat, j: nat)
    requires i < k <= j <= |s| && (body == Space || body == NotQuote || body == AnyChar)
    ensures StarFrom(body, s, i, k, j) <==> k == i + 1 && Matches(body, s, i, k) && Matches(Star(body), s, k, j)
    decreases j - k
  {
    if k < j {
      StarFromMeaning(body, s, i, k + 1, j);
    }
  }

  lemma {:induction false} SpacesMatch(s: string, i: nat, j: nat)
    requires i <= j <= |s|
    ensures Matches(Star(Space), s, i, j) <==> AllSpaces(s, i, j)
    decreases j - i
  {
    if i < j {
      StarFromMeaning(Space, s, i, i + 1, j);
      SpacesMatch(s, i + 1, j);
    }
  }

  lemma {:induction false} NoQuotesMatch(s: string, i: nat, j: nat)
    requires i <= j <= |s|
    ensures Matches(Star(NotQuote), s, i, j) <==> NoQuotes(s, i, j)
    decreases j - i
  {
    if i < j {
      StarFromMeaning(NotQuote, s, i, i + 1, j);
      NoQuotesMatch(s, i + 1, j);
    }
  }

  lemma {:induction false} SomeSpacesMatch(s: string, i: nat, j: nat)
    requires i <= j <= |s|
    ensures Matches(Some1(Space), s, i, j) <==> i < j && AllSpaces(s, i, j)
  {
    ThenMatches(Space, Star(Space), s, i, j);
    if i < j {
      SpacesMatch(s, i + 1, j);
      assert SplitsAt(Space, Star(Space), s, i, i + 1, j) <==> IsSpace(s[i]) && Matches(Star(Space), s, i + 1, j);
    }
  }

  /** A text in single quotes from `i` up to `j`. */
  predicate QuotedText(s: string, i: nat, j: nat) {
    i + 2 <= j <= |s| && s[i] == '\'' && s[j - 1] == '\'' && NoQuotes(s, i + 1, j - 1)
  }

  lemma {:induction false} QuotedMatch(s: string, i: nat, j: nat)
    requires i <= j <= |s|
    ensures Matches(Quoted, s, i, j) <==> QuotedText(s, i, j)
  {
    var parts := [Lit('\''), Star(NotQuote), Lit('\'')];
    if Matches(Quoted, s, i, j) {
      var cuts := SequenceMatches(parts, s, i, j);
      assert PartAt(parts, s, cuts, 0) && PartAt(parts, s, cuts, 1) && PartAt(parts, s, cuts, 2);
      NoQuotesMatch(s, cuts[1], cuts[2]);
    }
    if QuotedText(s, i, j) {
      NoQuotesMatch(s, i + 1, j - 1);
      var cuts := [i, i + 1, j - 1, j];
      assert PartAt(parts, s, cuts, 0) && PartAt(parts, s, cuts, 1) && PartAt(parts, s, cuts, 2);
      CutsMatch(parts, s, i, j, cuts);
    }
  }

  lemma {:induction false} EdgeMatches(s: string, i: nat, j: nat)
    requires i <= j <= |s|
    ensures Matches(Edge, s, i, j) <==> i == j && AtEdge(s, i)
  {
  }

  /** A character that is no letter matches itself only. */
  lemma {:induction false} SignMatches(c: char, s: string, i: nat, j: nat)
    requires i <= j <= |s| && !('a' <= c <= 'z') && !('A' <= c <= 'Z')
    ensures Matches(Lit(c), s, i, j) <==> j == i + 1 && s[i] == c
  {
  }

  /** The word OR at an edge, spaces, a quoted text, an equals sign and a quoted text, with spaces around the
      sign at will, and a word character right after the last quote. */
  predicate QuotedTautologyAt(s: string, i: nat, a: nat, b: nat, c: nat, d: nat, e: nat) {
    && i + 2 < a < b <= c < d < e < |s|
    && AtEdge(s, i) && WordAt("or", s, i) && AllSpaces(s, i + 2, a) && QuotedText(s, a, b)
    && AllSpaces(s, b, c) && s[c] == '=' && AllSpaces(s, c + 1, d) && QuotedText(s, d, e) && IsWord(s[e])
  }

  function QuotedTautologyParts(): seq<Re> {
    [Edge, Literal("or"), Some1(Space), Quoted, Star(Space), Lit('='), Star(Space), Quoted, Edge]
  }

  /** The pattern finds exactly those: a quoted tautology that no word character follows is not found. */
  lemma {:induction false} QuotedTautologyFinds(s: string)
    ensures Search(Regex(QuotedTautology), s) <==>
            exists i: nat, a: nat, b: nat, c: nat, d: nat, e: nat :: QuotedTautologyAt(s, i, a, b, c, d, e)
  {
    hide Matches, Sequence, Literal, QuotedTautologyAt;
    if Search(Regex(QuotedTautology), s) {
      var i: nat, j: nat :| i <= j <= |s| && Matches(Sequence(QuotedTautologyParts()), s, i, j);
      var cuts := SequenceMatches(QuotedTautologyParts(), s, i, j);
      TautologyFromCuts(s, i, j, cuts);
    }
    if i: nat, a: nat, b: nat, c: nat, d: nat, e: nat :| QuotedTautologyAt(s, i, a, b, c, d, e) {
      TautologyCuts(s, i, a, b, c, d, e);
      CutsMatch(QuotedTautologyParts(), s, i, e, [i, i, i + 2, a, b, c, c + 1, d, e, e]);
    }
  }

  lemma {:induction false} TautologyFromCuts(s: string, i: nat, j: nat, cuts: seq<nat>)
    requires i <= j <= |s| && CutsFit(QuotedTautologyParts(), s, i, j, cuts)
    ensures QuotedTautologyAt(s, i, cuts[3], cuts[4], cuts[5], cuts[7], cuts[8])
  {
    hide Matches, Sequence, Literal, Some1;
    var parts := QuotedTautologyParts();
    assert PartAt(parts, s, cuts, 0) && PartAt(parts, s, cuts, 1) && PartAt(parts, s, cuts, 2)
      && PartAt(parts, s, cuts, 3);
    assert PartAt(parts, s, cuts, 4) && PartAt(parts, s, cuts, 5) && PartAt(parts, s, cuts, 6)
      && PartAt(parts, s, cuts, 7);
    assert PartAt(parts, s, cuts, 8);
    EdgeMatches(s, cuts[0], cuts[1]);
    LiteralMatches("or", s, cuts[1], cuts[2]);
    SomeSpacesMatch(s, cuts[2], cuts[3]);
    QuotedMatch(s, cuts[3], cuts[4]);
    SpacesMatch(s, cuts[4], cuts[5]);
    SignMatches('=', s, cuts[5], cuts[6]);
    SpacesMatch(s, cuts[6], cuts[7]);
    QuotedMatch(s, cuts[7], cuts[8]);
    EdgeMatches(s, cuts[8], cuts[9]);
  }

  lemma {:induction false} TautologyCuts(s: string, i: nat, a: nat, b: nat, c: nat, d: nat, e: nat)
    requires QuotedTautologyAt(s, i, a, b, c, d, e)
    ensures i <= e <= |s| && CutsFit(QuotedTautologyParts(), s, i, e, [i, i, i + 2, a, b, c, c + 1, d, e, e])
  {
    hide Matches, Sequence, Literal, Some1;
    EdgeMatches(s, i, i);
    LiteralMatches("or", s, i, i + 2);
    SomeSpacesMatch(s, i + 2, a);
    QuotedMatch(s, a, b);
    SpacesMatch(s, b, c);
    SignMatches('=', s, c, c + 1);
    SpacesMatch(s, c + 1, d);
    QuotedMatch(s, d, e);
    EdgeMatches(s, e, e);
  }

  // ---- what the other patterns find ----

  /** `s` has no line feed from `i` up to `j`. */
  predicate OneLine(s: string, i: nat, j: nat) {
    i <= j <= |s| && forall k | i <= k < j :: s[k] != '\n'
  }

  lemma {:induction false} OneLineMatch(s: string, i: nat, j: nat)
    requires i <= j <= |s|
    ensures Matches(Star(AnyChar), s, i, j) <==> OneLine(s, i, j)
    decreases j - i
  {
    if i < j {
      StarFromMeaning(AnyChar, s, i, i + 1, j);
      OneLineMatch(s, i + 1, j);
    }
  }

  /** The letters COPY, white space, anything on one line, white space and the letters FROM. */
  predicate CopyFromAt(s: string, i: nat, a: nat, b: nat, c: nat) {
    && i + 4 < a <= b < c && WordAt("copy", s, i) && AllSpaces(s, i + 4, a) && OneLine(s, a, b)
    && AllSpaces(s, b, c) && WordAt("from", s, c)
  }

  /** A semicolon and two hyphens, with nothing but white space between. */
  predicate CommentAt(s: string, i: nat, a: nat) {
    i < a && a + 2 <= |s| && s[i] == ';' && AllSpaces(s, i + 1, a) && s[a] == '-' && s[a + 1] == '-'
  }

  /** The word OR and `1 = 1`, with white space at will around the sign. */
  predicate TautologyAt(s: string, i: nat, a: nat, c: nat, d: nat) {
    && i + 2 < a < c < d < |s| && (i == 0 || !IsWord(s[i - 1])) && WordAt("or", s, i) && AllSpaces(s, i + 2, a)
    && s[a] == '1' && AllSpaces(s, a + 1, c) && s[c] == '=' && AllSpaces(s, c + 1, d) && s[d] == '1'
    && (d + 1 == |s| || !IsWord(s[d + 1]))
  }

  function CopyFromParts(): seq<Re> {
    [Literal("copy"), Some1(Space), Star(AnyChar), Some1(Space), Literal("from")]
  }

  lemma {:induction false} CopyFromCuts(s: string, i: nat, j: nat, cuts: seq<nat>)
    requires i <= j <= |s| && |cuts| == 6 && cuts[0] == i && cuts[5] == j
    ensures CutsFit(CopyFromParts(), s, i, j, cuts) <==>
            && cuts[1] == i + 4 && CopyFromAt(s, i, cuts[2], cuts[3], cuts[4]) && j == cuts[4] + 4
  {
    hide Matches, Sequence, Literal, Some1, WordAt;
    var parts := CopyFromParts();
    if cuts[0] <= cuts[1] <= cuts[2] <= cuts[3] <= cuts[4] <= cuts[5] {
      LiteralAt("copy", s, cuts[0], cuts[1]);
      SomeSpacesMatch(s, cuts[1], cuts[2]);
      OneLineMatch(s, cuts[2], cuts[3]);
      SomeSpacesMatch(s, cuts[3], cuts[4]);
      LiteralAt("from", s, cuts[4], cuts[5]);
    }
    if CutsFit(parts, s, i, j, cuts) {
      assert PartAt(parts, s, cuts, 0) && PartAt(parts, s, cuts, 1) && PartAt(parts, s, cuts, 2);
      assert PartAt(parts, s, cuts, 3) && PartAt(parts, s, cuts, 4);
    }
  }

  lemma {:induction false} LiteralAt(w: string, s: string, i: nat, j: nat)
    requires i <= j <= |s|
    ensures Matches(Literal(w), s, i, j) <==> j == i + |w| && WordAt(w, s, i)
  {
    LiteralMatches(w, s, i, j);
  }

  lemma {:induction false} CopyFromFinds(s: string)
    ensures Search(Regex(CopyFrom), s) <==> exists i: nat, a: nat, b: nat, c: nat :: CopyFromAt(s, i, a, b, c)
  {
    hide Matches, Sequence, Literal, CopyFromAt, CutsFit;
    if Search(Regex(CopyFrom), s) {
      var i: nat, j: nat :| i <= j <= |s| && Matches(Sequence(CopyFromParts()), s, i, j);
      var cuts := SequenceMatches(CopyFromParts(), s, i, j);
      CutsLength(CopyFromParts(), s, i, j, cuts);
      CopyFromCuts(s, i, j, cuts);
    }
    if i: nat, a: nat, b: nat, c: nat :| CopyFromAt(s, i, a, b, c) {
      CopyFromEnds(s, i, a, b, c);
      CopyFromCuts(s, i, c + 4, [i, i + 4, a, b, c, c + 4]);
      CutsMatch(CopyFromParts(), s, i, c + 4, [i, i + 4, a, b, c, c + 4]);
    }
  }

  lemma {:induction false} CopyFromEnds(s: string, i: nat, a: nat, b: nat, c: nat)
    requires CopyFromAt(s, i, a, b, c)
    ensures i + 4 <= a <= b <= c && c + 4 <= |s|
  {
  }

  lemma {:induction false} CutsLength(parts: seq<Re>, s: string, i: nat, j: nat, cuts: seq<nat>)
    requires CutsFit(parts, s, i, j, cuts)
    ensures |cuts| == |parts| + 1 && cuts[0] == i && cuts[|parts|] == j
  {
  }

  function CommentParts(): seq<Re> {
    [Lit(';'), Star(Space), Literal("--")]
  }

  lemma {:induction false} CommentCuts(s: string, i: nat, j: nat, cuts: seq<nat>)
    requires i <= j <= |s| && |cuts| == 4 && cuts[0] == i && cuts[3] == j
    ensures CutsFit(CommentParts(), s, i, j, cuts) <==>
            cuts[1] == i + 1 && CommentAt(s, i, cuts[2]) && j == cuts[2] + 2
  {
    hide Matches, Sequence, Literal;
    var parts := CommentParts();
    if cuts[0] <= cuts[1] <= cuts[2] <= cuts[3] {
      SignMatches(';', s, cuts[0], cuts[1]);
      SpacesMatch(s, cuts[1], cuts[2]);
      LiteralMatches("--", s, cuts[2], cuts[3]);
      HyphensLower(s, cuts[2]);
    }
    if CutsFit(parts, s, i, j, cuts) {
      assert PartAt(parts, s, cuts, 0) && PartAt(parts, s, cuts, 1) && PartAt(parts, s, cuts, 2);
    }
  }

  lemma {:induction false} HyphensLower(s: string, a: nat)
    ensures a + 2 <= |s| ==> (Lower(s[a..a + 2]) == "--" <==> s[a] == '-' && s[a + 1] == '-')
  {
    if a + 2 <= |s| {
      var low := Lower(s[a..a + 2]);
      assert low[0] == LowerChar(s[a]) && low[1] == LowerChar(s[a + 1]);
      assert low == [low[0], low[1]];
    }
  }

  lemma {:induction false} CommentFinds(s: string)
    ensures Search(Regex(CommentAfterEnd), s) <==> exists i: nat, a: nat :: CommentAt(s, i, a)
  {
    hide Matches, Sequence, Literal, CommentAt, CutsFit;
    if Search(Regex(CommentAfterEnd), s) {
      var i: nat, j: nat :| i <= j <= |s| && Matches(Sequence(CommentParts()), s, i, j);
      var cuts := SequenceMatches(CommentParts(), s, i, j);
      CutsLength(CommentParts(), s, i, j, cuts);
      CommentCuts(s, i, j, cuts);
    }
    if i: nat, a: nat :| CommentAt(s, i, a) {
      CommentEnds(s, i, a);
      CommentCuts(s, i, a + 2, [i, i + 1, a, a + 2]);
      CutsMatch(CommentParts(), s, i, a + 2, [i, i + 1, a, a + 2]);
    }
  }

  lemma {:induction false} CommentEnds(s: string, i: nat, a: nat)
    requires CommentAt(s, i, a)
    ensures i + 1 <= a && a + 2 <= |s|
  {
  }

  function TautologyParts(): seq<Re> {
    [Edge, Literal("or"), Some1(Space), Lit('1'), Star(Space), Lit('='), Star(Space), Lit('1'), Edge]
  }

  lemma {:induction false} PlainTautologyCuts(s: string, i: nat, a: nat, c: nat, d: nat)
    requires TautologyAt(s, i, a, c, d)
    ensures i <= d + 1 <= |s|
    ensures CutsFit(TautologyParts(), s, i, d + 1, [i, i, i + 2, a, a + 1, c, c + 1, d, d + 1, d + 1])
  {
    hide Matches, Sequence, Literal, Some1;
    EdgeMatches(s, i, i);
    LowerLetters("or", s, i);
    LiteralMatches("or", s, i, i + 2);
    SomeSpacesMatch(s, i + 2, a);
    SignMatches('1', s, a, a + 1);
    SpacesMatch(s, a + 1, c);
    SignMatches('=', s, c, c + 1);
    SpacesMatch(s, c + 1, d);
    SignMatches('1', s, d, d + 1);
    EdgeMatches(s, d + 1, d + 1);
  }

  lemma {:induction false} PlainTautologyFromCuts(s: string, i: nat, j: nat, cuts: seq<nat>)
    requires i <= j <= |s| && CutsFit(TautologyParts(), s, i, j, cuts)
    ensures TautologyAt(s, i, cuts[3], cuts[5], cuts[7])
  {
    hide Matches, Sequence, Literal, Some1;
    var parts := TautologyParts();
    assert PartAt(parts, s, cuts, 0) && PartAt(parts, s, cuts, 1) && PartAt(parts, s, cuts, 2)
      && PartAt(parts, s, cuts, 3);
    assert PartAt(parts, s, cuts, 4) && PartAt(parts, s, cuts, 5) && PartAt(parts, s, cuts, 6)
      && PartAt(parts, s, cuts, 7);
    assert PartAt(parts, s, cuts, 8);
    EdgeMatches(s, cuts[0], cuts[1]);
    LiteralMatches("or", s, cuts[1], cuts[2]);
    LowerLetters("or", s, i);
    SomeSpacesMatch(s, cuts[2], cuts[3]);
    SignMatches('1', s, cuts[3], cuts[4]);
    SpacesMatch(s, cuts[4], cuts[5]);
    SignMatches('=', s, cuts[5], cuts[6]);
    SpacesMatch(s, cuts[6], cuts[7]);
    SignMatches('1', s, cuts[7], cuts[8]);
    EdgeMatches(s, cuts[8], cuts[9]);
  }

  lemma {:induction false} TautologyFinds(s: string)
    ensures Search(Regex(Tautology), s) <==> exists i: nat, a: nat, c: nat, d: nat :: TautologyAt(s, i, a, c, d)
  {
    hide Matches, Sequence, Literal, TautologyAt;
    if Search(Regex(Tautology), s) {
      var i: nat, j: nat :| i <= j <= |s| && Matches(Sequence(TautologyParts()), s, i, j);
      var cuts := SequenceMatches(TautologyParts(), s, i, j);
      PlainTautologyFromCuts(s, i, j, cuts);
    }
    if i: nat, a: nat, c: nat, d: nat :| TautologyAt(s, i, a, c, d) {
      PlainTautologyCuts(s, i, a, c, d);
      CutsMatch(TautologyParts(), s, i, d + 1, [i, i, i + 2, a, a + 1, c, c + 1, d, d + 1, d + 1]);
    }
  }

  // ---- the text of a statement, character by character ----

  /** The word stands in the text as a whole word, in any case. */
  ghost predicate HasWord(w: string, s: string) {
    exists i: nat :: WholeWordAt(w, s, i)
  }

  ghost predicate HasCopyFrom(s: string) {
    exists i: nat, a: nat, b: nat, c: nat :: CopyFromAt(s, i, a, b, c)
  }

  ghost predicate HasComment(s: string) {
    exists i: nat, a: nat :: CommentAt(s, i, a)
  }

  ghost predicate HasTautology(s: string) {
    exists i: nat, a: nat, c: nat, d: nat :: TautologyAt(s, i, a, c, d)
  }

  ghost predicate HasQuotedTautology(s: string) {
    exists i: nat, a: nat, b: nat, c: nat, d: nat, e: nat :: QuotedTautologyAt(s, i, a, b, c, d, e)
  }

  /** The letters INSERT, UPDATE or DELETE stand somewhere in the text, in any case, inside words too. */
  ghost predicate HasWrite(s: string) {
    exists i: nat :: WordAt("insert", s, i) || WordAt("update", s, i) || WordAt("delete", s, i)
  }

  /** A dollar sign stands before a digit. */
  ghost predicate HasPlaceholder(s: string) {
    exists i: nat :: i + 1 < |s| && s[i] == '$' && IsDigit(s[i + 1])
  }

  lemma {:induction false} WriteFinds(s: string)
    ensures Search(WriteWord, s) <==> HasWrite(s)
  {
    hide Literal, WordAt;
    if Search(WriteWord, s) {
      var i: nat, j: nat :| i <= j <= |s| && Matches(WriteWord, s, i, j);
      WriteAt(s, i, j);
    }
    if i: nat :| WordAt("insert", s, i) || WordAt("update", s, i) || WordAt("delete", s, i) {
      WordEnds(s, i);
      WriteAt(s, i, i + 6);
    }
  }

  lemma {:induction false} WordEnds(s: string, i: nat)
    requires WordAt("insert", s, i) || WordAt("update", s, i) || WordAt("delete", s, i)
    ensures i + 6 <= |s|
  {
  }

  lemma {:induction false} WriteAt(s: string, i: nat, j: nat)
    requires i <= j <= |s|
    ensures Matches(WriteWord, s, i, j) <==>
            j == i + 6 && (WordAt("insert", s, i) || WordAt("update", s, i) || WordAt("delete", s, i))
  {
    hide Literal, WordAt;
    LiteralAt("insert", s, i, j);
    LiteralAt("update", s, i, j);
    LiteralAt("delete", s, i, j);
  }

  // ---- column references ----

  datatype Ref = Ref(table: string, column: string)

  /** `re.findall(r"\b(\w+)\.(\w+)\b", s)` from `i` on: left to right, without overlap. */
  function ScanDotted(s: string, i: nat): seq<Ref>
    requires i <= |s|
    decreases |s| - i
  {
    if i == |s| then []
    else if !IsWord(s[i]) then ScanDotted(s, i + 1)
    else
      var e := RunEnd(s, i);
      if e + 1 < |s| && s[e] == '.' && IsWord(s[e + 1]) then
        [Ref(s[i..e], s[e + 1..RunEnd(s, e + 1)])] + ScanDotted(s, RunEnd(s, e + 1))
      else ScanDotted(s, e)
  }

  function SkipSpaces(s: string, i: nat): (e: nat)
    requires i <= |s|
    ensures i <= e && AllSpaces(s, i, e)
    decreases |s| - i
  {
    if i < |s| && IsSpace(s[i]) then SkipSpaces(s, i + 1) else i
  }

  /** A quoted identifier that opens at `i`: the position after its closing quote. */
  function QuotedEnd(s: string, i: nat): (r: Option<nat>)
    requires i <= |s|
    ensures r.Some? ==> i + 2 < r.value <= |s| && s[i] == '"' && s[r.value - 1] == '"'
    ensures r.Some? ==> forall k | i < k < r.value - 1 :: IsWord(s[k])
  {
    if i < |s| && s[i] == '"' then
      var e := RunEnd(s, i + 1);
      if i + 1 < e < |s| && s[e] == '"' then Some(e + 1) else None
    else None
  }

  /** `"x"."y"` with spaces around the dot at will: where the first quote closes, the dot stands, and the second
      quote opens and closes. */
  datatype Pair = Pair(close: nat, dot: nat, open: nat, end: nat)

  predicate PairAt(s: string, i: nat, p: Pair) {
    && i + 1 < p.close < p.dot < p.open && p.open + 1 < p.end < |s|
    && s[i] == '"' && s[p.close] == '"' && s[p.dot] == '.' && s[p.open] == '"' && s[p.end] == '"'
    && (forall k | i < k < p.close :: IsWord(s[k])) && (forall k | p.open < k < p.end :: IsWord(s[k]))
    && AllSpaces(s, p.close + 1, p.dot) && AllSpaces(s, p.dot + 1, p.open)
  }

  function PairFrom(s: string, i: nat): (r: Option<Pair>)
    requires i <= |s|
    ensures r.Some? ==> PairAt(s, i, r.value)
  {
    match QuotedEnd(s, i)
    case None => None
    case Some(e) =>
      var dot := SkipSpaces(s, e);
      if dot < |s| && s[dot] == '.' then
        var open := SkipSpaces(s, dot + 1);
        match QuotedEnd(s, open)
        case None => None
        case Some(f) => Some(Pair(e - 1, dot, open, f - 1))
      else None
  }

  /** `re.findall(r'"(\w+)"\s*\.\s*"(\w+)"', s)` from `i` on. */
  function ScanQuoted(s: string, i: nat): seq<Ref>
    requires i <= |s|
    decreases |s| - i
  {
    if i == |s| then []
    else
      match PairFrom(s, i)
      case None => ScanQuoted(s, i + 1)
      case Some(p) => [Ref(s[i + 1..p.close], s[p.open + 1..p.end])] + ScanQuoted(s, p.end + 1)
  }

  function Refs(code: string): seq<Ref> {
    ScanDotted(code, 0) + ScanQuoted(code, 0)
  }

  lemma {:induction false} RunStops(s: string, i: nat, p: nat)
    requires i <= p < |s| && !IsWord(s[p])
    ensures RunEnd(s, i) <= p
    decreases p - i
  {
    if i < p && IsWord(s[i]) {
      RunStops(s, i + 1, p);
    }
  }

  /** One round of the scan: what it finds at `i` and where it goes on. */
  lemma {:induction false} ScanStep(s: string, i: nat, p: nat) returns (found: seq<Ref>, next: nat)
    requires i < p <= |s| && !IsWord(s[p - 1]) && s[p - 1] != '.'
    ensures i < next <= p && ScanDotted(s, i) == found + ScanDotted(s, next)
  {
    found, next := [], i + 1;
    if IsWord(s[i]) {
      var e := RunEnd(s, i);
      RunStops(s, i, p - 1);
      next := e;
      if e + 1 < |s| && s[e] == '.' && IsWord(s[e + 1]) {
        RunStops(s, e + 1, p - 1);
        found, next := [Ref(s[i..e], s[e + 1..RunEnd(s, e + 1)])], RunEnd(s, e + 1);
      }
    }
  }

  /** The scan from an earlier position passes through `p` when the character before `p` can be in no
      reference. */
  lemma {:induction false} ScanPasses(s: string, i: nat, p: nat) returns (front: seq<Ref>)
    requires i <= p <= |s|
    requires p > 0 ==> !IsWord(s[p - 1]) && s[p - 1] != '.'
    ensures ScanDotted(s, i) == front + ScanDotted(s, p)
    decreases p - i
  {
    hide ScanDotted;
    if i == p {
      front := [];
    } else {
      var found, next := ScanStep(s, i, p);
      var rest := ScanPasses(s, next, p);
      front := found + rest;
      assert found + (rest + ScanDotted(s, p)) == (found + rest) + ScanDotted(s, p);
    }
  }

  lemma {:induction false} RunEndIs(s: string, i: nat, e: nat)
    requires i <= e <= |s| && (forall k | i <= k < e :: IsWord(s[k])) && (e == |s| || !IsWord(s[e]))
    ensures RunEnd(s, i) == e
    decreases e - i
  {
    if i < e {
      RunEndIs(s, i + 1, e);
    }
  }

  predicate AllWord(s: string) {
    forall i | 0 <= i < |s| :: IsWord(s[i])
  }

  /** The word run `i..e`, a dot and the word run `e + 1..f` are one reference. */
  lemma {:induction false} ScanAt(s: string, i: nat, e: nat, f: nat)
    requires i < e && e + 1 < f <= |s| && s[e] == '.' && (f == |s| || !IsWord(s[f]))
    requires (forall k | i <= k < e :: IsWord(s[k])) && (forall k | e + 1 <= k < f :: IsWord(s[k]))
    ensures ScanDotted(s, i) == [Ref(s[i..e], s[e + 1..f])] + ScanDotted(s, f)
  {
    RunEndIs(s, i, e);
    RunEndIs(s, e + 1, f);
  }

  /** Two words joined by a dot, standing free of further words and dots, are found as a reference. */
  lemma {:induction false} QualifiedNameFound(pre: string, t: string, c: string, post: string)
    requires t != "" && c != "" && AllWord(t) && AllWord(c)
    requires pre == "" || (!IsWord(pre[|pre| - 1]) && pre[|pre| - 1] != '.')
    requires post == "" || !IsWord(post[0])
    ensures Ref(t, c) in Refs(pre + t + "." + c + post)
  {
    var s := pre + t + "." + c + post;
    var p := |pre|;
    var e := p + |t|;
    var f := e + 1 + |c|;
    assert s[..p] == pre;
    assert s[p..e] == t && s[e] == '.';
    assert s[e + 1..f] == c;
    assert s[f..] == post;
    WordsOfSlice(s, p, e);
    WordsOfSlice(s, e + 1, f);
    assert f < |s| ==> s[f] == s[f..][0];
    assert p > 0 ==> s[p - 1] == s[..p][p - 1];
    FoundAt(s, p, e, f);
  }

  lemma {:induction false} FoundAt(s: string, p: nat, e: nat, f: nat)
    requires p < e && e + 1 < f <= |s| && s[e] == '.' && (f == |s| || !IsWord(s[f]))
    requires (forall k | p <= k < e :: IsWord(s[k])) && (forall k | e + 1 <= k < f :: IsWord(s[k]))
    requires p > 0 ==> !IsWord(s[p - 1]) && s[p - 1] != '.'
    ensures Ref(s[p..e], s[e + 1..f]) in Refs(s)
  {
    ScanAt(s, p, e, f);
    var front := ScanPasses(s, 0, p);
    assert ScanDotted(s, 0)[|front|] == Ref(s[p..e], s[e + 1..f]);
  }

  /** Of `a.b.c` only the first two words are a reference. */
  lemma {:induction false} ThreePartName(a: string, b: string, c: string)
    requires a != "" && b != "" && c != "" && AllWord(a) && AllWord(b) && AllWord(c)
    ensures ScanDotted(a + "." + b + "." + c, 0) == [Ref(a, b)]
  {
    var s := a + "." + b + "." + c;
    var e := |a|;
    var f := e + 1 + |b|;
    assert s[0..e] == a && s[e..e + 1] == "." && s[e + 1..f] == b && s[f..f + 1] == "." && s[f + 1..] == c;
    assert forall k | 0 <= k < e :: s[k] == s[0..e][k];
    assert forall k | e + 1 <= k < f :: s[k] == s[e + 1..f][k - e - 1];
    assert forall k | f + 1 <= k < |s| :: s[k] == s[f + 1..][k - f - 1];
    ScanAt(s, 0, e, f);
    LastWordAlone(s, f);
  }

  lemma {:induction false} LastWordAlone(s: string, f: nat)
    requires f + 1 < |s| && s[f] == '.' && forall k | f + 1 <= k < |s| :: IsWord(s[k])
    ensures ScanDotted(s, f) == []
  {
    RunEndIs(s, f + 1, |s|);
    assert ScanDotted(s, |s|) == [];
    assert ScanDotted(s, f + 1) == [];
  }

  /** A double quote after `pre` can only open a quoted pair: none stands before it, or neither a word character
      nor a dot, with or without spaces, comes right before it. */
  predicate OpensPair(pre: string) {
    || '"' !in pre
    || ((pre == "" || !IsWord(pre[|pre| - 1]))
        && forall k | 0 <= k < |pre| && AllSpaces(pre, k + 1, |pre|) :: pre[k] != '.')
  }

  lemma {:induction false} SkipSpacesIs(s: string, i: nat, e: nat)
    requires i <= e < |s| && AllSpaces(s, i, e) && !IsSpace(s[e])
    ensures SkipSpaces(s, i) == e
    decreases e - i
  {
    if i < e {
      SkipSpacesIs(s, i + 1, e);
    }
  }

  lemma {:induction false} QuotedEndIs(s: string, i: nat, e: nat)
    requires i + 1 < e < |s| && s[i] == '"' && s[e] == '"' && forall k | i < k < e :: IsWord(s[k])
    ensures QuotedEnd(s, i) == Some(e + 1)
  {
    RunEndIs(s, i + 1, e);
  }

  /** A pair is found in one way only. */
  lemma {:induction false} PairFromExactly(s: string, i: nat, p: Pair)
    requires PairAt(s, i, p)
    ensures PairFrom(s, i) == Some(p)
  {
    hide QuotedEnd, SkipSpaces;
    QuotedEndIs(s, i, p.close);
    SkipSpacesIs(s, p.close + 1, p.dot);
    SkipSpacesIs(s, p.dot + 1, p.open);
    QuotedEndIs(s, p.open, p.end);
  }

  /** No earlier pair reaches over a double quote that can only open one. */
  lemma {:induction false} PairsApart(s: string, i: nat, p: Pair, j: nat)
    requires PairAt(s, i, p) && i < j < |s| && s[j] == '"' && OpensPair(s[..j])
    ensures i + 1 < p.close < p.open && p.open + 1 < p.end < j
  {
    assert s[..j][i] == '"';
    assert !IsWord(s[j - 1]);
    if j == p.open {
      NotAfterDot(s, p.dot, j);
    }
  }

  lemma {:induction false} NotAfterDot(s: string, dot: nat, j: nat)
    requires dot < j <= |s| && '"' in s[..j] && OpensPair(s[..j]) && AllSpaces(s, dot + 1, j)
    ensures s[dot] != '.'
  {
    assert AllSpaces(s[..j], dot + 1, |s[..j]|);
  }

  lemma {:induction false} QuotedScanPasses(s: string, i: nat, j: nat) returns (front: seq<Ref>)
    requires i <= j < |s| && s[j] == '"' && OpensPair(s[..j])
    ensures ScanQuoted(s, i) == front + ScanQuoted(s, j)
    decreases j - i
  {
    hide OpensPair, PairAt, PairFrom;
    if i == j {
      front := [];
    } else {
      match PairFrom(s, i)
      case None =>
        front := QuotedScanPasses(s, i + 1, j);
      case Some(p) =>
        PairsApart(s, i, p, j);
        var rest := QuotedScanPasses(s, p.end + 1, j);
        var found := Ref(s[i + 1..p.close], s[p.open + 1..p.end]);
        front := [found] + rest;
        assert [found] + (rest + ScanQuoted(s, j)) == ([found] + rest) + ScanQuoted(s, j);
    }
  }

  lemma {:induction false} PairFoundAt(s: string, i: nat, p: Pair)
    requires PairAt(s, i, p) && OpensPair(s[..i])
    ensures Ref(s[i + 1..p.close], s[p.open + 1..p.end]) in Refs(s)
  {
    hide ScanDotted, OpensPair, PairFrom;
    var front := QuotedScanPasses(s, 0, i);
    PairFromExactly(s, i, p);
    assert ScanQuoted(s, 0)[|front|] == Ref(s[i + 1..p.close], s[p.open + 1..p.end]);
  }

  /** Two words in double quotes joined by a dot, with spaces around it at will, are found as a reference wherever
      the first quote can only open a pair, as it does when no double quote comes before it. */
  lemma {:induction false} QuotedNameFound(pre: string, t: string, gap1: string, gap2: string, c: string, post: string)
    requires t != "" && c != "" && AllWord(t) && AllWord(c) && OpensPair(pre)
    requires AllSpaces(gap1, 0, |gap1|) && AllSpaces(gap2, 0, |gap2|)
    ensures Ref(t, c) in Refs(pre + "\"" + t + "\"" + gap1 + "." + gap2 + "\"" + c + "\"" + post)
  {
    hide Refs, OpensPair, AllWord, AllSpaces, PairAt;
    var s := pre + "\"" + t + "\"" + gap1 + "." + gap2 + "\"" + c + "\"" + post;
    var p := |pre|;
    var e := p + 1 + |t|;
    var d := e + 1 + |gap1|;
    var o := d + 1 + |gap2|;
    var g := o + 1 + |c|;
    assert s[..p] == pre && s[p] == '"';
    assert s[p + 1..e] == t && s[e] == '"';
    assert s[e + 1..d] == gap1 && s[d] == '.';
    assert s[d + 1..o] == gap2 && s[o] == '"';
    assert s[o + 1..g] == c && s[g] == '"';
    PairOfSlices(s, p, Pair(e, d, o, g));
    PairFoundAt(s, p, Pair(e, d, o, g));
  }

  lemma {:induction false} PairOfSlices(s: string, i: nat, p: Pair)
    requires i + 1 < p.close < p.dot < p.open && p.open + 1 < p.end < |s|
    requires s[i] == '"' && s[p.close] == '"' && s[p.dot] == '.' && s[p.open] == '"' && s[p.end] == '"'
    requires AllWord(s[i + 1..p.close]) && AllWord(s[p.open + 1..p.end])
    requires AllSpaces(s[p.close + 1..p.dot], 0, p.dot - p.close - 1)
    requires AllSpaces(s[p.dot + 1..p.open], 0, p.open - p.dot - 1)
    ensures PairAt(s, i, p)
  {
    WordsOfSlice(s, i + 1, p.close);
    WordsOfSlice(s, p.open + 1, p.end);
    SpacesOfSlice(s, p.close + 1, p.dot);
    SpacesOfSlice(s, p.dot + 1, p.open);
  }

  lemma {:induction false} WordsOfSlice(s: string, a: nat, b: nat)
    requires a <= b <= |s| && AllWord(s[a..b])
    ensures forall k | a <= k < b :: IsWord(s[k])
  {
    forall k | a <= k < b ensures IsWord(s[k]) {
      assert s[a..b][k - a] == s[k];
    }
  }

  lemma {:induction false} SpacesOfSlice(s: string, a: nat, b: nat)
    requires a <= b <= |s| && AllSpaces(s[a..b], 0, b - a)
    ensures AllSpaces(s, a, b)
  {
    forall k | a <= k < b ensures IsSpace(s[k]) {
      assert s[a..b][k - a] == s[k];
    }
  }

  /** The reference stands at `p` as two whole words joined by a dot at `e`. */
  predicate NamedAt(s: string, ref: Ref, p: nat, e: nat, f: nat) {
    && p < e && e + 1 < f <= |s| && s[e] == '.' && ref == Ref(s[p..e], s[e + 1..f])
    && AllWord(ref.table) && AllWord(ref.column)
    && (p == 0 || !IsWord(s[p - 1])) && (f == |s| || !IsWord(s[f]))
  }

  /** The reference stands at `i` as a pair of quoted words. */
  predicate QuotedAt(s: string, ref: Ref, i: nat, p: Pair) {
    PairAt(s, i, p) && ref == Ref(s[i + 1..p.close], s[p.open + 1..p.end])
  }

  ghost predicate Named(s: string, ref: Ref, i: nat) {
    exists e: nat, f: nat :: NamedAt(s, ref, i, e, f)
  }

  ghost predicate QuotedPair(s: string, ref: Ref, i: nat) {
    exists p: Pair :: QuotedAt(s, ref, i, p)
  }

  /** Positions from `i` on, from left to right. */
  ghost predicate Places(at: seq<nat>, i: nat) {
    && (forall k | 0 <= k < |at| :: i <= at[k])
    && (forall j, k | 0 <= j < k < |at| :: at[j] < at[k])
  }

  ghost predicate NamedAll(s: string, refs: seq<Ref>, at: seq<nat>) {
    |at| == |refs| && forall k | 0 <= k < |at| :: Named(s, refs[k], at[k])
  }

  ghost predicate QuotedAll(s: string, refs: seq<Ref>, at: seq<nat>) {
    |at| == |refs| && forall k | 0 <= k < |at| :: QuotedPair(s, refs[k], at[k])
  }

  lemma {:induction false} PlacesCons(i: nat, next: nat, at: seq<nat>)
    requires i < next && Places(at, next)
    ensures Places([i] + at, i)
  {
  }

  lemma {:induction false} PlacesLater(at: seq<nat>, i: nat, j: nat)
    requires i <= j && Places(at, j)
    ensures Places(at, i)
  {
  }

  lemma {:induction false} NamedCons(s: string, ref: Ref, refs: seq<Ref>, i: nat, at: seq<nat>)
    requires Named(s, ref, i) && NamedAll(s, refs, at)
    ensures NamedAll(s, [ref] + refs, [i] + at)
  {
    hide Named;
  }

  lemma {:induction false} QuotedCons(s: string, ref: Ref, refs: seq<Ref>, i: nat, at: seq<nat>)
    requires QuotedPair(s, ref, i) && QuotedAll(s, refs, at)
    ensures QuotedAll(s, [ref] + refs, [i] + at)
  {
    hide QuotedPair;
  }

  lemma {:induction false} PairBounds(s: string, i: nat, p: Pair)
    requires PairAt(s, i, p)
    ensures i + 1 < p.close < p.open && p.open + 1 < p.end < |s|
  {
  }

  lemma {:induction false} DottedScanned(s: string, i: nat) returns (at: seq<nat>)
    requires i <= |s| && (i > 0 && i < |s| && IsWord(s[i]) ==> !IsWord(s[i - 1]))
    ensures NamedAll(s, ScanDotted(s, i), at) && Places(at, i)
    decreases |s| - i
  {
    hide Places, Named;
    if i == |s| {
      at := [];
      NoPlaces(i);
    } else if !IsWord(s[i]) {
      at := DottedScanned(s, i + 1);
      PlacesLater(at, i, i + 1);
    } else {
      var e := RunEnd(s, i);
      NameScanned(s, i);
      if e + 1 < |s| && s[e] == '.' && IsWord(s[e + 1]) {
        var f := RunEnd(s, e + 1);
        var rest := DottedScanned(s, f);
        at := [i] + rest;
        NamedCons(s, Ref(s[i..e], s[e + 1..f]), ScanDotted(s, f), i, rest);
        PlacesCons(i, f, rest);
      } else {
        at := DottedScanned(s, e);
        PlacesLater(at, i, e);
      }
    }
  }

  lemma {:induction false} NoPlaces(i: nat)
    ensures Places([], i)
  {
  }

  lemma {:induction false} NameScanned(s: string, i: nat)
    requires i < |s| && IsWord(s[i]) && (i > 0 ==> !IsWord(s[i - 1]))
    ensures var e := RunEnd(s, i);
            i < e && (e + 1 < |s| && s[e] == '.' && IsWord(s[e + 1]) ==>
                        Named(s, Ref(s[i..e], s[e + 1..RunEnd(s, e + 1)]), i))
  {
    var e := RunEnd(s, i);
    if e + 1 < |s| && s[e] == '.' && IsWord(s[e + 1]) {
      assert NamedAt(s, Ref(s[i..e], s[e + 1..RunEnd(s, e + 1)]), i, e, RunEnd(s, e + 1));
    }
  }

  lemma {:induction false} QuotedScanned(s: string, i: nat) returns (at: seq<nat>)
    requires i <= |s|
    ensures QuotedAll(s, ScanQuoted(s, i), at) && Places(at, i)
    decreases |s| - i
  {
    hide PairFrom, PairAt, Places, QuotedPair;
    if i == |s| {
      at := [];
      NoPlaces(i);
    } else {
      match PairFrom(s, i)
      case None =>
        at := QuotedScanned(s, i + 1);
        PlacesLater(at, i, i + 1);
      case Some(p) =>
        PairBounds(s, i, p);
        var ref := Ref(s[i + 1..p.close], s[p.open + 1..p.end]);
        PairIs(s, ref, i, p);
        var rest := QuotedScanned(s, p.end + 1);
        at := [i] + rest;
        QuotedCons(s, ref, ScanQuoted(s, p.end + 1), i, rest);
        PlacesCons(i, p.end + 1, rest);
    }
  }

  lemma {:induction false} PairIs(s: string, ref: Ref, i: nat, p: Pair)
    requires PairAt(s, i, p) && ref == Ref(s[i + 1..p.close], s[p.open + 1..p.end])
    ensures QuotedPair(s, ref, i)
  {
    assert QuotedAt(s, ref, i, p);
  }

  /** Whatever is scanned stands in the text, each reference at its own place: first the pairs of whole words joined by
      a dot, from left to right, then the pairs of quoted words. */
  lemma {:induction false} ScannedStands(code: string) returns (named: seq<nat>, quoted: seq<nat>)
    ensures |Refs(code)| == |named| + |quoted|
    ensures Places(named, 0) && NamedAll(code, Refs(code)[..|named|], named)
    ensures Places(quoted, 0) && QuotedAll(code, Refs(code)[|named|..], quoted)
  {
    hide ScanDotted, ScanQuoted, Places, Named, QuotedPair;
    named := DottedScanned(code, 0);
    quoted := QuotedScanned(code, 0);
    assert Refs(code)[..|named|] == ScanDotted(code, 0) && Refs(code)[|named|..] == ScanQuoted(code, 0);
  }

  // ---- the validator ----

  datatype Error =
    | Forbidden(message: string)
    | NotParameterized
    | UnknownColumn(ref: Ref, available: set<string>)

  function PatternErrors(code: string, rules: seq<Rule>): seq<Error> {
    if rules == [] then []
    else
      PatternErrors(code, rules[..|rules| - 1])
      + if Search(Regex(rules[|rules| - 1].pattern), code) then [Forbidden(rules[|rules| - 1].message)] else []
  }

  function ColumnNames(cols: seq<Column>): set<string> {
    set c | c in cols :: Lower(c.name)
  }

  /** The columns allowed for a table name: those of the last table so named, up to case. */
  function Allowed(tables: seq<Table>, lowerName: string): Option<set<string>> {
    if tables == [] then None
    else if Lower(tables[|tables| - 1].name) == lowerName then Some(ColumnNames(tables[|tables| - 1].columns))
    else Allowed(tables[..|tables| - 1], lowerName)
  }

  /** The reference names a column of its table, or a table that is not known. */
  predicate RefAllowed(ref: Ref, tables: seq<Table>) {
    var allowed := Allowed(tables, Lower(ref.table));
    allowed.Some? ==> Lower(ref.column) in allowed.value
  }

  function RefErrors(refs: seq<Ref>, tables: seq<Table>): seq<Error> {
    if refs == [] then []
    else
      var last := refs[|refs| - 1];
      var allowed := Allowed(tables, Lower(last.table));
      RefErrors(refs[..|refs| - 1], tables)
      + if allowed.Some? && Lower(last.column) !in allowed.value then [UnknownColumn(last, allowed.value)] else []
  }

  function Errors(code: string, tables: seq<Table>): seq<Error> {
    PatternErrors(code, Dangerous())
    + (if Search(WriteWord, code) && !Search(Placeholder, code) then [NotParameterized] else [])
    + RefErrors(Refs(code), tables)
  }

  predicate Passes(code: string, tables: seq<Table>) {
    Errors(code, tables) == []
  }

  method CheckRefs(refs: seq<Ref>, tables: seq<Table>) returns (errors: seq<Error>)
    ensures errors == RefErrors(refs, tables)
  {
    var validCols: map<string, set<string>> := map[];
    for k := 0 to |tables|
      invariant forall n :: n in validCols <==> Allowed(tables[..k], n).Some?
      invariant forall n | n in validCols :: Allowed(tables[..k], n) == Some(validCols[n])
    {
      assert tables[..k + 1][..k] == tables[..k];
      validCols := validCols[Lower(tables[k].name) := ColumnNames(tables[k].columns)];
    }
    assert tables[..|tables|] == tables;
    errors := [];
    for k := 0 to |refs|
      invariant errors == RefErrors(refs[..k], tables)
    {
      assert refs[..k + 1][..k] == refs[..k];
      var ref := refs[k];
      if Lower(ref.table) in validCols && Lower(ref.column) !in validCols[Lower(ref.table)] {
        errors := errors + [UnknownColumn(ref, validCols[Lower(ref.table)])];
      }
    }
    assert refs[..|refs|] == refs;
  }

  method CheckPatterns(code: string, rules: seq<Rule>) returns (errors: seq<Error>)
    ensures errors == PatternErrors(code, rules)
  {
    errors := [];
    for k := 0 to |rules|
      invariant errors == PatternErrors(code, rules[..k])
    {
      assert rules[..k + 1][..k] == rules[..k];
      if Search(Regex(rules[k].pattern), code) {
        errors := errors + [Forbidden(rules[k].message)];
      }
    }
    assert rules[..|rules|] == rules;
  }

  method ValidateFallback(code: string, tables: seq<Table>) returns (passed: bool, errors: seq<Error>)
    ensures errors == Errors(code, tables) && passed == Passes(code, tables)
  {
    hide Dangerous, Search, Refs;
    errors := CheckPatterns(code, Dangerous());
    if Search(WriteWord, code) && !Search(Placeholder, code) {
      errors := errors + [NotParameterized];
    }
    if tables != [] {
      var more := CheckRefs(Refs(code), tables);
      errors := errors + more;
    } else {
      NoTablesNoErrors(Refs(code));
    }
    passed := |errors| == 0;
  }

  lemma {:induction false} NoTablesNoErrors(refs: seq<Ref>)
    ensures RefErrors(refs, []) == []
  {
    if refs != [] {
      NoTablesNoErrors(refs[..|refs| - 1]);
    }
  }

  // ---- what passing means ----

  lemma {:induction false} RefErrorsMeaning(refs: seq<Ref>, tables: seq<Table>, ref: Ref)
    ensures (exists a :: UnknownColumn(ref, a) in RefErrors(refs, tables)) <==> ref in refs && !RefAllowed(ref, tables)
    ensures forall e | e in RefErrors(refs, tables) :: e.UnknownColumn? && e.ref in refs
  {
    if refs != [] {
      var front, last := refs[..|refs| - 1], refs[|refs| - 1];
      RefErrorsMeaning(front, tables, ref);
      assert refs == front + [last];
      var allowed := Allowed(tables, Lower(last.table));
      if allowed.Some? && Lower(last.column) !in allowed.value {
        assert UnknownColumn(last, allowed.value) in RefErrors(refs, tables);
      }
    }
  }

  /** None of the forbidden words stands in the text, and none of the forbidden shapes. */
  ghost predicate Harmless(s: string) {
    && !HasWord("drop", s) && !HasWord("truncate", s) && !HasWord("alter", s)
    && !HasWord("create", s) && !HasWord("grant", s) && !HasWord("revoke", s)
    && !HasCopyFrom(s) && !HasComment(s) && !HasTautology(s) && !HasQuotedTautology(s)
  }

  /** The last table of the reference's table name, up to case, has its column, up to case, if there is such a table. */
  ghost predicate ColumnKnown(ref: Ref, tables: seq<Table>) {
    forall i: nat | LastTable(tables, i, ref.table) ::
      exists c :: c in tables[i].columns && Lower(c.name) == Lower(ref.column)
  }

  predicate LastTable(tables: seq<Table>, i: nat, name: string) {
    && i < |tables| && Lower(tables[i].name) == Lower(name)
    && forall j | i < j < |tables| :: Lower(tables[j].name) != Lower(name)
  }

  lemma {:induction false} AllowedIs(tables: seq<Table>, name: string)
    ensures forall i: nat | LastTable(tables, i, name) ::
              Allowed(tables, Lower(name)) == Some(ColumnNames(tables[i].columns))
    ensures Allowed(tables, Lower(name)).Some? ==> exists i: nat :: LastTable(tables, i, name)
  {
    hide Lower, ColumnNames;
    if tables != [] {
      var n := |tables| - 1;
      AllowedIs(tables[..n], name);
      if Lower(tables[n].name) == Lower(name) {
        assert LastTable(tables, n, name);
      } else {
        forall i: nat | LastTable(tables, i, name) ensures LastTable(tables[..n], i, name) {
        }
        if i: nat :| LastTable(tables[..n], i, name) {
          assert LastTable(tables, i, name);
        }
      }
    }
  }

  lemma {:induction false} AllowedMeans(ref: Ref, tables: seq<Table>)
    ensures RefAllowed(ref, tables) <==> ColumnKnown(ref, tables)
  {
    hide Allowed, LastTable, Lower;
    AllowedIs(tables, ref.table);
  }

  lemma {:induction false} PatternFinds(s: string)
    ensures Search(Regex(CopyFrom), s) <==> HasCopyFrom(s)
    ensures Search(Regex(CommentAfterEnd), s) <==> HasComment(s)
    ensures Search(Regex(Tautology), s) <==> HasTautology(s)
    ensures Search(Regex(QuotedTautology), s) <==> HasQuotedTautology(s)
  {
    hide Search, Regex, CopyFromAt, CommentAt, TautologyAt, QuotedTautologyAt;
    CopyFromFinds(s);
    CommentFinds(s);
    TautologyFinds(s);
    QuotedTautologyFinds(s);
  }

  lemma {:induction false} WordFinds(w: string, s: string)
    requires w != "" && forall c | c in w :: 'a' <= c <= 'z'
    ensures Search(Regex(Word(w)), s) <==> HasWord(w, s)
  {
    hide Search, WholeWordAt;
    KeywordFinds(w, s);
  }

  function OneError(found: bool, message: string): seq<Error> {
    if found then [Forbidden(message)] else []
  }

  /** The errors for the first `n` rules of a list, one more rule at a time. */
  lemma {:induction false} OneMoreRule(code: string, rules: seq<Rule>, n: nat)
    requires n < |rules|
    ensures PatternErrors(code, rules[..n + 1])
         == PatternErrors(code, rules[..n]) + OneError(Search(Regex(rules[n].pattern), code), rules[n].message)
  {
    hide Search;
    assert rules[..n + 1][..n] == rules[..n];
  }

  /** Every forbidden word and shape in the text is reported by its own message, in this order, and nothing else is. */
  ghost function ForbiddenErrors(s: string): seq<Error> {
    OneError(HasWord("drop", s), "DROP operations not permitted")
    + OneError(HasWord("truncate", s), "TRUNCATE operations not permitted")
    + OneError(HasWord("alter", s), "ALTER operations not permitted")
    + OneError(HasWord("create", s), "CREATE operations not permitted")
    + OneError(HasWord("grant", s), "GRANT operations not permitted")
    + OneError(HasWord("revoke", s), "REVOKE operations not permitted")
    + OneError(HasCopyFrom(s), "COPY FROM operations not permitted")
    + OneError(HasComment(s), "Potential SQL injection via comment")
    + OneError(HasTautology(s), "Tautology injection pattern detected")
    + OneError(HasQuotedTautology(s), "Tautology string injection pattern detected")
  }

  /** The list of dangerous patterns, one by one. */
  lemma {:induction false} DangerousErrors(code: string)
    ensures PatternErrors(code, Dangerous()) == ForbiddenErrors(code)
  {
    hide Search, Regex, PatternErrors, HasWord, HasCopyFrom, HasComment, HasTautology, HasQuotedTautology, OneError;
    WordErrors(code);
    ShapeErrors(code, Dangerous());
    PatternFinds(code);
    assert Dangerous()[..10] == Dangerous();
  }

  lemma {:induction false} WordErrors(code: string)
    ensures PatternErrors(code, Dangerous()[..6])
         == OneError(HasWord("drop", code), "DROP operations not permitted")
            + OneError(HasWord("truncate", code), "TRUNCATE operations not permitted")
            + OneError(HasWord("alter", code), "ALTER operations not permitted")
            + OneError(HasWord("create", code), "CREATE operations not permitted")
            + OneError(HasWord("grant", code), "GRANT operations not permitted")
            + OneError(HasWord("revoke", code), "REVOKE operations not permitted")
  {
    hide Search, Regex, PatternErrors, HasWord, OneError;
    FirstErrors(code, Dangerous());
    WordsFind(code);
  }

  lemma {:induction false} WordsFind(code: string)
    ensures Search(Regex(Word("drop")), code) <==> HasWord("drop", code)
    ensures Search(Regex(Word("truncate")), code) <==> HasWord("truncate", code)
    ensures Search(Regex(Word("alter")), code) <==> HasWord("alter", code)
    ensures Search(Regex(Word("create")), code) <==> HasWord("create", code)
    ensures Search(Regex(Word("grant")), code) <==> HasWord("grant", code)
    ensures Search(Regex(Word("revoke")), code) <==> HasWord("revoke", code)
  {
    hide Search, Regex, HasWord;
    WordFinds("drop", code);
    WordFinds("truncate", code);
    WordFinds("alter", code);
    WordFinds("create", code);
    WordFinds("grant", code);
    WordFinds("revoke", code);
  }

  function ErrorAt(code: string, rules: seq<Rule>, k: nat): seq<Error>
    requires k < |rules|
  {
    OneError(Search(Regex(rules[k].pattern), code), rules[k].message)
  }

  lemma {:induction false} FirstErrors(code: string, rules: seq<Rule>)
    requires |rules| >= 6
    ensures PatternErrors(code, rules[..6])
         == ErrorAt(code, rules, 0) + ErrorAt(code, rules, 1) + ErrorAt(code, rules, 2)
            + ErrorAt(code, rules, 3) + ErrorAt(code, rules, 4) + ErrorAt(code, rules, 5)
  {
    hide Search, Regex, PatternErrors, OneError;
    NoRules(code);
    assert rules[..0] == [] && [] + ErrorAt(code, rules, 0) == ErrorAt(code, rules, 0);
    OneMoreRule(code, rules, 0);
    OneMoreRule(code, rules, 1);
    OneMoreRule(code, rules, 2);
    OneMoreRule(code, rules, 3);
    OneMoreRule(code, rules, 4);
    OneMoreRule(code, rules, 5);
  }

  lemma {:induction false} ShapeErrors(code: string, rules: seq<Rule>)
    requires |rules| == 10
    ensures PatternErrors(code, rules[..10])
         == PatternErrors(code, rules[..6])
            + ErrorAt(code, rules, 6) + ErrorAt(code, rules, 7) + ErrorAt(code, rules, 8) + ErrorAt(code, rules, 9)
  {
    hide Search, Regex, PatternErrors, OneError;
    OneMoreRule(code, rules, 6);
    OneMoreRule(code, rules, 7);
    OneMoreRule(code, rules, 8);
    OneMoreRule(code, rules, 9);
  }

  lemma {:induction false} NoRules(code: string)
    ensures PatternErrors(code, []) == []
  {
  }

  /** What the validator reports: a message for each forbidden word or shape in the text, that a write has no
      placeholder, and the references whose table is known and whose column is not. */
  lemma {:induction false} ReportsExactly(code: string, tables: seq<Table>)
    ensures Errors(code, tables) == ForbiddenErrors(code)
                                    + (if HasWrite(code) && !HasPlaceholder(code) then [NotParameterized] else [])
                                    + RefErrors(Refs(code), tables)
  {
    hide Dangerous, Search, Refs, RefErrors, PatternErrors, ForbiddenErrors, HasWrite, HasPlaceholder;
    DangerousErrors(code);
    WriteFinds(code);
    PlaceholderIs(code);
  }

  lemma {:induction false} PlaceholderIs(code: string)
    ensures Search(Placeholder, code) <==> HasPlaceholder(code)
  {
    hide Search;
    PlaceholderFinds(code);
  }

  lemma {:induction false} HarmlessIff(code: string)
    ensures ForbiddenErrors(code) == [] <==> Harmless(code)
  {
    hide HasWord, HasCopyFrom, HasComment, HasTautology, HasQuotedTautology;
  }

  /** A statement passes exactly when none of the forbidden words and shapes stands in it, it uses a placeholder if it
      writes, and every reference to a known table names one of its columns. */
  lemma {:induction false} PassesExactly(code: string, tables: seq<Table>)
    ensures Passes(code, tables) <==>
            && Harmless(code) && (HasWrite(code) ==> HasPlaceholder(code))
            && (forall ref | ref in Refs(code) :: ColumnKnown(ref, tables))
  {
    hide Errors, Refs, RefErrors, RefAllowed, ColumnKnown, ForbiddenErrors, Harmless, HasWrite, HasPlaceholder;
    ReportsExactly(code, tables);
    HarmlessIff(code);
    NoRefErrors(Refs(code), tables);
    forall ref ensures RefAllowed(ref, tables) <==> ColumnKnown(ref, tables) {
      AllowedMeans(ref, tables);
    }
  }

  lemma {:induction false} NoRefErrors(refs: seq<Ref>, tables: seq<Table>)
    ensures RefErrors(refs, tables) == [] <==> forall ref | ref in refs :: RefAllowed(ref, tables)
  {
    if refs != [] {
      var front, last := refs[..|refs| - 1], refs[|refs| - 1];
      NoRefErrors(front, tables);
      assert forall ref :: ref in refs <==> ref in front || ref == last;
      assert RefAllowed(last, tables) <==> RefErrors(refs, tables) == RefErrors(front, tables);
    }
  }

  /** The reports of a list of references are those of its parts, in order. */
  lemma {:induction false} RefErrorsParts(refs: seq<Ref>, more: seq<Ref>, tables: seq<Table>)
    ensures RefErrors(refs + more, tables) == RefErrors(refs, tables) + RefErrors(more, tables)
  {
    hide Allowed, Lower;
    if more == [] {
      assert refs + more == refs;
    } else {
      var n := |more| - 1;
      assert (refs + more)[..|refs + more| - 1] == refs + more[..n];
      RefErrorsParts(refs, more[..n], tables);
    }
  }

  lemma {:induction false} RefErrorIff(refs: seq<Ref>, tables: seq<Table>, ref: Ref, available: set<string>)
    ensures UnknownColumn(ref, available) in RefErrors(refs, tables) <==>
            ref in refs && Allowed(tables, Lower(ref.table)) == Some(available) && Lower(ref.column) !in available
  {
    hide Allowed, Lower;
    if refs != [] {
      var front, last := refs[..|refs| - 1], refs[|refs| - 1];
      RefErrorIff(front, tables, ref, available);
      assert refs == front + [last];
    }
  }

  /** A reference is reported, with the columns that are available, exactly when it is scanned and those are the
      columns of the last table of its name, its own not among them. */
  lemma {:induction false} ReportedColumns(code: string, tables: seq<Table>, ref: Ref, available: set<string>)
    ensures UnknownColumn(ref, available) in Errors(code, tables) <==>
            && ref in Refs(code) && Lower(ref.column) !in available
            && exists i: nat :: LastTable(tables, i, ref.table)
                                && available == set c | c in tables[i].columns :: Lower(c.name)
  {
    hide Allowed, Lower, Refs, Errors, RefErrors, LastTable;
    ErrorsOfRefs(code, tables, ref);
    RefErrorIff(Refs(code), tables, ref, available);
    AllowedIs(tables, ref.table);
  }

  // ---- reflection followed by validation ----

  /** The i-th reflected table is the last one with that name, up to case. */
  predicate LastNamed(c: Catalogue, i: nat, name: string) {
    && i < |c.tables| && Lower(c.tables[i].name) == Lower(name)
    && forall j | i < j < |c.tables| :: Lower(c.tables[j].name) != Lower(name)
  }

  lemma {:induction false} AllowedInGraph(c: Catalogue, i: nat, n: nat, name: string)
    requires LastNamed(c, i, name) && i < n <= |c.tables|
    ensures Allowed(GraphOf(c).tables[..n], Lower(name))
            == Some(ColumnNames(ColumnsOf(c.columns, KeySet(c.primaryKeys), c.foreignKeys, c.tables[i].name)))
    decreases n
  {
    hide ColumnsOf, ColumnNames, Lower, IndexesOf;
    var gs := GraphOf(c).tables;
    assert gs[..n][..n - 1] == gs[..n - 1];
    assert gs[..n][n - 1] == TableOf(c, c.tables[n - 1]);
    if i < n - 1 {
      AllowedInGraph(c, i, n - 1, name);
    }
  }

  /** A scanned reference is reported exactly when the last table reflected under its name has no catalogue
      row for the column, up to case. */
  lemma {:induction false} LastTableDecides(c: Catalogue, code: string, ref: Ref, i: nat)
    requires LastNamed(c, i, ref.table) && ref in Refs(code)
    ensures (exists a :: UnknownColumn(ref, a) in Errors(code, GraphOf(c).tables)) <==>
            !exists r :: r in c.columns && r.table == c.tables[i].name && Lower(r.column) == Lower(ref.column)
  {
    hide Dangerous, Search, Refs, ColumnNames, Errors, RefErrors, ColumnsOf;
    var gs := GraphOf(c).tables;
    AllowedInGraph(c, i, |c.tables|, ref.table);
    assert gs[..|c.tables|] == gs;
    RefErrorsMeaning(Refs(code), gs, ref);
    ErrorsOfRefs(code, gs, ref);
    NamesFromRows(c.columns, KeySet(c.primaryKeys), c.foreignKeys, c.tables[i].name, Lower(ref.column));
  }

  /** No two reflected tables have names that differ in case only. */
  ghost predicate CaseDistinct(tables: seq<TableRow>) {
    forall x, y | x in tables && y in tables && Lower(x.name) == Lower(y.name) :: x.name == y.name
  }

  lemma {:induction false} LastNamedExists(c: Catalogue, i: nat, name: string) returns (last: nat)
    requires i < |c.tables| && Lower(c.tables[i].name) == Lower(name)
    ensures LastNamed(c, last, name)
    decreases |c.tables| - i
  {
    hide Lower;
    if j: nat :| i < j < |c.tables| && Lower(c.tables[j].name) == Lower(name) {
      last := LastNamedExists(c, j, name);
    } else {
      last := i;
    }
  }

  /** So where table names are distinct up to case, a reference to a reflected table is reported exactly when
      that table has no such column. */
  lemma {:induction false} ReflectThenValidate(c: Catalogue, code: string, ref: Ref, table: TableRow)
    requires CaseDistinct(c.tables) && table in c.tables && Lower(table.name) == Lower(ref.table) && ref in Refs(code)
    ensures (exists a :: UnknownColumn(ref, a) in Errors(code, GraphOf(c).tables)) <==>
            !exists r :: r in c.columns && r.table == table.name && Lower(r.column) == Lower(ref.column)
  {
    hide Dangerous, Search, Refs, Errors, GraphOf, Lower;
    var i: nat :| i < |c.tables| && c.tables[i] == table;
    var last := LastNamedExists(c, i, ref.table);
    assert c.tables[last] in c.tables;
    LastTableDecides(c, code, ref, last);
  }

  lemma {:induction false} ErrorsOfRefs(code: string, tables: seq<Table>, ref: Ref)
    ensures forall a :: UnknownColumn(ref, a) in Errors(code, tables) <==>
            UnknownColumn(ref, a) in RefErrors(Refs(code), tables)
  {
    hide Dangerous, Search, Refs;
    PatternErrorsForbidden(code, Dangerous());
  }

  lemma {:induction false} PatternErrorsForbidden(code: string, rules: seq<Rule>)
    ensures forall e | e in PatternErrors(code, rules) :: e.Forbidden?
  {
    if rules != [] {
      PatternErrorsForbidden(code, rules[..|rules| - 1]);
    }
  }

  lemma {:induction false} NamesFromRows(rows: seq<ColumnRow>, keys: set<KeyRow>, fks: seq<ForeignRow>, table: string,
                                         lowerColumn: string)
    ensures lowerColumn in ColumnNames(ColumnsOf(rows, keys, fks, table)) <==>
            exists r :: r in rows && r.table == table && Lower(r.column) == lowerColumn
  {
    var cols := ColumnsOf(rows, keys, fks, table);
    var src := ColumnSources(rows, keys, fks, table);
    if lowerColumn in ColumnNames(cols) {
      var c :| c in cols && Lower(c.name) == lowerColumn;
      var i :| 0 <= i < |cols| && cols[i] == c;
      assert rows[src[i]] in rows;
    }
    if r :| r in rows && r.table == table && Lower(r.column) == lowerColumn {
      var k: nat :| k < |rows| && rows[k] == r;
      assert k in src;
      var i :| 0 <= i < |src| && src[i] == k;
      assert cols[i] in cols;
    }
  }
}
