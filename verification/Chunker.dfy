/** Splitting a document into overlapping chunks of paragraphs
    (backend/src/services/rag_ingestion.py, lines 15-29 and 49-80). */
module Chunker {
  import opened Text
  import opened Totals

  const CHUNK_SIZE := 1000
  const MIN_CHUNK_SIZE := 100
  const BLANK_LINE := "\n\n"

  // ---- paragraphs ----

  /** The first blank line at or after `i`, or the end of the string. */
  function FindBlank(s: string, i: nat): (p: nat)
    requires i <= |s|
    ensures i <= p <= |s|
    ensures p < |s| ==> p + 2 <= |s| && s[p] == '\n' && s[p + 1] == '\n'
    ensures forall j | i <= j < p && j + 1 < |s| :: !(s[j] == '\n' && s[j + 1] == '\n')
    decreases |s| - i
  {
    if i + 1 < |s| && s[i] == '\n' && s[i + 1] == '\n' then i
    else if i == |s| then i
    else FindBlank(s, i + 1)
  }

  /** `s.split("\n\n")`. */
  function SplitBlank(s: string): seq<string>
    decreases |s|
  {
    var p := FindBlank(s, 0);
    if p == |s| then [s] else [s[..p]] + SplitBlank(s[p + 2..])
  }

  /** `"\n\n".join(parts)`. */
  function Join(parts: seq<string>): string {
    if parts == [] then ""
    else if |parts| == 1 then parts[0]
    else parts[0] + BLANK_LINE + Join(parts[1..])
  }

  /** The stripped pieces that are not empty. */
  function NonEmpty(pieces: seq<string>): seq<string> {
    if pieces == [] then []
    else
      var last := Strip(pieces[|pieces| - 1]);
      NonEmpty(pieces[..|pieces| - 1]) + if last == "" then [] else [last]
  }

  function Paragraphs(text: string): seq<string> {
    NonEmpty(SplitBlank(text))
  }

  predicate NoBlankLine(s: string) {
    forall j | 0 <= j && j + 1 < |s| :: !(s[j] == '\n' && s[j + 1] == '\n')
  }

  /** What every paragraph is: not empty, no blank line in it, no white space at either end. */
  predicate IsParagraph(s: string) {
    s != "" && NoBlankLine(s) && !IsSpace(s[0]) && !IsSpace(s[|s| - 1])
  }

  ghost predicate AllParagraphs(ps: seq<string>) {
    forall i | 0 <= i < |ps| :: IsParagraph(ps[i])
  }

  ghost predicate NoneEmpty(ps: seq<string>) {
    forall i | 0 <= i < |ps| :: ps[i] != ""
  }

  lemma {:induction false} PiecesHaveNoBlankLine(s: string)
    ensures forall p | p in SplitBlank(s) :: NoBlankLine(p)
    decreases |s|
  {
    var p := FindBlank(s, 0);
    if p < |s| {
      PiecesHaveNoBlankLine(s[p + 2..]);
    }
  }

  lemma {:induction false} StripGivesParagraph(s: string)
    requires NoBlankLine(s)
    ensures Strip(s) == "" || IsParagraph(Strip(s))
    decreases |s|
  {
    if s == "" {
    } else if IsSpace(s[0]) {
      StripGivesParagraph(s[1..]);
    } else if IsSpace(s[|s| - 1]) {
      StripGivesParagraph(s[..|s| - 1]);
    }
  }

  lemma {:induction false} NonEmptyGivesParagraphs(pieces: seq<string>)
    requires forall p | p in pieces :: NoBlankLine(p)
    ensures AllParagraphs(NonEmpty(pieces))
  {
    if pieces != [] {
      NonEmptyGivesParagraphs(pieces[..|pieces| - 1]);
      StripGivesParagraph(pieces[|pieces| - 1]);
    }
  }

  lemma {:induction false} ParagraphsAreParagraphs(text: string)
    ensures AllParagraphs(Paragraphs(text))
  {
    PiecesHaveNoBlankLine(text);
    NonEmptyGivesParagraphs(SplitBlank(text));
  }

  lemma {:induction false} FindBlankAfterParagraph(p: string, rest: string)
    requires IsParagraph(p)
    ensures FindBlank(p + BLANK_LINE + rest, 0) == |p|
  {
    var s := p + BLANK_LINE + rest;
    assert s[|p|] == '\n' && s[|p| + 1] == '\n';
    assert forall j | 0 <= j < |p| :: s[j] == p[j];
    assert p[|p| - 1] != '\n';
  }

  lemma {:induction false} SplitCons(p: string, rest: string)
    requires IsParagraph(p)
    ensures SplitBlank(p + BLANK_LINE + rest) == [p] + SplitBlank(rest)
  {
    var s := p + BLANK_LINE + rest;
    FindBlankAfterParagraph(p, rest);
    assert s[..|p|] == p && s[|p| + 2..] == rest;
  }

  lemma {:induction false} SplitOne(p: string)
    requires IsParagraph(p)
    ensures SplitBlank(p) == [p]
  {
    var q := FindBlank(p, 0);
    assert NoBlankLine(p);
  }

  /** Splitting a join of paragraphs on blank lines gives the paragraphs back. */
  lemma {:induction false} SplitJoin(ps: seq<string>)
    requires ps != [] && AllParagraphs(ps)
    ensures SplitBlank(Join(ps)) == ps
  {
    var p := ps[0];
    if |ps| == 1 {
      SplitOne(p);
    } else {
      SplitCons(p, Join(ps[1..]));
      SplitJoin(ps[1..]);
    }
  }

  function Concat(parts: seq<string>): string {
    if parts == [] then "" else Concat(parts[..|parts| - 1]) + parts[|parts| - 1]
  }

  lemma {:induction false} ConcatCons(part: string, rest: seq<string>)
    ensures Concat([part] + rest) == part + Concat(rest)
  {
    if rest == [] {
      assert [part] + rest == [part] && [part][..0] == [];
      assert Concat([]) == "";
    } else {
      var n := |rest| - 1;
      assert ([part] + rest)[..|[part] + rest| - 1] == [part] + rest[..n];
      ConcatCons(part, rest[..n]);
    }
  }

  lemma {:induction false} BlankLineInvisible(a: string, b: string)
    ensures Visible(a + BLANK_LINE + b) == Visible(a) + Visible(b)
  {
    hide Visible;
    VisibleParts(a + BLANK_LINE, b);
    VisibleParts(a, BLANK_LINE);
    BlankIsInvisible(BLANK_LINE);
  }

  lemma {:induction false} SplitStep(s: string)
    ensures var p := FindBlank(s, 0);
            if p == |s| then SplitBlank(s) == [s]
            else
              && p + 2 <= |s| && SplitBlank(s) == [s[..p]] + SplitBlank(s[p + 2..])
              && s == s[..p] + BLANK_LINE + s[p + 2..]
  {
  }

  lemma {:induction false} SplitKeepsVisible(s: string)
    ensures Visible(Concat(SplitBlank(s))) == Visible(s)
    decreases |s|
  {
    hide Visible, SplitBlank, Concat, FindBlank;
    SplitStep(s);
    var p := FindBlank(s, 0);
    if p == |s| {
      ConcatOne(s);
    } else {
      var rest := s[p + 2..];
      SplitKeepsVisible(rest);
      ConcatCons(s[..p], SplitBlank(rest));
      VisibleParts(s[..p], Concat(SplitBlank(rest)));
      BlankLineInvisible(s[..p], rest);
    }
  }

  lemma {:induction false} ConcatOne(part: string)
    ensures Concat([part]) == part
  {
    assert [part][..0] == [] && Concat([]) == "";
  }

  lemma {:induction false} NonEmptyKeepsVisible(pieces: seq<string>)
    ensures Visible(Concat(NonEmpty(pieces))) == Visible(Concat(pieces))
  {
    hide Visible, Strip;
    if pieces != [] {
      var front, last := pieces[..|pieces| - 1], pieces[|pieces| - 1];
      var kept := NonEmpty(front);
      NonEmptyKeepsVisible(front);
      StripKeepsVisible(last);
      VisibleParts(Concat(front), last);
      if Strip(last) == "" {
        BlankIsInvisible("");
        assert NonEmpty(pieces) == kept + [] == kept;
      } else {
        assert (kept + [Strip(last)])[..|kept|] == kept;
        VisibleParts(Concat(kept), Strip(last));
      }
    }
  }

  /** Finding the paragraphs loses nothing but white space: their characters are those of the text, in order. */
  lemma {:induction false} ParagraphsHoldText(text: string)
    ensures Visible(Concat(Paragraphs(text))) == Visible(text)
  {
    hide Visible;
    SplitKeepsVisible(text);
    NonEmptyKeepsVisible(SplitBlank(text));
  }

  lemma {:induction false} ParagraphsStay(ps: seq<string>)
    requires AllParagraphs(ps)
    ensures NonEmpty(ps) == ps
  {
    if ps != [] {
      ParagraphsStay(ps[..|ps| - 1]);
      assert Strip(ps[|ps| - 1]) == ps[|ps| - 1];
    }
  }

  /** The paragraphs of paragraphs joined by blank lines are those paragraphs. */
  lemma {:induction false} ParagraphsOfJoin(ps: seq<string>)
    requires ps != [] && AllParagraphs(ps)
    ensures Paragraphs(Join(ps)) == ps
  {
    SplitJoin(ps);
    ParagraphsStay(ps);
  }

  lemma {:induction false} JoinTwo(a: seq<string>, b: seq<string>)
    requires a != [] && b != []
    ensures Join(a + b) == Join(a) + BLANK_LINE + Join(b)
  {
    if |a| == 1 {
      assert (a + b)[1..] == b;
    } else {
      assert (a + b)[1..] == a[1..] + b;
      JoinTwo(a[1..], b);
    }
  }

  // ---- the accumulator loop ----

  datatype Acc = Acc(chunks: seq<string>, current: seq<string>, tokens: nat)

  function Overlap(current: seq<string>): string {
    if |current| >= 2 then Join(current[|current| - 2..]) else ""
  }

  function Flush(est: string -> nat, acc: Acc): Acc {
    var overlap := Overlap(acc.current);
    Acc(acc.chunks + [Join(acc.current)],
        if overlap != "" then [overlap] else [],
        if overlap != "" then est(overlap) else 0)
  }

  function Step(est: string -> nat, size: nat, acc: Acc, para: string): Acc {
    var a := if acc.tokens + est(para) > size && acc.current != [] then Flush(est, acc) else acc;
    Acc(a.chunks, a.current + [para], a.tokens + est(para))
  }

  /** The accumulator after the first `n` paragraphs. */
  function Run(est: string -> nat, size: nat, ps: seq<string>, n: nat): Acc
    requires n <= |ps|
  {
    if n == 0 then Acc([], [], 0) else Step(est, size, Run(est, size, ps, n - 1), ps[n - 1])
  }

  /** All chunks, before the small ones are dropped. */
  function AllChunks(est: string -> nat, size: nat, ps: seq<string>): seq<string> {
    var acc := Run(est, size, ps, |ps|);
    acc.chunks + if acc.current != [] then [Join(acc.current)] else []
  }

  function LargeOnly(est: string -> nat, chunks: seq<string>): seq<string> {
    if chunks == [] then []
    else
      var last := chunks[|chunks| - 1];
      LargeOnly(est, chunks[..|chunks| - 1]) + if est(last) >= MIN_CHUNK_SIZE then [last] else []
  }

  /** Where the chunks that are kept come from: all positions whose estimate is at least 100, in order. */
  lemma {:induction false} LargeSources(est: string -> nat, chunks: seq<string>) returns (src: seq<nat>)
    ensures |src| == |LargeOnly(est, chunks)|
    ensures forall i | 0 <= i < |src| ::
              src[i] < |chunks| && est(chunks[src[i]]) >= 100 && LargeOnly(est, chunks)[i] == chunks[src[i]]
    ensures forall i, j | 0 <= i < j < |src| :: src[i] < src[j]
    ensures forall k: nat | k < |chunks| && est(chunks[k]) >= 100 :: k in src
  {
    if chunks == [] {
      src := [];
    } else {
      var n := |chunks| - 1;
      src := LargeSources(est, chunks[..n]);
      assert chunks == chunks[..n] + [chunks[n]];
      if est(chunks[n]) >= MIN_CHUNK_SIZE {
        assert n in [n];
        src := src + [n];
      }
    }
  }

  method ChunkText(est: string -> nat, text: string, chunkSize: nat := CHUNK_SIZE) returns (r: seq<string>)
    ensures r == LargeOnly(est, AllChunks(est, chunkSize, Paragraphs(text)))
  {
    var chunks := Pack(est, chunkSize, Paragraphs(text));
    r := [];
    for i := 0 to |chunks|
      invariant r == LargeOnly(est, chunks[..i])
    {
      assert chunks[..i + 1][..i] == chunks[..i];
      if est(chunks[i]) >= MIN_CHUNK_SIZE {
        r := r + [chunks[i]];
      }
    }
    assert chunks[..|chunks|] == chunks;
  }

  /** One round of the loop. */
  method AddParagraph(est: string -> nat, chunkSize: nat, chunks0: seq<string>, currentChunk0: seq<string>,
                      currentTokens0: nat, para: string)
    returns (chunks: seq<string>, currentChunk: seq<string>, currentTokens: nat)
    ensures Acc(chunks, currentChunk, currentTokens)
         == Step(est, chunkSize, Acc(chunks0, currentChunk0, currentTokens0), para)
  {
    chunks, currentChunk, currentTokens := chunks0, currentChunk0, currentTokens0;
    var paraTokens := est(para);
    if currentTokens + paraTokens > chunkSize && currentChunk != [] {
      chunks := chunks + [Join(currentChunk)];
      var overlapText := if |currentChunk| >= 2 then Join(currentChunk[|currentChunk| - 2..]) else "";
      currentChunk := if overlapText != "" then [overlapText] else [];
      currentTokens := if overlapText != "" then est(overlapText) else 0;
    }
    currentChunk := currentChunk + [para];
    currentTokens := currentTokens + paraTokens;
  }

  method Pack(est: string -> nat, chunkSize: nat, paragraphs: seq<string>) returns (chunks: seq<string>)
    ensures chunks == AllChunks(est, chunkSize, paragraphs)
  {
    chunks := [];
    var currentChunk: seq<string>, currentTokens: nat := [], 0;
    for i := 0 to |paragraphs|
      invariant Run(est, chunkSize, paragraphs, i) == Acc(chunks, currentChunk, currentTokens)
    {
      chunks, currentChunk, currentTokens :=
        AddParagraph(est, chunkSize, chunks, currentChunk, currentTokens, paragraphs[i]);
    }
    if currentChunk != [] {
      chunks := chunks + [Join(currentChunk)];
    }
  }

  // ---- every chunk is a window of paragraphs ----

  /** Paragraphs `lo` up to but not including `hi`. */
  datatype Window = Window(lo: nat, hi: nat)

  /** The first window starts at 0; every other starts inside or right after the one before it, no
      earlier than it, and ends later. */
  predicate WindowAt(ws: seq<Window>, i: nat)
    requires i < |ws|
  {
    && ws[i].lo < ws[i].hi
    && if i == 0 then ws[i].lo == 0 else ws[i - 1].lo <= ws[i].lo <= ws[i - 1].hi < ws[i].hi
  }

  ghost predicate Chained(ws: seq<Window>) {
    forall i: nat | i < |ws| :: WindowAt(ws, i)
  }

  lemma {:induction false} ChainedMore(ws: seq<Window>, w: Window)
    requires Chained(ws) && w.lo < w.hi
    requires if ws == [] then w.lo == 0 else ws[|ws| - 1].lo <= w.lo <= ws[|ws| - 1].hi < w.hi
    ensures Chained(ws + [w])
  {
    assert WindowAt(ws + [w], |ws|);
    forall i: nat | i < |ws| ensures WindowAt(ws + [w], i) {
      assert WindowAt(ws, i);
    }
  }

  ghost predicate Covered(ps: seq<string>, chunk: string, w: Window) {
    w.lo < w.hi <= |ps| && chunk == Join(ps[w.lo..w.hi])
  }

  ghost predicate Covers(ps: seq<string>, chunks: seq<string>, ws: seq<Window>) {
    && |ws| == |chunks|
    && forall i | 0 <= i < |ws| :: Covered(ps, chunks[i], ws[i])
  }

  /** Element `i` of the accumulator is the join of paragraphs `starts[i]` to `starts[i + 1]`. */
  ghost predicate ElementAt(ps: seq<string>, current: seq<string>, starts: seq<nat>, i: nat)
    requires i < |current| && |starts| == |current| + 1
  {
    Covered(ps, current[i], Window(starts[i], starts[i + 1]))
  }

  /** The accumulator's elements hold the paragraphs `starts[0]` up to but not including `n`. */
  ghost predicate Elements(ps: seq<string>, n: nat, current: seq<string>, starts: seq<nat>) {
    && |starts| == |current| + 1
    && (forall i: nat | i < |current| :: ElementAt(ps, current, starts, i))
    && starts[|current|] == n <= |ps|
  }

  lemma {:induction false} ElementsTail(ps: seq<string>, n: nat, current: seq<string>, starts: seq<nat>, m: nat)
    requires Elements(ps, n, current, starts) && m <= |current|
    ensures Elements(ps, n, current[m..], starts[m..])
  {
    forall i: nat | i < |current[m..]| ensures ElementAt(ps, current[m..], starts[m..], i) {
      assert ElementAt(ps, current, starts, m + i);
    }
  }

  lemma {:induction false} JoinElements(ps: seq<string>, n: nat, current: seq<string>, starts: seq<nat>)
    requires Elements(ps, n, current, starts) && current != []
    ensures Covered(ps, Join(current), Window(starts[0], n))
  {
    assert ElementAt(ps, current, starts, 0);
    if |current| > 1 {
      ElementsTail(ps, n, current, starts, 1);
      JoinElements(ps, n, current[1..], starts[1..]);
      var a, b := ps[starts[0]..starts[1]], ps[starts[1]..n];
      assert ps[starts[0]..n] == a + b;
      JoinTwo(a, b);
    }
  }

  lemma {:induction false} StartsIncrease(ps: seq<string>, n: nat, current: seq<string>, starts: seq<nat>, m: nat)
    requires Elements(ps, n, current, starts) && m < |current|
    ensures starts[0] <= starts[m]
  {
    if m > 0 {
      StartsIncrease(ps, n, current, starts, m - 1);
      assert ElementAt(ps, current, starts, m - 1);
    }
  }

  lemma {:induction false} JoinNotEmpty(ps: seq<string>)
    requires ps != [] && NoneEmpty(ps)
    ensures Join(ps) != ""
  {
    assert ps[0] != "";
  }

  lemma {:induction false} CoveredNotEmpty(ps: seq<string>, chunk: string, w: Window)
    requires NoneEmpty(ps) && Covered(ps, chunk, w)
    ensures chunk != ""
  {
    JoinNotEmpty(ps[w.lo..w.hi]);
  }

  /** The invariant of the loop: the windows of the chunks and of the accumulator's elements. */
  ghost predicate LoopInv(ps: seq<string>, n: nat, acc: Acc, ws: seq<Window>, starts: seq<nat>) {
    && Chained(ws) && Covers(ps, acc.chunks, ws) && Elements(ps, n, acc.current, starts)
    && (ws == [] ==> starts[0] == 0)
    && (ws != [] ==> ws[|ws| - 1].lo <= starts[0] <= ws[|ws| - 1].hi <= n)
  }

  /** Paragraph `n - 1` made the loop flush. */
  predicate Flushed(est: string -> nat, size: nat, ps: seq<string>, n: nat)
    requires 0 < n <= |ps|
  {
    Run(est, size, ps, n - 1).tokens + est(ps[n - 1]) > size && Run(est, size, ps, n - 1).current != []
  }

  /** Where the loop flushed within the first `n` paragraphs: how many it had taken by then. */
  function FlushPoints(est: string -> nat, size: nat, ps: seq<string>, n: nat): seq<nat>
    requires n <= |ps|
  {
    if n == 0 then []
    else if Flushed(est, size, ps, n) then FlushPoints(est, size, ps, n - 1) + [n - 1]
    else FlushPoints(est, size, ps, n - 1)
  }

  /** The start `lo` of the window after `w`, by the number of elements that the flush at the end of `w` found:
      right after `w` for one, the start of `w` for two, and two paragraphs back for more. */
  predicate StepAt(est: string -> nat, size: nat, ps: seq<string>, w: Window, lo: nat) {
    && w.hi <= |ps|
    && var m := |Run(est, size, ps, w.hi).current|;
    && 1 <= m && w.lo + m <= w.hi
    && lo == if m == 1 then w.hi else if m == 2 then w.lo else w.hi - 2
  }

  /** Every window but the last starts where `StepAt` says, and so does the accumulator, at `lo`. */
  ghost predicate Steps(est: string -> nat, size: nat, ps: seq<string>, ws: seq<Window>, lo: nat) {
    && (forall i: nat | i + 1 < |ws| :: StepAt(est, size, ps, ws[i], ws[i + 1].lo))
    && (ws != [] ==> StepAt(est, size, ps, ws[|ws| - 1], lo))
  }

  /** Every element of the accumulator but the first is a single paragraph. */
  predicate Singles(n: nat, starts: seq<nat>) {
    forall k | 1 <= k < |starts| :: starts[k] + (|starts| - 1 - k) == n
  }

  /** The windows end where the loop flushed. */
  predicate EndAt(ws: seq<Window>, ends: seq<nat>) {
    |ws| == |ends| && forall i | 0 <= i < |ws| :: ws[i].hi == ends[i]
  }

  /** The whole invariant of the loop. */
  ghost predicate WindowInv(est: string -> nat, size: nat, ps: seq<string>, n: nat, acc: Acc, ws: seq<Window>,
                            starts: seq<nat>)
  {
    && LoopInv(ps, n, acc, ws, starts) && Singles(n, starts) && Steps(est, size, ps, ws, starts[0])
  }

  lemma {:induction false} RunWindows(est: string -> nat, size: nat, ps: seq<string>, n: nat)
    returns (ws: seq<Window>, starts: seq<nat>)
    requires NoneEmpty(ps) && n <= |ps|
    ensures n > 0 ==> Run(est, size, ps, n).current != []
    ensures ws != [] ==> ws[|ws| - 1].hi < n
    ensures EndAt(ws, FlushPoints(est, size, ps, n))
    ensures WindowInv(est, size, ps, n, Run(est, size, ps, n), ws, starts)
  {
    hide WindowInv, EndAt, Flush;
    if n == 0 {
      ws, starts := [], [0];
      NoWindows(est, size, ps);
    } else {
      var acc := Run(est, size, ps, n - 1);
      ws, starts := RunWindows(est, size, ps, n - 1);
      if Flushed(est, size, ps, n) {
        ws, starts := FlushAll(est, size, ps, n - 1, ws, starts);
        acc := Flush(est, acc);
      }
      AppendAll(est, size, ps, n, acc, Run(est, size, ps, n), ws, starts);
      starts := starts + [n];
    }
  }

  lemma {:induction false} FlushAll(est: string -> nat, size: nat, ps: seq<string>, n: nat, ws: seq<Window>,
                                    starts: seq<nat>)
    returns (ws': seq<Window>, starts': seq<nat>)
    requires NoneEmpty(ps) && n < |ps| && Flushed(est, size, ps, n + 1)
    requires WindowInv(est, size, ps, n, Run(est, size, ps, n), ws, starts) && EndAt(ws, FlushPoints(est, size, ps, n))
    requires ws != [] ==> ws[|ws| - 1].hi < n
    ensures WindowInv(est, size, ps, n, Flush(est, Run(est, size, ps, n)), ws', starts')
    ensures EndAt(ws', FlushPoints(est, size, ps, n + 1)) && ws' != [] && ws'[|ws'| - 1].hi == n
  {
    hide Run, Steps, Singles, Flush, LoopInv;
    ws', starts' := FlushWindows(est, ps, n, Run(est, size, ps, n), ws, starts);
    FlushSteps(est, size, ps, n, Run(est, size, ps, n), ws, starts, ws', starts');
  }

  lemma {:induction false} AppendAll(est: string -> nat, size: nat, ps: seq<string>, n: nat, acc: Acc, acc': Acc,
                                     ws: seq<Window>, starts: seq<nat>)
    requires 0 < n <= |ps| && WindowInv(est, size, ps, n - 1, acc, ws, starts)
    requires acc'.chunks == acc.chunks && acc'.current == acc.current + [ps[n - 1]]
    ensures WindowInv(est, size, ps, n, acc', ws, starts + [n])
  {
    hide Steps, Singles, LoopInv;
    StartsLength(ps, n - 1, acc, ws, starts);
    AppendWindows(ps, n, acc, acc', ws, starts);
    AppendSingles(n, starts);
  }

  lemma {:induction false} NoWindows(est: string -> nat, size: nat, ps: seq<string>)
    ensures WindowInv(est, size, ps, 0, Run(est, size, ps, 0), [], [0]) && EndAt([], FlushPoints(est, size, ps, 0))
  {
  }

  lemma {:induction false} StartsLength(ps: seq<string>, n: nat, acc: Acc, ws: seq<Window>, starts: seq<nat>)
    requires LoopInv(ps, n, acc, ws, starts)
    ensures |starts| == |acc.current| + 1 && starts[|acc.current|] == n <= |ps|
  {
  }

  lemma {:induction false} AppendSingles(n: nat, starts: seq<nat>)
    requires n > 0 && Singles(n - 1, starts) && starts != []
    requires starts[|starts| - 1] == n - 1
    ensures Singles(n, starts + [n])
  {
  }

  lemma {:induction false} FlushSteps(est: string -> nat, size: nat, ps: seq<string>, n: nat, acc: Acc,
                                      ws: seq<Window>, starts: seq<nat>, ws': seq<Window>, starts': seq<nat>)
    requires n < |ps| && acc == Run(est, size, ps, n) && acc.current != []
    requires LoopInv(ps, n, acc, ws, starts) && Singles(n, starts) && Steps(est, size, ps, ws, starts[0])
    requires ws' == ws + [Window(starts[0], n)]
    requires starts' == if |acc.current| >= 2 then [starts[|acc.current| - 2], n] else [n]
    ensures Singles(n, starts') && Steps(est, size, ps, ws', starts'[0])
  {
    hide Run, Covers, Chained;
    assert ElementAt(ps, acc.current, starts, 0);
    assert StepAt(est, size, ps, Window(starts[0], n), starts'[0]);
    forall i: nat | i + 1 < |ws'| ensures StepAt(est, size, ps, ws'[i], ws'[i + 1].lo) {
      if i + 1 < |ws| {
        assert StepAt(est, size, ps, ws[i], ws[i + 1].lo);
      }
    }
  }

  lemma {:induction false} AppendWindows(ps: seq<string>, n: nat, acc: Acc, acc': Acc, ws: seq<Window>,
                                         starts: seq<nat>)
    requires 0 < n <= |ps| && LoopInv(ps, n - 1, acc, ws, starts)
    requires acc'.chunks == acc.chunks && acc'.current == acc.current + [ps[n - 1]]
    ensures LoopInv(ps, n, acc', ws, starts + [n])
  {
    var starts' := starts + [n];
    assert ps[n - 1..n] == [ps[n - 1]];
    forall i: nat | i < |acc'.current| ensures ElementAt(ps, acc'.current, starts', i) {
      if i < |acc.current| {
        assert ElementAt(ps, acc.current, starts, i);
      }
    }
  }

  lemma {:induction false} FlushWindows(est: string -> nat, ps: seq<string>, n: nat, acc: Acc, ws: seq<Window>,
                                        starts: seq<nat>)
    returns (ws': seq<Window>, starts': seq<nat>)
    requires NoneEmpty(ps)
    requires LoopInv(ps, n, acc, ws, starts) && acc.current != []
    requires ws != [] ==> ws[|ws| - 1].hi < n
    ensures LoopInv(ps, n, Flush(est, acc), ws', starts')
    ensures |starts| == |acc.current| + 1 && ws' == ws + [Window(starts[0], n)]
    ensures starts' == if |acc.current| >= 2 then [starts[|acc.current| - 2], n] else [n]
  {
    JoinElements(ps, n, acc.current, starts);
    ws' := ws + [Window(starts[0], n)];
    ChainedMore(ws, Window(starts[0], n));
    var m := |acc.current|;
    if m >= 2 {
      ElementsTail(ps, n, acc.current, starts, m - 2);
      JoinElements(ps, n, acc.current[m - 2..], starts[m - 2..]);
      StartsIncrease(ps, n, acc.current, starts, m - 2);
      CoveredNotEmpty(ps, Join(acc.current[m - 2..]), Window(starts[m - 2], n));
      starts' := [starts[m - 2], n];
      assert ElementAt(ps, Flush(est, acc).current, starts', 0);
    } else {
      starts' := [n];
    }
  }

  /** The chunks are joins of windows of paragraphs that start at the first paragraph, end at the
      last, have increasing ends and non-decreasing starts, and leave no gap. All but the last end where the
      loop flushed, and each next one starts where `StepAt` says. */
  lemma {:induction false} ChunkWindows(est: string -> nat, size: nat, ps: seq<string>) returns (ws: seq<Window>)
    requires NoneEmpty(ps)
    ensures Chained(ws) && Covers(ps, AllChunks(est, size, ps), ws)
    ensures if ps == [] then ws == [] else ws != [] && ws[|ws| - 1].hi == |ps|
    ensures Flows(est, size, ps, ws)
  {
    hide Run, Steps, Singles;
    var starts;
    ws, starts := RunWindows(est, size, ps, |ps|);
    if ps != [] {
      JoinElements(ps, |ps|, Run(est, size, ps, |ps|).current, starts);
      ChainedMore(ws, Window(starts[0], |ps|));
      FlowsMore(est, size, ps, ws, starts[0]);
      ws := ws + [Window(starts[0], |ps|)];
    } else {
      NoChunks(est, size);
    }
  }

  lemma {:induction false} NoChunks(est: string -> nat, size: nat)
    ensures AllChunks(est, size, []) == []
  {
  }

  ghost predicate Flows(est: string -> nat, size: nat, ps: seq<string>, ws: seq<Window>) {
    && (ps != [] ==> |ws| > 0 && EndAt(ws[..|ws| - 1], FlushPoints(est, size, ps, |ps|)))
    && (forall i: nat | i + 1 < |ws| :: StepAt(est, size, ps, ws[i], ws[i + 1].lo))
  }

  lemma {:induction false} FlowsMore(est: string -> nat, size: nat, ps: seq<string>, ws: seq<Window>, lo: nat)
    requires Steps(est, size, ps, ws, lo) && EndAt(ws, FlushPoints(est, size, ps, |ps|))
    ensures Flows(est, size, ps, ws + [Window(lo, |ps|)])
  {
    hide StepAt, FlushPoints;
    var ws' := ws + [Window(lo, |ps|)];
    assert ws'[..|ws|] == ws;
    forall i: nat | i + 1 < |ws'| ensures StepAt(est, size, ps, ws'[i], ws'[i + 1].lo) {
      if i + 1 < |ws| {
        assert StepAt(est, size, ps, ws[i], ws[i + 1].lo);
      }
    }
  }

  // ---- exactly what is carried over ----

  /** Paragraph `n` makes the loop flush exactly two elements. */
  predicate FlushesTwo(est: string -> nat, size: nat, ps: seq<string>, n: nat)
    requires n < |ps|
  {
    Flushed(est, size, ps, n + 1) && |Run(est, size, ps, n).current| == 2
  }

  /** What the flush after window `i` carries over, by the number of elements it found: nothing for one, the
      whole window for two; and exactly two paragraphs for three or more, or for two that are paragraphs. */
  predicate OverlapAt(est: string -> nat, size: nat, ps: seq<string>, ws: seq<Window>, i: nat)
    requires i + 1 < |ws| && ws[i].hi <= |ps|
  {
    var m, w, next := |Run(est, size, ps, ws[i].hi).current|, ws[i], ws[i + 1];
    && (next.lo == w.hi <==> m == 1)
    && (next.lo == w.lo <==> m == 2)
    && (w.hi - next.lo == 2 <==> m >= 3 || (m == 2 && w.hi - w.lo == 2))
  }

  /** Window `i + 1` starts after window `i` does. */
  predicate StartsLater(ws: seq<Window>, i: nat)
    requires i + 1 < |ws|
  {
    ws[i].lo < ws[i + 1].lo
  }

  ghost predicate AllStartLater(ws: seq<Window>) {
    forall i: nat | i + 1 < |ws| :: StartsLater(ws, i)
  }

  ghost predicate NeverFlushesTwo(est: string -> nat, size: nat, ps: seq<string>) {
    forall n: nat | n < |ps| :: !FlushesTwo(est, size, ps, n)
  }

  ghost predicate AllOverlaps(est: string -> nat, size: nat, ps: seq<string>, ws: seq<Window>) {
    forall i: nat | i + 1 < |ws| :: ws[i].hi <= |ps| && OverlapAt(est, size, ps, ws, i)
  }

  /** What is carried over is what `OverlapAt` says, and every window starts after the one before it exactly when
      no flush finds two elements, for every estimator, budget and document. */
  lemma {:induction false} OverlapExactly(est: string -> nat, size: nat, ps: seq<string>) returns (ws: seq<Window>)
    requires NoneEmpty(ps)
    ensures Chained(ws) && Covers(ps, AllChunks(est, size, ps), ws)
    ensures AllOverlaps(est, size, ps, ws)
    ensures AllStartLater(ws) <==> NeverFlushesTwo(est, size, ps)
  {
    hide Run, AllChunks, Flows, AllOverlaps, AllStartLater, NeverFlushesTwo, Chained, Covers;
    ws := ChunkWindows(est, size, ps);
    FlowsOverlap(est, size, ps, ws);
    if AllStartLater(ws) {
      LaterThenNever(est, size, ps, ws);
    }
    if NeverFlushesTwo(est, size, ps) {
      NeverThenLater(est, size, ps, ws);
    }
  }

  lemma {:induction false} FlowsOverlap(est: string -> nat, size: nat, ps: seq<string>, ws: seq<Window>)
    requires Flows(est, size, ps, ws)
    ensures AllOverlaps(est, size, ps, ws)
  {
    hide Run, FlushPoints, EndAt;
    forall i: nat | i + 1 < |ws| ensures ws[i].hi <= |ps| && OverlapAt(est, size, ps, ws, i) {
      assert StepAt(est, size, ps, ws[i], ws[i + 1].lo);
    }
  }

  lemma {:induction false} FlushPointsAre(est: string -> nat, size: nat, ps: seq<string>, n: nat, k: nat)
    requires n <= |ps|
    ensures k in FlushPoints(est, size, ps, n) <==> k < n && Flushed(est, size, ps, k + 1)
    decreases n
  {
    hide Run;
    if n > 0 {
      FlushPointsAre(est, size, ps, n - 1, k);
    }
  }

  lemma {:induction false} LaterThenNever(est: string -> nat, size: nat, ps: seq<string>, ws: seq<Window>)
    requires Flows(est, size, ps, ws) && AllStartLater(ws)
    ensures NeverFlushesTwo(est, size, ps)
  {
    hide Run, FlushPoints;
    var ends := FlushPoints(est, size, ps, |ps|);
    forall n: nat | n < |ps| ensures !FlushesTwo(est, size, ps, n) {
      FlushPointsAre(est, size, ps, |ps|, n);
      if Flushed(est, size, ps, n + 1) {
        var i: nat :| i < |ends| && ends[i] == n;
        assert ws[..|ws| - 1][i] == ws[i];
        assert StepAt(est, size, ps, ws[i], ws[i + 1].lo) && StartsLater(ws, i);
      }
    }
  }

  lemma {:induction false} NeverThenLater(est: string -> nat, size: nat, ps: seq<string>, ws: seq<Window>)
    requires Flows(est, size, ps, ws) && (ps == [] ==> ws == []) && NeverFlushesTwo(est, size, ps)
    ensures AllStartLater(ws)
  {
    hide Run, FlushPoints;
    var ends := FlushPoints(est, size, ps, |ps|);
    forall i: nat | i + 1 < |ws| ensures StartsLater(ws, i) {
      assert StepAt(est, size, ps, ws[i], ws[i + 1].lo);
      assert ws[..|ws| - 1][i] == ws[i];
      assert ws[i].hi == ends[i];
      FlushPointsAre(est, size, ps, |ps|, ws[i].hi);
      assert !FlushesTwo(est, size, ps, ws[i].hi);
    }
  }

  function SplitAll(chunks: seq<string>): (r: seq<seq<string>>)
    ensures |r| == |chunks|
    ensures forall i | 0 <= i < |r| :: r[i] == SplitBlank(chunks[i])
  {
    seq(|chunks|, i requires 0 <= i < |chunks| => SplitBlank(chunks[i]))
  }

  /** The parts of the first `n` chunks, without the overlap of each chunk with the one before it. */
  function Rebuild(parts: seq<seq<string>>, ws: seq<Window>, n: nat): seq<string>
    requires n <= |ws| == |parts|
  {
    if n == 0 then [] else Rebuild(parts, ws, n - 1) + NewPart(parts[n - 1], ws, n - 1)
  }

  /** What the chunk of window `n` adds to those before it. */
  function NewPart(parts: seq<string>, ws: seq<Window>, n: nat): seq<string>
    requires n < |ws|
  {
    var before := if n == 0 then 0 else ws[n - 1].hi;
    if 0 <= before - ws[n].lo <= |parts| then parts[before - ws[n].lo..] else []
  }

  ghost predicate PartsOf(ps: seq<string>, parts: seq<seq<string>>, ws: seq<Window>) {
    && |ws| == |parts|
    && forall i | 0 <= i < |ws| :: ws[i].lo < ws[i].hi <= |ps| && parts[i] == ps[ws[i].lo..ws[i].hi]
  }

  lemma {:induction false} PartsLength(ps: seq<string>, parts: seq<seq<string>>, ws: seq<Window>)
    requires PartsOf(ps, parts, ws)
    ensures |ws| == |parts|
  {
  }

  lemma {:induction false} RebuildPrefix(ps: seq<string>, parts: seq<seq<string>>, ws: seq<Window>, n: nat)
    requires Chained(ws) && PartsOf(ps, parts, ws) && n <= |ws|
    ensures Rebuild(parts, ws, n) == ps[..if n == 0 then 0 else ws[n - 1].hi]
  {
    hide NewPart, Chained, PartsOf;
    if n > 0 {
      PartsLength(ps, parts, ws);
      RebuildPrefix(ps, parts, ws, n - 1);
      var mid := NewPartIs(ps, parts, ws, n - 1);
      Prefixes(ps, mid, ws[n - 1].hi);
    }
  }

  lemma {:induction false} Prefixes<T>(s: seq<T>, mid: nat, hi: nat)
    requires mid <= hi <= |s|
    ensures s[..mid] + s[mid..hi] == s[..hi]
  {
  }

  lemma {:induction false} NewPartIs(ps: seq<string>, parts: seq<seq<string>>, ws: seq<Window>, n: nat)
    returns (mid: nat)
    requires Chained(ws) && PartsOf(ps, parts, ws) && n < |ws|
    ensures mid == (if n == 0 then 0 else ws[n - 1].hi) && ws[n].lo <= mid <= ws[n].hi <= |ps|
    ensures NewPart(parts[n], ws, n) == ps[mid..ws[n].hi]
  {
    assert WindowAt(ws, n);
    mid := if n == 0 then 0 else ws[n - 1].hi;
  }

  lemma {:induction false} CoversSplit(ps: seq<string>, chunks: seq<string>, ws: seq<Window>)
    requires AllParagraphs(ps) && Covers(ps, chunks, ws)
    ensures PartsOf(ps, SplitAll(chunks), ws)
  {
    forall i | 0 <= i < |chunks|
      ensures ws[i].lo < ws[i].hi <= |ps| && SplitAll(chunks)[i] == ps[ws[i].lo..ws[i].hi]
    {
      assert Covered(ps, chunks[i], ws[i]);
      SplitJoin(ps[ws[i].lo..ws[i].hi]);
    }
  }

  lemma {:induction false} ParagraphsNotEmpty(ps: seq<string>)
    requires AllParagraphs(ps)
    ensures NoneEmpty(ps)
  {
  }

  /** Chunking loses no paragraph and changes none: each chunk splits into exactly its window, and dropping the
      overlaps rebuilds the paragraphs of the text, which hold all its characters but white space, in order. */
  lemma {:induction false} ChunkingIsLossless(est: string -> nat, size: nat, text: string) returns (ws: seq<Window>)
    ensures Visible(Concat(Paragraphs(text))) == Visible(text)
    ensures var ps, chunks := Paragraphs(text), AllChunks(est, size, Paragraphs(text));
            && Chained(ws) && Covers(ps, chunks, ws) && PartsOf(ps, SplitAll(chunks), ws)
            && Rebuild(SplitAll(chunks), ws, |ws|) == ps
  {
    var ps := Paragraphs(text);
    var chunks := AllChunks(est, size, ps);
    ParagraphsAreParagraphs(text);
    ParagraphsHoldText(text);
    ParagraphsNotEmpty(ps);
    ws := ChunkWindows(est, size, ps);
    CoversSplit(ps, chunks, ws);
    RebuildPrefix(ps, SplitAll(chunks), ws, |ws|);
    assert ps[..|ps|] == ps;
  }

  // ---- the token budget ----

  /** The estimator used when no tokenizer is installed: four characters a token. */
  function QuarterLength(): string -> nat {
    (s: string) => |s| / 4
  }

  function SumTokens(est: string -> nat, parts: seq<string>): nat {
    if parts == [] then 0 else SumTokens(est, parts[..|parts| - 1]) + est(parts[|parts| - 1])
  }

  function TotalChars(parts: seq<string>): nat {
    if parts == [] then 0 else |parts[0]| + TotalChars(parts[1..])
  }

  /** The running count is the sum of the elements' estimates. */
  lemma {:induction false} CountIsSum(est: string -> nat, size: nat, ps: seq<string>, n: nat)
    requires n <= |ps|
    ensures Run(est, size, ps, n).tokens == SumTokens(est, Run(est, size, ps, n).current)
    decreases n
  {
    if n > 0 {
      CountIsSum(est, size, ps, n - 1);
      StepKeepsCount(est, size, Run(est, size, ps, n - 1), ps[n - 1]);
    }
  }

  lemma {:induction false} StepKeepsCount(est: string -> nat, size: nat, acc: Acc, para: string)
    requires acc.tokens == SumTokens(est, acc.current)
    ensures Step(est, size, acc, para).tokens == SumTokens(est, Step(est, size, acc, para).current)
  {
    SumOne(est, Overlap(acc.current));
    SumMore(est, acc.current, para);
    SumMore(est, Flush(est, acc).current, para);
  }

  lemma {:induction false} SumMore(est: string -> nat, parts: seq<string>, part: string)
    ensures SumTokens(est, parts + [part]) == SumTokens(est, parts) + est(part)
  {
    assert (parts + [part])[..|parts|] == parts;
  }

  lemma {:induction false} SumOne(est: string -> nat, part: string)
    ensures SumTokens(est, [part]) == est(part)
  {
    assert SumTokens(est, [part][..0]) == 0;
  }

  /** The count exceeds the budget only on one paragraph, or on one overlap and one paragraph. */
  lemma {:induction false} OverBudgetOnlyAfterFlush(est: string -> nat, size: nat, ps: seq<string>, n: nat)
    requires 0 < n <= |ps| && Run(est, size, ps, n).tokens > size
    ensures || Run(est, size, ps, n).current == [ps[n - 1]]
            || (Flushed(est, size, ps, n)
                && Run(est, size, ps, n).current == [Overlap(Run(est, size, ps, n - 1).current), ps[n - 1]])
  {
  }

  /** Before the budget is used up nothing is flushed. */
  lemma {:induction false} RunFits(est: string -> nat, size: nat, ps: seq<string>, n: nat)
    requires n <= |ps| && (n <= 1 || SumTokens(est, ps[..n]) <= size)
    ensures Run(est, size, ps, n) == Acc([], ps[..n], SumTokens(est, ps[..n]))
    decreases n
  {
    hide Flush, SumTokens;
    NoTokens(est);
    if n > 0 {
      var front := ps[..n - 1];
      assert ps[..n] == front + [ps[n - 1]];
      SumMore(est, front, ps[n - 1]);
      RunFits(est, size, ps, n - 1);
    }
  }

  lemma {:induction false} NoTokens(est: string -> nat)
    ensures SumTokens(est, []) == 0
  {
  }

  lemma {:induction false} ChunksStay(est: string -> nat, size: nat, ps: seq<string>, n: nat, m: nat)
    requires 0 < n <= m <= |ps|
    ensures |Run(est, size, ps, n).chunks| <= |Run(est, size, ps, m).chunks| && Run(est, size, ps, m).current != []
    decreases m
  {
    hide Overlap;
    if n < m {
      ChunksStay(est, size, ps, n, m - 1);
    }
  }

  lemma {:induction false} RunOverflows(est: string -> nat, size: nat, ps: seq<string>, n: nat)
    requires 1 < n <= |ps| && SumTokens(est, ps[..n]) > size
    ensures Run(est, size, ps, n).chunks != []
    decreases n
  {
    hide Overlap;
    assert ps[..n][..n - 1] == ps[..n - 1];
    if n - 1 > 1 && SumTokens(est, ps[..n - 1]) > size {
      RunOverflows(est, size, ps, n - 1);
    } else {
      RunFits(est, size, ps, n - 1);
    }
  }

  /** Paragraphs make one chunk exactly when there is one of them or they fit the budget together. */
  lemma {:induction false} OneChunkExactly(est: string -> nat, size: nat, ps: seq<string>)
    requires ps != []
    ensures |AllChunks(est, size, ps)| == 1 <==> |ps| == 1 || SumTokens(est, ps) <= size
    ensures |ps| == 1 || SumTokens(est, ps) <= size ==> AllChunks(est, size, ps) == [Join(ps)]
  {
    hide Run, SumTokens;
    assert ps[..|ps|] == ps;
    if |ps| == 1 || SumTokens(est, ps) <= size {
      RunFits(est, size, ps, |ps|);
    } else {
      RunOverflows(est, size, ps, |ps|);
      ChunksStay(est, size, ps, |ps|, |ps|);
    }
  }

  lemma {:induction false} JoinLength(parts: seq<string>)
    requires parts != []
    ensures |Join(parts)| == TotalChars(parts) + 2 * (|parts| - 1)
  {
    if |parts| == 1 {
      assert parts[1..] == [];
    } else {
      JoinLength(parts[1..]);
    }
  }

  lemma {:induction false} CharsSplit(a: seq<string>, b: seq<string>)
    ensures TotalChars(a + b) == TotalChars(a) + TotalChars(b)
  {
    if a == [] {
      assert a + b == b;
    } else {
      assert (a + b)[1..] == a[1..] + b;
      CharsSplit(a[1..], b);
    }
  }

  lemma {:induction false} CharsBounds(parts: seq<string>)
    ensures 4 * SumTokens(QuarterLength(), parts) <= TotalChars(parts)
    ensures TotalChars(parts) <= 4 * SumTokens(QuarterLength(), parts) + 3 * |parts|
  {
    if parts != [] {
      var front, last := parts[..|parts| - 1], parts[|parts| - 1];
      CharsBounds(front);
      assert parts == front + [last];
      CharsSplit(front, [last]);
      assert TotalChars([last]) == |last| + TotalChars([last][1..]);
    }
  }

  /** A join of `m` parts is estimated between the sum `R` of the parts' estimates and `R + (5m - 2) / 4`. */
  lemma {:induction false} JoinEstimate(parts: seq<string>)
    requires parts != []
    ensures SumTokens(QuarterLength(), parts) <= QuarterLength()(Join(parts))
                                              <= SumTokens(QuarterLength(), parts) + (5 * |parts| - 2) / 4
  {
    JoinLength(parts);
    CharsBounds(parts);
  }

  /** The chunk is the accumulator as it stood after `n` paragraphs. */
  ghost predicate ClosedAfter(est: string -> nat, size: nat, ps: seq<string>, n: nat, chunk: string) {
    0 < n <= |ps| && Run(est, size, ps, n).current != [] && chunk == Join(Run(est, size, ps, n).current)
  }

  lemma {:induction false} ChunksOfStep(est: string -> nat, size: nat, ps: seq<string>, n: nat)
    requires 0 < n <= |ps|
    ensures Run(est, size, ps, n).chunks == Run(est, size, ps, n - 1).chunks
              + if Flushed(est, size, ps, n) then [Join(Run(est, size, ps, n - 1).current)] else []
    ensures Flushed(est, size, ps, n) ==> n > 1
  {
  }

  lemma {:induction false} NewChunk(est: string -> nat, size: nat, ps: seq<string>, n: nat, chunk: string)
    requires 0 < n <= |ps| && chunk in Run(est, size, ps, n).chunks && chunk !in Run(est, size, ps, n - 1).chunks
    ensures ClosedAfter(est, size, ps, n - 1, chunk)
  {
    ChunksOfStep(est, size, ps, n);
  }

  lemma {:induction false} ClosedAt(est: string -> nat, size: nat, ps: seq<string>, n: nat, chunk: string)
    returns (at: nat)
    requires n <= |ps| && chunk in Run(est, size, ps, n).chunks
    ensures ClosedAfter(est, size, ps, at, chunk)
    decreases n
  {
    if chunk in Run(est, size, ps, n - 1).chunks {
      at := ClosedAt(est, size, ps, n - 1, chunk);
    } else {
      NewChunk(est, size, ps, n, chunk);
      at := n - 1;
    }
  }

  lemma {:induction false} EveryChunkClosed(est: string -> nat, size: nat, ps: seq<string>, chunk: string)
    returns (at: nat)
    requires chunk in AllChunks(est, size, ps)
    ensures ClosedAfter(est, size, ps, at, chunk)
  {
    if chunk in Run(est, size, ps, |ps|).chunks {
      at := ClosedAt(est, size, ps, |ps|, chunk);
    } else {
      at := |ps|;
    }
  }

  /** Every chunk keeps to the budget, up to what joining adds, unless it is a single paragraph or an
      overlap with a single paragraph. */
  lemma {:induction false} ChunkBudget(size: nat, ps: seq<string>, chunk: string) returns (n: nat)
    requires chunk in AllChunks(QuarterLength(), size, ps)
    ensures ClosedAfter(QuarterLength(), size, ps, n, chunk)
    ensures var current := Run(QuarterLength(), size, ps, n).current;
            || |chunk| / 4 <= size + (5 * |current| - 2) / 4
            || current == [ps[n - 1]]
            || (Flushed(QuarterLength(), size, ps, n)
                && current == [Overlap(Run(QuarterLength(), size, ps, n - 1).current), ps[n - 1]])
  {
    n := EveryChunkClosed(QuarterLength(), size, ps, chunk);
    AccumulatorBudget(size, ps, n);
  }

  lemma {:induction false} AccumulatorBudget(size: nat, ps: seq<string>, n: nat)
    requires 0 < n <= |ps| && Run(QuarterLength(), size, ps, n).current != []
    ensures var current := Run(QuarterLength(), size, ps, n).current;
            || |Join(current)| / 4 <= size + (5 * |current| - 2) / 4
            || current == [ps[n - 1]]
            || (Flushed(QuarterLength(), size, ps, n)
                && current == [Overlap(Run(QuarterLength(), size, ps, n - 1).current), ps[n - 1]])
  {
    CountIsSum(QuarterLength(), size, ps, n);
    JoinEstimate(Run(QuarterLength(), size, ps, n).current);
    if Run(QuarterLength(), size, ps, n).tokens > size {
      OverBudgetOnlyAfterFlush(QuarterLength(), size, ps, n);
    }
  }

  // ---- the overlap can grow without end ----

  /** The accumulator is one overlap and one paragraph, over the budget. */
  predicate Trapped(size: nat, acc: Acc) {
    |acc.current| == 2 && acc.tokens > size && acc.tokens == SumTokens(QuarterLength(), acc.current)
  }

  /** A flush of exactly two elements carries the whole chunk over as the overlap, and leaves the
      accumulator over the budget again. */
  lemma {:induction false} FlushOfTwoTraps(size: nat, acc: Acc, para: string)
    requires |acc.current| == 2 && acc.current[0] != ""
    requires acc.tokens == SumTokens(QuarterLength(), acc.current) && acc.tokens + QuarterLength()(para) > size
    ensures var next := Step(QuarterLength(), size, acc, para);
            && next.chunks == acc.chunks + [Join(acc.current)]
            && next.current == [Join(acc.current), para]
            && Trapped(size, next)
  {
    var est := QuarterLength();
    JoinEstimate(acc.current);
    assert acc.current[|acc.current| - 2..] == acc.current;
    var whole := Join(acc.current);
    assert whole != "";
    assert [whole, para][..1] == [whole];
    SumOne(est, whole);
  }

  /** The accumulator after the first `n` of `more`. */
  function Feed(size: nat, acc: Acc, more: seq<string>, n: nat): Acc
    requires n <= |more|
  {
    if n == 0 then acc else Step(QuarterLength(), size, Feed(size, acc, more, n - 1), more[n - 1])
  }

  /** The joins of `base` with the first 0, 1, .. and `n - 1` of `more`. */
  function GrowingJoins(base: seq<string>, more: seq<string>, n: nat): (r: seq<string>)
    requires n <= |more|
    ensures |r| == n
  {
    if n == 0 then [] else GrowingJoins(base, more, n - 1) + [Join(base + more[..n - 1])]
  }

  lemma {:induction false} GrowingJoinsAt(base: seq<string>, more: seq<string>, n: nat, k: nat)
    requires k < n <= |more|
    ensures GrowingJoins(base, more, n)[k] == Join(base + more[..k])
    decreases n
  {
    if k < n - 1 {
      GrowingJoinsAt(base, more, n - 1, k);
    }
  }

  lemma {:induction false} AppendLast(a: seq<string>, front: seq<string>, last: string, b: seq<string>)
    requires b == front + [last]
    ensures a + front + [last] == a + b
  {
  }

  lemma {:induction false} OverlapStep(size: nat, acc: Acc, parts: seq<string>, para: string)
    requires Trapped(size, acc) && acc.current[0] != "" && parts != [] && Join(acc.current) == Join(parts)
    ensures var next := Step(QuarterLength(), size, acc, para);
            && Trapped(size, next) && next.current[0] != ""
            && next.chunks == acc.chunks + [Join(parts)] && Join(next.current) == Join(parts + [para])
  {
    FlushOfTwoTraps(size, acc, para);
    JoinTwo(parts, [para]);
    JoinTwo([Join(parts)], [para]);
    assert [Join(parts)] + [para] == [Join(parts), para];
    assert acc.current == [acc.current[0]] + [acc.current[1]];
    JoinTwo([acc.current[0]], [acc.current[1]]);
  }

  /** From then on every paragraph closes a chunk, and each chunk is the trapped accumulator with all
      later paragraphs so far: it holds the whole of the chunk before it, whatever the budget. */
  lemma {:induction false} OverlapNeverShrinks(size: nat, acc: Acc, more: seq<string>, n: nat)
    requires Trapped(size, acc) && acc.current[0] != "" && n <= |more|
    ensures Trapped(size, Feed(size, acc, more, n)) && Feed(size, acc, more, n).current[0] != ""
    ensures Join(Feed(size, acc, more, n).current) == Join(acc.current + more[..n])
    ensures Feed(size, acc, more, n).chunks == acc.chunks + GrowingJoins(acc.current, more, n)
    decreases n
  {
    hide Step;
    if n == 0 {
      assert acc.current + more[..0] == acc.current;
    } else {
      OverlapNeverShrinks(size, acc, more, n - 1);
      OverlapStep(size, Feed(size, acc, more, n - 1), acc.current + more[..n - 1], more[n - 1]);
      AppendLast(acc.current, more[..n - 1], more[n - 1], more[..n]);
      AppendLast(acc.chunks, GrowingJoins(acc.current, more, n - 1), Join(acc.current + more[..n - 1]),
                 GrowingJoins(acc.current, more, n));
    }
  }

  // ---- and does, in runs over paragraphs ----

  lemma {:induction false} RunFeeds(size: nat, ps: seq<string>, n: nat, m: nat)
    requires n + m <= |ps|
    ensures Run(QuarterLength(), size, ps, n + m) == Feed(size, Run(QuarterLength(), size, ps, n), ps[n..], m)
    decreases m
  {
    hide Step;
    if m > 0 {
      RunFeeds(size, ps, n, m - 1);
    }
  }

  lemma {:induction false} CurrentNotEmpty(est: string -> nat, size: nat, ps: seq<string>, n: nat)
    requires NoneEmpty(ps) && n <= |ps|
    ensures NoneEmpty(Run(est, size, ps, n).current)
    decreases n
  {
    hide Overlap;
    if n > 0 {
      CurrentNotEmpty(est, size, ps, n - 1);
    }
  }

  /** The chunk after the k-th one that follows the flush is the whole of that one and one paragraph. */
  predicate SwallowsAt(chunks: seq<string>, first: nat, ps: seq<string>, n: nat, k: nat)
    requires n + k < |ps| && |chunks| == first + (|ps| - n) + 1
  {
    chunks[first + k + 1] == chunks[first + k] + BLANK_LINE + ps[n + k]
  }

  /** After a flush of two elements every remaining paragraph gives one more chunk, and each chunk is the
      whole of the one before it followed by one paragraph, to the end of the document. */
  lemma {:induction false} ChunksSwallow(size: nat, ps: seq<string>, n: nat)
    requires NoneEmpty(ps) && n < |ps| && FlushesTwo(QuarterLength(), size, ps, n)
    ensures |AllChunks(QuarterLength(), size, ps)| == |Run(QuarterLength(), size, ps, n).chunks| + (|ps| - n) + 1
    ensures forall k | 0 <= k < |ps| - n ::
              SwallowsAt(AllChunks(QuarterLength(), size, ps), |Run(QuarterLength(), size, ps, n).chunks|, ps, n, k)
  {
    hide Run, AllChunks, Join;
    ChunkAfterFlush(size, ps, n, 0);
    forall k | 0 <= k < |ps| - n
      ensures SwallowsAt(AllChunks(QuarterLength(), size, ps), |Run(QuarterLength(), size, ps, n).chunks|, ps, n, k)
    {
      ChunkAfterFlush(size, ps, n, k);
      ChunkAfterFlush(size, ps, n, k + 1);
      var current, rest := Run(QuarterLength(), size, ps, n).current, ps[n..];
      JoinTwo(current + rest[..k], [rest[k]]);
      JoinOne(rest[k]);
      assert current + rest[..k + 1] == current + rest[..k] + [rest[k]];
    }
  }

  lemma {:induction false} JoinOne(part: string)
    ensures Join([part]) == part
  {
  }

  lemma {:induction false} ChunkAfterFlush(size: nat, ps: seq<string>, n: nat, k: nat)
    requires NoneEmpty(ps) && n < |ps| && FlushesTwo(QuarterLength(), size, ps, n) && k <= |ps| - n
    ensures |AllChunks(QuarterLength(), size, ps)| == |Run(QuarterLength(), size, ps, n).chunks| + (|ps| - n) + 1
    ensures AllChunks(QuarterLength(), size, ps)[|Run(QuarterLength(), size, ps, n).chunks| + k]
         == Join(Run(QuarterLength(), size, ps, n).current + ps[n..][..k])
  {
    hide Step, Join, Feed, SumTokens, GrowingJoins;
    var est := QuarterLength();
    var acc, next, last := Run(est, size, ps, n), Run(est, size, ps, n + 1), Run(est, size, ps, |ps|);
    var more := ps[n + 1..];
    CurrentNotEmpty(est, size, ps, n);
    CountIsSum(est, size, ps, n);
    FlushOfTwoTraps(size, acc, ps[n]);
    JoinNotEmpty(acc.current);
    OverlapNeverShrinks(size, next, more, |more|);
    RunFeeds(size, ps, n + 1, |more|);
    assert more[..|more|] == more;
    assert last.chunks == acc.chunks + [Join(acc.current)] + GrowingJoins(next.current, more, |more|);
    if k == 0 {
      assert acc.current + ps[n..][..0] == acc.current;
    } else {
      SwallowedJoin(acc.current, ps[n], more[..k - 1]);
      SliceCons(ps, n, k);
      if k <= |more| {
        GrowingJoinsAt(next.current, more, |more|, k - 1);
      } else {
        assert more[..k - 1] == more;
      }
    }
  }

  lemma {:induction false} SliceCons(ps: seq<string>, n: nat, k: nat)
    requires n < |ps| && 0 < k <= |ps| - n
    ensures ps[n..][..k] == [ps[n]] + ps[n + 1..][..k - 1]
  {
  }

  lemma {:induction false} SwallowedJoin(current: seq<string>, para: string, more: seq<string>)
    requires current != []
    ensures Join([Join(current), para] + more) == Join(current + ([para] + more))
  {
    JoinTwo([Join(current)], [para] + more);
    JoinTwo(current, [para] + more);
    JoinOne(Join(current));
    assert [Join(current), para] + more == [Join(current)] + ([para] + more);
  }

  /** Every budget is defeated so by some beginning of a document, whatever paragraphs follow. */
  lemma {:induction false} SwallowReached(size: nat, more: seq<string>) returns (ps: seq<string>)
    requires AllParagraphs(more)
    ensures AllParagraphs(ps) && |ps| == 3 + |more| && ps[3..] == more && FlushesTwo(QuarterLength(), size, ps, 2)
    ensures |AllChunks(QuarterLength(), size, ps)| == |more| + 2
    ensures forall k | 0 <= k <= |more| :: SwallowsAt(AllChunks(QuarterLength(), size, ps), 0, ps, 2, k)
  {
    var long := seq(4 * (size + 1), _ => 'a');
    ps := ["a", "a", long] + more;
    ParagraphOfLetters(1);
    ParagraphOfLetters(4 * (size + 1));
    assert seq(1, _ => 'a') == "a";
    var est := QuarterLength();
    assert Run(est, size, ps, 0) == Acc([], [], 0);
    assert Run(est, size, ps, 1) == Acc([], ["a"], 0);
    assert Run(est, size, ps, 2) == Acc([], ["a", "a"], 0);
    ParagraphsNotEmpty(ps);
    ChunksSwallow(size, ps, 2);
  }

  lemma {:induction false} ParagraphOfLetters(n: nat)
    requires n > 0
    ensures IsParagraph(seq(n, _ => 'a'))
  {
  }
}
