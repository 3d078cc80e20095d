/** Matching webhook payloads against behaviour rules (backend/src/services/behavior_rules.py) and the
    priority an event gets (backend/src/services/webhook_service.py, lines 49-63). */
module Rules {
  import opened Options

  datatype Json =
    | Null
    | Bool(b: bool)
    | Num(n: real)
    | Str(s: string)
    | Arr(items: seq<Json>)
    | Obj(fields: map<string, Json>)

  // ---- paths ----

  /** `path.split(".")`. */
  function Split(path: string): (parts: seq<string>)
    ensures parts != []
  {
    if path == "" then [""]
    else
      var rest := Split(path[1..]);
      if path[0] == '.' then [""] + rest else [[path[0]] + rest[0]] + rest[1..]
  }

  /** One level down; null when there is nothing. */
  function Child(v: Json, key: string): Json {
    if v.Obj? && key in v.fields then v.fields[key] else Null
  }

  function Walk(v: Json, parts: seq<string>): Json {
    if parts == [] then v else Child(Walk(v, parts[..|parts| - 1]), parts[|parts| - 1])
  }

  function Resolve(v: Json, path: string): Json {
    Walk(v, Split(path))
  }

  method ResolvePath(payload: Json, path: string) returns (value: Json)
    ensures value == Resolve(payload, path)
  {
    var parts := Split(path);
    value := payload;
    for k := 0 to |parts|
      invariant value == Walk(payload, parts[..k])
    {
      assert parts[..k + 1][..k] == parts[..k];
      if value.Obj? {
        value := if parts[k] in value.fields then value.fields[parts[k]] else Null;
      } else {
        NothingBelow(payload, parts, k);
        return Null;
      }
    }
    assert parts[..|parts|] == parts;
  }

  lemma {:induction false} NothingBelow(v: Json, parts: seq<string>, k: nat)
    requires k < |parts| && !Walk(v, parts[..k]).Obj?
    ensures Walk(v, parts) == Null
    decreases |parts|
  {
    var n := |parts| - 1;
    if k < n {
      assert parts[..n][..k] == parts[..k];
      NothingBelow(v, parts[..n], k);
    }
  }

  lemma {:induction false} WalkParts(v: Json, parts: seq<string>, more: seq<string>)
    ensures Walk(v, parts + more) == Walk(Walk(v, parts), more)
  {
    if more == [] {
      assert parts + more == parts;
    } else {
      var n := |more| - 1;
      assert (parts + more)[..|parts + more| - 1] == parts + more[..n];
      WalkParts(v, parts, more[..n]);
    }
  }

  lemma {:induction false} SplitJoined(p: string, q: string)
    ensures Split(p + "." + q) == Split(p) + Split(q)
  {
    var s := p + "." + q;
    if p == "" {
      assert s[1..] == q;
    } else {
      assert s[1..] == p[1..] + "." + q;
      SplitJoined(p[1..], q);
    }
  }

  /** Resolving `p.q` is resolving `q` in what `p` resolves to. */
  lemma {:induction false} ResolveComposes(v: Json, p: string, q: string)
    ensures Resolve(v, p + "." + q) == Resolve(Resolve(v, p), q)
  {
    SplitJoined(p, q);
    WalkParts(v, Split(p), Split(q));
  }

  lemma {:induction false} SplitKey(key: string)
    requires '.' !in key
    ensures Split(key) == [key]
  {
    if key != "" {
      SplitKey(key[1..]);
      assert key == [key[0]] + key[1..];
    }
  }

  /** A name without a dot resolves to what the object holds under it, and to null where it holds nothing or is no
      object. With composition this determines every path. */
  lemma {:induction false} ResolveKey(v: Json, key: string)
    requires '.' !in key
    ensures Resolve(v, key) == if v.Obj? && key in v.fields then v.fields[key] else Null
  {
    SplitKey(key);
    assert [key][..0] == [] && Walk(v, []) == v;
    assert Walk(v, [key]) == Child(Walk(v, []), key);
  }

  // ---- operators ----

  datatype Outcome = Holds | Fails | Raises

  function Of(b: bool): Outcome {
    if b then Holds else Fails
  }

  function Not(o: Outcome): Outcome {
    match o
    case Holds => Fails
    case Fails => Holds
    case Raises => Raises
  }

  predicate IsNumber(v: Json) {
    v.Num? || v.Bool?
  }

  function NumberOf(v: Json): real
    requires IsNumber(v)
  {
    if v.Num? then v.n else if v.b then 1.0 else 0.0
  }

  /** `a == b`: truth values are numbers, and the order of an object's keys does not matter. */
  predicate Same(a: Json, b: Json)
    decreases a
  {
    if IsNumber(a) && IsNumber(b) then NumberOf(a) == NumberOf(b)
    else
      match (a, b)
      case (Null, Null) => true
      case (Str(s), Str(t)) => s == t
      case (Arr(x), Arr(y)) => |x| == |y| && forall i | 0 <= i < |x| :: Same(x[i], y[i])
      case (Obj(f), Obj(g)) => f.Keys == g.Keys && forall k | k in f :: Same(f[k], g[k])
      case _ => false
  }

  datatype Sign = Less | Equal | Greater

  function Signum(x: real, y: real): Sign {
    if x < y then Less else if x == y then Equal else Greater
  }

  function CompareText(s: string, t: string): Sign {
    if s == "" || t == "" then Signum(|s| as real, |t| as real)
    else if s[0] == t[0] then CompareText(s[1..], t[1..])
    else if s[0] < t[0] then Less else Greater
  }

  /** The order used by the comparison operators; None when the values cannot be compared. */
  function Compare(a: Json, b: Json): Option<Sign>
    decreases a, 1, 0
  {
    if IsNumber(a) && IsNumber(b) then Some(Signum(NumberOf(a), NumberOf(b)))
    else
      match (a, b)
      case (Str(s), Str(t)) => Some(CompareText(s, t))
      case (Arr(x), Arr(y)) => CompareItems(a, x, y, 0)
      case _ => None
  }

  function CompareItems(a: Json, x: seq<Json>, y: seq<Json>, i: nat): Option<Sign>
    requires a == Arr(x) && i <= |x|
    decreases a, 0, |x| - i
  {
    if i == |x| || i >= |y| then Some(Signum(|x| as real, |y| as real))
    else if Same(x[i], y[i]) then CompareItems(a, x, y, i + 1)
    else Compare(x[i], y[i])
  }

  predicate OccursAt(t: string, s: string, i: nat) {
    i + |t| <= |s| && s[i..i + |t|] == t
  }

  predicate Substring(t: string, s: string) {
    exists i: nat | i <= |s| :: OccursAt(t, s, i)
  }

  /** `b in a`. */
  function Contains(a: Json, b: Json): Outcome {
    match a
    case Str(s) => if b.Str? then Of(Substring(b.s, s)) else Raises
    case Arr(items) => Of(exists i :: 0 <= i < |items| && Same(items[i], b))
    case Obj(fields) => if b.Arr? || b.Obj? then Raises else Of(b.Str? && b.s in fields)
    case _ => Raises
  }

  function Ordered(a: Json, b: Json, signs: set<Sign>): Outcome {
    match Compare(a, b)
    case None => Raises
    case Some(sign) => Of(sign in signs)
  }

  /** One operator; an unknown one fails. `text` is `str`. */
  function Apply(text: Json -> string, op: string, a: Json, b: Json): Outcome {
    match op
    case "eq" => Of(Same(a, b))
    case "ne" => Of(!Same(a, b))
    case "gt" => Ordered(a, b, {Greater})
    case "gte" => Ordered(a, b, {Greater, Equal})
    case "lt" => Ordered(a, b, {Less})
    case "lte" => Ordered(a, b, {Less, Equal})
    case "contains" => Contains(a, b)
    case "not_contains" => Not(Contains(a, b))
    case "in" => Contains(b, a)
    case "starts_with" => Of(text(b) <= text(a))
    case _ => Fails
  }

  // ---- laws of the operators ----

  function Flip(sign: Sign): Sign {
    match sign
    case Less => Greater
    case Equal => Equal
    case Greater => Less
  }

  function FlipAll(c: Option<Sign>): Option<Sign> {
    if c == None then None else Some(Flip(c.value))
  }

  lemma {:induction false} SameSymmetric(a: Json, b: Json)
    ensures Same(a, b) == Same(b, a)
    decreases a
  {
    match (a, b)
    case (Arr(x), Arr(y)) =>
      if |x| == |y| {
        forall i | 0 <= i < |x| ensures Same(x[i], y[i]) == Same(y[i], x[i]) {
          SameSymmetric(x[i], y[i]);
        }
      }
    case (Obj(f), Obj(g)) =>
      if f.Keys == g.Keys {
        forall k | k in f ensures Same(f[k], g[k]) == Same(g[k], f[k]) {
          SameSymmetric(f[k], g[k]);
        }
      }
    case _ =>
  }

  lemma {:induction false} CompareTextFlips(s: string, t: string)
    ensures CompareText(t, s) == Flip(CompareText(s, t))
    ensures CompareText(s, t) == Equal <==> s == t
    decreases |s|
  {
    if s != "" && t != "" {
      CompareTextFlips(s[1..], t[1..]);
      assert s == [s[0]] + s[1..] && t == [t[0]] + t[1..];
    }
  }

  /** Comparing the other way round gives the opposite, or again nothing. */
  lemma {:induction false} CompareFlips(a: Json, b: Json)
    ensures Compare(b, a) == FlipAll(Compare(a, b))
    decreases a, 1, 0
  {
    match (a, b)
    case (Str(s), Str(t)) => CompareTextFlips(s, t);
    case (Arr(x), Arr(y)) => CompareItemsFlips(a, b, x, y, 0);
    case _ =>
  }

  lemma {:induction false} CompareItemsFlips(a: Json, b: Json, x: seq<Json>, y: seq<Json>, i: nat)
    requires a == Arr(x) && b == Arr(y) && i <= |x| && i <= |y|
    ensures CompareItems(b, y, x, i) == FlipAll(CompareItems(a, x, y, i))
    decreases a, 0, |x| - i
  {
    if i < |x| && i < |y| {
      SameSymmetric(x[i], y[i]);
      if Same(x[i], y[i]) {
        CompareItemsFlips(a, b, x, y, i + 1);
      } else {
        CompareFlips(x[i], y[i]);
      }
    }
  }

  /** For all values: `gt` and `lte` exclude each other and one of them holds, unless both raise; so do `lt`
      and `gte`; `lt` is `gt` the other way round; `ne` is the opposite of `eq`, `not_contains` of
      `contains`, and `in` is `contains` the other way round. */
  lemma {:induction false} OperatorLaws(text: Json -> string, a: Json, b: Json)
    ensures Apply(text, "lte", a, b) == Not(Apply(text, "gt", a, b))
    ensures Apply(text, "gte", a, b) == Not(Apply(text, "lt", a, b))
    ensures Apply(text, "lt", a, b) == Apply(text, "gt", b, a)
    ensures Apply(text, "ne", a, b) == Not(Apply(text, "eq", a, b))
    ensures Apply(text, "eq", a, b) == Apply(text, "eq", b, a)
    ensures Apply(text, "not_contains", a, b) == Not(Apply(text, "contains", a, b))
    ensures Apply(text, "in", a, b) == Apply(text, "contains", b, a)
  {
    CompareFlips(a, b);
    SameSymmetric(a, b);
  }

  /** On numbers they are the comparisons of numbers. */
  lemma {:induction false} NumberLaws(text: Json -> string, a: Json, b: Json)
    requires IsNumber(a) && IsNumber(b)
    ensures Apply(text, "eq", a, b) == Of(NumberOf(a) == NumberOf(b))
    ensures Apply(text, "gt", a, b) == Of(NumberOf(a) > NumberOf(b))
    ensures Apply(text, "gte", a, b) == Of(NumberOf(a) >= NumberOf(b))
    ensures Apply(text, "lt", a, b) == Of(NumberOf(a) < NumberOf(b))
    ensures Apply(text, "lte", a, b) == Of(NumberOf(a) <= NumberOf(b))
    ensures Apply(text, "contains", a, b) == Raises
  {
  }

  lemma {:induction false} SameReflexive(a: Json)
    ensures Same(a, a)
    decreases a
  {
    match a
    case Arr(x) =>
      forall i | 0 <= i < |x| ensures Same(x[i], x[i]) {
        SameReflexive(x[i]);
      }
    case Obj(f) =>
      forall k | k in f ensures Same(f[k], f[k]) {
        SameReflexive(f[k]);
      }
    case _ =>
  }

  lemma {:induction false} SameTransitive(a: Json, b: Json, c: Json)
    requires Same(a, b) && Same(b, c)
    ensures Same(a, c)
    decreases a
  {
    match (a, b, c)
    case (Arr(x), Arr(y), Arr(z)) =>
      forall i | 0 <= i < |x| ensures Same(x[i], z[i]) {
        SameTransitive(x[i], y[i], z[i]);
      }
    case (Obj(f), Obj(g), Obj(h)) =>
      forall k | k in f ensures Same(f[k], h[k]) {
        SameTransitive(f[k], g[k], h[k]);
      }
    case _ =>
  }

  /** Whether the two are of one kind: both null, both numbers or truth values, both texts, lists or objects. */
  predicate SameKind(a: Json, b: Json) {
    || (a.Null? && b.Null?) || (IsNumber(a) && IsNumber(b)) || (a.Str? && b.Str?) || (a.Arr? && b.Arr?)
    || (a.Obj? && b.Obj?)
  }

  /** Equality compares values of one kind only; it is an equivalence, texts are equal only to themselves, lists are
      equal item by item, and objects key by key in whatever order. */
  lemma {:induction false} EqualityLaws(a: Json, b: Json)
    ensures Same(a, a)
    ensures Same(a, b) ==> SameKind(a, b)
    ensures a.Null? && b.Null? ==> Same(a, b)
    ensures a.Str? && b.Str? ==> (Same(a, b) <==> a.s == b.s)
    ensures a.Arr? && b.Arr? ==>
              (Same(a, b) <==> |a.items| == |b.items| && forall i | 0 <= i < |a.items| :: Same(a.items[i], b.items[i]))
    ensures a.Obj? && b.Obj? ==>
              (Same(a, b) <==>
                 && (forall k :: k in a.fields <==> k in b.fields)
                 && (forall k | k in a.fields && k in b.fields :: Same(a.fields[k], b.fields[k])))
  {
    SameReflexive(a);
    if a.Obj? && b.Obj? && forall k :: k in a.fields <==> k in b.fields {
      assert a.fields.Keys == b.fields.Keys;
    }
  }

  lemma {:induction false} CommonText(p: string, s: string, t: string)
    ensures CompareText(p + s, p + t) == CompareText(s, t)
  {
    if p == "" {
      assert p + s == s && p + t == t;
    } else {
      assert (p + s)[1..] == p[1..] + s && (p + t)[1..] == p[1..] + t;
      CommonText(p[1..], s, t);
    }
  }

  /** Texts are ordered by the first character in which they differ, and a proper beginning comes first. */
  lemma {:induction false} TextOrder(p: string, a: char, s: string, b: char, t: string)
    ensures a < b ==> Compare(Str(p + ([a] + s)), Str(p + ([b] + t))) == Some(Less)
    ensures Compare(Str(p), Str(p + ([a] + s))) == Some(Less)
    ensures Compare(Str(p), Str(p)) == Some(Equal)
  {
    CommonText(p, [a] + s, [b] + t);
    CommonText(p, "", [a] + s);
    assert p + "" == p;
    CompareTextFlips(p, p);
  }

  lemma {:induction false} CommonItems(x: seq<Json>, y: seq<Json>, n: nat, i: nat)
    requires i <= n <= |x| && n <= |y| && forall k | i <= k < n :: Same(x[k], y[k])
    ensures CompareItems(Arr(x), x, y, i) == CompareItems(Arr(x), x, y, n)
    decreases n - i
  {
    hide Same, Compare;
    if i < n {
      CommonItems(x, y, n, i + 1);
    }
  }

  /** Lists are ordered by the first items that are not equal, as far as these can be compared, and a proper beginning
      comes first. */
  lemma {:induction false} ListOrder(x: seq<Json>, y: seq<Json>, n: nat)
    requires n <= |x| && n <= |y| && forall k | 0 <= k < n :: Same(x[k], y[k])
    ensures n < |x| && n < |y| && !Same(x[n], y[n]) ==> Compare(Arr(x), Arr(y)) == Compare(x[n], y[n])
    ensures n == |x| < |y| ==> Compare(Arr(x), Arr(y)) == Some(Less)
    ensures n == |x| == |y| ==> Compare(Arr(x), Arr(y)) == Some(Equal)
  {
    hide Same;
    CommonItems(x, y, n, 0);
  }

  /** Which values can be compared: numbers and truth values, texts, and lists, each with their like. */
  lemma {:induction false} ComparesOnly(a: Json, b: Json)
    ensures Compare(a, b).Some? ==> SameKind(a, b) && !a.Null? && !a.Obj?
    ensures (IsNumber(a) && IsNumber(b)) || (a.Str? && b.Str?) ==> Compare(a, b).Some?
  {
  }

  /** `contains`: a text in a text, an item in a list, a key in an object; other containers, a text asked for anything
      but a text, and an object asked for a list or an object raise. */
  lemma {:induction false} ContainsLaws(text: Json -> string, a: Json, b: Json)
    ensures a.Str? && b.Str? ==>
              Apply(text, "contains", a, b) == Of(exists p: string, q: string :: a.s == p + b.s + q)
    ensures a.Arr? ==> Apply(text, "contains", a, b) == Of(exists i :: 0 <= i < |a.items| && Same(a.items[i], b))
    ensures a.Obj? && b.Str? ==> Apply(text, "contains", a, b) == Of(b.s in a.fields)
    ensures a.Obj? && (b.Null? || IsNumber(b)) ==> Apply(text, "contains", a, b) == Fails
    ensures Apply(text, "contains", a, b) == Raises <==>
            a.Null? || IsNumber(a) || (a.Str? && !b.Str?) || (a.Obj? && (b.Arr? || b.Obj?))
  {
    hide Same;
    if a.Str? && b.Str? {
      SubstringIs(b.s, a.s);
    }
  }

  lemma {:induction false} SubstringIs(t: string, s: string)
    ensures Substring(t, s) <==> exists p: string, q: string :: s == p + t + q
  {
    if i: nat :| i <= |s| && OccursAt(t, s, i) {
      assert s == s[..i] + t + s[i + |t|..];
    }
    if p: string, q: string :| s == p + t + q {
      assert OccursAt(t, s, |p|);
    }
  }

  /** `starts_with` asks whether the text of the one begins with the text of the other, and an unknown operator never
      holds and never raises. */
  lemma {:induction false} OtherOperators(text: Json -> string, op: string, a: Json, b: Json)
    ensures Apply(text, "starts_with", a, b) == Of(exists q: string :: text(a) == text(b) + q)
    ensures op !in {"eq", "ne", "gt", "gte", "lt", "lte", "contains", "not_contains", "in", "starts_with"} ==>
              Apply(text, op, a, b) == Fails
  {
    hide Same, Contains, Ordered;
    if text(b) <= text(a) {
      assert text(a) == text(b) + text(a)[|text(b)|..];
    }
  }

  // ---- conditions ----

  datatype Test = Is(value: Json) | Ops(ops: seq<(string, Json)>)
  datatype Condition = Condition(path: string, test: Test)

  /** A single comparison of a resolved value. */
  datatype Check = Check(path: string, op: string, expected: Json)

  function CheckOf(path: string, op: (string, Json)): Check {
    Check(path, op.0, op.1)
  }

  function ChecksOf(c: Condition): seq<Check> {
    match c.test
    case Is(value) => [Check(c.path, "eq", value)]
    case Ops(ops) => seq(|ops|, i requires 0 <= i < |ops| => CheckOf(c.path, ops[i]))
  }

  function Checks(cs: seq<Condition>): seq<Check> {
    if cs == [] then [] else Checks(cs[..|cs| - 1]) + ChecksOf(cs[|cs| - 1])
  }

  function Run(text: Json -> string, payload: Json, check: Check): Outcome {
    Apply(text, check.op, Resolve(payload, check.path), check.expected)
  }

  /** The first check that does not hold decides. */
  function FirstProblem(text: Json -> string, payload: Json, checks: seq<Check>): Outcome {
    if checks == [] then Holds
    else
      var before := FirstProblem(text, payload, checks[..|checks| - 1]);
      if before == Holds then Run(text, payload, checks[|checks| - 1]) else before
  }

  function Evaluate(text: Json -> string, payload: Json, cs: seq<Condition>): Outcome {
    FirstProblem(text, payload, Checks(cs))
  }

  lemma {:induction false} ProblemStays(text: Json -> string, payload: Json, checks: seq<Check>, more: seq<Check>)
    requires FirstProblem(text, payload, checks) != Holds
    ensures FirstProblem(text, payload, checks + more) == FirstProblem(text, payload, checks)
  {
    if more == [] {
      assert checks + more == checks;
    } else {
      var n := |more| - 1;
      assert (checks + more)[..|checks + more| - 1] == checks + more[..n];
      ProblemStays(text, payload, checks, more[..n]);
    }
  }

  lemma {:induction false} ChecksPrefix(cs: seq<Condition>, i: nat)
    requires i <= |cs|
    ensures Checks(cs[..i]) <= Checks(cs)
  {
    if i < |cs| {
      var n := |cs| - 1;
      assert cs[..n][..i] == cs[..i];
      ChecksPrefix(cs[..n], i);
    } else {
      assert cs[..i] == cs;
    }
  }

  /** Checks that begin with the given ones and have a problem among them. */
  lemma {:induction false} ProblemDecides(text: Json -> string, payload: Json, some: seq<Check>, all: seq<Check>)
    requires some <= all && FirstProblem(text, payload, some) != Holds
    ensures FirstProblem(text, payload, all) == FirstProblem(text, payload, some)
  {
    assert all == some + all[|some|..];
    ProblemStays(text, payload, some, all[|some|..]);
  }

  lemma {:induction false} OneMore(text: Json -> string, payload: Json, checks: seq<Check>, check: Check)
    requires FirstProblem(text, payload, checks) == Holds
    ensures FirstProblem(text, payload, checks + [check]) == Run(text, payload, check)
  {
    assert (checks + [check])[..|checks|] == checks;
  }

  lemma {:induction false} ProblemAfter(text: Json -> string, payload: Json, checks: seq<Check>, more: seq<Check>)
    requires FirstProblem(text, payload, checks) == Holds
    ensures FirstProblem(text, payload, checks + more) == FirstProblem(text, payload, more)
  {
    hide Run;
    if more == [] {
      assert checks + more == checks;
    } else {
      var n := |more| - 1;
      assert (checks + more)[..|checks + more| - 1] == checks + more[..n];
      ProblemAfter(text, payload, checks, more[..n]);
    }
  }

  /** The inner loop: the operators of one condition, or the direct comparison. */
  method EvaluateTest(text: Json -> string, payload: Json, c: Condition) returns (r: Outcome)
    ensures r == FirstProblem(text, payload, ChecksOf(c))
  {
    hide Run, Apply;
    var value := ResolvePath(payload, c.path);
    match c.test {
      case Ops(ops) =>
        ghost var checks := ChecksOf(c);
        for j := 0 to |ops|
          invariant FirstProblem(text, payload, checks[..j]) == Holds
        {
          assert checks[..j + 1] == checks[..j] + [checks[j]];
          OneMore(text, payload, checks[..j], checks[j]);
          r := Apply(text, ops[j].0, value, ops[j].1);
          RunIs(text, payload, checks[j], value);
          if r != Holds {
            ProblemDecides(text, payload, checks[..j + 1], checks);
            return;
          }
        }
        assert checks[..|ops|] == checks;
        r := Holds;
      case Is(expected) =>
        EqIs(text, payload, c.path, expected);
        OneMore(text, payload, [], Check(c.path, "eq", expected));
        assert [] + [Check(c.path, "eq", expected)] == ChecksOf(c);
        r := Of(Same(value, expected));
    }
  }

  method EvaluateConditions(text: Json -> string, cs: seq<Condition>, payload: Json) returns (r: Outcome)
    ensures r == Evaluate(text, payload, cs)
  {
    hide Run, ChecksOf;
    for i := 0 to |cs|
      invariant FirstProblem(text, payload, Checks(cs[..i])) == Holds
    {
      assert cs[..i + 1][..i] == cs[..i];
      r := EvaluateTest(text, payload, cs[i]);
      ProblemAfter(text, payload, Checks(cs[..i]), ChecksOf(cs[i]));
      if r != Holds {
        ChecksPrefix(cs, i + 1);
        ProblemDecides(text, payload, Checks(cs[..i + 1]), Checks(cs));
        return;
      }
    }
    assert cs[..|cs|] == cs;
    return Holds;
  }

  lemma {:induction false} RunIs(text: Json -> string, payload: Json, check: Check, value: Json)
    requires value == Resolve(payload, check.path)
    ensures Run(text, payload, check) == Apply(text, check.op, value, check.expected)
  {
  }

  lemma {:induction false} EqIs(text: Json -> string, payload: Json, path: string, expected: Json)
    ensures Run(text, payload, Check(path, "eq", expected)) == Of(Same(Resolve(payload, path), expected))
  {
  }

  // ---- what matching means ----

  /** A plain value is compared for equality with what the path resolves to. */
  lemma {:induction false} PlainCondition(text: Json -> string, payload: Json, path: string, value: Json)
    ensures Evaluate(text, payload, [Condition(path, Is(value))]) == Of(Same(Resolve(payload, path), value))
  {
    hide Apply, Resolve, Same;
    ChecksCons(Condition(path, Is(value)), []);
    EqIs(text, payload, path, value);
    OneMore(text, payload, [], Check(path, "eq", value));
    assert [] + [Check(path, "eq", value)] == ChecksOf(Condition(path, Is(value)));
  }

  /** Operators are applied in turn to what the path resolves to, until one does not hold. */
  lemma {:induction false} OperatorCondition(text: Json -> string, payload: Json, path: string,
                                             ops: seq<(string, Json)>, op: string, value: Json)
    ensures Evaluate(text, payload, [Condition(path, Ops([]))]) == Holds
    ensures Evaluate(text, payload, [Condition(path, Ops(ops + [(op, value)]))])
         == if Evaluate(text, payload, [Condition(path, Ops(ops))]) == Holds
            then Apply(text, op, Resolve(payload, path), value)
            else Evaluate(text, payload, [Condition(path, Ops(ops))])
  {
    hide Apply, Resolve;
    var before, after := Condition(path, Ops(ops)), Condition(path, Ops(ops + [(op, value)]));
    ChecksCons(Condition(path, Ops([])), []);
    ChecksCons(before, []);
    ChecksCons(after, []);
    assert ChecksOf(after) == ChecksOf(before) + [Check(path, op, value)];
    RunIs(text, payload, Check(path, op, value), Resolve(payload, path));
    if Evaluate(text, payload, [before]) == Holds {
      OneMore(text, payload, ChecksOf(before), Check(path, op, value));
    } else {
      ProblemStays(text, payload, ChecksOf(before), [Check(path, op, value)]);
    }
  }

  /** Conditions are evaluated one after the other, and the first that does not hold decides. */
  lemma {:induction false} ConditionsInTurn(text: Json -> string, payload: Json, cs: seq<Condition>, ds: seq<Condition>)
    ensures Evaluate(text, payload, []) == Holds
    ensures Evaluate(text, payload, cs + ds)
         == if Evaluate(text, payload, cs) == Holds then Evaluate(text, payload, ds) else Evaluate(text, payload, cs)
  {
    hide ChecksOf, Run;
    ChecksParts(cs, ds);
    if Evaluate(text, payload, cs) == Holds {
      ProblemAfter(text, payload, Checks(cs), Checks(ds));
    } else {
      ProblemStays(text, payload, Checks(cs), Checks(ds));
    }
  }

  lemma {:induction false} ChecksParts(cs: seq<Condition>, ds: seq<Condition>)
    ensures Checks(cs + ds) == Checks(cs) + Checks(ds)
  {
    hide ChecksOf;
    if ds == [] {
      assert cs + ds == cs;
    } else {
      var n := |ds| - 1;
      assert (cs + ds)[..|cs + ds| - 1] == cs + ds[..n];
      ChecksParts(cs, ds[..n]);
    }
  }

  lemma {:induction false} HoldsIffAll(text: Json -> string, payload: Json, checks: seq<Check>)
    ensures FirstProblem(text, payload, checks) == Holds <==> forall c | c in checks :: Run(text, payload, c) == Holds
    ensures FirstProblem(text, payload, checks) != Holds ==>
              exists c :: c in checks && Run(text, payload, c) == FirstProblem(text, payload, checks)
  {
    hide Run;
    if checks != [] {
      var front, last := checks[..|checks| - 1], checks[|checks| - 1];
      HoldsIffAll(text, payload, front);
      assert checks == front + [last];
    }
  }

  lemma {:induction false} CheckFrom(cs: seq<Condition>, check: Check)
    ensures check in Checks(cs) <==> exists c :: c in cs && check in ChecksOf(c)
  {
    if cs != [] {
      var front, last := cs[..|cs| - 1], cs[|cs| - 1];
      CheckFrom(front, check);
      assert cs == front + [last];
    }
  }

  /** A payload that matches all of the conditions matches any of them: adding conditions only narrows. */
  lemma {:induction false} MoreConditionsMatchLess(text: Json -> string, payload: Json, some: seq<Condition>,
                                                   all: seq<Condition>)
    requires forall c | c in some :: c in all
    requires Evaluate(text, payload, all) == Holds
    ensures Evaluate(text, payload, some) == Holds
  {
    hide Run;
    HoldsIffAll(text, payload, Checks(all));
    HoldsIffAll(text, payload, Checks(some));
    forall check | check in Checks(some) ensures check in Checks(all) {
      CheckFrom(some, check);
      CheckFrom(all, check);
    }
  }

  /** Whether the conditions match does not depend on their order. */
  lemma {:induction false} MatchIgnoresOrder(text: Json -> string, payload: Json, cs: seq<Condition>,
                                             ds: seq<Condition>)
    requires forall c :: c in cs <==> c in ds
    ensures Evaluate(text, payload, cs) == Holds <==> Evaluate(text, payload, ds) == Holds
  {
    if Evaluate(text, payload, cs) == Holds {
      MoreConditionsMatchLess(text, payload, ds, cs);
    }
    if Evaluate(text, payload, ds) == Holds {
      MoreConditionsMatchLess(text, payload, cs, ds);
    }
  }

  /** One condition fails and another raises. */
  predicate FailsAndRaises(text: Json -> string, payload: Json, cs: seq<Condition>) {
    && (exists c :: c in cs && Evaluate(text, payload, [c]) == Fails)
    && (exists c :: c in cs && Evaluate(text, payload, [c]) == Raises)
  }

  lemma {:induction false} ChecksCons(c: Condition, rest: seq<Condition>)
    ensures Checks([c]) == ChecksOf(c)
    ensures Checks([c] + rest) == ChecksOf(c) + Checks(rest)
    decreases |rest|
  {
    assert [c][..0] == [] && Checks([]) == [];
    if rest == [] {
      assert [c] + rest == [c];
    } else {
      var n := |rest| - 1;
      assert ([c] + rest)[..|[c] + rest| - 1] == [c] + rest[..n];
      ChecksCons(c, rest[..n]);
    }
  }

  /** A condition that does not hold decides when it comes first. */
  lemma {:induction false} FirstDecides(text: Json -> string, payload: Json, c: Condition, rest: seq<Condition>)
    requires Evaluate(text, payload, [c]) != Holds
    ensures Evaluate(text, payload, [c] + rest) == Evaluate(text, payload, [c])
  {
    hide FirstProblem, ChecksOf, Checks;
    ChecksCons(c, rest);
    ProblemStays(text, payload, ChecksOf(c), Checks(rest));
  }

  /** The outcome is that of some condition taken alone, unless all hold. */
  lemma {:induction false} OutcomeOfOne(text: Json -> string, payload: Json, cs: seq<Condition>)
    ensures Evaluate(text, payload, cs) != Holds ==>
              exists c :: c in cs && Evaluate(text, payload, [c]) == Evaluate(text, payload, cs)
    decreases |cs|
  {
    hide FirstProblem, ChecksOf, Checks;
    if cs != [] {
      var c, rest := cs[0], cs[1..];
      assert cs == [c] + rest;
      ChecksCons(c, rest);
      if Evaluate(text, payload, [c]) == Holds {
        ProblemAfter(text, payload, ChecksOf(c), Checks(rest));
        OutcomeOfOne(text, payload, rest);
      } else {
        FirstDecides(text, payload, c, rest);
      }
    } else {
      NoChecks(text, payload);
    }
  }

  lemma {:induction false} NoChecks(text: Json -> string, payload: Json)
    ensures Evaluate(text, payload, []) == Holds
  {
  }

  /** Unless one condition fails and another raises, the outcome does not depend on their order. */
  lemma {:induction false} OutcomeIgnoresOrder(text: Json -> string, payload: Json, cs: seq<Condition>,
                                               ds: seq<Condition>)
    requires (forall c :: c in cs <==> c in ds) && !FailsAndRaises(text, payload, cs)
    ensures Evaluate(text, payload, cs) == Evaluate(text, payload, ds)
  {
    hide Evaluate;
    MatchIgnoresOrder(text, payload, cs, ds);
    OutcomeOfOne(text, payload, cs);
    OutcomeOfOne(text, payload, ds);
  }

  /** If so, bringing the one or the other to the front makes the conditions fail or raise. */
  lemma {:induction false} OrderDecides(text: Json -> string, payload: Json, cs: seq<Condition>, outcome: Outcome)
    returns (ds: seq<Condition>)
    requires FailsAndRaises(text, payload, cs) && outcome != Holds
    ensures multiset(ds) == multiset(cs) && Evaluate(text, payload, ds) == outcome
  {
    hide Evaluate;
    var c :| c in cs && Evaluate(text, payload, [c]) == outcome;
    var i :| 0 <= i < |cs| && cs[i] == c;
    ds := [c] + (cs[..i] + cs[i + 1..]);
    assert cs == cs[..i] + [c] + cs[i + 1..];
    FirstDecides(text, payload, c, cs[..i] + cs[i + 1..]);
  }

  /** Some order of the same conditions has another outcome exactly when one condition fails and another raises. */
  lemma {:induction false} OrderMattersExactly(text: Json -> string, payload: Json, cs: seq<Condition>)
    ensures (exists ds :: multiset(ds) == multiset(cs) && Evaluate(text, payload, ds) != Evaluate(text, payload, cs))
            <==> FailsAndRaises(text, payload, cs)
  {
    hide Evaluate, FailsAndRaises;
    if FailsAndRaises(text, payload, cs) {
      var ds := OrderDecides(text, payload, cs, if Evaluate(text, payload, cs) == Fails then Raises else Fails);
    } else {
      forall ds | multiset(ds) == multiset(cs) ensures Evaluate(text, payload, ds) == Evaluate(text, payload, cs) {
        assert forall c :: c in cs <==> c in multiset(cs);
        assert forall c :: c in ds <==> c in multiset(ds);
        OutcomeIgnoresOrder(text, payload, cs, ds);
      }
    }
  }

  // ---- rules ----

  datatype Rule = Rule(name: string, priority: int, conditions: seq<Condition>)

  function Matching(text: Json -> string, payload: Json, rules: seq<Rule>): seq<Rule> {
    if rules == [] then []
    else
      var last := rules[|rules| - 1];
      Matching(text, payload, rules[..|rules| - 1])
      + if Evaluate(text, payload, last.conditions) == Holds then [last] else []
  }

  predicate Breaks(text: Json -> string, payload: Json, rule: Rule) {
    Evaluate(text, payload, rule.conditions) == Raises
  }

  /** None when some rule's evaluation raises: then the webhook is refused. */
  method MatchRules(text: Json -> string, rules: seq<Rule>, payload: Json) returns (matched: Option<seq<Rule>>)
    ensures matched == None <==> exists r :: r in rules && Breaks(text, payload, r)
    ensures matched.Some? ==> matched.value == Matching(text, payload, rules)
  {
    hide Evaluate;
    var found := [];
    for k := 0 to |rules|
      invariant found == Matching(text, payload, rules[..k])
      invariant forall r | r in rules[..k] :: !Breaks(text, payload, r)
    {
      assert rules[..k + 1][..k] == rules[..k];
      var outcome := EvaluateConditions(text, rules[k].conditions, payload);
      if outcome == Raises {
        assert rules[k] in rules;
        return None;
      }
      if outcome == Holds {
        found := found + [rules[k]];
      }
    }
    assert rules[..|rules|] == rules;
    return Some(found);
  }

  const DEFAULT_PRIORITY := 50

  /** `max(r.priority for r in rules)`. */
  function MaxPriority(rules: seq<Rule>): (p: int)
    requires rules != []
    ensures forall r | r in rules :: r.priority <= p
    ensures exists r :: r in rules && r.priority == p
    decreases |rules|
  {
    var last := rules[|rules| - 1];
    if |rules| == 1 then last.priority
    else
      var front := rules[..|rules| - 1];
      var m := MaxPriority(front);
      assert rules == front + [last];
      assert last in rules;
      if last.priority > m then last.priority else m
  }

  function Priority(matched: seq<Rule>): int {
    if matched == [] then DEFAULT_PRIORITY else MaxPriority(matched)
  }

  /** The matched names and the priority an event is stored with. */
  method IngestWebhook(text: Json -> string, rules: seq<Rule>, payload: Json)
    returns (event: Option<(seq<string>, int)>)
    ensures event == None <==> exists r :: r in rules && Breaks(text, payload, r)
    ensures event.Some? ==>
              var matched := Matching(text, payload, rules);
              && |event.value.0| == |matched| && (forall i | 0 <= i < |matched| :: event.value.0[i] == matched[i].name)
              && event.value.1 == Priority(matched) && (matched == [] ==> event.value.1 == 50)
  {
    hide Matching, Breaks, MaxPriority;
    var matched := MatchRules(text, rules, payload);
    if matched == None {
      return None;
    }
    var found := matched.value;
    var names: seq<string> := seq(|found|, i requires 0 <= i < |found| => found[i].name);
    var priority := DEFAULT_PRIORITY;
    if found != [] {
      priority := MaxPriority(found);
    }
    return Some((names, priority));
  }

  predicate HighestFirst(rules: seq<Rule>) {
    forall i, j | 0 <= i < j < |rules| :: rules[i].priority >= rules[j].priority
  }

  /** The rules that match, in the order of the query: where they stand in it. */
  lemma {:induction false} MatchingSources(text: Json -> string, payload: Json, rules: seq<Rule>)
    returns (src: seq<nat>)
    ensures |src| == |Matching(text, payload, rules)|
    ensures forall i | 0 <= i < |src| ::
              src[i] < |rules| && Evaluate(text, payload, rules[src[i]].conditions) == Holds
              && Matching(text, payload, rules)[i] == rules[src[i]]
    ensures forall i, j | 0 <= i < j < |src| :: src[i] < src[j]
    ensures forall k: nat | k < |rules| && Evaluate(text, payload, rules[k].conditions) == Holds :: k in src
  {
    hide Evaluate;
    if rules == [] {
      src := [];
    } else {
      var n := |rules| - 1;
      src := MatchingSources(text, payload, rules[..n]);
      if Evaluate(text, payload, rules[n].conditions) == Holds {
        src := src + [n];
        assert src[|src| - 1] == n;
      }
    }
  }

  lemma {:induction false} MatchingIsFilter(text: Json -> string, payload: Json, rules: seq<Rule>)
    requires HighestFirst(rules)
    ensures HighestFirst(Matching(text, payload, rules))
    ensures forall r :: r in Matching(text, payload, rules) <==>
            r in rules && Evaluate(text, payload, r.conditions) == Holds
  {
    hide Evaluate;
    if rules != [] {
      var front, last := rules[..|rules| - 1], rules[|rules| - 1];
      MatchingIsFilter(text, payload, front);
      assert rules == front + [last];
      var before := Matching(text, payload, front);
      forall i | 0 <= i < |before| ensures before[i].priority >= last.priority {
        assert before[i] in front;
      }
    }
  }

  /** The query returns the rules highest priority first, so an event's priority is that of the first rule
      it matched, and no rule whose conditions it meets has a larger one. */
  lemma {:induction false} PriorityOfFirst(text: Json -> string, payload: Json, rules: seq<Rule>)
    requires HighestFirst(rules) && Matching(text, payload, rules) != []
    ensures Priority(Matching(text, payload, rules)) == Matching(text, payload, rules)[0].priority
    ensures forall r | r in rules && Evaluate(text, payload, r.conditions) == Holds ::
              r.priority <= Priority(Matching(text, payload, rules))
  {
    hide Evaluate;
    MatchingIsFilter(text, payload, rules);
  }
}
