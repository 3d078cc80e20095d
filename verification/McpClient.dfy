/** Executing a reviewed statement on the tenant's database
    (backend/src/services/mcp_client.py, lines 37-234). */
module McpClient {
  import opened Options
  import opened Text

  datatype Status = Executed | DryRun | Failed

  datatype Failure =
    | NothingToExecute | NotReviewed | BadSecret | BadScheme | BadDsn
    | Timeout | Postgres | Unexpected

  datatype Result = Result(status: Status, rowsAffected: Option<int>, error: Option<Failure>, statement: string,
                           dryRun: bool)

  /** What a decrypted connection string turns out to be. */
  datatype Dsn = Undecryptable | Unparsable | OtherScheme | PostgresDsn

  datatype Fault = TimedOut | PostgresFault | OtherFault

  /** How the statement comes back: an exception or a command tag. */
  datatype Reply = Raised(fault: Fault) | Tag(text: string)

  /** The configuration, and how the outside answers each step of one call. */
  datatype World = World(
    enabled: bool,
    decrypt: string -> Dsn,
    connect: Option<Fault>,
    setTimeout: Option<Fault>,
    execute: Reply,
    commit: Option<Fault>
  )

  // ---- command tags ----

  /** `status.split()`. */
  function Fields(s: string): seq<string>
    decreases |s|
  {
    if s == "" then []
    else if IsSpace(s[0]) then Fields(s[1..])
    else
      var e := FieldEnd(s, 0);
      [s[..e]] + Fields(s[e..])
  }

  function FieldEnd(s: string, i: nat): (e: nat)
    requires i <= |s|
    ensures i <= e <= |s|
    ensures i < |s| && !IsSpace(s[i]) ==> i < e
    decreases |s| - i
  {
    if i < |s| && !IsSpace(s[i]) then FieldEnd(s, i + 1) else i
  }

  /** The value of a run of digits; single underscores may stand between digits. */
  function ParseDigits(s: string): Option<int> {
    if s == "" then None
    else
      var last := s[|s| - 1];
      var front := s[..|s| - 1];
      if !IsDigit(last) then None
      else
        var d := last as int - '0' as int;
        if front == "" then Some(d)
        else
          var rest := ParseDigits(if front[|front| - 1] == '_' then front[..|front| - 1] else front);
          if rest == None then None else Some(10 * rest.value + d)
  }

  /** `int(s)` for a string without white space. */
  function ParseInt(s: string): Option<int> {
    if s != "" && s[0] == '-' then
      match ParseDigits(s[1..])
      case None => None
      case Some(n) => Some(-n)
    else
      match ParseDigits(if s != "" && s[0] == '+' then s[1..] else s)
      case None => None
      case Some(n) => Some(n)
  }

  datatype Parsed = IndexError | Rows(count: Option<int>)

  function ParseRowsAffected(status: string): Parsed {
    if status == "" then Rows(None)
    else
      var parts := Fields(status);
      if parts == [] then IndexError
      else if parts[0] == "INSERT" && |parts| >= 3 then Rows(ParseInt(parts[|parts| - 1]))
      else if parts[0] in ["UPDATE", "DELETE", "SELECT"] && |parts| >= 2 then Rows(ParseInt(parts[|parts| - 1]))
      else Rows(None)
  }

  /** The decimal numeral of a number. */
  function Numeral(n: nat): (s: string)
    ensures s != "" && forall i | 0 <= i < |s| :: IsDigit(s[i])
  {
    var digit := [(n % 10 + '0' as int) as char];
    if n < 10 then digit else Numeral(n / 10) + digit
  }

  lemma {:induction false} NumeralParses(n: nat)
    ensures ParseDigits(Numeral(n)) == Some(n)
  {
    var s := Numeral(n);
    if n >= 10 {
      NumeralParses(n / 10);
      assert s[..|s| - 1] == Numeral(n / 10);
      assert IsDigit(Numeral(n / 10)[|Numeral(n / 10)| - 1]);
    }
  }

  /** A sign before a numeral is read as such. */
  lemma {:induction false} SignedNumerals(n: nat)
    ensures ParseInt(Numeral(n)) == Some(n) && ParseInt("+" + Numeral(n)) == Some(n)
    ensures ParseInt("-" + Numeral(n)).Some? && ParseInt("-" + Numeral(n)).value == 0 - n
  {
    hide Numeral, ParseDigits;
    NumeralParses(n);
    assert IsDigit(Numeral(n)[0]);
    assert ("+" + Numeral(n))[1..] == Numeral(n) && ("-" + Numeral(n))[1..] == Numeral(n);
  }

  predicate NoSpace(s: string) {
    forall i | 0 <= i < |s| :: !IsSpace(s[i])
  }

  lemma {:induction false} FieldEndAt(s: string, i: nat, e: nat)
    requires i <= e <= |s| && (forall k | i <= k < e :: !IsSpace(s[k])) && (e == |s| || IsSpace(s[e]))
    ensures FieldEnd(s, i) == e
    decreases e - i
  {
    if i < e {
      FieldEndAt(s, i + 1, e);
    }
  }

  lemma {:induction false} FieldsCons(word: string, rest: string)
    requires word != "" && NoSpace(word)
    ensures Fields(word + " " + rest) == [word] + Fields(rest)
  {
    var s := word + " " + rest;
    FieldEndAt(s, 0, |word|);
    assert s[..|word|] == word;
    assert s[|word|..] == " " + rest;
    assert Fields(" " + rest) == Fields(rest) by {
      assert (" " + rest)[1..] == rest;
    }
  }

  lemma {:induction false} FieldsStep(s: string)
    ensures s == "" ==> Fields(s) == []
    ensures s != "" && IsSpace(s[0]) ==> Fields(s) == Fields(s[1..])
    ensures s != "" && !IsSpace(s[0]) ==>
              0 < FieldEnd(s, 0) && Fields(s) == [s[..FieldEnd(s, 0)]] + Fields(s[FieldEnd(s, 0)..])
  {
    hide IsSpace;
  }

  /** Any white space separates fields, and a word without white space is one: this determines the fields of every
      command tag. */
  lemma {:induction false} FieldsParts(a: string, c: char, b: string)
    requires IsSpace(c)
    ensures Fields(a + [c] + b) == Fields(a) + Fields(b)
    decreases |a|
  {
    hide IsSpace, Fields, FieldEnd;
    var s := a + [c] + b;
    FieldsStep(s);
    FieldsStep(a);
    if a == "" {
      assert s[1..] == b;
      assert Fields(a) + Fields(b) == Fields(b);
    } else if IsSpace(a[0]) {
      assert s[1..] == a[1..] + [c] + b;
      FieldsParts(a[1..], c, b);
    } else {
      var e := FieldEnd(a, 0);
      FieldEndStops(a, 0);
      FieldEndAt(s, 0, e);
      assert s[..e] == a[..e] && s[e..] == a[e..] + [c] + b;
      FieldsParts(a[e..], c, b);
      assert [a[..e]] + (Fields(a[e..]) + Fields(b)) == ([a[..e]] + Fields(a[e..])) + Fields(b);
    }
  }

  lemma {:induction false} FieldEndStops(s: string, i: nat)
    requires i <= |s|
    ensures forall k | i <= k < FieldEnd(s, i) :: !IsSpace(s[k])
    ensures FieldEnd(s, i) < |s| ==> IsSpace(s[FieldEnd(s, i)])
    decreases |s| - i
  {
    hide IsSpace;
    if i < |s| && !IsSpace(s[i]) {
      FieldEndStops(s, i + 1);
    }
  }

  lemma {:induction false} FieldsOne(word: string)
    requires word != "" && NoSpace(word)
    ensures Fields(word) == [word]
  {
    FieldEndAt(word, 0, |word|);
    assert word[..|word|] == word && word[|word|..] == "";
  }

  lemma {:induction false} CountField(tag: string, parts: seq<string>, n: nat)
    requires tag != "" && Fields(tag) == parts && parts != [] && parts[|parts| - 1] == Numeral(n)
    requires (parts[0] == "INSERT" && |parts| == 3) || (parts[0] in ["UPDATE", "DELETE", "SELECT"] && |parts| == 2)
    ensures ParseRowsAffected(tag) == Rows(Some(n))
  {
    hide Numeral, ParseDigits, Fields;
    NumeralParses(n);
    assert IsDigit(Numeral(n)[0]);
  }

  /** The count of an UPDATE, DELETE or SELECT tag is read back. */
  lemma {:induction false} RowCountRoundTrip(cmd: string, n: nat)
    requires cmd in ["UPDATE", "DELETE", "SELECT"]
    ensures ParseRowsAffected(cmd + " " + Numeral(n)) == Rows(Some(n))
  {
    hide Numeral, ParseRowsAffected, Fields;
    FieldsOne(Numeral(n));
    FieldsCons(cmd, Numeral(n));
    CountField(cmd + " " + Numeral(n), [cmd, Numeral(n)], n);
  }

  /** So is the count of an INSERT tag, which follows an object identifier. */
  lemma {:induction false} InsertCountRoundTrip(oid: string, n: nat)
    requires oid != "" && NoSpace(oid)
    ensures ParseRowsAffected("INSERT" + " " + (oid + " " + Numeral(n))) == Rows(Some(n))
  {
    hide Numeral, ParseRowsAffected, Fields;
    FieldsOne(Numeral(n));
    FieldsCons(oid, Numeral(n));
    FieldsCons("INSERT", oid + " " + Numeral(n));
    CountField("INSERT" + " " + (oid + " " + Numeral(n)), ["INSERT", oid, Numeral(n)], n);
  }

  lemma {:induction false} BlankHasNoFields(s: string)
    ensures Fields(s) == [] <==> IsBlank(s)
    decreases |s|
  {
    if s != "" {
      if IsSpace(s[0]) {
        BlankHasNoFields(s[1..]);
        assert forall i | 1 <= i < |s| :: s[i] == s[1..][i - 1];
      }
    }
  }

  // ---- one call ----

  /** The statement's transaction is committed. */
  predicate Commits(world: World) {
    world.connect == None && world.setTimeout == None && world.execute.Tag? && world.commit == None
  }

  function FailureOf(fault: Fault): Failure {
    match fault
    case TimedOut => Timeout
    case PostgresFault => Postgres
    case OtherFault => Unexpected
  }

  /** A committed statement whose command tag is not empty but has no word in it. */
  predicate BlankTag(world: World) {
    Commits(world) && world.execute.text != "" && IsBlank(world.execute.text)
  }

  /** Every check before the database is reached passes. */
  predicate Reaches(world: World, secret: string, reviewPassed: bool) {
    reviewPassed && world.enabled && world.decrypt(secret) == PostgresDsn
  }

  /** The exception that ends the transaction's call, if any. */
  function FaultOf(world: World): Option<Fault> {
    if world.connect != None then world.connect
    else if world.setTimeout != None then world.setTimeout
    else
      match world.execute
      case Raised(f) => Some(f)
      case Tag(text) =>
        if world.commit != None then world.commit
        else if ParseRowsAffected(text) == IndexError then Some(OtherFault)
        else None
  }

  /** The result of one transaction. */
  function Transaction(world: World, statement: string): Result {
    match FaultOf(world)
    case Some(f) => Result(Failed, None, Some(FailureOf(f)), statement, false)
    case None => Result(Executed, ParseRowsAffected(world.execute.text).count, None, statement, false)
  }

  class TargetDatabase {
    var committed: seq<string>
    var connects: nat
    var closes: nat

    constructor ()
      ensures committed == [] && connects == 0 && closes == 0
    {
      committed, connects, closes := [], 0, 0;
    }

    /** Connect, set the timeout, run the statement in a transaction, close. */
    method ExecuteInTransaction(world: World, statement: string) returns (r: Result)
      modifies this
      ensures committed == old(committed) + if Commits(world) then [statement] else []
      ensures r == Transaction(world, statement)
      ensures connects - closes == old(connects - closes)
      ensures connects == old(connects) + if world.connect == None then 1 else 0
    {
      var fault: Option<Fault> := world.connect;
      var rows: Option<int> := None;
      if fault == None {
        connects := connects + 1;
        fault := world.setTimeout;
        if fault == None {
          match world.execute {
            case Raised(f) =>
              fault := Some(f);
            case Tag(text) =>
              fault := world.commit;
              if fault == None {
                committed := committed + [statement];
                match ParseRowsAffected(text) {
                  case IndexError => fault := Some(OtherFault);
                  case Rows(count) => rows := count;
                }
              }
          }
        }
        closes := closes + 1;
      }
      r := match fault
        case None => Result(Executed, rows, None, statement, false)
        case Some(f) => Result(Failed, None, Some(FailureOf(f)), statement, false);
    }

    /** Refuses a statement that was not reviewed, answers with a dry run when execution is disabled,
        and otherwise executes the statement when the connection string can be used. */
    method ExecuteWrite(world: World, secret: string, statement: string, reviewPassed: bool) returns (r: Result)
      modifies this
      ensures r == Write(world, secret, statement, reviewPassed).0
      ensures committed == old(committed) + if Write(world, secret, statement, reviewPassed).1 then [statement] else []
      ensures connects - closes == old(connects - closes)
      ensures !Reaches(world, secret, reviewPassed) ==> connects == old(connects)
    {
      if !reviewPassed {
        return Result(Failed, None, Some(NotReviewed), statement, true);
      }
      if !world.enabled {
        return Result(DryRun, None, None, statement, true);
      }
      match world.decrypt(secret) {
        case Undecryptable => return Result(Failed, None, Some(BadSecret), statement, true);
        case OtherScheme => return Result(Failed, None, Some(BadScheme), statement, true);
        case Unparsable => return Result(Failed, None, Some(BadDsn), statement, true);
        case PostgresDsn =>
          r := ExecuteInTransaction(world, statement);
      }
    }
  }

  /** The result of one call, and whether the statement was committed. */
  function Write(world: World, secret: string, statement: string, reviewPassed: bool): (Result, bool) {
    if !reviewPassed then (Result(Failed, None, Some(NotReviewed), statement, true), false)
    else if !world.enabled then (Result(DryRun, None, None, statement, true), false)
    else
      match world.decrypt(secret)
      case Undecryptable => (Result(Failed, None, Some(BadSecret), statement, true), false)
      case OtherScheme => (Result(Failed, None, Some(BadScheme), statement, true), false)
      case Unparsable => (Result(Failed, None, Some(BadDsn), statement, true), false)
      case PostgresDsn => (Transaction(world, statement), Commits(world))
  }

  /** The database has committed the statement exactly when the result says executed, except that a
      blank, non-empty command tag is reported as a failure after the commit. */
  lemma {:induction false} CommittedIffExecuted(world: World, secret: string, statement: string, reviewPassed: bool)
    ensures var (result, committed) := Write(world, secret, statement, reviewPassed);
            && (committed <==> result.status == Executed || (Reaches(world, secret, reviewPassed) && BlankTag(world)))
            && (BlankTag(world) ==> result.status != Executed)
            && (committed ==> Reaches(world, secret, reviewPassed))
  {
    if world.execute.Tag? {
      BlankHasNoFields(world.execute.text);
    }
  }

  lemma {:induction false} WriteKeepsStatement(world: World, secret: string, statement: string, reviewPassed: bool)
    ensures Write(world, secret, statement, reviewPassed).0.statement == statement
  {
  }

  /** The first step of the transaction to raise raises this. */
  predicate FirstFault(world: World, fault: Fault) {
    || world.connect == Some(fault)
    || (world.connect == None && world.setTimeout == Some(fault))
    || (world.connect == None && world.setTimeout == None && world.execute == Raised(fault))
    || (world.connect == None && world.setTimeout == None && world.execute.Tag? && world.commit == Some(fault))
  }

  /** Why a call fails: the first check that refuses it, and if none does the first step that raises. */
  lemma {:induction false} FailureReported(world: World, secret: string, statement: string, reviewPassed: bool)
    ensures var r, dsn := Write(world, secret, statement, reviewPassed).0, world.decrypt(secret);
            && (r.error == Some(NotReviewed) <==> !reviewPassed)
            && (r.status == DryRun <==> reviewPassed && !world.enabled)
            && (r.error == Some(BadSecret) <==> reviewPassed && world.enabled && dsn == Undecryptable)
            && (r.error == Some(BadScheme) <==> reviewPassed && world.enabled && dsn == OtherScheme)
            && (r.error == Some(BadDsn) <==> reviewPassed && world.enabled && dsn == Unparsable)
            && (r.error == Some(Timeout) <==> Reaches(world, secret, reviewPassed) && FirstFault(world, TimedOut))
            && (r.error == Some(Postgres) <==> Reaches(world, secret, reviewPassed) && FirstFault(world, PostgresFault))
            && (r.error == Some(Unexpected) <==>
                  Reaches(world, secret, reviewPassed) && (FirstFault(world, OtherFault) || BlankTag(world)))
            && (r.status == Failed <==> r.error.Some?)
            && (r.dryRun <==> !Reaches(world, secret, reviewPassed))
            && r.statement == statement && (r.status != Executed ==> r.rowsAffected == None)
  {
    hide ParseRowsAffected;
    if world.execute.Tag? {
      IndexErrorIff(world.execute.text);
    }
  }

  lemma {:induction false} IndexErrorIff(tag: string)
    ensures ParseRowsAffected(tag) == IndexError <==> tag != "" && IsBlank(tag)
  {
    hide Fields, ParseInt;
    BlankHasNoFields(tag);
  }

  /** A count is read only from a tag of at least three words that begins with INSERT, or of at least two that begins
      with UPDATE, DELETE or SELECT, and it is the number that the last word spells. */
  lemma {:induction false} CountOnlyFrom(tag: string, n: int)
    requires ParseRowsAffected(tag) == Rows(Some(n))
    ensures var words := Fields(tag);
            && words != [] && ParseInt(words[|words| - 1]) == Some(n)
            && ((words[0] == "INSERT" && |words| >= 3) || (words[0] in ["UPDATE", "DELETE", "SELECT"] && |words| >= 2))
  {
    hide Fields, ParseInt;
  }

  /** An executed statement is reported with the count in its command tag. */
  lemma {:induction false} CountReported(world: World, secret: string, statement: string, cmd: string, n: nat)
    requires Reaches(world, secret, true) && Commits(world) && cmd in ["UPDATE", "DELETE", "SELECT"]
    requires world.execute.text == cmd + " " + Numeral(n)
    ensures Write(world, secret, statement, true) == (Result(Executed, Some(n), None, statement, false), true)
  {
    hide ParseRowsAffected, Numeral;
    RowCountRoundTrip(cmd, n);
  }
}
