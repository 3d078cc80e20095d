/** The agent's state machine (backend/src/agents/graph.py and backend/src/agents/nodes). */
module Agent {
  import opened Options
  import opened SchemaReflection
  import opened Text
  import McpClient
  import Sandbox

  datatype Intent = Read | Write | Unknown
  datatype Node = Classify | Research | Code | Review | Heal | Execute | Format

  datatype ReviewError = NoCode | Fallback(error: Sandbox.Error) | Container(text: string)
  datatype Verdict = Verdict(passed: bool, errors: seq<ReviewError>)

  datatype Message =
    | Said(text: string)
    | NoSession
    | NoDocuments
    | RetriesExceeded(maxRetries: int, errors: seq<ReviewError>)
    | UnableToGenerate(maxRetries: int, errors: seq<ReviewError>)
    | WithExecution(base: Message, status: McpClient.Status)

  datatype State = State(
    query: string,
    connection: Option<string>,
    schema: Option<SchemaGraph>,
    intent: Intent,
    citations: seq<string>,
    code: Option<string>,
    reviewPassed: Option<bool>,
    reviewErrors: seq<ReviewError>,
    retryCount: int,
    maxRetries: int,
    finalResponse: Option<Message>,
    execution: Option<McpClient.Result>,
    error: Option<Message>,
    tokensUsed: int,
    traces: seq<Node>
  )

  /** The state a run starts in. */
  function Start(query: string, connection: Option<string>, schema: Option<SchemaGraph>, maxRetries: int): State {
    State(query, connection, schema, Unknown, [], None, None, [], 0, maxRetries, None, None, None, 0, [])
  }

  /** The fields a node returns; the others keep their value. */
  datatype Update = Update(
    nameonly traces: seq<Node>,
    nameonly intent: Option<Intent> := None,
    nameonly citations: Option<seq<string>> := None,
    nameonly code: Option<string> := None,
    nameonly reviewPassed: Option<bool> := None,
    nameonly reviewErrors: Option<seq<ReviewError>> := None,
    nameonly retryCount: Option<int> := None,
    nameonly finalResponse: Option<Message> := None,
    nameonly execution: Option<McpClient.Result> := None,
    nameonly error: Option<Message> := None,
    nameonly tokensUsed: Option<int> := None
  )

  function Or<T>(given: Option<T>, kept: T): T {
    if given.Some? then given.value else kept
  }

  function OrKeep<T>(given: Option<T>, kept: Option<T>): Option<T> {
    if given.Some? then given else kept
  }

  function Merge(s: State, u: Update): State {
    State(s.query, s.connection, s.schema, Or(u.intent, s.intent), Or(u.citations, s.citations), OrKeep(u.code, s.code),
          OrKeep(u.reviewPassed, s.reviewPassed), Or(u.reviewErrors, s.reviewErrors), Or(u.retryCount, s.retryCount),
          s.maxRetries, OrKeep(u.finalResponse, s.finalResponse), OrKeep(u.execution, s.execution),
          OrKeep(u.error, s.error), Or(u.tokensUsed, s.tokensUsed), u.traces)
  }

  // ---- what the nodes ask the outside ----

  datatype Prompt =
    | ClassifyPrompt(query: string)
    | ResearchPrompt(context: string, query: string)
    | CodePrompt(schema: Option<SchemaGraph>, query: string)
    | HealPrompt(code: string, errors: seq<ReviewError>)

  datatype Completion = Raises | Completion(text: string, tokens: int)

  datatype Found = Unavailable | SearchRaises | Nothing | Hits(context: string, citations: seq<string>)

  type Sandboxed = (string, Option<SchemaGraph>) -> Option<Verdict>

  /** How the outside answers during one visit. `container` is None when the sandbox container cannot
      be used. For the coder, the text of a completion is the `sql` entry of the model's JSON answer,
      and an answer that cannot be used raises. */
  datatype Answers = Answers(
    model: Prompt -> Completion,
    found: Found,
    container: Sandboxed,
    secret: string,
    world: McpClient.World
  )

  datatype Outcome = Raised | Done(update: Update, executed: Option<string>, committed: bool)

  function Plain(u: Update): Outcome {
    Done(u, None, false)
  }

  // ---- the nodes ----

  function ClassifyNode(s: State, a: Answers): Outcome {
    match a.model(ClassifyPrompt(s.query))
    case Raises => Raised
    case Completion(text, tokens) =>
      Plain(Update(intent := Some(if Lower(Strip(text)) == "write" then Write else Read),
                   tokensUsed := Some(s.tokensUsed + tokens), traces := [Classify]))
  }

  function ResearchNode(s: State, a: Answers): Outcome {
    match a.found
    case Unavailable =>
      Plain(Update(finalResponse := Some(NoSession), citations := Some([]), tokensUsed := Some(s.tokensUsed),
                   traces := [Research]))
    case SearchRaises => Raised
    case Nothing =>
      Plain(Update(finalResponse := Some(NoDocuments), citations := Some([]), tokensUsed := Some(s.tokensUsed),
                   traces := [Research]))
    case Hits(context, citations) =>
      match a.model(ResearchPrompt(context, s.query))
      case Raises => Raised
      case Completion(text, tokens) =>
        Plain(Update(finalResponse := Some(Said(text)), citations := Some(citations),
                     tokensUsed := Some(s.tokensUsed + tokens), traces := [Research]))
  }

  function CodeNode(s: State, a: Answers): Outcome {
    match a.model(CodePrompt(s.schema, s.query))
    case Raises => Raised
    case Completion(sql, tokens) =>
      Plain(Update(code := Some(sql), tokensUsed := Some(s.tokensUsed + tokens), traces := [Code]))
  }

  function CodeOf(s: State): string {
    Or(s.code, "")
  }

  function TablesOf(schema: Option<SchemaGraph>): seq<Table> {
    if schema.Some? then schema.value.tables else []
  }

  function Errors(errors: seq<Sandbox.Error>): seq<ReviewError> {
    seq(|errors|, i requires 0 <= i < |errors| => Fallback(errors[i]))
  }

  /** The container's verdict, or the in-process validator's when there is none. */
  function Validate(code: string, schema: Option<SchemaGraph>, container: Sandboxed): Verdict {
    match container(code, schema)
    case Some(verdict) => verdict
    case None => Verdict(Sandbox.Passes(code, TablesOf(schema)), Errors(Sandbox.Errors(code, TablesOf(schema))))
  }

  function ReviewNode(s: State, a: Answers): Outcome {
    if IsBlank(CodeOf(s)) then
      Plain(Update(reviewPassed := Some(false), reviewErrors := Some([NoCode]), traces := [Review]))
    else
      var verdict := Validate(CodeOf(s), s.schema, a.container);
      Plain(Update(reviewPassed := Some(verdict.passed), reviewErrors := Some(verdict.errors), traces := [Review]))
  }

  predicate BailsOut(s: State) {
    s.retryCount + 1 > s.maxRetries
  }

  function HealNode(s: State, a: Answers): Outcome {
    var retryCount := s.retryCount + 1;
    if BailsOut(s) then
      Plain(Update(retryCount := Some(retryCount), error := Some(RetriesExceeded(s.maxRetries, s.reviewErrors)),
                   finalResponse := Some(UnableToGenerate(s.maxRetries, s.reviewErrors)), traces := [Heal]))
    else
      match a.model(HealPrompt(CodeOf(s), s.reviewErrors))
      case Raises => Raised
      case Completion(text, tokens) =>
        Plain(Update(code := Some(Strip(text)), retryCount := Some(retryCount), reviewPassed := Some(false),
                     reviewErrors := Some([]),
                     tokensUsed := Some(s.tokensUsed + tokens), traces := [Heal]))
  }

  function ExecuteNode(s: State, a: Answers): Outcome {
    if IsBlank(CodeOf(s)) then
      Plain(Update(execution := Some(McpClient.Result(McpClient.Failed, None, Some(McpClient.NothingToExecute),
                                                      "", true)),
                   traces := [Execute]))
    else
      var secret := if Or(s.connection, "") == "" then "" else a.secret;
      var (result, committed) := McpClient.Write(a.world, secret, CodeOf(s), s.reviewPassed == Some(true));
      Done(Update(execution := Some(result), traces := [Execute]), Some(CodeOf(s)), committed)
  }

  function FormatNode(s: State): Outcome {
    var response := if s.finalResponse.Some? then s.finalResponse.value else Said("");
    var shown := if response == Said("") && s.error.Some? then s.error.value else response;
    Plain(Update(finalResponse := Some(if s.intent == Write && s.execution.Some?
                                       then WithExecution(shown, s.execution.value.status) else shown),
                 traces := s.traces + [Format]))
  }

  function Act(node: Node, s: State, a: Answers): Outcome {
    match node
    case Classify => ClassifyNode(s, a)
    case Research => ResearchNode(s, a)
    case Code => CodeNode(s, a)
    case Review => ReviewNode(s, a)
    case Heal => HealNode(s, a)
    case Execute => ExecuteNode(s, a)
    case Format => FormatNode(s)
  }

  // ---- the graph ----

  function Route(node: Node, s: State): Option<Node> {
    match node
    case Classify => Some(match s.intent case Read => Research case Write => Code case Unknown => Format)
    case Research => Some(Format)
    case Code => Some(Review)
    case Review => Some(if s.reviewPassed == Some(true) then Execute else Heal)
    case Heal => Some(if s.error.Some? || s.retryCount >= s.maxRetries then Format else Code)
    case Execute => Some(Format)
    case Format => None
  }

  datatype Visit = Visit(node: Node, before: State, outcome: Outcome)

  function After(v: Visit): State {
    if v.outcome.Done? then Merge(v.before, v.outcome.update) else v.before
  }

  type Env = nat -> Answers

  function Budget(s: State): nat {
    if s.maxRetries > s.retryCount then s.maxRetries - s.retryCount else 0
  }

  function Rank(node: Node): nat {
    match node
    case Classify => 5
    case Code => 4
    case Review => 3
    case Heal | Execute | Research => 2
    case Format => 1
  }

  /** Every edge of the graph lowers the remaining budget, or keeps it and lowers the rank of the node. */
  lemma {:induction false} EdgeDescends(node: Node, s: State, a: Answers)
    requires Act(node, s, a).Done? && Route(node, After(Visit(node, s, Act(node, s, a)))).Some?
    ensures var t := After(Visit(node, s, Act(node, s, a)));
            Budget(t) < Budget(s) || (Budget(t) <= Budget(s) && Rank(Route(node, t).value) < Rank(node))
  {
    hide Validate, Strip, IsBlank, McpClient.Write;
  }

  /** The visits of a run that enters `node` in state `s`; the i-th visit is answered by `env(i)`. */
  function RunFrom(node: Node, s: State, env: Env, i: nat): seq<Visit>
    decreases Budget(s), Rank(node)
  {
    var visit := Visit(node, s, Act(node, s, env(i)));
    if Ends(visit) then [visit]
    else
      EdgeDescends(node, s, env(i));
      [visit] + RunFrom(Route(node, After(visit)).value, After(visit), env, i + 1)
  }

  datatype Result = Result(answer: Option<Message>, intent: Intent, citations: seq<string>,
                           execution: Option<McpClient.Result>,
                           tokensInput: int, tokensOutput: int, traces: seq<Node>)

  function ResultOf(s: State): Result {
    Result(s.finalResponse, s.intent, s.citations, s.execution, s.tokensUsed, s.tokensUsed, s.traces)
  }

  predicate Completed(v: seq<Visit>) {
    v != [] && v[|v| - 1].node == Format && v[|v| - 1].outcome.Done?
  }

  function Final(v: seq<Visit>): State
    requires Completed(v)
  {
    After(v[|v| - 1])
  }

  // ---- a run is exactly a chain of visits along the graph's edges ----

  ghost predicate Follows(u: Visit, w: Visit) {
    u.outcome.Done? && Route(u.node, After(u)) == Some(w.node) && w.before == After(u)
  }

  predicate Ends(v: Visit) {
    v.outcome.Raised? || Route(v.node, After(v)) == None
  }

  /** The k-th visit does what its node does with the answers it gets. */
  ghost predicate ActsAt(v: seq<Visit>, k: nat, env: Env, i: nat)
    requires k < |v|
  {
    v[k].outcome == Act(v[k].node, v[k].before, env(i + k))
  }

  /** The first visit is the one the run starts with, every other is where the graph goes from the one
      before, and after the last it goes nowhere. */
  ghost predicate LinkAt(v: seq<Visit>, k: nat, node: Node, s: State)
    requires v != [] && k <= |v|
  {
    if k == 0 then v[0].node == node && v[0].before == s
    else if k < |v| then Follows(v[k - 1], v[k])
    else Ends(v[k - 1])
  }

  ghost predicate IsRun(v: seq<Visit>, node: Node, s: State, env: Env, i: nat) {
    && v != []
    && (forall k | 0 <= k <= |v| :: LinkAt(v, k, node, s))
    && (forall k | 0 <= k < |v| :: ActsAt(v, k, env, i))
  }

  lemma {:induction false} IsRunCons(u: Visit, rest: seq<Visit>, node: Node, env: Env, i: nat)
    requires u.outcome == Act(u.node, u.before, env(i)) && u.outcome.Done? && Route(u.node, After(u)) == Some(node)
    requires IsRun(rest, node, After(u), env, i + 1)
    ensures IsRun([u] + rest, u.node, u.before, env, i)
  {
    hide Act, Merge, Route, Ends;
    var v := [u] + rest;
    forall k | 0 <= k < |v| ensures ActsAt(v, k, env, i) {
      if k > 0 {
        assert ActsAt(rest, k - 1, env, i + 1);
        assert i + k == (i + 1) + (k - 1);
      }
    }
    forall k | 0 <= k <= |v| ensures LinkAt(v, k, u.node, u.before) {
      if k > 0 {
        assert LinkAt(rest, k - 1, node, After(u));
      }
    }
  }

  lemma {:induction false} RunIsChain(node: Node, s: State, env: Env, i: nat)
    ensures IsRun(RunFrom(node, s, env, i), node, s, env, i)
    decreases Budget(s), Rank(node)
  {
    hide Act, Merge, Route, IsRun;
    var visit := Visit(node, s, Act(node, s, env(i)));
    if Ends(visit) {
      OneVisit(visit, env, i);
    } else {
      EdgeDescends(node, s, env(i));
      RunIsChain(Route(node, After(visit)).value, After(visit), env, i + 1);
      IsRunCons(visit, RunFrom(Route(node, After(visit)).value, After(visit), env, i + 1),
                Route(node, After(visit)).value, env, i);
    }
  }

  lemma {:induction false} OneVisit(u: Visit, env: Env, i: nat)
    requires u.outcome == Act(u.node, u.before, env(i)) && Ends(u)
    ensures IsRun([u], u.node, u.before, env, i)
  {
    hide Act, Merge, Route, Ends;
    assert i + 0 == i;
    assert ActsAt([u], 0, env, i);
  }

  lemma {:induction false} RunHead(v: seq<Visit>, node: Node, s: State, env: Env, i: nat)
    requires IsRun(v, node, s, env, i)
    ensures |v| > 1 ==> Follows(v[0], v[1]) && IsRun(v[1..], v[1].node, v[1].before, env, i + 1)
    ensures |v| == 1 <==> Ends(v[0])
    ensures v[0] == Visit(node, s, Act(node, s, env(i)))
  {
    hide Act, Merge, Route;
    assert ActsAt(v, 0, env, i);
    assert i + 0 == i;
    assert LinkAt(v, 0, node, s) && LinkAt(v, 1, node, s);
    if |v| > 1 {
      RunTail(v, node, s, env, i);
    }
  }

  lemma {:induction false} RunTail(v: seq<Visit>, node: Node, s: State, env: Env, i: nat)
    requires IsRun(v, node, s, env, i) && |v| > 1
    ensures IsRun(v[1..], v[1].node, v[1].before, env, i + 1)
  {
    hide Act, Follows, Ends;
    var rest, next := v[1..], i + 1;
    forall k | 0 <= k < |rest| ensures ActsAt(rest, k, env, next) {
      assert next + k == i + (k + 1);
      assert ActsAt(v, k + 1, env, i);
    }
    forall k | 0 <= k <= |rest| ensures LinkAt(rest, k, v[1].node, v[1].before) {
      assert LinkAt(v, k + 1, node, s);
    }
  }

  lemma {:induction false} OnlyRun(v: seq<Visit>, node: Node, s: State, env: Env, i: nat)
    requires IsRun(v, node, s, env, i)
    ensures v == RunFrom(node, s, env, i)
    decreases |v|
  {
    hide Act, Merge, Route, IsRun;
    RunHead(v, node, s, env, i);
    RunNotEmpty(v, node, s, env, i);
    if |v| > 1 {
      OnlyRun(v[1..], v[1].node, v[1].before, env, i + 1);
    }
    assert v == [v[0]] + v[1..];
  }

  lemma {:induction false} RunNotEmpty(v: seq<Visit>, node: Node, s: State, env: Env, i: nat)
    requires IsRun(v, node, s, env, i)
    ensures v != []
  {
  }

  // ---- what holds at every visit ----

  predicate Initial(s: State) {
    s == Start(s.query, s.connection, s.schema, s.maxRetries)
  }

  /** `v` is the run that starts in `s`. */
  ghost predicate AgentRun(v: seq<Visit>, s: State, env: Env) {
    Initial(s) && IsRun(v, Classify, s, env, 0)
  }

  /** Whatever the outside answers there is exactly one run, and it ends. */
  lemma {:induction false} ExactlyOneRun(s: State, env: Env, v: seq<Visit>)
    requires Initial(s)
    ensures AgentRun(v, s, env) <==> v == RunFrom(Classify, s, env, 0)
  {
    hide Initial, IsRun, RunFrom;
    RunIsChain(Classify, s, env, 0);
    if IsRun(v, Classify, s, env, 0) {
      OnlyRun(v, Classify, s, env, 0);
    }
  }

  lemma {:induction false} VisitOf(v: seq<Visit>, s: State, env: Env, k: nat)
    requires AgentRun(v, s, env) && k < |v|
    ensures v[k].outcome == Act(v[k].node, v[k].before, env(k))
    ensures k > 0 ==> Follows(v[k - 1], v[k])
    ensures k == 0 ==> v[k].node == Classify && v[k].before == s
    ensures k == |v| - 1 ==> Ends(v[k])
  {
    hide Act, Follows, Ends;
    assert ActsAt(v, k, env, 0);
    assert LinkAt(v, k, Classify, s) && LinkAt(v, k + 1, Classify, s);
  }

  /** What a run that started in `s` keeps: its inputs, the intent its path belongs to, and the retry budget. */
  predicate Sound(v: Visit, s: State) {
    var t := v.before;
    && t.query == s.query && t.connection == s.connection && t.schema == s.schema && t.maxRetries == s.maxRetries
    && (v.node == Classify ==> t == s)
    && (v.node in {Code, Review, Heal, Execute} ==>
          t.intent == Write && (t.retryCount == 0 || 0 < t.retryCount < t.maxRetries))
    && (v.node == Research ==> t.intent == Read)
    && (v.node != Format ==> t.error == None && t.execution == None && t.finalResponse == None)
    && (v.node == Format ==> t.error.Some? ==> s.maxRetries <= 0)
    && (t.citations != [] ==> t.intent == Read)
  }

  lemma {:induction false} SoundStep(u: Visit, w: Visit, s: State, a: Answers)
    requires Initial(s) && Sound(u, s) && u.outcome == Act(u.node, u.before, a) && Follows(u, w)
    ensures Sound(w, s)
  {
    hide Validate, Strip, IsBlank, Sandbox.Passes, McpClient.Write;
    match u.node
    case Classify =>
    case Research =>
    case Code =>
    case Review =>
    case Heal =>
    case Execute =>
    case Format =>
  }

  lemma {:induction false} StartSound(s: State, env: Env, v: seq<Visit>)
    requires AgentRun(v, s, env)
    ensures Sound(v[0], s) && Initial(s)
  {
    hide Act, Route, Merge, Ends;
    assert LinkAt(v, 0, Classify, s);
  }

  lemma {:induction false} VisitSound(v: seq<Visit>, s: State, env: Env, k: nat)
    requires AgentRun(v, s, env) && k < |v|
    ensures Sound(v[k], s)
  {
    hide Sound, Act, Follows, AgentRun, Initial;
    StartSound(s, env, v);
    if k > 0 {
      VisitSound(v, s, env, k - 1);
      VisitOf(v, s, env, k - 1);
      VisitOf(v, s, env, k);
      SoundStep(v[k - 1], v[k], s, env(k - 1));
    }
  }

  // ---- what reaches the database ----

  /** The statement a visit hands to the executor. */
  function Executed(v: Visit): Option<string> {
    if v.outcome.Done? then v.outcome.executed else None
  }

  predicate CommittedBy(v: Visit) {
    v.outcome.Done? && v.outcome.committed
  }

  /** The result of the call an Execute visit makes, and whether its statement was committed. */
  function CallOf(u: Visit, a: Answers): (McpClient.Result, bool) {
    var secret := if Or(u.before.connection, "") == "" then "" else a.secret;
    McpClient.Write(a.world, secret, CodeOf(u.before), u.before.reviewPassed == Some(true))
  }

  lemma {:induction false} ReviewedBefore(u: Visit, w: Visit, a: Answers)
    requires u.outcome == Act(u.node, u.before, a) && Follows(u, w) && w.node == Execute
    ensures u.node == Review && LetThrough(CodeOf(u.before), u.before.schema, a.container)
    ensures w.before.code == u.before.code && w.before.reviewPassed == Some(true)
  {
    hide Sandbox.Passes, Sandbox.Errors, IsBlank, McpClient.Write;
  }

  lemma {:induction false} WrittenBefore(u: Visit, w: Visit, a: Answers)
    requires u.outcome == Act(u.node, u.before, a) && Follows(u, w) && w.node == Review
    ensures u.node == Code && a.model(CodePrompt(u.before.schema, u.before.query)).Completion?
    ensures w.before.code == Some(a.model(CodePrompt(u.before.schema, u.before.query)).text)
  {
    hide Validate, IsBlank, McpClient.Write;
  }

  lemma {:induction false} ExecuteVisit(w: Visit, a: Answers)
    requires w.node == Execute && w.outcome == Act(Execute, w.before, a)
    ensures w.outcome.Done? && Route(Execute, After(w)) == Some(Format)
    ensures Executed(w).Some? <==> !IsBlank(CodeOf(w.before))
    ensures Executed(w).Some? ==>
              Executed(w) == Some(CodeOf(w.before)) && CommittedBy(w) == CallOf(w, a).1
                && After(w).execution == Some(CallOf(w, a).0)
  {
    hide IsBlank, McpClient.Write;
  }

  lemma {:induction false} OtherVisit(w: Visit, a: Answers)
    requires w.outcome == Act(w.node, w.before, a) && w.node != Execute
    ensures Executed(w) == None && !CommittedBy(w)
    ensures w.outcome.Done? ==> After(w).execution == w.before.execution
  {
    hide Validate, IsBlank, Strip;
  }

  lemma {:induction false} FormatVisit(w: Visit, a: Answers)
    requires w.node == Format && w.outcome == Act(Format, w.before, a)
    ensures w.outcome.Done? && Route(Format, After(w)) == None
    ensures ResultOf(After(w)) == ResultOf(w.before).(answer := After(w).finalResponse,
                                                      traces := w.before.traces + [Format])
  {
    hide ClassifyNode, ResearchNode, CodeNode, ReviewNode, HealNode, ExecuteNode;
  }

  lemma {:induction false} FormatIsLast(v: seq<Visit>, s: State, env: Env, j: nat)
    requires AgentRun(v, s, env) && j < |v| && v[j].node == Format
    ensures j == |v| - 1 && Completed(v)
  {
    hide AgentRun, Act, Follows;
    VisitOf(v, s, env, j);
    FormatVisit(v[j], env(j));
    if j + 1 < |v| {
      VisitOf(v, s, env, j + 1);
      NothingFollowsFormat(v[j], v[j + 1]);
    }
  }

  lemma {:induction false} NothingFollowsFormat(u: Visit, w: Visit)
    ensures u.node == Format ==> !Follows(u, w)
  {
  }

  lemma {:induction false} AnotherVisit(v: seq<Visit>, s: State, env: Env, k: nat)
    requires AgentRun(v, s, env) && k < |v| && v[k].outcome.Done? && Route(v[k].node, After(v[k])).Some?
    ensures k + 1 < |v| && v[k + 1].node == Route(v[k].node, After(v[k])).value
  {
    hide Act, Merge, Route;
    VisitOf(v, s, env, k);
    if k + 1 < |v| {
      VisitOf(v, s, env, k + 1);
    }
  }

  /** The review lets a statement through: the container said so, or, where it gave no verdict, the in-process
      validator. */
  predicate LetThrough(sql: string, schema: Option<SchemaGraph>, container: Sandboxed) {
    && !IsBlank(sql)
    && match container(sql, schema)
       case Some(verdict) => verdict.passed
       case None => Sandbox.Passes(sql, TablesOf(schema))
  }

  /** What the review notes about a statement. */
  predicate Noted(errors: seq<ReviewError>, sql: string, schema: Option<SchemaGraph>, container: Sandboxed) {
    if IsBlank(sql) then errors == [NoCode]
    else
      match container(sql, schema)
      case Some(verdict) => errors == verdict.errors
      case None =>
        var found := Sandbox.Errors(sql, TablesOf(schema));
        |errors| == |found| && forall i | 0 <= i < |errors| :: errors[i] == Fallback(found[i])
  }

  lemma {:induction false} TablesAre(schema: Option<SchemaGraph>)
    ensures schema == None ==> TablesOf(schema) == []
    ensures schema.Some? ==> TablesOf(schema) == schema.value.tables
  {
  }

  lemma {:induction false} ReviewVisit(u: Visit, w: Visit, a: Answers)
    requires u.node == Review && u.outcome == Act(Review, u.before, a) && Follows(u, w)
    ensures w.node == if LetThrough(CodeOf(u.before), u.before.schema, a.container) then Execute else Heal
    ensures Noted(w.before.reviewErrors, CodeOf(u.before), u.before.schema, a.container)
    ensures w.before.code == u.before.code
  {
    hide IsBlank, Sandbox.Passes, Sandbox.Errors;
  }

  lemma {:induction false} ReviewGoesOn(u: Visit, a: Answers)
    requires u.node == Review && u.outcome == Act(Review, u.before, a)
    ensures u.outcome.Done? && Route(Review, After(u)).Some?
  {
    hide IsBlank, Validate;
  }

  /** Every review is of what the coder wrote just before. It is followed by the executor, which is handed that very
      statement, exactly when the container lets it through, or the in-process validator where the container gives no
      verdict, and by the self-heal otherwise, which finds the reviewer's errors. */
  lemma {:induction false} ReviewDecides(v: seq<Visit>, s: State, env: Env, k: nat)
    requires AgentRun(v, s, env) && k < |v| && v[k].node == Review
    ensures 0 < k && k + 1 < |v| && v[k - 1].node == Code
    ensures env(k - 1).model(CodePrompt(s.schema, s.query)).Completion?
    ensures var sql := env(k - 1).model(CodePrompt(s.schema, s.query)).text;
            && v[k + 1].node == (if LetThrough(sql, s.schema, env(k).container) then Execute else Heal)
            && Noted(v[k + 1].before.reviewErrors, sql, s.schema, env(k).container)
            && v[k + 1].before.code == Some(sql)
            && Executed(v[k + 1]) == if v[k + 1].node == Execute then Some(sql) else None
  {
    hide AgentRun, Act, Follows, IsBlank, Validate, Merge, Route, Executed, LetThrough, Noted;
    VisitOf(v, s, env, k);
    VisitOf(v, s, env, k - 1);
    WrittenBefore(v[k - 1], v[k], env(k - 1));
    VisitSound(v, s, env, k);
    VisitSound(v, s, env, k - 1);
    ReviewGoesOn(v[k], env(k));
    AnotherVisit(v, s, env, k);
    VisitOf(v, s, env, k + 1);
    ReviewVisit(v[k], v[k + 1], env(k));
    if v[k + 1].node == Execute {
      ExecutedIsReviewed(v, s, env, k + 1);
    } else {
      OtherVisit(v[k + 1], env(k + 1));
    }
  }

  /** The coder and the reviewer are visited right before the k-th visit, which hands to the executor
      what the coder wrote at that attempt. It is not blank, and against the run's schema the container passed it, or
      the in-process validator where the container gave no verdict. */
  predicate ReviewedStatement(v: seq<Visit>, s: State, env: Env, k: nat)
    requires k < |v|
  {
    && k >= 3 && v[k - 1].node == Review && v[k - 2].node == Code
    && var sql := env(k - 2).model(CodePrompt(s.schema, s.query));
    && sql.Completion? && Executed(v[k]) == Some(sql.text)
    && !IsBlank(sql.text)
    && match env(k - 1).container(sql.text, s.schema)
       case Some(verdict) => verdict.passed
       case None => Sandbox.Passes(sql.text, TablesOf(s.schema))
  }

  /** The executor's visit is the last but one, on the write path, and its statement is the one just
      written and reviewed: a self-heal's text never gets there. */
  lemma {:induction false} ExecutedIsReviewed(v: seq<Visit>, s: State, env: Env, k: nat)
    requires AgentRun(v, s, env) && k < |v| && v[k].node == Execute
    ensures |v| == k + 2 && Completed(v) && v[k].before.intent == Write
    ensures ReviewedStatement(v, s, env, k)
  {
    hide AgentRun, Act, Follows, IsBlank, Validate, Merge, Route, Executed, CommittedBy;
    VisitOf(v, s, env, k);
    VisitOf(v, s, env, k - 1);
    ReviewedBefore(v[k - 1], v[k], env(k - 1));
    VisitOf(v, s, env, k - 2);
    WrittenBefore(v[k - 2], v[k - 1], env(k - 2));
    VisitSound(v, s, env, k);
    VisitSound(v, s, env, k - 1);
    VisitSound(v, s, env, k - 2);
    ExecuteVisit(v[k], env(k));
    AnotherVisit(v, s, env, k);
    FormatIsLast(v, s, env, k + 1);
  }

  /** Where the in-process validator reviewed the executed statement, none of the forbidden words and shapes stands in
      it, it has a placeholder if it writes, and its references to the tables of the run's schema name their columns. */
  lemma {:induction false} ExecutedPassesFallback(v: seq<Visit>, s: State, env: Env, k: nat)
    requires AgentRun(v, s, env) && k < |v| && v[k].node == Execute
    requires k > 0 && env(k - 1).container(Or(Executed(v[k]), ""), s.schema) == None
    ensures Executed(v[k]).Some?
    ensures var sql := Executed(v[k]).value;
            && Sandbox.Harmless(sql) && (Sandbox.HasWrite(sql) ==> Sandbox.HasPlaceholder(sql))
            && (s.schema.Some? ==>
                  forall ref | ref in Sandbox.Refs(sql) :: Sandbox.ColumnKnown(ref, s.schema.value.tables))
  {
    hide AgentRun, Executed, IsBlank, Sandbox.Passes, Sandbox.Harmless, Sandbox.HasWrite, Sandbox.HasPlaceholder,
         Sandbox.Refs, Sandbox.ColumnKnown;
    ExecutedIsReviewed(v, s, env, k);
    Sandbox.PassesExactly(Executed(v[k]).value, TablesOf(s.schema));
  }

  /** The executor is called at most once. */
  lemma {:induction false} ExecutesAtMostOnce(v: seq<Visit>, s: State, env: Env, j: nat, k: nat)
    requires AgentRun(v, s, env) && j < |v| && k < |v|
    requires Executed(v[j]).Some? && Executed(v[k]).Some?
    ensures j == k
  {
    hide Act, AgentRun, Executed, Follows;
    CalledAtTheEnd(v, s, env, j);
    CalledAtTheEnd(v, s, env, k);
  }

  lemma {:induction false} CalledAtTheEnd(v: seq<Visit>, s: State, env: Env, k: nat)
    requires AgentRun(v, s, env) && k < |v| && (Executed(v[k]).Some? || CommittedBy(v[k]))
    ensures k == |v| - 2 && v[k].node == Execute
  {
    hide Act, AgentRun, Executed, CommittedBy, Follows;
    VisitOf(v, s, env, k);
    if v[k].node != Execute {
      OtherVisit(v[k], env(k));
    }
    ExecutedIsReviewed(v, s, env, k);
  }

  /** The last visit formats what the last but one left behind. */
  ghost predicate LastTwo(u: Visit, w: Visit, a: Answers) {
    && Follows(u, w) && w.node == Format && w.outcome.Done?
    && ResultOf(After(w)) == ResultOf(After(u)).(answer := After(w).finalResponse, traces := After(u).traces + [Format])
    && u.outcome == Act(u.node, u.before, a)
  }

  lemma {:induction false} LastVisits(v: seq<Visit>, s: State, env: Env)
    requires AgentRun(v, s, env) && Completed(v)
    ensures |v| >= 2 && LastTwo(v[|v| - 2], v[|v| - 1], env(|v| - 2))
  {
    hide Act, AgentRun, Merge;
    VisitOf(v, s, env, 0);
    VisitOf(v, s, env, |v| - 1);
    VisitOf(v, s, env, |v| - 2);
    FormatVisit(v[|v| - 1], env(|v| - 1));
  }

  /** The database has committed the run's statement exactly when the run's result says "executed", except
      that a statement whose command tag is blank but not empty is reported as failed. */
  ghost predicate ExecutionReported(v: seq<Visit>, env: Env)
    requires |v| >= 2 && Completed(v)
  {
    var committed := exists k :: 0 <= k < |v| && CommittedBy(v[k]);
    var execution := Final(v).execution;
    && (execution.Some? && execution.value.status == McpClient.Executed ==> committed)
    && (committed ==>
          && execution.Some? && Executed(v[|v| - 2]) == Some(execution.value.statement)
          && (execution.value.status == McpClient.Executed <==> !McpClient.BlankTag(env(|v| - 2).world)))
  }

  lemma {:induction false} CommittedIffExecuted(v: seq<Visit>, s: State, env: Env)
    requires AgentRun(v, s, env) && Completed(v)
    ensures |v| >= 2 && ExecutionReported(v, env)
  {
    hide Act, IsBlank, Executed, CommittedBy, Follows, AgentRun, Merge;
    LastVisits(v, s, env);
    var e := |v| - 2;
    forall k | 0 <= k < |v| && CommittedBy(v[k]) ensures k == e && v[e].node == Execute {
      CalledAtTheEnd(v, s, env, k);
    }
    if v[e].node == Execute {
      ExecutedIsReviewed(v, s, env, e);
      ExecuteReports(v[e], env(e));
    } else {
      VisitSound(v, s, env, e);
      OtherVisit(v[e], env(e));
      FollowedIsDone(v[e], v[e + 1]);
    }
  }

  lemma {:induction false} FollowedIsDone(u: Visit, w: Visit)
    requires Follows(u, w)
    ensures u.outcome.Done? && u.node != Format
  {
  }

  lemma {:induction false} ExecuteReports(w: Visit, a: Answers)
    requires w.node == Execute && w.outcome == Act(Execute, w.before, a) && Executed(w).Some?
    ensures w.outcome.Done? && After(w).execution.Some? && Executed(w) == Some(After(w).execution.value.statement)
    ensures CommittedBy(w) ==> (After(w).execution.value.status == McpClient.Executed <==> !McpClient.BlankTag(a.world))
    ensures After(w).execution.value.status == McpClient.Executed ==> CommittedBy(w)
  {
    hide Act, IsBlank, Merge, Route, Executed, CommittedBy, McpClient.Write, McpClient.BlankTag, McpClient.Commits;
    ExecuteVisit(w, a);
    var secret := if Or(w.before.connection, "") == "" then "" else a.secret;
    McpClient.CommittedIffExecuted(a.world, secret, CodeOf(w.before), w.before.reviewPassed == Some(true));
    McpClient.WriteKeepsStatement(a.world, secret, CodeOf(w.before), w.before.reviewPassed == Some(true));
  }

  /** A run without a connection passes the empty connection string: unless that decrypts to a database's
      address, it commits nothing. The runs of webhook events are of this kind. */
  lemma {:induction false} WithoutConnectionNothingCommits(v: seq<Visit>, s: State, env: Env, k: nat)
    requires AgentRun(v, s, env) && k < |v| && Or(s.connection, "") == ""
    requires env(k).world.decrypt("") != McpClient.PostgresDsn
    ensures !CommittedBy(v[k])
  {
    hide Act, AgentRun, Executed, CommittedBy, Follows, McpClient.Write, McpClient.Commits, McpClient.BlankTag;
    if CommittedBy(v[k]) {
      CalledAtTheEnd(v, s, env, k);
      VisitOf(v, s, env, k);
      VisitSound(v, s, env, k);
      ExecutedIsReviewed(v, s, env, k);
      ExecuteVisit(v[k], env(k));
      McpClient.CommittedIffExecuted(env(k).world, "", CodeOf(v[k].before), v[k].before.reviewPassed == Some(true));
    }
  }

  /** The executed statement is committed exactly when execution is enabled, the run's secret (the empty one where
      the run has no connection) decrypts to a database's address, and connecting, setting the timeout, executing and
      committing all succeed. */
  lemma {:induction false} CommitsExactly(v: seq<Visit>, s: State, env: Env, k: nat)
    requires AgentRun(v, s, env) && k < |v| && v[k].node == Execute
    ensures var world := env(k).world;
            var secret := if s.connection == None || s.connection == Some("") then "" else env(k).secret;
            CommittedBy(v[k]) <==>
              && world.enabled && world.decrypt(secret) == McpClient.PostgresDsn && world.connect == None
              && world.setTimeout == None && world.execute.Tag? && world.commit == None
  {
    hide Act, AgentRun, IsBlank, Executed, CommittedBy, Follows, ReviewedStatement;
    ExecutedIsReviewed(v, s, env, k);
    StatementExecuted(v, s, env, k);
    VisitOf(v, s, env, k);
    VisitOf(v, s, env, k - 1);
    VisitSound(v, s, env, k);
    ReviewedBefore(v[k - 1], v[k], env(k - 1));
    ExecuteVisit(v[k], env(k));
  }

  lemma {:induction false} StatementExecuted(v: seq<Visit>, s: State, env: Env, k: nat)
    requires k < |v| && ReviewedStatement(v, s, env, k)
    ensures k > 0 && Executed(v[k]).Some?
  {
    hide IsBlank, Sandbox.Passes;
  }

  /** The statement is sent without parameters: a database refuses it if it has a placeholder to bind. */
  ghost predicate RefusesUnbound(world: McpClient.World, statement: string) {
    Sandbox.HasPlaceholder(statement) ==> world.execute.Raised?
  }

  /** The in-process validator asks for a placeholder in every write and the executor binds none: with a database
      that refuses unbound placeholders, no write reviewed in process is committed or reported as executed. */
  lemma {:induction false} InProcessWriteNeverCommits(v: seq<Visit>, s: State, env: Env, k: nat)
    requires AgentRun(v, s, env) && k < |v| && v[k].node == Execute
    requires k > 0 && env(k - 1).container(Or(Executed(v[k]), ""), s.schema) == None
    requires RefusesUnbound(env(k).world, Or(Executed(v[k]), ""))
    ensures Executed(v[k]).Some? && v[k].outcome.Done? && After(v[k]).execution.Some?
    ensures Sandbox.HasWrite(Executed(v[k]).value) ==>
              !CommittedBy(v[k]) && After(v[k]).execution.value.status != McpClient.Executed
  {
    hide Act, AgentRun, Executed, CommittedBy, Follows, McpClient.Write, McpClient.BlankTag, Sandbox.HasWrite,
         Sandbox.HasPlaceholder, Sandbox.Harmless, Sandbox.Refs, Sandbox.ColumnKnown;
    ExecutedPassesFallback(v, s, env, k);
    VisitOf(v, s, env, k);
    ExecuteVisit(v[k], env(k));
    ExecuteReports(v[k], env(k));
    if Sandbox.HasWrite(Executed(v[k]).value) {
      var secret := if Or(v[k].before.connection, "") == "" then "" else env(k).secret;
      NoCommitOfRaised(env(k).world, secret, CodeOf(v[k].before), v[k].before.reviewPassed == Some(true));
    }
  }

  lemma {:induction false} NoCommitOfRaised(world: McpClient.World, secret: string, statement: string,
                                            reviewPassed: bool)
    requires world.execute.Raised?
    ensures !McpClient.Write(world, secret, statement, reviewPassed).1
  {
  }

  // ---- how long a run is ----

  function Count<T>(p: T -> bool, s: seq<T>): nat {
    if s == [] then 0 else (if p(s[0]) then 1 else 0) + Count(p, s[1..])
  }

  function Visits(v: seq<Visit>, node: Node): nat {
    Count((u: Visit) => u.node == node, v)
  }

  lemma {:induction false} VisitsCons(u: Visit, v: seq<Visit>, node: Node)
    ensures Visits([u] + v, node) == (if u.node == node then 1 else 0) + Visits(v, node)
  {
    assert ([u] + v)[1..] == v;
  }

  /** The attempts that are left: at least one, even with an exhausted budget. */
  function Attempts(s: State): nat {
    if s.maxRetries - s.retryCount >= 1 then s.maxRetries - s.retryCount else 1
  }

  /** The visits from `node` on, counted: `c` to the coder, `h` to the self-heal, `x` to the executor. */
  predicate Tally(node: Node, s: State, done: bool, length: nat, c: nat, h: nat, x: nat) {
    x <= 1 &&
    match node
    case Classify => false
    case Code => h <= c <= Attempts(s) && length <= 3 * c + 1 &&
                 (done ==> length == 3 * c + 1 && c >= 1 && h + x == c && (x == 0 ==> c == Attempts(s)))
    case Review => h <= c + 1 && c + 1 <= Attempts(s) && length <= 3 * c + 3 &&
                   (done ==> length == 3 * c + 3 && h + x == c + 1 && (x == 0 ==> c + 1 == Attempts(s)))
    case Heal => h <= c + 1 && c + 1 <= Attempts(s) && length <= 3 * c + 2 &&
                 (done ==> length == 3 * c + 2 && h + x == c + 1 && (x == 0 ==> c + 1 == Attempts(s)))
    case Execute => c == 0 && h == 0 && x == 1 && length <= 2 && (done ==> length == 2)
    case Research => c == 0 && h == 0 && x == 0 && length <= 2 && (done ==> length == 2)
    case Format => c == 0 && h == 0 && x == 0 && length == 1
  }

  lemma {:induction false} TallyNext(u: Visit, w: Visit, a: Answers)
    requires u.outcome == Act(u.node, u.before, a) && Follows(u, w)
    requires u.node != Research && u.node != Format ==> u.before.error == None
    ensures w.node != Classify && (w.node != Research && w.node != Format ==> w.before.error == None)
  {
    hide Validate, IsBlank, Strip, McpClient.Write;
  }

  /** One edge keeps the tally. */
  lemma {:induction false} TallyStep(u: Visit, w: Visit, a: Answers, done: bool, length: nat, c: nat, h: nat, x: nat)
    requires u.outcome == Act(u.node, u.before, a) && Follows(u, w) && u.node != Classify
    requires u.node != Research && u.node != Format ==> u.before.error == None
    requires Tally(w.node, w.before, done, length, c, h, x)
    ensures Tally(u.node, u.before, done, length + 1, c + if u.node == Code then 1 else 0,
                  h + if u.node == Heal then 1 else 0, x + if u.node == Execute then 1 else 0)
  {
    hide Validate, IsBlank, Strip, McpClient.Write;
  }

  lemma {:induction false} TallyRun(v: seq<Visit>, node: Node, s: State, env: Env, i: nat)
    requires IsRun(v, node, s, env, i) && node != Classify
    requires node != Research && node != Format ==> s.error == None
    ensures Tally(node, s, Completed(v), |v|, Visits(v, Code), Visits(v, Heal), Visits(v, Execute))
    decreases |v|
  {
    hide Act, Merge, Route, Tally, Visits, IsRun, Ends, Follows;
    RunHead(v, node, s, env, i);
    RunNotEmpty(v, node, s, env, i);
    var rest := v[1..];
    assert v == [v[0]] + rest;
    VisitsCons(v[0], rest, Code);
    VisitsCons(v[0], rest, Heal);
    VisitsCons(v[0], rest, Execute);
    if |v| == 1 {
      NoVisits();
      TallyLast(v[0], env(i));
    } else {
      assert Completed(v) == Completed(rest);
      TallyNext(v[0], v[1], env(i));
      TallyRun(rest, v[1].node, v[1].before, env, i + 1);
      TallyStep(v[0], v[1], env(i), Completed(rest), |rest|, Visits(rest, Code), Visits(rest, Heal),
                Visits(rest, Execute));
    }
  }

  lemma {:induction false} NoVisits()
    ensures forall node :: Visits([], node) == 0
  {
  }

  lemma {:induction false} TallyLast(u: Visit, a: Answers)
    requires u.outcome == Act(u.node, u.before, a) && Ends(u) && u.node != Classify
    ensures Tally(u.node, u.before, Completed([u]), 1, if u.node == Code then 1 else 0,
                  if u.node == Heal then 1 else 0, if u.node == Execute then 1 else 0)
  {
    hide Validate, IsBlank, Strip, McpClient.Write;
  }

  // ---- a completed run, visit by visit ----

  lemma {:induction false} ClassifyVisit(u: Visit, w: Visit, a: Answers)
    requires u.node == Classify && u.outcome == Act(Classify, u.before, a) && Follows(u, w)
    ensures After(u).intent in {Read, Write}
    ensures After(u).intent == Write <==>
            a.model(ClassifyPrompt(u.before.query)).Completion?
              && Lower(Strip(a.model(ClassifyPrompt(u.before.query)).text)) == "write"
    ensures After(u).intent == Read ==> w.node == Research
    ensures After(u).intent == Write ==> w.node == Code
    ensures After(u) == u.before.(intent := After(u).intent, tokensUsed := After(u).tokensUsed, traces := [Classify])
  {
    hide Strip;
  }

  /** A run visits at most 3 * max(1, max_retries) + 2 nodes, the coder at most max(1, max_retries)
      times, and the self-heal no more often. A completed run has three visits on the read path; on the
      write path it has two more than three for each attempt of the coder, it heals after every attempt
      but one that is executed, and it gives up only when the attempts are used up. */
  lemma {:induction false} RunLength(v: seq<Visit>, s: State, env: Env)
    requires AgentRun(v, s, env)
    ensures var attempts := if s.maxRetries >= 1 then s.maxRetries else 1;
            && |v| <= 3 * attempts + 2
            && Visits(v, Heal) <= Visits(v, Code) <= attempts
            && Visits(v, Execute) <= 1
            && (Completed(v) && Final(v).intent == Read ==> |v| == 3 && Visits(v, Code) == 0)
            && (Completed(v) && Final(v).intent != Read ==>
                && |v| == 3 * Visits(v, Code) + 2
                && Visits(v, Heal) + Visits(v, Execute) == Visits(v, Code)
                && (Visits(v, Execute) == 0 ==> Visits(v, Code) == attempts))
  {
    hide Act, Merge, Route, Tally, Visits, Follows, AgentRun;
    RunStart(v, s, env);
    var rest := v[1..];
    assert v == [v[0]] + rest;
    VisitsCons(v[0], rest, Code);
    VisitsCons(v[0], rest, Heal);
    VisitsCons(v[0], rest, Execute);
    if |v| == 1 {
      NoVisits();
    } else {
      TallyRun(rest, v[1].node, v[1].before, env, 1);
      FromTally(v[1].node, v[1].before, Completed(rest), |rest|, Visits(rest, Code), Visits(rest, Heal),
                Visits(rest, Execute));
      assert Completed(v) == Completed(rest);
      if Completed(v) {
        FinalIntent(v, s, env);
      }
    }
  }

  lemma {:induction false} FromTally(node: Node, s: State, done: bool, length: nat, c: nat, h: nat, x: nat)
    requires Tally(node, s, done, length, c, h, x) && (node == Code || node == Research)
    ensures length <= 3 * Attempts(s) + 1 && h <= c <= Attempts(s) && x <= 1
    ensures node == Research ==> c == 0 && h == 0 && x == 0 && (done ==> length == 2)
    ensures node == Code && done ==> length == 3 * c + 1 && h + x == c && (x == 0 ==> c == Attempts(s))
  {
  }

  lemma {:induction false} RunStart(v: seq<Visit>, s: State, env: Env)
    requires AgentRun(v, s, env)
    ensures v != [] && v[0].node == Classify && v[0].before == s && (|v| == 1 ==> !Completed(v))
    ensures |v| > 1 ==>
              && IsRun(v[1..], v[1].node, v[1].before, env, 1)
              && v[1].node in {Research, Code} && (v[1].node == Research <==> v[1].before.intent == Read)
              && v[1].before.error == None && v[1].before.retryCount == 0 && v[1].before.maxRetries == s.maxRetries
  {
    hide Act, Merge, Route, Initial, IsRun;
    RunHead(v, Classify, s, env, 0);
    RunNotEmpty(v, Classify, s, env, 0);
    if |v| > 1 {
      VisitSound(v, s, env, 1);
      ClassifyVisit(v[0], v[1], env(0));
      StartSound(s, env, v);
      InitialFields(s);
    }
  }

  lemma {:induction false} InitialFields(s: State)
    requires Initial(s)
    ensures s.error == None && s.retryCount == 0 && s.tokensUsed == 0 && s.execution == None
            && s.finalResponse == None && s.citations == []
  {
  }

  lemma {:induction false} SameIntent(v: seq<Visit>, s: State, env: Env, k: nat)
    requires AgentRun(v, s, env) && 0 < k < |v|
    ensures After(v[k]).intent == v[1].before.intent && v[k].before.intent == v[1].before.intent
    decreases k
  {
    hide Act, Merge, Follows, AgentRun;
    VisitOf(v, s, env, k);
    FollowsNotFirst(v[k - 1], v[k]);
    IntentKept(v[k], env(k));
    if k > 1 {
      SameIntent(v, s, env, k - 1);
    }
  }

  lemma {:induction false} FollowsNotFirst(u: Visit, w: Visit)
    requires Follows(u, w)
    ensures w.node != Classify && w.before == After(u)
  {
  }

  lemma {:induction false} IntentKept(w: Visit, a: Answers)
    requires w.outcome == Act(w.node, w.before, a) && w.node != Classify
    ensures After(w).intent == w.before.intent
  {
    hide Validate, IsBlank, Strip, McpClient.Write;
  }

  lemma {:induction false} FinalIntent(v: seq<Visit>, s: State, env: Env)
    requires AgentRun(v, s, env) && Completed(v) && |v| > 1
    ensures Final(v).intent == v[1].before.intent
  {
    hide Act, Merge, Follows, AgentRun;
    SameIntent(v, s, env, |v| - 1);
  }

  /** The outside answers every question, wants to write, and refuses every review. */
  function Refusing(): Env {
    i => Answers(_ => Completion("write", 1), Nothing, (_, _) => Some(Verdict(false, [])), "",
                 McpClient.World(false, _ => McpClient.Undecryptable, None, None, McpClient.Tag(""), None))
  }

  lemma {:induction false} NeverRaises(node: Node, s: State, i: nat)
    ensures Act(node, s, Refusing()(i)).Done?
  {
    hide IsBlank, Strip, Validate, McpClient.Write;
  }

  lemma {:induction false} ClassifiesAsWrite(s: State, i: nat)
    ensures Act(Classify, s, Refusing()(i)).Done? && Act(Classify, s, Refusing()(i)).update.intent == Some(Write)
  {
    hide ResearchNode, CodeNode, ReviewNode, HealNode, ExecuteNode, FormatNode;
    assert Lower(Strip("write")) == "write";
  }

  lemma {:induction false} NoneVisited(v: seq<Visit>, node: Node)
    requires forall k | 0 <= k < |v| :: v[k].node != node
    ensures Visits(v, node) == 0
  {
    if v != [] {
      NoneVisited(v[1..], node);
      VisitsCons(v[0], v[1..], node);
      assert v == [v[0]] + v[1..];
    }
  }

  /** Both bounds are reached, for every max_retries. */
  lemma {:induction false} LongestRun(s: State) returns (v: seq<Visit>)
    requires Initial(s)
    ensures AgentRun(v, s, Refusing()) && Completed(v)
    ensures var attempts := if s.maxRetries >= 1 then s.maxRetries else 1;
            |v| == 3 * attempts + 2 && Visits(v, Code) == attempts
  {
    hide Act, AgentRun, IsBlank, Merge, Route, Visits, Refusing, Follows, Executed;
    v := RunFrom(Classify, s, Refusing(), 0);
    ExactlyOneRun(s, Refusing(), v);
    RunStart(v, s, Refusing());
    var last := |v| - 1;
    VisitOf(v, s, Refusing(), last);
    NeverRaises(v[last].node, v[last].before, last);
    OnlyFormatEnds(v[last]);
    RunLength(v, s, Refusing());
    VisitOf(v, s, Refusing(), 0);
    VisitOf(v, s, Refusing(), 1);
    ClassifiesAsWrite(s, 0);
    FollowsEdge(v[0], v[1]);
    MergedIntent(v[0]);
    FinalIntent(v, s, Refusing());
    forall k | 0 <= k < |v| ensures v[k].node != Execute {
      if v[k].node == Execute {
        ExecutedIsReviewed(v, s, Refusing(), k);
        AlwaysRefuses(Refusing()(k - 2).model(CodePrompt(s.schema, s.query)).text, s.schema, k - 1);
      }
    }
    NoneVisited(v, Execute);
  }

  lemma {:induction false} OnlyFormatEnds(u: Visit)
    requires u.outcome.Done? && Ends(u)
    ensures u.node == Format
  {
  }

  lemma {:induction false} MergedIntent(u: Visit)
    requires u.outcome.Done? && u.outcome.update.intent.Some?
    ensures After(u).intent == u.outcome.update.intent.value
  {
  }

  lemma {:induction false} AlwaysRefuses(code: string, schema: Option<SchemaGraph>, i: nat)
    ensures Refusing()(i).container(code, schema) == Some(Verdict(false, []))
  {
  }

  // ---- the self-heal ----

  /** The self-heal asks the model about the statement that was refused and the reviewer's errors, unless it gives up,
      and comes up with the stripped answer; either way it uses up one retry. */
  lemma {:induction false} HealVisit(v: seq<Visit>, s: State, env: Env, k: nat)
    requires AgentRun(v, s, env) && k < |v| && v[k].node == Heal
    ensures k >= 2 && env(k - 2).model(CodePrompt(s.schema, s.query)).Completion?
    ensures var sql := env(k - 2).model(CodePrompt(s.schema, s.query)).text;
            var errors := v[k].before.reviewErrors;
            && Noted(errors, sql, s.schema, env(k - 1).container)
            && (v[k].outcome.Raised? <==> s.maxRetries > 0 && env(k).model(HealPrompt(sql, errors)).Raises?)
            && (v[k].outcome.Done? ==>
                  && After(v[k]).retryCount == v[k].before.retryCount + 1
                  && After(v[k]).code
                     == if s.maxRetries > 0 then Some(Strip(env(k).model(HealPrompt(sql, errors)).text)) else Some(sql))
  {
    hide AgentRun, Act, Follows, IsBlank, Merge, Route, Executed, LetThrough, Noted, Strip, BailsOut, Sound;
    VisitOf(v, s, env, k);
    VisitOf(v, s, env, k - 1);
    BeforeHeal(v[k - 1], v[k], env(k - 1));
    ReviewDecides(v, s, env, k - 1);
    VisitSound(v, s, env, k);
    SoundHeal(v[k], s);
    HealActs(v[k], env(k));
  }

  lemma {:induction false} BeforeHeal(u: Visit, w: Visit, a: Answers)
    requires u.outcome == Act(u.node, u.before, a) && Follows(u, w) && w.node == Heal
    ensures u.node == Review
  {
    hide Validate, IsBlank, Strip, McpClient.Write;
  }

  lemma {:induction false} HealActs(u: Visit, a: Answers)
    requires u.node == Heal && u.outcome == Act(Heal, u.before, a)
    ensures var asked := a.model(HealPrompt(CodeOf(u.before), u.before.reviewErrors));
            && (u.outcome.Raised? <==> !BailsOut(u.before) && asked.Raises?)
            && (u.outcome.Done? ==>
                  && After(u).retryCount == u.before.retryCount + 1
                  && After(u).code == if BailsOut(u.before) then u.before.code else Some(Strip(asked.text)))
  {
    hide Strip;
  }

  lemma {:induction false} CountExtensional<T>(p: T -> bool, q: T -> bool, s: seq<T>)
    requires forall x | x in s :: p(x) == q(x)
    ensures Count(p, s) == Count(q, s)
  {
    if s != [] {
      CountExtensional(p, q, s[1..]);
    }
  }

  /** The self-heal gives up on its own only in a run that allows no retries at all, so it asks the model
      at every visit or at none, and never more than max_retries times. */
  lemma {:induction false} HealCalls(v: seq<Visit>, s: State, env: Env)
    requires AgentRun(v, s, env)
    ensures forall k | 0 <= k < |v| && v[k].node == Heal :: BailsOut(v[k].before) <==> s.maxRetries <= 0
    ensures Count((u: Visit) => u.node == Heal && !BailsOut(u.before), v)
         == if s.maxRetries <= 0 then 0 else Visits(v, Heal)
    ensures Visits(v, Heal) <= if s.maxRetries <= 0 then 1 else s.maxRetries
  {
    hide AgentRun, Act, Follows, BailsOut, Sound;
    RunLength(v, s, env);
    forall k | 0 <= k < |v| && v[k].node == Heal ensures BailsOut(v[k].before) <==> s.maxRetries <= 0 {
      VisitSound(v, s, env, k);
      SoundHeal(v[k], s);
    }
    var asks := (u: Visit) => u.node == Heal && !BailsOut(u.before);
    if s.maxRetries <= 0 {
      CountExtensional(asks, (u: Visit) => false, v);
      CountNone(v);
    } else {
      CountExtensional(asks, (u: Visit) => u.node == Heal, v);
    }
  }

  lemma {:induction false} SoundHeal(u: Visit, s: State)
    requires Sound(u, s) && u.node == Heal
    ensures BailsOut(u.before) <==> s.maxRetries <= 0
  {
  }

  lemma {:induction false} CountNone<T>(s: seq<T>)
    ensures Count((x: T) => false, s) == 0
  {
    if s != [] {
      CountNone(s[1..]);
    }
  }

  /** The environments answer alike, but for the texts the self-heal receives. */
  ghost predicate SameButHealText(env1: Env, env2: Env) {
    forall i: nat :: SameAnswers(env1(i), env2(i))
  }

  ghost predicate SameAnswers(a1: Answers, a2: Answers) {
    && a2 == a1.(model := a2.model)
    && (forall p: Prompt :: SameCompletion(p, a1.model(p), a2.model(p)))
  }

  predicate SameCompletion(p: Prompt, c1: Completion, c2: Completion) {
    c1 == c2 || (p.HealPrompt? && c1.Completion? && c2.Completion? && c1.tokens == c2.tokens)
  }

  /** The states agree, but for the code where the code is about to be overwritten or is no longer used. */
  predicate Alike(node: Node, s1: State, s2: State) {
    s2 == s1.(code := s2.code) && (node in {Review, Heal, Execute} ==> s1 == s2)
  }

  lemma {:induction false} AlikeStep(node: Node, s1: State, s2: State, a1: Answers, a2: Answers)
    requires Alike(node, s1, s2) && SameAnswers(a1, a2)
    ensures var u1, u2 := Visit(node, s1, Act(node, s1, a1)), Visit(node, s2, Act(node, s2, a2));
            && u1.outcome.Done? == u2.outcome.Done? && Executed(u1) == Executed(u2)
            && CommittedBy(u1) == CommittedBy(u2)
            && Route(node, After(u1)) == Route(node, After(u2)) && ResultOf(After(u1)) == ResultOf(After(u2))
            && (u1.outcome.Done? && Route(node, After(u1)).Some?
                ==> Alike(Route(node, After(u1)).value, After(u1), After(u2)))
  {
    hide Validate, IsBlank, Strip, McpClient.Write;
    assert SameCompletion(ClassifyPrompt(s1.query), a1.model(ClassifyPrompt(s1.query)),
                          a2.model(ClassifyPrompt(s1.query)));
    assert SameCompletion(CodePrompt(s1.schema, s1.query), a1.model(CodePrompt(s1.schema, s1.query)),
                          a2.model(CodePrompt(s1.schema, s1.query)));
    var heal := HealPrompt(CodeOf(s1), s1.reviewErrors);
    assert SameCompletion(heal, a1.model(heal), a2.model(heal));
    if a1.found.Hits? {
      var research := ResearchPrompt(a1.found.context, s1.query);
      assert SameCompletion(research, a1.model(research), a2.model(research));
    }
    match node
    case Classify =>
    case Research =>
    case Code =>
    case Review =>
    case Heal =>
    case Execute =>
    case Format =>
  }

  /** Two runs visit the same nodes, hand over the same statements and end with the same result. */
  predicate SameOutside(v1: seq<Visit>, v2: seq<Visit>) {
    && |v1| == |v2|
    && (forall k | 0 <= k < |v1| :: SameVisit(v1[k], v2[k]))
    && Completed(v1) == Completed(v2)
    && (Completed(v1) ==> ResultOf(Final(v1)) == ResultOf(Final(v2)))
  }

  predicate SameVisit(u1: Visit, u2: Visit) {
    u1.node == u2.node && Executed(u1) == Executed(u2) && CommittedBy(u1) == CommittedBy(u2)
  }

  lemma {:induction false} AlikeRuns(v1: seq<Visit>, v2: seq<Visit>, node: Node, s1: State, s2: State, env1: Env,
                                     env2: Env, i: nat)
    requires IsRun(v1, node, s1, env1, i) && IsRun(v2, node, s2, env2, i) && Alike(node, s1, s2)
    requires SameButHealText(env1, env2)
    ensures SameOutside(v1, v2)
    decreases |v1|
  {
    hide Act, Merge, Route, IsRun, Follows, Alike, Executed, CommittedBy, ResultOf;
    RunHead(v1, node, s1, env1, i);
    RunHead(v2, node, s2, env2, i);
    RunNotEmpty(v1, node, s1, env1, i);
    RunNotEmpty(v2, node, s2, env2, i);
    AlikeStep(node, s1, s2, env1(i), env2(i));
    if |v1| > 1 {
      var rest1, rest2 := v1[1..], v2[1..];
      FollowsEdge(v1[0], v1[1]);
      FollowsEdge(v2[0], v2[1]);
      AlikeRuns(rest1, rest2, v1[1].node, v1[1].before, v2[1].before, env1, env2, i + 1);
      forall k | 0 <= k < |v1| ensures SameVisit(v1[k], v2[k]) {
        if k > 0 {
          assert SameVisit(rest1[k - 1], rest2[k - 1]);
        }
      }
    }
  }

  lemma {:induction false} FollowsEdge(u: Visit, w: Visit)
    requires Follows(u, w)
    ensures u.outcome.Done? && Route(u.node, After(u)) == Some(w.node) && w.before == After(u)
  {
  }

  /** The text a self-heal gets from the model changes nothing: not the path, not what is executed, not
      the result. */
  lemma {:induction false} HealTextIrrelevant(v1: seq<Visit>, v2: seq<Visit>, s: State, env1: Env, env2: Env)
    requires AgentRun(v1, s, env1) && AgentRun(v2, s, env2) && SameButHealText(env1, env2)
    ensures SameOutside(v1, v2)
  {
    hide Act, IsRun, Initial;
    AlikeRuns(v1, v2, Classify, s, s, env1, env2, 0);
  }

  /** The coder's model and the sandbox container give the same answers at every visit. */
  ghost predicate SteadyAnswers(s: State, env: Env) {
    forall i: nat, j: nat ::
      && env(i).model(CodePrompt(s.schema, s.query)) == env(j).model(CodePrompt(s.schema, s.query))
      && env(i).container == env(j).container
  }

  /** Then no retry can succeed: the coder is not told what was wrong. What is executed passed its first
      review. */
  lemma {:induction false} RetriesAreFutile(v: seq<Visit>, s: State, env: Env, k: nat)
    requires AgentRun(v, s, env) && SteadyAnswers(s, env) && k < |v| && v[k].node == Execute
    ensures k == 3
  {
    hide Act, AgentRun, Follows, IsBlank, Validate, Merge, Route, Executed;
    ExecutedIsReviewed(v, s, env, k);
    VisitOf(v, s, env, 0);
    VisitOf(v, s, env, 1);
    VisitOf(v, s, env, 2);
    VisitOf(v, s, env, 3);
    ClassifyVisit(v[0], v[1], env(0));
    SameIntent(v, s, env, k);
    VisitSound(v, s, env, 1);
    CodeVisit(v[1], v[2], env(1));
    VisitSound(v, s, env, 2);
    assert env(1).model(CodePrompt(s.schema, s.query)) == env(k - 2).model(CodePrompt(s.schema, s.query));
    assert env(2).container == env(k - 1).container;
    PassedReview(v[2], v[3], env(2));
    ExecutedIsReviewed(v, s, env, 3);
  }

  lemma {:induction false} CodeVisit(u: Visit, w: Visit, a: Answers)
    requires u.node == Code && u.outcome == Act(Code, u.before, a) && Follows(u, w)
    ensures w.node == Review && w.before.code == Some(a.model(CodePrompt(u.before.schema, u.before.query)).text)
  {
  }

  lemma {:induction false} PassedReview(u: Visit, w: Visit, a: Answers)
    requires u.node == Review && u.outcome == Act(Review, u.before, a) && Follows(u, w)
    requires LetThrough(CodeOf(u.before), u.before.schema, a.container)
    ensures w.node == Execute
  {
    hide LetThrough;
    ReviewVisit(u, w, a);
  }

  // ---- tokens and traces ----

  /** The prompt a visit sends to the chat model, if any. */
  function Asked(node: Node, s: State, found: Found): Option<Prompt> {
    match node
    case Classify => Some(ClassifyPrompt(s.query))
    case Research => if found.Hits? then Some(ResearchPrompt(found.context, s.query)) else None
    case Code => Some(CodePrompt(s.schema, s.query))
    case Heal => if BailsOut(s) then None else Some(HealPrompt(CodeOf(s), s.reviewErrors))
    case Review | Execute | Format => None
  }

  function TokensOf(u: Visit, a: Answers): int {
    match Asked(u.node, u.before, a.found)
    case None => 0
    case Some(prompt) => if a.model(prompt).Completion? then a.model(prompt).tokens else 0
  }

  /** The tokens of all chat-model calls of the visits, the first of which is answered by `env(i)`. */
  function Spent(v: seq<Visit>, env: Env, i: nat): int {
    if v == [] then 0 else TokensOf(v[0], env(i)) + Spent(v[1..], env, i + 1)
  }

  lemma {:induction false} VisitSpends(u: Visit, a: Answers)
    requires u.outcome == Act(u.node, u.before, a) && u.outcome.Done?
    ensures After(u).tokensUsed == u.before.tokensUsed + TokensOf(u, a)
    ensures u.node != Format ==> After(u).traces == [u.node]
  {
    hide Validate, IsBlank, Strip, McpClient.Write;
    match u.node
    case Classify =>
    case Research =>
    case Code =>
    case Heal =>
    case Review | Execute | Format =>
  }

  lemma {:induction false} RunSpends(v: seq<Visit>, node: Node, s: State, env: Env, i: nat)
    requires IsRun(v, node, s, env, i) && v != [] && v[|v| - 1].outcome.Done?
    ensures After(v[|v| - 1]).tokensUsed == s.tokensUsed + Spent(v, env, i)
    decreases |v|
  {
    hide Act, Merge, Route, IsRun, TokensOf;
    RunHead(v, node, s, env, i);
    if |v| == 1 {
      VisitSpends(v[0], env(i));
      assert Spent(v[1..], env, i + 1) == 0;
    } else {
      FollowsEdge(v[0], v[1]);
      VisitSpends(v[0], env(i));
      RunSpends(v[1..], v[1].node, v[1].before, env, i + 1);
    }
  }

  /** The tokens a completed run reports, as input and as output alike, are those of its chat-model calls.
      Its traces are those of the last two nodes only. */
  lemma {:induction false} TokensConserved(v: seq<Visit>, s: State, env: Env)
    requires AgentRun(v, s, env) && Completed(v)
    ensures ResultOf(Final(v)).tokensInput == Spent(v, env, 0) && ResultOf(Final(v)).tokensOutput == Spent(v, env, 0)
    ensures |v| >= 2 && ResultOf(Final(v)).traces == [v[|v| - 2].node, Format]
  {
    hide Act, IsRun, Merge, Route, Spent, LastTwo;
    RunSpends(v, Classify, s, env, 0);
    LastVisits(v, s, env);
    LastTraces(v[|v| - 2], v[|v| - 1], env(|v| - 2));
  }

  lemma {:induction false} LastTraces(u: Visit, w: Visit, a: Answers)
    requires LastTwo(u, w, a)
    ensures After(w).traces == [u.node, Format]
  {
    hide Act, Merge, Route;
    FollowsEdge(u, w);
    FollowedIsDone(u, w);
    VisitSpends(u, a);
  }

  // ---- the answer ----

  /** The answer to expect from the last node before formatting. */
  predicate AnswerFits(u: Visit, a: Answers, s: State, answer: Option<Message>) {
    match u.node
    case Research =>
      answer == Some(match a.found
                     case Unavailable => NoSession
                     case Hits(context, _) => Said(if a.model(ResearchPrompt(context, s.query)).Completion?
                                                   then a.model(ResearchPrompt(context, s.query)).text else "")
                     case _ => NoDocuments)
    case Execute => answer == Some(WithExecution(Said(""), CallOf(u, a).0.status))
    case _ => answer == Some(if s.maxRetries <= 0 then UnableToGenerate(s.maxRetries, u.before.reviewErrors)
                             else Said(""))
  }

  lemma {:induction false} AnswerOf(u: Visit, w: Visit, a: Answers, s: State)
    requires Sound(u, s) && LastTwo(u, w, a) && (u.node == Execute ==> Executed(u).Some?)
    requires w.outcome == FormatNode(w.before)
    ensures AnswerFits(u, a, s, After(w).finalResponse)
  {
    hide Validate, IsBlank, Strip, McpClient.Write;
    match u.node
    case Classify =>
    case Research =>
    case Code =>
    case Review =>
    case Heal =>
    case Execute =>
    case Format =>
  }

  /** What a completed run answers: on the read path the researcher's message; after an execution its
      status and no text; and when the attempts are used up the list of errors if no retry was allowed, but
      nothing at all otherwise. */
  lemma {:induction false} FinalAnswer(v: seq<Visit>, s: State, env: Env)
    requires AgentRun(v, s, env) && Completed(v)
    ensures |v| >= 2 && v[|v| - 2].node in {Research, Execute, Heal}
    ensures AnswerFits(v[|v| - 2], env(|v| - 2), s, ResultOf(Final(v)).answer)
  {
    hide Act, AgentRun, Merge, Route, Sound, LastTwo, Executed, AnswerFits;
    LastVisits(v, s, env);
    VisitSound(v, s, env, |v| - 2);
    VisitOf(v, s, env, |v| - 1);
    if v[|v| - 2].node == Execute {
      ExecutedIsReviewed(v, s, env, |v| - 2);
    }
    LastActs(v[|v| - 1], env(|v| - 1));
    LastFormat(v[|v| - 2], v[|v| - 1], env(|v| - 2), s);
    AnswerOf(v[|v| - 2], v[|v| - 1], env(|v| - 2), s);
  }

  /** What a completed run reports beside the answer: a read intent exactly when the researcher was visited, the
      citations of the search and of nothing else, and the executor's result exactly when it was visited. */
  lemma {:induction false} FinalReport(v: seq<Visit>, s: State, env: Env)
    requires AgentRun(v, s, env) && Completed(v)
    ensures |v| >= 2
    ensures var u, a, r := v[|v| - 2], env(|v| - 2), ResultOf(Final(v));
            && r.intent == (if u.node == Research then Read else Write)
            && r.citations == (if u.node == Research && a.found.Hits? then a.found.citations else [])
            && r.execution == if u.node == Execute then Some(CallOf(u, a).0) else None
  {
    hide Act, AgentRun, Merge, Route, Sound, LastTwo, Executed;
    LastVisits(v, s, env);
    VisitSound(v, s, env, |v| - 2);
    if v[|v| - 2].node == Execute {
      ExecutedIsReviewed(v, s, env, |v| - 2);
      StatementExecuted(v, s, env, |v| - 2);
    }
    VisitOf(v, s, env, |v| - 1);
    LastFormat(v[|v| - 2], v[|v| - 1], env(|v| - 2), s);
    ReportOf(v[|v| - 2], v[|v| - 1], env(|v| - 2), s);
  }

  lemma {:induction false} ReportOf(u: Visit, w: Visit, a: Answers, s: State)
    requires Sound(u, s) && LastTwo(u, w, a) && u.node in {Research, Execute, Heal}
    requires u.node == Execute ==> Executed(u).Some?
    ensures ResultOf(After(w)).intent == if u.node == Research then Read else Write
    ensures ResultOf(After(w)).citations == if u.node == Research && a.found.Hits? then a.found.citations else []
    ensures ResultOf(After(w)).execution == if u.node == Execute then Some(CallOf(u, a).0) else None
  {
    hide Validate, IsBlank, Strip, McpClient.Write;
    match u.node
    case Research =>
    case Execute =>
    case Heal =>
  }

  lemma {:induction false} LastActs(w: Visit, a: Answers)
    requires w.node == Format && w.outcome == Act(Format, w.before, a)
    ensures w.outcome == FormatNode(w.before)
  {
  }

  lemma {:induction false} LastFormat(u: Visit, w: Visit, a: Answers, s: State)
    requires LastTwo(u, w, a) && Sound(u, s)
    ensures w.node == Format && u.node in {Research, Execute, Heal}
  {
    hide Validate, IsBlank, Strip, McpClient.Write;
  }
}
