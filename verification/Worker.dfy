/** Webhook events, the jobs that process them, and the usage they are charged for: every interleaving of
    the workers, the ingest and retry endpoints and the clock (backend/src/workers/tasks.py,
    backend/src/services/usage_tracker.py, backend/src/api/v1/events.py, backend/src/api/v1/webhooks.py). */
module Worker {
  import opened Options
  import Runs
  import opened Totals
  import Agent

  type Tenant = nat

  datatype Status = Queued | Processing | Completed | Failed

  datatype Error = MultipleResults | Other(text: string)

  datatype Event = Event(tenant: Tenant, status: Status, runId: Option<nat>, result: Option<Agent.Result>,
                         error: Option<Error>, completedAt: Option<nat>)

  datatype UsageRow = UsageRow(tenant: Tenant, period: nat, runs: int, webhooks: int, tokensInput: int,
                               tokensOutput: int)

  /** A completed agent run; `spent` is what its chat-model calls took. */
  datatype Run = Run(id: nat, result: Agent.Result, spent: int)

  datatype Kind = EventJob(event: nat) | AgentJob

  /** How far a job has got with its event's row: it has not marked the event, it has marked it and still
      has to complete or fail it, or it has done so. */
  datatype Stage = Unmarked | Owing | Settled

  /** Where a job stands. Every step up to the next commit, broadcast or query is one step. */
  datatype Pc =
    | Waiting | Loaded | Marked
    | Trying | Ran(run: Run) | Recorded(run: Run) | Announced(run: Run)
    | Inserting(period: nat, run: Run) | Adding(row: nat, period: nat, run: Run)
    | Counted(period: nat, run: Run)
    | Handling(error: Error, stage: Stage) | Reported(error: Error) | Returned(error: Error)
    | NotFound | Crashed(stage: Stage)

  datatype Job = Job(kind: Kind, tenant: Tenant, pc: Pc)

  /** `pending` holds the enqueue calls still to be made: after the commit of an ingest, after the check
      of a retry. */
  datatype State = State(events: seq<Event>, usage: seq<UsageRow>, jobs: seq<Job>, pending: multiset<nat>, period: nat)

  const Init := State([], [], [], multiset{}, 0)

  datatype Selected = NoRow | OneRow(row: nat) | ManyRows(row: nat, other: nat)

  datatype Move =
    | Load | Mark | Enter
    | Complete(id: nat, start: Agent.State, env: Agent.Env, visits: seq<Agent.Visit>)
    | Raise(text: string)
    | Record(now: nat) | Announce
    | Select(found: Selected) | Write
    | Handle | Return
    | Crash

  datatype Action =
    | Ingest(tenant: Tenant) | Retry(event: nat) | Enqueue(event: nat) | DropEnqueue(event: nat)
    | Submit(tenant: Tenant) | Tick
    | Step(job: nat, move: Move)

  // ---- usage rows ----

  predicate IsRow(usage: seq<UsageRow>, row: nat, tenant: Tenant, period: nat) {
    row < |usage| && usage[row].tenant == tenant && usage[row].period == period
  }

  /** What the query for the current period's row returns. */
  ghost predicate Selects(usage: seq<UsageRow>, tenant: Tenant, period: nat, found: Selected) {
    match found
    case NoRow => forall r: nat :: !IsRow(usage, r, tenant, period)
    case OneRow(row) =>
      IsRow(usage, row, tenant, period) && forall r: nat :: IsRow(usage, r, tenant, period) ==> r == row
    case ManyRows(row, other) =>
      row != other && IsRow(usage, row, tenant, period) && IsRow(usage, other, tenant, period)
  }

  datatype Meter = Runs | Webhooks | TokensInput | TokensOutput

  /** What one job is charged. */
  function Charge(m: Meter, kind: Kind, run: Run): int {
    match m
    case Runs => 1
    case Webhooks => if kind.EventJob? then 1 else 0
    case TokensInput => run.result.tokensInput
    case TokensOutput => run.result.tokensOutput
  }

  function Reading(m: Meter, row: UsageRow): int {
    match m
    case Runs => row.runs
    case Webhooks => row.webhooks
    case TokensInput => row.tokensInput
    case TokensOutput => row.tokensOutput
  }

  function Charged(row: UsageRow, kind: Kind, run: Run): UsageRow {
    UsageRow(row.tenant, row.period, row.runs + Charge(Runs, kind, run), row.webhooks + Charge(Webhooks, kind, run),
             row.tokensInput + Charge(TokensInput, kind, run), row.tokensOutput + Charge(TokensOutput, kind, run))
  }

  function WriteUsage(usage: seq<UsageRow>, job: Job): seq<UsageRow> {
    match job.pc
    case Inserting(period, run) => usage + [Charged(UsageRow(job.tenant, period, 0, 0, 0, 0), job.kind, run)]
    case Adding(row, period, run) =>
      if row < |usage| then usage[row := Charged(usage[row], job.kind, run)] else usage
    case _ => usage
  }

  // ---- one step of a job ----

  /** A completed run as the workers start it: with the default of three retries, and for an event without
      a connection. */
  ghost predicate IsRun(kind: Kind, start: Agent.State, env: Agent.Env, visits: seq<Agent.Visit>) {
    && start.maxRetries == 3 && (kind.EventJob? ==> start.connection == None)
    && Agent.AgentRun(visits, start, env) && Agent.Completed(visits)
  }

  ghost function CompletedRun(kind: Kind, id: nat, start: Agent.State, env: Agent.Env,
                              visits: seq<Agent.Visit>): Option<Run>
  {
    if IsRun(kind, start, env, visits)
    then Some(Run(id, Agent.ResultOf(Agent.Final(visits)), Agent.Spent(visits, env, 0)))
    else None
  }

  predicate InTry(pc: Pc) {
    pc.Trying? || pc.Ran? || pc.Recorded? || pc.Announced? || pc.Inserting? || pc.Adding?
  }

  predicate OutsideTry(pc: Pc) {
    pc.Waiting? || pc.Loaded? || pc.Marked? || pc.Handling? || pc.Reported?
  }

  function StageOf(pc: Pc): Stage {
    match pc
    case Waiting | Loaded | NotFound => Unmarked
    case Marked | Trying | Ran(_) => Owing
    case Handling(_, stage) => stage
    case Crashed(stage) => stage
    case _ => Settled
  }

  /** Where a move takes a job, if the job can make it. */
  ghost function After(s: State, job: Job, move: Move): Option<Pc> {
    var forEvent := job.kind.EventJob?;
    match move
    case Load =>
      if !job.pc.Waiting? || !forEvent then None
      else Some(if job.kind.event < |s.events| then Loaded else NotFound)
    case Mark => if job.pc.Loaded? then Some(Marked) else None
    case Enter => if job.pc.Marked? || (job.pc.Waiting? && !forEvent) then Some(Trying) else None
    case Complete(id, start, env, visits) =>
      var run := CompletedRun(job.kind, id, start, env, visits);
      if job.pc.Trying? && run.Some? then Some(Ran(run.value)) else None
    case Record(now) => if job.pc.Ran? && forEvent then Some(Recorded(job.pc.run)) else None
    case Announce => if job.pc.Recorded? || (job.pc.Ran? && !forEvent) then Some(Announced(job.pc.run)) else None
    case Select(found) =>
      if !job.pc.Announced? || !Selects(s.usage, job.tenant, s.period, found) then None
      else Some(match found
                case NoRow => Inserting(s.period, job.pc.run)
                case OneRow(row) => Adding(row, s.period, job.pc.run)
                case ManyRows(_, _) => Handling(MultipleResults, Settled))
    case Write => if job.pc.Inserting? || job.pc.Adding? then Some(Counted(job.pc.period, job.pc.run)) else None
    case Raise(text) => if InTry(job.pc) then Some(Handling(Other(text), StageOf(job.pc))) else None
    case Handle =>
      if job.pc.Handling? then Some(if forEvent then Reported(job.pc.error) else Returned(job.pc.error)) else None
    case Return => if job.pc.Reported? then Some(Returned(job.pc.error)) else None
    case Crash => if OutsideTry(job.pc) then Some(Crashed(StageOf(job.pc))) else None
  }

  /** What a move commits to the event's row. */
  function WriteEvent(e: Event, pc: Pc, move: Move): Event {
    match move
    case Mark => e.(status := Processing)
    case Record(now) =>
      if pc.Ran? then
        e.(status := Completed, runId := Some(pc.run.id), result := Some(pc.run.result), completedAt := Some(now))
      else e
    case Handle => if pc.Handling? then e.(status := Failed, error := Some(pc.error)) else e
    case _ => e
  }

  function WriteEvents(events: seq<Event>, job: Job, move: Move): seq<Event> {
    if job.kind.EventJob? && job.kind.event < |events|
    then events[job.kind.event := WriteEvent(events[job.kind.event], job.pc, move)]
    else events
  }

  ghost function Next(s: State, a: Action): Option<State> {
    match a
    case Ingest(tenant) =>
      Some(s.(events := s.events + [Event(tenant, Queued, None, None, None, None)],
              pending := s.pending + multiset{|s.events|}))
    case Retry(e) =>
      if e < |s.events| && s.events[e].status == Failed then Some(s.(pending := s.pending + multiset{e})) else None
    case Enqueue(e) =>
      if e in s.pending && e < |s.events|
      then Some(s.(jobs := s.jobs + [Job(EventJob(e), s.events[e].tenant, Waiting)],
                   pending := s.pending - multiset{e}))
      else None
    case DropEnqueue(e) => if e in s.pending then Some(s.(pending := s.pending - multiset{e})) else None
    case Submit(tenant) => Some(s.(jobs := s.jobs + [Job(AgentJob, tenant, Waiting)]))
    case Tick => Some(s.(period := s.period + 1))
    case Step(j, move) =>
      if j >= |s.jobs| then None
      else
        match After(s, s.jobs[j], move)
        case None => None
        case Some(pc) =>
          Some(s.(jobs := s.jobs[j := s.jobs[j].(pc := pc)],
                  events := WriteEvents(s.events, s.jobs[j], move),
                  usage := if move == Write then WriteUsage(s.usage, s.jobs[j]) else s.usage))
  }

  ghost function Exec(s: State, acts: seq<Action>): Option<State> {
    Runs.Exec(Next, s, acts)
  }

  // ---- conservation ----

  type Pick = (Tenant, nat) -> bool

  function RowMeter(m: Meter, pick: Pick): UsageRow -> int {
    (row: UsageRow) => if pick(row.tenant, row.period) then Reading(m, row) else 0
  }

  function JobMeter(m: Meter, pick: Pick): Job -> int {
    (job: Job) => if job.pc.Counted? && pick(job.tenant, job.pc.period) then Charge(m, job.kind, job.pc.run) else 0
  }

  /** A row that a job is about to add to is the row of the job's tenant and period. */
  predicate KnowsItsRow(usage: seq<UsageRow>, job: Job) {
    job.pc.Adding? ==> IsRow(usage, job.pc.row, job.tenant, job.pc.period)
  }

  ghost predicate Balanced(s: State, m: Meter, pick: Pick) {
    Sum(RowMeter(m, pick), s.usage) == Sum(JobMeter(m, pick), s.jobs)
  }

  ghost predicate RowsKnown(s: State) {
    forall j | 0 <= j < |s.jobs| :: KnowsItsRow(s.usage, s.jobs[j])
  }

  lemma {:induction false} RowStays(s: State, a: Action, r: nat, tenant: Tenant, period: nat)
    requires Next(s, a).Some? && IsRow(s.usage, r, tenant, period)
    ensures IsRow(Next(s, a).value.usage, r, tenant, period)
  {
    hide CompletedRun;
  }

  lemma {:induction false} RowsKnownStep(s: State, a: Action)
    requires Next(s, a).Some? && RowsKnown(s)
    ensures RowsKnown(Next(s, a).value)
  {
    hide Next, IsRow;
    var s' := Next(s, a).value;
    forall j | 0 <= j < |s'.jobs| ensures KnowsItsRow(s'.usage, s'.jobs[j]) {
      OneJobKnows(s, a, j);
      if s'.jobs[j].pc.Adding? && IsRow(s.usage, s'.jobs[j].pc.row, s'.jobs[j].tenant, s'.jobs[j].pc.period) {
        RowStays(s, a, s'.jobs[j].pc.row, s'.jobs[j].tenant, s'.jobs[j].pc.period);
      }
    }
  }

  lemma {:induction false} OneJobKnows(s: State, a: Action, j: nat)
    requires Next(s, a).Some? && RowsKnown(s) && j < |Next(s, a).value.jobs|
    ensures KnowsItsRow(s.usage, Next(s, a).value.jobs[j])
  {
    hide CompletedRun;
    if j < |s.jobs| {
      assert KnowsItsRow(s.usage, s.jobs[j]);
    }
  }

  lemma {:induction false} BalancedStep(s: State, a: Action, m: Meter, pick: Pick)
    requires Next(s, a).Some? && RowsKnown(s) && Balanced(s, m, pick)
    ensures Balanced(Next(s, a).value, m, pick)
  {
    hide CompletedRun, Sum;
    var s' := Next(s, a).value;
    match a
    case Enqueue(e) => SumAppend(JobMeter(m, pick), s.jobs, Job(EventJob(e), s.events[e].tenant, Waiting));
    case Submit(tenant) => SumAppend(JobMeter(m, pick), s.jobs, Job(AgentJob, tenant, Waiting));
    case Step(j, move) =>
      var job := s.jobs[j];
      SumUpdate(JobMeter(m, pick), s.jobs, j, s'.jobs[j]);
      if move == Write {
        WriteBalances(s.usage, job, m, pick);
      }
    case _ =>
  }

  lemma {:induction false} WriteBalances(usage: seq<UsageRow>, job: Job, m: Meter, pick: Pick)
    requires KnowsItsRow(usage, job) && (job.pc.Inserting? || job.pc.Adding?)
    ensures Sum(RowMeter(m, pick), WriteUsage(usage, job)) ==
            Sum(RowMeter(m, pick), usage)
            + if pick(job.tenant, job.pc.period) then Charge(m, job.kind, job.pc.run) else 0
  {
    hide Sum;
    match job.pc
    case Inserting(period, run) =>
      SumAppend(RowMeter(m, pick), usage, Charged(UsageRow(job.tenant, period, 0, 0, 0, 0), job.kind, run));
    case Adding(row, period, run) =>
      SumUpdate(RowMeter(m, pick), usage, row, Charged(usage[row], job.kind, run));
  }

  lemma {:induction false} AlwaysBalanced(acts: seq<Action>, m: Meter, pick: Pick)
    requires Exec(Init, acts).Some?
    ensures RowsKnown(Exec(Init, acts).value) && Balanced(Exec(Init, acts).value, m, pick)
  {
    hide Next, RowsKnown, Balanced;
    if acts == [] {
      InitBalanced(m, pick);
    } else {
      var s := Exec(Init, acts[..|acts| - 1]).value;
      AlwaysBalanced(acts[..|acts| - 1], m, pick);
      RowsKnownStep(s, acts[|acts| - 1]);
      BalancedStep(s, acts[|acts| - 1], m, pick);
    }
  }

  lemma {:induction false} InitBalanced(m: Meter, pick: Pick)
    ensures RowsKnown(Init) && Balanced(Init, m, pick)
  {
  }

  // ---- what the usage rows add up to ----

  function RunOf(pc: Pc): Option<Run> {
    if pc.Ran? || pc.Recorded? || pc.Announced? || pc.Inserting? || pc.Adding? || pc.Counted?
    then Some(pc.run)
    else None
  }

  /** A job's run reports as input and as output what its chat-model calls took. */
  predicate ReportsSpent(job: Job) {
    RunOf(job.pc).Some? ==>
      RunOf(job.pc).value.result.tokensInput == RunOf(job.pc).value.spent == RunOf(job.pc).value.result.tokensOutput
  }

  ghost predicate AllReportSpent(s: State) {
    forall j | 0 <= j < |s.jobs| :: ReportsSpent(s.jobs[j])
  }

  lemma {:induction false} ReportsSpentStep(s: State, a: Action)
    requires Next(s, a).Some? && AllReportSpent(s)
    ensures AllReportSpent(Next(s, a).value)
  {
    hide Agent.AgentRun, Agent.Completed, Agent.Final, Agent.Spent;
    if a.Step? {
      assert ReportsSpent(s.jobs[a.job]);
      if a.move.Complete? {
        Agent.TokensConserved(a.move.visits, a.move.start, a.move.env);
      }
    }
  }

  lemma {:induction false} AlwaysReportsSpent(acts: seq<Action>)
    requires Exec(Init, acts).Some?
    ensures AllReportSpent(Exec(Init, acts).value)
  {
    hide Next, ReportsSpent;
    if acts != [] {
      AlwaysReportsSpent(acts[..|acts| - 1]);
      ReportsSpentStep(Exec(Init, acts[..|acts| - 1]).value, acts[|acts| - 1]);
    }
  }

  /** Jobs that ended well, for the tenants and periods picked. */
  function CountedFor(pick: Pick): Job -> bool {
    (job: Job) => job.pc.Counted? && pick(job.tenant, job.pc.period)
  }

  /** Those of them that processed an event. */
  function CountedEventFor(pick: Pick): Job -> bool {
    (job: Job) => job.kind.EventJob? && job.pc.Counted? && pick(job.tenant, job.pc.period)
  }

  function SpentBy(pick: Pick): Job -> int {
    (job: Job) => if job.pc.Counted? && pick(job.tenant, job.pc.period) then job.pc.run.spent else 0
  }

  /** Summed over whatever usage rows there are for the tenants and periods picked, duplicates included:
      the runs are the jobs that ended well, the webhook events those of them that processed an event, and
      the input tokens, like the output tokens, what the chat-model calls of those jobs took. */
  lemma {:induction false} UsageConserved(acts: seq<Action>, pick: Pick)
    requires Exec(Init, acts).Some?
    ensures var s := Exec(Init, acts).value;
            && Sum(RowMeter(Runs, pick), s.usage) == |Where(CountedFor(pick), s.jobs)|
            && Sum(RowMeter(Webhooks, pick), s.usage) == |Where(CountedEventFor(pick), s.jobs)|
            && Sum(RowMeter(TokensInput, pick), s.usage) == Sum(SpentBy(pick), s.jobs)
            && Sum(RowMeter(TokensOutput, pick), s.usage) == Sum(SpentBy(pick), s.jobs)
  {
    hide Next, Sum, Runs.Exec, AllReportSpent, ReportsSpent, JobMeter, SpentBy, CountedFor, CountedEventFor, Indicator;
    var s := Exec(Init, acts).value;
    AlwaysBalanced(acts, Runs, pick);
    AlwaysBalanced(acts, Webhooks, pick);
    AlwaysBalanced(acts, TokensInput, pick);
    AlwaysBalanced(acts, TokensOutput, pick);
    AlwaysReportsSpent(acts);
    SumOfIndicator(CountedFor(pick), s.jobs);
    SumOfIndicator(CountedEventFor(pick), s.jobs);
    forall job | job in s.jobs
      ensures JobMeter(Runs, pick)(job) == Indicator(CountedFor(pick))(job)
      ensures JobMeter(Webhooks, pick)(job) == Indicator(CountedEventFor(pick))(job)
      ensures JobMeter(TokensInput, pick)(job) == SpentBy(pick)(job) == JobMeter(TokensOutput, pick)(job)
    {
      JobReportsSpent(s, job);
      ChargeOf(job, pick);
    }
    SumExtensional(JobMeter(Runs, pick), Indicator(CountedFor(pick)), s.jobs);
    SumExtensional(JobMeter(Webhooks, pick), Indicator(CountedEventFor(pick)), s.jobs);
    SumExtensional(JobMeter(TokensInput, pick), SpentBy(pick), s.jobs);
    SumExtensional(JobMeter(TokensOutput, pick), SpentBy(pick), s.jobs);
  }

  lemma {:induction false} JobReportsSpent(s: State, job: Job)
    requires AllReportSpent(s) && job in s.jobs
    ensures ReportsSpent(job)
  {
  }

  lemma {:induction false} ChargeOf(job: Job, pick: Pick)
    requires ReportsSpent(job)
    ensures JobMeter(Runs, pick)(job) == Indicator(CountedFor(pick))(job)
    ensures JobMeter(Webhooks, pick)(job) == Indicator(CountedEventFor(pick))(job)
    ensures JobMeter(TokensInput, pick)(job) == SpentBy(pick)(job) == JobMeter(TokensOutput, pick)(job)
  {
    MeterOf(Runs, pick, job);
    MeterOf(Webhooks, pick, job);
    MeterOf(TokensInput, pick, job);
    MeterOf(TokensOutput, pick, job);
    assert Indicator(CountedFor(pick))(job) == if CountedFor(pick)(job) then 1 else 0;
    assert CountedFor(pick)(job) == (job.pc.Counted? && pick(job.tenant, job.pc.period));
  }

  lemma {:induction false} MeterOf(m: Meter, pick: Pick, job: Job)
    ensures JobMeter(m, pick)(job)
         == if job.pc.Counted? && pick(job.tenant, job.pc.period) then Charge(m, job.kind, job.pc.run) else 0
  {
  }

  // ---- the life of an event ----

  predicate Sealed(e: Event) {
    && (e.status == Completed ==> e.runId.Some? && e.result.Some? && e.completedAt.Some?)
    && (e.status == Failed ==> e.error.Some?)
  }

  /** What no later step takes back. An error message stays, even on an event that a retry completes. */
  predicate Later(e: Event, f: Event) {
    && f.tenant == e.tenant
    && (e.status != Queued ==> f.status != Queued)
    && (e.runId.Some? ==> f.runId.Some?) && (e.result.Some? ==> f.result.Some?)
    && (e.completedAt.Some? ==> f.completedAt.Some?) && (e.error.Some? ==> f.error.Some?)
  }

  lemma {:induction false} EventStep(s: State, a: Action, i: nat)
    requires Next(s, a).Some? && i < |s.events|
    ensures i < |Next(s, a).value.events|
    ensures Later(s.events[i], Next(s, a).value.events[i])
    ensures Sealed(s.events[i]) ==> Sealed(Next(s, a).value.events[i])
    ensures Next(s, a).value.events[i] == s.events[i]
            || (a.Step? && a.job < |s.jobs| && s.jobs[a.job].kind == EventJob(i))
  {
    hide CompletedRun, Selects, WriteUsage;
  }

  lemma {:induction false} NeverRequeued(s: State, acts: seq<Action>, i: nat)
    requires Exec(s, acts).Some? && i < |s.events|
    ensures i < |Exec(s, acts).value.events| && Later(s.events[i], Exec(s, acts).value.events[i])
  {
    hide Next;
    if acts != [] {
      NeverRequeued(s, acts[..|acts| - 1], i);
      EventStep(Exec(s, acts[..|acts| - 1]).value, acts[|acts| - 1], i);
    }
  }

  // ---- what a job still owes its event ----

  /** The job works on the event and has not yet marked it. */
  predicate BeforeMark(job: Job, i: nat) {
    job.kind == EventJob(i) && StageOf(job.pc) == Unmarked
  }

  /** The job has marked the event and is going to complete or fail it, unless it has crashed before that. */
  predicate Owes(job: Job, i: nat) {
    job.kind == EventJob(i) && StageOf(job.pc) == Owing
  }

  ghost predicate EventKept(s: State, i: nat)
    requires i < |s.events|
  {
    && Sealed(s.events[i])
    && (s.events[i].status == Queued ==> forall j | 0 <= j < |s.jobs| && s.jobs[j].kind == EventJob(i) ::
        BeforeMark(s.jobs[j], i))
    && (s.events[i].status == Processing ==> exists j :: 0 <= j < |s.jobs| && Owes(s.jobs[j], i))
  }

  predicate JobKnown(s: State, job: Job) {
    job.kind.EventJob? ==>
      job.kind.event < |s.events| && s.events[job.kind.event].tenant == job.tenant
      && job.pc != NotFound
  }

  ghost predicate Tracked(s: State) {
    && (forall i: nat | i < |s.events| :: EventKept(s, i))
    && (forall j | 0 <= j < |s.jobs| :: JobKnown(s, s.jobs[j]))
    && (forall i | i in s.pending :: i < |s.events|)
  }

  lemma {:induction false} JobKnownStep(s: State, a: Action, j: nat)
    requires Next(s, a).Some? && Tracked(s) && j < |Next(s, a).value.jobs|
    ensures JobKnown(Next(s, a).value, Next(s, a).value.jobs[j])
  {
    hide CompletedRun, Selects, WriteUsage, EventKept, WriteEvent, Later, Sealed;
    if j < |s.jobs| {
      assert JobKnown(s, s.jobs[j]);
      if s.jobs[j].kind.EventJob? {
        EventStep(s, a, s.jobs[j].kind.event);
        assert Later(s.events[s.jobs[j].kind.event], Next(s, a).value.events[s.jobs[j].kind.event]);
        LaterTenant(s.events[s.jobs[j].kind.event], Next(s, a).value.events[s.jobs[j].kind.event]);
      }
    }
  }

  lemma {:induction false} LaterTenant(e: Event, f: Event)
    requires Later(e, f)
    ensures e.tenant == f.tenant && (e.status != Queued ==> f.status != Queued)
  {
  }

  lemma {:induction false} EventKeptStep(s: State, a: Action, i: nat)
    requires Next(s, a).Some? && Tracked(s) && i < |s.events|
    ensures i < |Next(s, a).value.events| && EventKept(Next(s, a).value, i)
  {
    hide CompletedRun, Selects, WriteUsage, Later, Sealed;
    var s' := Next(s, a).value;
    EventStep(s, a, i);
    assert EventKept(s, i);
    LaterTenant(s.events[i], s'.events[i]);
    if s'.events[i].status == Queued {
      QueuedStep(s, a, i);
    } else if s'.events[i].status == Processing {
      ProcessingStep(s, a, i);
    }
  }

  lemma {:induction false} QueuedStep(s: State, a: Action, i: nat)
    requires Next(s, a).Some? && Tracked(s) && i < |s.events| && EventKept(s, i) && s.events[i].status == Queued
    requires i < |Next(s, a).value.events| && Next(s, a).value.events[i].status == Queued
    ensures forall j | 0 <= j < |Next(s, a).value.jobs| && Next(s, a).value.jobs[j].kind == EventJob(i) ::
            BeforeMark(Next(s, a).value.jobs[j], i)
  {
    hide CompletedRun, Selects, WriteUsage, Sealed, JobKnown;
    if a.Step? && s.jobs[a.job].kind == EventJob(i) {
      assert BeforeMark(s.jobs[a.job], i);
    }
  }

  lemma {:induction false} ProcessingStep(s: State, a: Action, i: nat)
    requires Next(s, a).Some? && i < |s.events| && EventKept(s, i)
    requires i < |Next(s, a).value.events| && Next(s, a).value.events[i].status == Processing
    ensures exists j :: 0 <= j < |Next(s, a).value.jobs| && Owes(Next(s, a).value.jobs[j], i)
  {
    hide CompletedRun, Selects, WriteUsage, Sealed;
    var s' := Next(s, a).value;
    if a.Step? && a.move == Mark && s.jobs[a.job].kind == EventJob(i) {
      assert Owes(s'.jobs[a.job], i);
    } else {
      assert s.events[i].status == Processing;
      var j :| 0 <= j < |s.jobs| && Owes(s.jobs[j], i);
      assert Owes(s'.jobs[j], i);
    }
  }

  lemma {:induction false} TrackedStep(s: State, a: Action)
    requires Next(s, a).Some? && Tracked(s)
    ensures Tracked(Next(s, a).value)
  {
    hide CompletedRun, Selects, WriteUsage, After, WriteEvent, EventKept, JobKnown;
    var s' := Next(s, a).value;
    forall i: nat | i < |s'.events| ensures EventKept(s', i) {
      if i < |s.events| {
        EventKeptStep(s, a, i);
      } else {
        NewEventKept(s, a, i);
      }
    }
    forall j | 0 <= j < |s'.jobs| ensures JobKnown(s', s'.jobs[j]) {
      JobKnownStep(s, a, j);
    }
    PendingStep(s, a);
  }

  lemma {:induction false} NewEventKept(s: State, a: Action, i: nat)
    requires Next(s, a).Some? && Tracked(s) && |s.events| <= i < |Next(s, a).value.events|
    ensures EventKept(Next(s, a).value, i)
  {
    hide CompletedRun, Selects, WriteUsage;
    var s' := Next(s, a).value;
    forall j | 0 <= j < |s'.jobs| ensures s'.jobs[j].kind != EventJob(i) {
      assert JobKnown(s, s.jobs[j]);
    }
  }

  lemma {:induction false} PendingStep(s: State, a: Action)
    requires Next(s, a).Some? && Tracked(s)
    ensures forall i | i in Next(s, a).value.pending :: i < |Next(s, a).value.events|
  {
    hide CompletedRun, Selects, WriteUsage, EventKept, JobKnown;
  }

  lemma {:induction false} AlwaysTracked(acts: seq<Action>)
    requires Exec(Init, acts).Some?
    ensures Tracked(Exec(Init, acts).value)
  {
    hide Next, Tracked;
    if acts == [] {
      InitTracked();
    } else {
      AlwaysTracked(acts[..|acts| - 1]);
      TrackedStep(Exec(Init, acts[..|acts| - 1]).value, acts[|acts| - 1]);
    }
  }

  lemma {:induction false} InitTracked()
    ensures Tracked(Init)
  {
  }

  /** The job has come to its end. */
  predicate Over(pc: Pc) {
    pc.Counted? || pc.Returned? || pc.NotFound? || pc.Crashed?
  }

  /** The step writes the status of the event. */
  predicate Writes(s: State, a: Action, i: nat) {
    && a.Step? && a.job < |s.jobs| && s.jobs[a.job].kind == EventJob(i)
    && (a.move.Mark? || a.move.Record? || a.move.Handle?)
  }

  /** The job that wrote the event's status last, if any has. */
  ghost function LastWriter(acts: seq<Action>, i: nat): Option<nat>
    requires Exec(Init, acts).Some?
  {
    if acts == [] then None
    else
      var front, a := acts[..|acts| - 1], acts[|acts| - 1];
      if Writes(Exec(Init, front).value, a, i) then Some(a.job) else LastWriter(front, i)
  }

  /** What the last writer says about the status. */
  ghost predicate Written(s: State, i: nat, writer: Option<nat>) {
    match writer
    case None =>
      && (i < |s.events| ==> s.events[i].status == Queued)
      && (forall j | 0 <= j < |s.jobs| && s.jobs[j].kind == EventJob(i) :: StageOf(s.jobs[j].pc) == Unmarked)
    case Some(j) =>
      && i < |s.events| && j < |s.jobs| && s.jobs[j].kind == EventJob(i)
      && s.events[i].status != Queued && StageOf(s.jobs[j].pc) != Unmarked
      && (s.events[i].status == Processing <==> StageOf(s.jobs[j].pc) == Owing)
  }

  lemma {:induction false} StageStep(s: State, job: Job, move: Move)
    requires job.kind.EventJob? && After(s, job, move).Some?
    ensures StageOf(After(s, job, move).value) == if move.Mark? then Owing
                                                   else if move.Record? || move.Handle? then Settled
                                                   else StageOf(job.pc)
  {
    hide CompletedRun, Selects;
  }

  lemma {:induction false} StatusStep(s: State, a: Action, i: nat)
    requires Next(s, a).Some? && i < |s.events|
    ensures i < |Next(s, a).value.events|
    ensures !Writes(s, a, i) ==> Next(s, a).value.events[i] == s.events[i]
    ensures Writes(s, a, i) ==>
              Next(s, a).value.events[i].status
              == if a.move.Mark? then Processing else if a.move.Record? then Completed else Failed
  {
    hide CompletedRun, Selects, WriteUsage;
  }

  lemma {:induction false} WrittenByWrite(s: State, a: Action, i: nat)
    requires Next(s, a).Some? && Writes(s, a, i) && JobKnown(s, s.jobs[a.job])
    ensures Written(Next(s, a).value, i, Some(a.job))
  {
    hide After, WriteEvent, WriteUsage, StageOf;
    StatusStep(s, a, i);
    StageStep(s, s.jobs[a.job], a.move);
  }

  /** What a step that does not write the event's status does to a job of the event. */
  lemma {:induction false} OtherStep(s: State, a: Action, i: nat, j: nat)
    requires Next(s, a).Some? && !Writes(s, a, i) && j < |Next(s, a).value.jobs|
    requires Next(s, a).value.jobs[j].kind == EventJob(i)
    ensures if j < |s.jobs|
            then s.jobs[j].kind == EventJob(i) && StageOf(Next(s, a).value.jobs[j].pc) == StageOf(s.jobs[j].pc)
            else StageOf(Next(s, a).value.jobs[j].pc) == Unmarked
  {
    hide After, WriteEvents, WriteUsage, StageOf;
    WaitingUnmarked();
    if a.Step? && a.job == j {
      StageStep(s, s.jobs[j], a.move);
    }
  }

  lemma {:induction false} WrittenKept(s: State, a: Action, i: nat, writer: Option<nat>)
    requires Next(s, a).Some? && Tracked(s) && Written(s, i, writer) && !Writes(s, a, i)
    ensures Written(Next(s, a).value, i, writer)
  {
    hide After, WriteEvent, WriteUsage, EventKept, StageOf, Writes;
    var s' := Next(s, a).value;
    if i < |s.events| {
      StatusStep(s, a, i);
    }
    if writer == None {
      forall j | 0 <= j < |s'.jobs| && s'.jobs[j].kind == EventJob(i) ensures StageOf(s'.jobs[j].pc) == Unmarked {
        OtherStep(s, a, i, j);
      }
    } else {
      OtherStep(s, a, i, writer.value);
    }
  }

  lemma {:induction false} WrittenStep(s: State, a: Action, i: nat, writer: Option<nat>)
    requires Next(s, a).Some? && Tracked(s) && Written(s, i, writer)
    ensures Written(Next(s, a).value, i, if Writes(s, a, i) then Some(a.job) else writer)
  {
    hide Next, Written, JobKnown, EventKept;
    if Writes(s, a, i) {
      assert JobKnown(s, s.jobs[a.job]);
      WrittenByWrite(s, a, i);
    } else {
      WrittenKept(s, a, i, writer);
    }
  }

  lemma {:induction false} WaitingUnmarked()
    ensures StageOf(Waiting) == Unmarked
  {
  }

  lemma {:induction false} AlwaysWritten(acts: seq<Action>, i: nat)
    requires Exec(Init, acts).Some?
    ensures Written(Exec(Init, acts).value, i, LastWriter(acts, i))
  {
    hide Next, Written, Tracked;
    if acts == [] {
      InitWritten(i);
    } else {
      var front := acts[..|acts| - 1];
      AlwaysWritten(front, i);
      AlwaysTracked(front);
      WrittenStep(Exec(Init, front).value, acts[|acts| - 1], i, LastWriter(front, i));
    }
  }

  lemma {:induction false} InitWritten(i: nat)
    ensures Written(Init, i, None)
  {
  }

  // ---- what an event's row holds ----

  /** What the last job to write an event's row has left there. */
  predicate Shows(e: Event, pc: Pc) {
    match pc
    case Marked | Trying | Ran(_) => e.status == Processing
    case Recorded(run) => e.status == Completed && e.runId == Some(run.id) && e.result == Some(run.result)
    case Announced(run) => e.status == Completed && e.runId == Some(run.id) && e.result == Some(run.result)
    case Inserting(_, run) => e.status == Completed && e.runId == Some(run.id) && e.result == Some(run.result)
    case Adding(_, _, run) => e.status == Completed && e.runId == Some(run.id) && e.result == Some(run.result)
    case Counted(_, run) => e.status == Completed && e.runId == Some(run.id) && e.result == Some(run.result)
    case Handling(_, stage) => e.status == if stage == Owing then Processing else Completed
    case Reported(error) => e.status == Failed && e.error == Some(error)
    case Returned(error) => e.status == Failed && e.error == Some(error)
    case Crashed(stage) => if stage == Owing then e.status == Processing else e.status in {Completed, Failed}
    case Waiting | Loaded | NotFound => false
  }

  ghost predicate ShownBy(s: State, i: nat, writer: Option<nat>) {
    writer.Some? ==>
      && i < |s.events| && writer.value < |s.jobs| && s.jobs[writer.value].kind == EventJob(i)
      && Shows(s.events[i], s.jobs[writer.value].pc)
  }

  lemma {:induction false} ShowsWritten(s: State, job: Job, move: Move, i: nat)
    requires job.kind == EventJob(i) && i < |s.events| && After(s, job, move).Some?
    requires move.Mark? || move.Record? || move.Handle?
    ensures Shows(WriteEvents(s.events, job, move)[i], After(s, job, move).value)
  {
    hide CompletedRun, Selects;
  }

  lemma {:induction false} ShowsKept(s: State, job: Job, move: Move, e: Event)
    requires Shows(e, job.pc) && After(s, job, move).Some? && job.kind.EventJob?
    requires !(move.Mark? || move.Record? || move.Handle?)
    ensures Shows(e, After(s, job, move).value)
  {
    hide CompletedRun, Selects;
  }

  lemma {:induction false} ShownStep(s: State, a: Action, i: nat, writer: Option<nat>)
    requires Next(s, a).Some? && Tracked(s) && ShownBy(s, i, writer)
    ensures ShownBy(Next(s, a).value, i, if Writes(s, a, i) then Some(a.job) else writer)
  {
    hide After, WriteEvents, WriteUsage, EventKept, Shows;
    if Writes(s, a, i) {
      assert JobKnown(s, s.jobs[a.job]);
      ShowsWritten(s, s.jobs[a.job], a.move, i);
      StatusStep(s, a, i);
    } else if writer.Some? {
      StatusStep(s, a, i);
      if a.Step? && a.job == writer.value {
        ShowsKept(s, s.jobs[a.job], a.move, s.events[i]);
      }
    }
  }

  /** In every reachable state an event's row shows what the last job to write it has got to: while that job carries
      a run, its number and its result, unchanged; when it has failed, its error. */
  lemma {:induction false} AlwaysShown(acts: seq<Action>, i: nat)
    requires Exec(Init, acts).Some?
    ensures ShownBy(Exec(Init, acts).value, i, LastWriter(acts, i))
  {
    hide Next, ShownBy, Tracked;
    if acts == [] {
      NotShown(Init, i);
    } else {
      var front := acts[..|acts| - 1];
      AlwaysShown(front, i);
      AlwaysTracked(front);
      ShownStep(Exec(Init, front).value, acts[|acts| - 1], i, LastWriter(front, i));
    }
  }

  lemma {:induction false} NotShown(s: State, i: nat)
    ensures ShownBy(s, i, None)
  {
  }

  /** The run is one the agent can make for such a job: its result is that of the last visit. */
  ghost predicate AgentMade(kind: Kind, run: Run) {
    exists start: Agent.State, env: Agent.Env, visits: seq<Agent.Visit> ::
      IsRun(kind, start, env, visits) && run.result == Agent.ResultOf(Agent.Final(visits))
      && run.spent == Agent.Spent(visits, env, 0)
  }

  ghost predicate CarriesRun(job: Job) {
    RunOf(job.pc).Some? ==> AgentMade(job.kind, RunOf(job.pc).value)
  }

  ghost predicate AllCarryRuns(s: State) {
    forall j | 0 <= j < |s.jobs| :: CarriesRun(s.jobs[j])
  }

  lemma {:induction false} CarriesStep(s: State, job: Job, move: Move)
    requires CarriesRun(job) && After(s, job, move).Some?
    ensures CarriesRun(job.(pc := After(s, job, move).value))
  {
    hide Selects, IsRun, AgentMade, Agent.ResultOf;
    if move.Complete? {
      RunMade(job.kind, move.id, move.start, move.env, move.visits);
    }
  }

  lemma {:induction false} RunMade(kind: Kind, id: nat, start: Agent.State, env: Agent.Env, visits: seq<Agent.Visit>)
    requires CompletedRun(kind, id, start, env, visits).Some?
    ensures AgentMade(kind, CompletedRun(kind, id, start, env, visits).value)
    ensures CompletedRun(kind, id, start, env, visits).value.id == id
  {
    hide Agent.AgentRun, Agent.Completed, Agent.ResultOf, Agent.Spent;
  }

  lemma {:induction false} AlwaysCarryRuns(acts: seq<Action>)
    requires Exec(Init, acts).Some?
    ensures AllCarryRuns(Exec(Init, acts).value)
  {
    hide After, CarriesRun, WriteEvents, WriteUsage;
    if acts != [] {
      var front, a := acts[..|acts| - 1], acts[|acts| - 1];
      AlwaysCarryRuns(front);
      if a.Step? {
        assert CarriesRun(Exec(Init, front).value.jobs[a.job]);
        CarriesStep(Exec(Init, front).value, Exec(Init, front).value.jobs[a.job], a.move);
      }
      WaitingCarries();
    }
  }

  lemma {:induction false} WaitingCarries()
    ensures forall kind, tenant :: CarriesRun(Job(kind, tenant, Waiting))
  {
  }

  /** So an event last written by a job that ended well is completed and holds the number and the result of that
      job's agent run. */
  lemma {:induction false} CompletedHoldsItsRun(acts: seq<Action>, i: nat, j: nat)
    requires Exec(Init, acts).Some? && LastWriter(acts, i) == Some(j)
    requires j < |Exec(Init, acts).value.jobs| && Exec(Init, acts).value.jobs[j].pc.Counted?
    ensures i < |Exec(Init, acts).value.events|
    ensures var e, run := Exec(Init, acts).value.events[i], Exec(Init, acts).value.jobs[j].pc.run;
            && e.status == Completed && e.runId == Some(run.id) && e.result == Some(run.result)
            && AgentMade(EventJob(i), run)
  {
    hide Next, Runs.Exec, LastWriter, AgentMade;
    AlwaysShown(acts, i);
    AlwaysCarryRuns(acts);
    assert CarriesRun(Exec(Init, acts).value.jobs[j]);
  }

  /** Some job was enqueued for the event, and all jobs of the event are over. */
  predicate AllOver(s: State, i: nat) {
    && (exists j :: 0 <= j < |s.jobs| && s.jobs[j].kind == EventJob(i))
    && (forall j | 0 <= j < |s.jobs| && s.jobs[j].kind == EventJob(i) :: Over(s.jobs[j].pc))
  }

  /** The event is completed or failed but in exactly two cases: it is still queued if and only if every
      job of it crashed before marking it, and still processing if and only if the last job to write its
      status crashed owing it. */
  predicate SettledUnless(s: State, i: nat, writer: Option<nat>)
    requires i < |s.events|
  {
    && Sealed(s.events[i])
    && (s.events[i].status == Queued <==>
          forall j | 0 <= j < |s.jobs| && s.jobs[j].kind == EventJob(i) :: s.jobs[j].pc == Crashed(Unmarked))
    && (s.events[i].status == Processing <==>
          writer.Some? && writer.value < |s.jobs| && s.jobs[writer.value].pc == Crashed(Owing))
  }

  /** That holds once all jobs of an event are over, in every interleaving. */
  lemma {:induction false} Quiescence(acts: seq<Action>, i: nat)
    requires Exec(Init, acts).Some? && AllOver(Exec(Init, acts).value, i)
    ensures i < |Exec(Init, acts).value.events| && SettledUnless(Exec(Init, acts).value, i, LastWriter(acts, i))
  {
    hide Next, Runs.Exec, LastWriter;
    var s := Exec(Init, acts).value;
    AlwaysTracked(acts);
    AlwaysWritten(acts, i);
    var j :| 0 <= j < |s.jobs| && s.jobs[j].kind == EventJob(i);
    assert JobKnown(s, s.jobs[j]);
    assert EventKept(s, i);
    forall k | 0 <= k < |s.jobs| && s.jobs[k].kind == EventJob(i)
      ensures s.jobs[k].pc == Crashed(Unmarked) <==> StageOf(s.jobs[k].pc) == Unmarked
      ensures s.jobs[k].pc == Crashed(Owing) <==> StageOf(s.jobs[k].pc) == Owing
    {
      assert JobKnown(s, s.jobs[k]);
    }
  }

  /** For an event with a single job that is where this job crashed. */
  lemma {:induction false} SingleJobQuiescence(acts: seq<Action>, i: nat, j: nat)
    requires Exec(Init, acts).Some? && j < |Exec(Init, acts).value.jobs|
    requires Exec(Init, acts).value.jobs[j].kind == EventJob(i) && Over(Exec(Init, acts).value.jobs[j].pc)
    requires forall k | 0 <= k < |Exec(Init, acts).value.jobs|
             && Exec(Init, acts).value.jobs[k].kind == EventJob(i) :: k == j
    ensures i < |Exec(Init, acts).value.events|
    ensures var s := Exec(Init, acts).value;
            && (s.events[i].status == Queued <==> s.jobs[j].pc == Crashed(Unmarked))
            && (s.events[i].status == Processing <==> s.jobs[j].pc == Crashed(Owing))
  {
    hide Next, Runs.Exec, LastWriter;
    Quiescence(acts, i);
    AlwaysWritten(acts, i);
  }

  // ---- the jobs always come to an end ----

  function Weight(pc: Pc): nat {
    match pc
    case Waiting => 12
    case Loaded => 11
    case Marked => 10
    case Trying => 9
    case Ran(_) => 8
    case Recorded(_) => 7
    case Announced(_) => 6
    case Inserting(_, _) | Adding(_, _, _) => 5
    case Handling(_, _) => 3
    case Reported(_) => 2
    case _ => 0
  }

  function WeightOf(): Job -> int {
    (job: Job) => Weight(job.pc)
  }

  function Work(s: State): int {
    Sum(WeightOf(), s.jobs) + 13 * |s.pending|
  }

  /** No new request, retry or period. */
  predicate Internal(a: Action) {
    a.Enqueue? || a.DropEnqueue? || a.Step?
  }

  lemma {:induction false} MoveLowers(s: State, job: Job, move: Move)
    requires After(s, job, move).Some?
    ensures Weight(After(s, job, move).value) < Weight(job.pc)
  {
    hide CompletedRun, Selects;
  }

  lemma {:induction false} StepLowers(s: State, a: Action)
    requires Next(s, a).Some? && Internal(a)
    ensures Work(Next(s, a).value) < Work(s)
  {
    hide After, Weight, Sum, WriteEvents, WriteUsage;
    var s' := Next(s, a).value;
    match a
    case Enqueue(e) =>
      SumAppend(WeightOf(), s.jobs, Job(EventJob(e), s.events[e].tenant, Waiting));
      WaitingWeight();
    case DropEnqueue(e) =>
    case Step(j, move) =>
      MoveLowers(s, s.jobs[j], move);
      SumUpdate(WeightOf(), s.jobs, j, s'.jobs[j]);
  }

  lemma {:induction false} WaitingWeight()
    ensures Weight(Waiting) == 12
  {
  }

  /** Left alone, the workers stop: there is no infinite schedule. */
  lemma {:induction false} Drains(s: State, acts: seq<Action>)
    requires Exec(s, acts).Some? && forall a | a in acts :: Internal(a)
    ensures |acts| + Work(Exec(s, acts).value) <= Work(s)
  {
    hide Next, Work;
    if acts != [] {
      var front := acts[..|acts| - 1];
      Drains(s, front);
      StepLowers(Exec(s, front).value, acts[|acts| - 1]);
    }
  }

  /** And they stop only when every job is over and every enqueue made: until then some step other than a
      crash or a lost enqueue is possible. */
  lemma {:induction false} Progress(s: State) returns (a: Action)
    requires Tracked(s)
    requires s.pending != multiset{} || exists j :: 0 <= j < |s.jobs| && !Over(s.jobs[j].pc)
    ensures Next(s, a).Some? && Internal(a) && !a.DropEnqueue? && !(a.Step? && a.move == Crash)
  {
    hide CompletedRun, Selects, WriteEvents, WriteUsage;
    if i: nat :| i in s.pending {
      a := Enqueue(i);
    } else {
      var j :| 0 <= j < |s.jobs| && !Over(s.jobs[j].pc);
      var move := NextMove(s.jobs[j]);
      a := Step(j, move);
    }
  }

  /** A move that a job can always make. */
  function NextMove(job: Job): Move {
    match job.pc
    case Waiting => if job.kind.EventJob? then Load else Enter
    case Loaded => Mark
    case Marked => Enter
    case Inserting(_, _) | Adding(_, _, _) => Write
    case Handling(_, _) => Handle
    case Reported(_) => Return
    case _ => Raise("")
  }

  // ---- an event that nobody will settle ----

  /** The event is neither completed nor failed, and no job works on it or is about to be enqueued. */
  ghost predicate Stranded(s: State, i: nat) {
    && i < |s.events| && s.events[i].status != Completed && s.events[i].status != Failed && i !in s.pending
    && forall j | 0 <= j < |s.jobs| && s.jobs[j].kind == EventJob(i) :: Over(s.jobs[j].pc)
  }

  lemma {:induction false} OverIsFinal(s: State, job: Job, move: Move)
    requires Over(job.pc)
    ensures After(s, job, move) == None
  {
    hide CompletedRun, Selects;
  }

  lemma {:induction false} StrandedStep(s: State, a: Action, i: nat)
    requires Stranded(s, i) && Next(s, a).Some?
    ensures Stranded(Next(s, a).value, i)
  {
    hide After, WriteEvent, WriteUsage, Over;
    if a.Step? && s.jobs[a.job].kind == EventJob(i) {
      OverIsFinal(s, s.jobs[a.job], a.move);
    }
  }

  /** It stays so for ever: the retry endpoint refuses an event that has not failed. */
  lemma {:induction false} StrandedForever(s: State, acts: seq<Action>, i: nat)
    requires Stranded(s, i) && Exec(s, acts).Some?
    ensures Stranded(Exec(s, acts).value, i) && Next(Exec(s, acts).value, Retry(i)) == None
  {
    hide After, WriteEvents, WriteUsage, Over;
    if acts != [] {
      StrandedForever(s, acts[..|acts| - 1], i);
      StrandedStep(Exec(s, acts[..|acts| - 1]).value, acts[|acts| - 1], i);
    }
  }

  lemma {:induction false} Accept(s: State, tenant: Tenant) returns (acts: seq<Action>, s': State)
    ensures Exec(s, acts) == Some(s')
    ensures s' == s.(events := s.events + [Event(tenant, Queued, None, None, None, None)],
                     jobs := s.jobs + [Job(EventJob(|s.events|), tenant, Waiting)])
  {
    hide Runs.Exec;
    var s1 := Next(s, Ingest(tenant)).value;
    s' := Next(s1, Enqueue(|s.events|)).value;
    assert s.pending + multiset{|s.events|} - multiset{|s.events|} == s.pending;
    acts := [Ingest(tenant), Enqueue(|s.events|)];
    Runs.Chain(Next, acts, [s, s1, s']);
  }

  lemma {:induction false} CrashEarly(s: State, i: nat, j: nat) returns (acts: seq<Action>, s': State)
    requires i < |s.events| && j < |s.jobs| && s.jobs[j].kind == EventJob(i) && s.jobs[j].pc == Waiting
    ensures Exec(s, acts) == Some(s')
    ensures s' == s.(events := s.events[i := s.events[i].(status := Processing)],
                     jobs := s.jobs[j := s.jobs[j].(pc := Crashed(Owing))])
  {
    hide CompletedRun, Selects, Runs.Exec;
    var s1 := Next(s, Step(j, Load)).value;
    var s2 := Next(s1, Step(j, Mark)).value;
    s' := Next(s2, Step(j, Crash)).value;
    acts := [Step(j, Load), Step(j, Mark), Step(j, Crash)];
    Runs.Chain(Next, acts, [s, s1, s2, s']);
  }

  /** It can happen to any event: the broadcast between the first commit and the try block raises. */
  lemma {:induction false} CrashStrands(s: State, tenant: Tenant) returns (acts: seq<Action>, s': State)
    requires Tracked(s)
    ensures Exec(s, acts) == Some(s') && Stranded(s', |s.events|) && s'.events[|s.events|].status == Processing
    ensures s'.usage == s.usage && s'.period == s.period
  {
    hide Next, Runs.Exec, EventKept, JobKnown;
    var i, j := |s.events|, |s.jobs|;
    var accept, s1 := Accept(s, tenant);
    var crash, s2 := CrashEarly(s1, i, j);
    acts, s' := accept + crash, s2;
    Runs.ExecParts(Next, s, accept, crash);
    forall k | 0 <= k < |s'.jobs| && s'.jobs[k].kind == EventJob(i) ensures k == j {
      if k < j {
        assert JobKnown(s, s.jobs[k]);
        KnownBelow(s, s.jobs[k]);
      }
    }
  }

  lemma {:induction false} KnownBelow(s: State, job: Job)
    requires JobKnown(s, job)
    ensures job.kind.EventJob? ==> job.kind.event < |s.events|
  {
  }

  // ---- two rows for one tenant and period ----

  ghost predicate Duplicated(usage: seq<UsageRow>, tenant: Tenant, period: nat) {
    exists r: nat, q: nat :: r != q && IsRow(usage, r, tenant, period) && IsRow(usage, q, tenant, period)
  }

  /** The step inserts a row for the tenant and period, which have one. */
  ghost predicate InsertsAgain(s: State, a: Action, tenant: Tenant, period: nat) {
    && a.Step? && a.job < |s.jobs| && a.move == Write && s.jobs[a.job].tenant == tenant
    && s.jobs[a.job].pc.Inserting? && s.jobs[a.job].pc.period == period
    && exists r: nat :: IsRow(s.usage, r, tenant, period)
  }

  /** A second row appears exactly when a job that found none inserts its own after another has. */
  lemma {:induction false} DuplicateExactly(s: State, a: Action, tenant: Tenant, period: nat)
    requires Next(s, a).Some? && !Duplicated(s.usage, tenant, period)
    ensures Duplicated(Next(s, a).value.usage, tenant, period) <==> InsertsAgain(s, a, tenant, period)
  {
    hide CompletedRun, Selects;
    var usage := Next(s, a).value.usage;
    if r: nat :| IsRow(s.usage, r, tenant, period) {
      assert IsRow(usage, r, tenant, period) by {
        RowStays(s, a, r, tenant, period);
      }
      if |usage| > |s.usage| && IsRow(usage, |s.usage|, tenant, period) {
        assert Duplicated(usage, tenant, period);
      }
    }
    assert forall q: nat | q < |s.usage| :: IsRow(usage, q, tenant, period) ==> IsRow(s.usage, q, tenant, period);
  }

  /** Two jobs of a tenant without a row race to insert one. */
  lemma {:induction false} RaceDuplicates(s: State, j: nat, k: nat) returns (acts: seq<Action>, s': State)
    requires j < |s.jobs| && k < |s.jobs| && j != k && s.jobs[j].tenant == s.jobs[k].tenant
    requires s.jobs[j].pc.Announced? && s.jobs[k].pc.Announced? && Selects(s.usage, s.jobs[j].tenant, s.period, NoRow)
    ensures Exec(s, acts) == Some(s') && Duplicated(s'.usage, s.jobs[j].tenant, s.period) && s'.period == s.period
    ensures |s'.jobs| == |s.jobs| && s'.jobs[j].pc.Counted? && s'.jobs[k].pc.Counted?
  {
    hide CompletedRun, Runs.Exec, WriteEvents;
    var t := s.jobs[j].tenant;
    var s1 := Next(s, Step(j, Select(NoRow))).value;
    var s2 := Next(s1, Step(k, Select(NoRow))).value;
    var s3 := Next(s2, Step(j, Write)).value;
    s' := Next(s3, Step(k, Write)).value;
    assert IsRow(s'.usage, |s.usage|, t, s.period) && IsRow(s'.usage, |s.usage| + 1, t, s.period);
    acts := [Step(j, Select(NoRow)), Step(k, Select(NoRow)), Step(j, Write), Step(k, Write)];
    Runs.Chain(Next, acts, [s, s1, s2, s3, s']);
  }

  /** A new agent job that runs up to its usage query. */
  lemma {:induction false} AnnounceOne(s: State, tenant: Tenant) returns (acts: seq<Action>, s': State)
    ensures Exec(s, acts) == Some(s') && |s'.jobs| == |s.jobs| + 1
    ensures s' == s.(jobs := s'.jobs) && s'.jobs[..|s.jobs|] == s.jobs
    ensures s'.jobs[|s.jobs|].tenant == tenant && s'.jobs[|s.jobs|].pc.Announced?
  {
    hide CompletedRun, Selects, Runs.Exec, Agent.AgentRun, Agent.Completed, Agent.Spent, Agent.Final;
    var j, start, env := |s.jobs|, Agent.Start("", None, None, 3), Agent.Refusing();
    var visits := Agent.LongestRun(start);
    RunIsCompleted(AgentJob, 0, start, env, visits);
    var s1 := Next(s, Submit(tenant)).value;
    var s2 := Next(s1, Step(j, Enter)).value;
    var s3 := Next(s2, Step(j, Complete(0, start, env, visits))).value;
    s' := Next(s3, Step(j, Announce)).value;
    acts := [Submit(tenant), Step(j, Enter), Step(j, Complete(0, start, env, visits)), Step(j, Announce)];
    Runs.Chain(Next, acts, [s, s1, s2, s3, s']);
  }

  lemma {:induction false} RunIsCompleted(kind: Kind, id: nat, start: Agent.State, env: Agent.Env,
                                          visits: seq<Agent.Visit>)
    requires IsRun(kind, start, env, visits)
    ensures CompletedRun(kind, id, start, env, visits).Some?
  {
  }

  /** So from every state, the initial one included, in which a tenant has no row for the current period,
      two jobs can leave it with two. */
  lemma {:induction false} RaceFromAnywhere(s: State, tenant: Tenant) returns (acts: seq<Action>, s': State)
    requires Selects(s.usage, tenant, s.period, NoRow)
    ensures Exec(s, acts) == Some(s') && Duplicated(s'.usage, tenant, s.period) && s'.period == s.period
  {
    hide Next, Selects, Runs.Exec;
    var first, s1 := AnnounceOne(s, tenant);
    var second, s2 := AnnounceOne(s1, tenant);
    assert s2.jobs[|s.jobs|] == s2.jobs[..|s1.jobs|][|s.jobs|];
    var race, s3 := RaceDuplicates(s2, |s.jobs|, |s.jobs| + 1);
    Runs.ExecParts(Next, s, first, second);
    Runs.ExecParts(Next, s, first + second, race);
    acts, s' := first + second + race, s3;
  }

  /** The job has been or is about to be charged to the tenant's period. */
  predicate Charging(job: Job, tenant: Tenant, period: nat) {
    job.tenant == tenant && (job.pc.Inserting? || job.pc.Adding? || job.pc.Counted?) && job.pc.period == period
  }

  lemma {:induction false} DuplicateStays(s: State, a: Action, tenant: Tenant, period: nat)
    requires Next(s, a).Some? && Duplicated(s.usage, tenant, period)
    ensures Duplicated(Next(s, a).value.usage, tenant, period)
  {
    hide Next, IsRow;
    var r: nat, q: nat :| r != q && IsRow(s.usage, r, tenant, period) && IsRow(s.usage, q, tenant, period);
    RowStays(s, a, r, tenant, period);
    RowStays(s, a, q, tenant, period);
  }

  lemma {:induction false} NoNewCharge(s: State, a: Action, tenant: Tenant, period: nat, j: nat)
    requires Next(s, a).Some? && Duplicated(s.usage, tenant, period)
    requires j < |Next(s, a).value.jobs| && Charging(Next(s, a).value.jobs[j], tenant, period)
    ensures j < |s.jobs| && Charging(s.jobs[j], tenant, period)
  {
    hide CompletedRun;
  }

  /** From then on the period is closed for the tenant: no job that had not made its query by then is ever
      counted in it. */
  lemma {:induction false} DuplicateClosesPeriod(s: State, acts: seq<Action>, tenant: Tenant, period: nat, j: nat)
    requires Exec(s, acts).Some? && Duplicated(s.usage, tenant, period)
    requires j < |Exec(s, acts).value.jobs| && Charging(Exec(s, acts).value.jobs[j], tenant, period)
    ensures j < |s.jobs| && Charging(s.jobs[j], tenant, period)
  {
    hide Next, Charging, Duplicated;
    if acts != [] {
      var front := acts[..|acts| - 1];
      StillDuplicated(s, front, tenant, period);
      NoNewCharge(Exec(s, front).value, acts[|acts| - 1], tenant, period, j);
      DuplicateClosesPeriod(s, front, tenant, period, j);
    }
  }

  lemma {:induction false} StillDuplicated(s: State, acts: seq<Action>, tenant: Tenant, period: nat)
    requires Exec(s, acts).Some? && Duplicated(s.usage, tenant, period)
    ensures Duplicated(Exec(s, acts).value.usage, tenant, period)
  {
    hide Next, Duplicated;
    if acts != [] {
      StillDuplicated(s, acts[..|acts| - 1], tenant, period);
      DuplicateStays(Exec(s, acts[..|acts| - 1]).value, acts[|acts| - 1], tenant, period);
    }
  }
}
