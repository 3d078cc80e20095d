/** The worker's two tasks, the usage tracker and the endpoints that enqueue jobs, as they are written
    (backend/src/workers/tasks.py, lines 20-167; backend/src/services/usage_tracker.py, lines 29-88). */
module Tasks {
  import opened Options
  import opened Worker
  import Agent
  import Runs

  /** Which of a job's own steps raise, and what its agent run gives. */
  datatype World = World(
    loaded: bool,           // the query for the event
    marked: bool,           // the commit of the processing status
    entered: bool,          // the broadcast before the try block, or before the session
    agent: Option<Run>,
    recorded: bool,         // the commit of the completed status
    announced: bool,        // the broadcasts after it
    written: bool,          // the flush and commit of the usage row
    handled: bool,          // the commit of the failed status, or the failure broadcast of a task
    returned: bool,         // the failure broadcast of an event
    now: nat
  )

  /** The agent run is one that the machine can make. */
  ghost predicate Genuine(w: World, kind: Kind, start: Agent.State, env: Agent.Env, visits: seq<Agent.Visit>) {
    w.agent.Some? ==> CompletedRun(kind, w.agent.value.id, start, env, visits) == w.agent
  }

  class Session {
    var events: seq<Event>
    var usage: seq<UsageRow>
    const period: nat

    constructor (events: seq<Event>, usage: seq<UsageRow>, period: nat)
      ensures this.events == events && this.usage == usage && this.period == period
    {
      this.events, this.usage, this.period := events, usage, period;
    }

    /** The machine's state in which this session's job is the only one. */
    ghost function With(job: Job): State
      reads this
    {
      State(events, usage, [job], multiset{}, period)
    }

    /** The row of the tenant for the current period, if there is exactly one. */
    method SelectRow(tenant: Tenant) returns (found: Selected)
      ensures Selects(usage, tenant, period, found)
    {
      found := NoRow;
      for k := 0 to |usage|
        invariant found.NoRow? ==> forall r: nat | r < k :: !IsRow(usage, r, tenant, period)
        invariant found.OneRow? ==> found.row < k && IsRow(usage, found.row, tenant, period)
                                    && forall r: nat | r < k && IsRow(usage, r, tenant, period) :: r == found.row
        invariant found.ManyRows? ==> Selects(usage, tenant, period, found)
      {
        if usage[k].tenant == tenant && usage[k].period == period {
          found := match found
            case NoRow => OneRow(k)
            case OneRow(row) => ManyRows(row, k)
            case ManyRows(_, _) => found;
        }
      }
    }

    /** Adds the run to the tenant's row for the period, or inserts the row. Raises when there are several;
        nothing is written unless the commit succeeds. `found` is what the query returned. */
    method TrackUsage(tenant: Tenant, kind: Kind, run: Run, written: bool)
      returns (error: Option<Error>, ghost found: Selected)
      modifies this`usage
      ensures Selects(old(usage), tenant, period, found)
      ensures error == Some(MultipleResults) <==> found.ManyRows?
      ensures error == None <==> written && !found.ManyRows?
      ensures usage
           == if error == None then WriteUsage(old(usage), Job(kind, tenant, Found(found, period, run))) else old(usage)
    {
      var row := SelectRow(tenant);
      found := row;
      match row {
        case NoRow =>
          if !written { return Some(Other("usage")), found; }
          usage := usage + [Charged(UsageRow(tenant, period, 0, 0, 0, 0), kind, run)];
        case OneRow(r) =>
          if !written { return Some(Other("usage")), found; }
          usage := usage[r := Charged(usage[r], kind, run)];
        case ManyRows(_, _) =>
          return Some(MultipleResults), found;
      }
      return None, found;
    }

    /** The last part of both tasks. The job ends counted, or about to handle the exception. */
    method ChargeRun(kind: Kind, tenant: Tenant, run: Run, written: bool) returns (pc: Pc, ghost acts: seq<Action>)
      modifies this`usage
      ensures Exec(old(With(Job(kind, tenant, Announced(run)))), acts) == Some(With(Job(kind, tenant, pc)))
      ensures pc == Counted(period, run) || (pc.Handling? && pc.stage == Settled)
      ensures pc.Counted? <==> written && !Duplicated(old(usage), tenant, period)
    {
      hide Selects, Exec, Next, WriteUsage, WriteEvents, Duplicated;
      ghost var s0 := With(Job(kind, tenant, Announced(run)));
      var error, found := TrackUsage(tenant, kind, run, written);
      Nothing(s0);
      acts := Quiet(s0, [], s0, Select(found), Found(found, period, run));
      ghost var s := s0.(jobs := [Job(kind, tenant, Found(found, period, run))]);
      DuplicatedIff(s.usage, tenant, period, found);
      if error == Some(MultipleResults) {
        pc := Handling(MultipleResults, Settled);
      } else if error != None {
        pc := Handling(Other("usage"), Settled);
        acts := Quiet(s0, acts, s, Raise("usage"), pc);
      } else {
        pc := Counted(period, run);
        acts := Did(s0, acts, s, Write, pc);
        SameEvents(s, Write);
      }
    }

    /** Everything inside the try block of `process_event`. */
    method TryEvent(i: nat, tenant: Tenant, w: World, ghost start: Agent.State, ghost env: Agent.Env,
                    ghost visits: seq<Agent.Visit>)
      returns (pc: Pc, ghost acts: seq<Action>)
      requires i < |events| && Genuine(w, EventJob(i), start, env, visits)
      modifies this
      ensures Exec(old(With(Job(EventJob(i), tenant, Trying))), acts) == Some(With(Job(EventJob(i), tenant, pc)))
      ensures |events| == |old(events)|
      ensures pc.Handling? || (pc.Counted? && w.agent == Some(pc.run))
      ensures w.agent == None || !w.recorded ==> events == old(events)
      ensures w.agent.Some? && w.recorded ==>
                events == old(events)[i := old(events)[i].(status := Completed, runId := Some(w.agent.value.id),
                                                           result := Some(w.agent.value.result),
                                                           completedAt := Some(w.now))]
      ensures pc.Handling? ==> pc.stage == if w.agent == None || !w.recorded then Owing else Settled
      ensures pc.Counted? <==>
                w.agent.Some? && w.recorded && w.announced && w.written
                && !Duplicated(old(usage), tenant, period)
    {
      hide CompletedRun, Selects, Exec, Next, WriteUsage, Duplicated;
      var kind := EventJob(i);
      ghost var s0 := With(Job(kind, tenant, Trying));
      Nothing(s0);
      if w.agent == None {
        pc := Handling(Other("agent"), Owing);
        acts := Quiet(s0, [], s0, Raise("agent"), pc);
        return;
      }
      var run := w.agent.value;
      acts := Quiet(s0, [], s0, Complete(run.id, start, env, visits), Ran(run));
      ghost var s := With(Job(kind, tenant, Ran(run)));
      if !w.recorded {
        pc := Handling(Other("commit"), Owing);
        acts := Quiet(s0, acts, s, Raise("commit"), pc);
        return;
      }
      events := events[i := events[i].(status := Completed, runId := Some(run.id), result := Some(run.result),
                                       completedAt := Some(w.now))];
      acts := Did(s0, acts, s, Record(w.now), Recorded(run));
      s := With(Job(kind, tenant, Recorded(run)));
      if !w.announced {
        pc := Handling(Other("broadcast"), Settled);
        acts := Quiet(s0, acts, s, Raise("broadcast"), pc);
        return;
      }
      acts := Quiet(s0, acts, s, Announce, Announced(run));
      ghost var tail;
      pc, tail := ChargeRun(kind, tenant, run, w.written);
      Continued(s0, acts, tail);
      acts := acts + tail;
    }

    /** `process_event`: run alone, it is a schedule of the machine, from its start to the end of the job. */
    method ProcessEvent(i: nat, tenant: Tenant, w: World, ghost start: Agent.State, ghost env: Agent.Env,
                        ghost visits: seq<Agent.Visit>)
      returns (pc: Pc, ghost acts: seq<Action>)
      requires Genuine(w, EventJob(i), start, env, visits)
      modifies this
      ensures Exec(old(With(Job(EventJob(i), tenant, Waiting))), acts) == Some(With(Job(EventJob(i), tenant, pc)))
      ensures Over(pc) && |events| == |old(events)|
      ensures pc.NotFound? <==> w.loaded && i >= |events|
      ensures pc.Counted? <==>
                w.loaded && i < |events| && w.marked && w.entered && w.agent.Some? && w.recorded
                && w.announced && w.written && !Duplicated(old(usage), tenant, period)
      ensures pc == Crashed(Unmarked) <==> !w.loaded || (i < |events| && !w.marked)
      ensures pc == Crashed(Owing) <==> w.loaded && i < |events| && w.marked
                                        && (!w.entered || (!w.handled && (w.agent == None || !w.recorded)))
      ensures pc == Crashed(Unmarked) || pc.NotFound? ==> events == old(events)
      ensures pc == Crashed(Owing) ==> events == old(events)[i := old(events)[i].(status := Processing)]
      ensures pc.Counted? ==>
                events == old(events)[i := old(events)[i].(status := Completed, runId := Some(w.agent.value.id),
                                                           result := Some(w.agent.value.result),
                                                           completedAt := Some(w.now))]
      ensures pc.Returned? && (w.agent == None || !w.recorded) ==>
                events == old(events)[i := old(events)[i].(status := Failed, error := Some(pc.error))]
      ensures pc.Returned? && w.agent.Some? && w.recorded ==>
                events == old(events)[i := old(events)[i].(status := Failed, error := Some(pc.error),
                                                           runId := Some(w.agent.value.id),
                                                           result := Some(w.agent.value.result),
                                                           completedAt := Some(w.now))]
      ensures pc == Crashed(Settled) ==> events[i].status == Completed || events[i].status == Failed
    {
      hide CompletedRun, Selects, Exec, Next, WriteUsage, Duplicated;
      var kind := EventJob(i);
      ghost var s0 := With(Job(kind, tenant, Waiting));
      Nothing(s0);
      if !w.loaded {
        pc := Crashed(Unmarked);
        acts := Quiet(s0, [], s0, Crash, pc);
        return;
      }
      if i >= |events| {
        pc := NotFound;
        acts := Quiet(s0, [], s0, Load, pc);
        return;
      }
      acts := Quiet(s0, [], s0, Load, Loaded);
      ghost var s := With(Job(kind, tenant, Loaded));
      if !w.marked {
        pc := Crashed(Unmarked);
        acts := Quiet(s0, acts, s, Crash, pc);
        return;
      }
      events := events[i := events[i].(status := Processing)];
      acts := Did(s0, acts, s, Mark, Marked);
      ghost var tail;
      pc, tail := ProcessMarked(i, tenant, w, start, env, visits);
      Continued(s0, acts, tail);
      acts := acts + tail;
    }

    /** `process_event` after the first commit. */
    method ProcessMarked(i: nat, tenant: Tenant, w: World, ghost start: Agent.State, ghost env: Agent.Env,
                         ghost visits: seq<Agent.Visit>)
      returns (pc: Pc, ghost acts: seq<Action>)
      requires i < |events| && events[i].status == Processing && Genuine(w, EventJob(i), start, env, visits)
      modifies this
      ensures Exec(old(With(Job(EventJob(i), tenant, Marked))), acts) == Some(With(Job(EventJob(i), tenant, pc)))
      ensures Over(pc) && !pc.NotFound? && pc != Crashed(Unmarked) && |events| == |old(events)|
      ensures pc.Counted? <==>
                w.entered && w.agent.Some? && w.recorded && w.announced && w.written
                && !Duplicated(old(usage), tenant, period)
      ensures pc == Crashed(Owing) <==> !w.entered || (!w.handled && (w.agent == None || !w.recorded))
      ensures pc == Crashed(Owing) ==> events == old(events)
      ensures pc.Counted? ==>
                events == old(events)[i := old(events)[i].(status := Completed, runId := Some(w.agent.value.id),
                                                           result := Some(w.agent.value.result),
                                                           completedAt := Some(w.now))]
      ensures pc.Returned? && (w.agent == None || !w.recorded) ==>
                events == old(events)[i := old(events)[i].(status := Failed, error := Some(pc.error))]
      ensures pc.Returned? && w.agent.Some? && w.recorded ==>
                events == old(events)[i := old(events)[i].(status := Failed, error := Some(pc.error),
                                                           runId := Some(w.agent.value.id),
                                                           result := Some(w.agent.value.result),
                                                           completedAt := Some(w.now))]
      ensures pc == Crashed(Settled) ==> events[i].status == Completed || events[i].status == Failed
    {
      hide CompletedRun, Selects, Exec, Next, WriteUsage, Duplicated;
      var kind := EventJob(i);
      ghost var s0 := With(Job(kind, tenant, Marked));
      Nothing(s0);
      if !w.entered {
        pc := Crashed(Owing);
        acts := Quiet(s0, [], s0, Crash, pc);
        return;
      }
      acts := Quiet(s0, [], s0, Enter, Trying);
      ghost var tail;
      pc, tail := TryEvent(i, tenant, w, start, env, visits);
      Continued(s0, acts, tail);
      acts := acts + tail;
      if pc.Handling? {
        pc, tail := FailEvent(i, tenant, w, pc.error, pc.stage);
        Continued(s0, acts, tail);
        acts := acts + tail;
      }
    }

    /** The handler of `process_event`. */
    method FailEvent(i: nat, tenant: Tenant, w: World, error: Error, stage: Stage)
      returns (pc: Pc, ghost acts: seq<Action>)
      requires i < |events|
      modifies this`events
      ensures Exec(old(With(Job(EventJob(i), tenant, Handling(error, stage)))), acts)
           == Some(With(Job(EventJob(i), tenant, pc)))
      ensures pc == if !w.handled then Crashed(stage) else if w.returned then Returned(error) else Crashed(Settled)
      ensures if w.handled then events == old(events)[i := old(events)[i].(status := Failed, error := Some(error))]
              else events == old(events)
    {
      hide CompletedRun, Selects, Exec, Next, WriteUsage;
      var kind := EventJob(i);
      ghost var s0 := With(Job(kind, tenant, Handling(error, stage)));
      Nothing(s0);
      if !w.handled {
        pc := Crashed(stage);
        acts := Quiet(s0, [], s0, Crash, pc);
        return;
      }
      events := events[i := events[i].(status := Failed, error := Some(error))];
      acts := Did(s0, [], s0, Handle, Reported(error));
      pc := if w.returned then Returned(error) else Crashed(Settled);
      acts := Quiet(s0, acts, With(Job(kind, tenant, Reported(error))), if w.returned then Return else Crash, pc);
    }

    /** `run_agent_task`, likewise. It leaves the events alone. */
    method RunAgentTask(tenant: Tenant, w: World, ghost start: Agent.State, ghost env: Agent.Env,
                        ghost visits: seq<Agent.Visit>)
      returns (pc: Pc, ghost acts: seq<Action>)
      requires Genuine(w, AgentJob, start, env, visits)
      modifies this`usage
      ensures Exec(old(With(Job(AgentJob, tenant, Waiting))), acts) == Some(With(Job(AgentJob, tenant, pc)))
      ensures Over(pc)
      ensures pc.Counted? <==>
                w.entered && w.agent.Some? && w.announced && w.written
                && !Duplicated(old(usage), tenant, period)
    {
      hide CompletedRun, Selects, Exec, Next, WriteUsage, Duplicated;
      ghost var s0 := With(Job(AgentJob, tenant, Waiting));
      Nothing(s0);
      if !w.entered {
        pc := Crashed(Unmarked);
        acts := Quiet(s0, [], s0, Crash, pc);
        return;
      }
      acts := Quiet(s0, [], s0, Enter, Trying);
      ghost var s := With(Job(AgentJob, tenant, Trying));
      if w.agent == None {
        pc := Handling(Other("agent"), Owing);
        acts := Quiet(s0, acts, s, Raise("agent"), pc);
      } else {
        var run := w.agent.value;
        acts := Quiet(s0, acts, s, Complete(run.id, start, env, visits), Ran(run));
        s := With(Job(AgentJob, tenant, Ran(run)));
        if !w.announced {
          pc := Handling(Other("broadcast"), Owing);
          acts := Quiet(s0, acts, s, Raise("broadcast"), pc);
        } else {
          acts := Quiet(s0, acts, s, Announce, Announced(run));
          ghost var tail;
          pc, tail := ChargeRun(AgentJob, tenant, run, w.written);
          Continued(s0, acts, tail);
          acts := acts + tail;
        }
      }
      if pc.Handling? {
        s := With(Job(AgentJob, tenant, pc));
        pc := if w.handled then Returned(pc.error) else Crashed(pc.stage);
        acts := Quiet(s0, acts, s, if w.handled then Handle else Crash, pc);
      }
    }
  }

  datatype Answer = Missing | Refused | Accepted | Raised

  /** The two endpoints that put event jobs on the queue (backend/src/api/v1/webhooks.py, lines 172-197;
      backend/src/api/v1/events.py, lines 115-142). */
  class Gateway {
    var events: seq<Event>
    var jobs: seq<Job>

    constructor ()
      ensures events == [] && jobs == []
    {
      events, jobs := [], [];
    }

    /** The machine's state, with usage, pending calls and period taken from `rest`. */
    ghost function Within(rest: State): State
      reads this
    {
      rest.(events := events, jobs := jobs)
    }

    /** Commits the event, then enqueues its job. Nothing is stored when the ingestion or the commit raises;
        the event stays when the enqueue raises. */
    method IngestWebhook(tenant: Tenant, stored: bool, enqueued: bool, ghost rest: State)
      returns (id: Option<nat>, ghost acts: seq<Action>)
      modifies this
      ensures Exec(old(Within(rest)), acts) == Some(Within(rest))
      ensures id == if stored then Some(|old(events)|) else None
      ensures events == old(events) + if stored then [Event(tenant, Queued, None, None, None, None)] else []
      ensures jobs == old(jobs) + if stored && enqueued then [Job(EventJob(|old(events)|), tenant, Waiting)] else []
    {
      hide Runs.Exec;
      ghost var s0 := Within(rest);
      if !stored {
        Nothing(s0);
        return None, [];
      }
      var e := |events|;
      events := events + [Event(tenant, Queued, None, None, None, None)];
      ghost var s1 := Next(s0, Ingest(tenant)).value;
      acts := [Ingest(tenant), if enqueued then Enqueue(e) else DropEnqueue(e)];
      assert rest.pending + multiset{e} - multiset{e} == rest.pending;
      if enqueued {
        jobs := jobs + [Job(EventJob(e), tenant, Waiting)];
      }
      Runs.Chain(Next, acts, [s0, s1, Within(rest)]);
      id := Some(e);
    }

    /** Enqueues another job for a failed event of the tenant; the stored status is left as it is. */
    method RetryEvent(i: nat, tenant: Tenant, enqueued: bool, ghost rest: State)
      returns (answer: Answer, ghost acts: seq<Action>)
      modifies this
      ensures Exec(old(Within(rest)), acts) == Some(Within(rest)) && events == old(events)
      ensures answer.Missing? <==> !(i < |events| && events[i].tenant == tenant)
      ensures answer.Refused? <==> i < |events| && events[i].tenant == tenant && events[i].status != Failed
      ensures answer.Raised? <==> i < |events| && events[i].tenant == tenant && events[i].status == Failed && !enqueued
      ensures jobs == old(jobs) + if answer.Accepted? then [Job(EventJob(i), tenant, Waiting)] else []
    {
      hide Runs.Exec;
      ghost var s0 := Within(rest);
      acts := [];
      Nothing(s0);
      if !(i < |events| && events[i].tenant == tenant) {
        return Missing, acts;
      }
      if events[i].status != Failed {
        return Refused, acts;
      }
      ghost var s1 := Next(s0, Retry(i)).value;
      acts := [Retry(i), if enqueued then Enqueue(i) else DropEnqueue(i)];
      assert rest.pending + multiset{i} - multiset{i} == rest.pending;
      answer := Raised;
      if enqueued {
        jobs := jobs + [Job(EventJob(i), tenant, Waiting)];
        answer := Accepted;
      }
      Runs.Chain(Next, acts, [s0, s1, Within(rest)]);
    }
  }

  /** Where the query leaves a job. */
  function Found(found: Selected, period: nat, run: Run): Pc {
    match found
    case NoRow => Inserting(period, run)
    case OneRow(row) => Adding(row, period, run)
    case ManyRows(_, _) => Handling(MultipleResults, Settled)
  }

  lemma {:induction false} Continued(s: State, acts: seq<Action>, more: seq<Action>)
    requires Exec(s, acts).Some?
    ensures Exec(s, acts + more) == Exec(Exec(s, acts).value, more)
  {
    Runs.ExecParts(Next, s, acts, more);
  }

  lemma {:induction false} Nothing(s: State)
    ensures Exec(s, []) == Some(s)
  {
    Runs.Empty(Next, s);
  }

  lemma {:induction false} DuplicatedIff(usage: seq<UsageRow>, tenant: Tenant, period: nat, found: Selected)
    requires Selects(usage, tenant, period, found)
    ensures Duplicated(usage, tenant, period) <==> found.ManyRows?
  {
  }

  /** The state after a move of the only job. */
  function Moved(s: State, move: Move, pc: Pc): State
    requires |s.jobs| == 1
  {
    s.(jobs := [s.jobs[0].(pc := pc)], events := WriteEvents(s.events, s.jobs[0], move),
       usage := if move == Write then WriteUsage(s.usage, s.jobs[0]) else s.usage)
  }

  lemma {:induction false} Did(s0: State, acts: seq<Action>, s: State, move: Move, pc: Pc) returns (longer: seq<Action>)
    requires Exec(s0, acts) == Some(s) && |s.jobs| == 1 && After(s, s.jobs[0], move) == Some(pc)
    ensures longer == acts + [Step(0, move)] && Exec(s0, longer) == Some(Moved(s, move, pc))
  {
    hide After, WriteUsage, WriteEvents;
    longer := acts + [Step(0, move)];
    assert longer[..|longer| - 1] == acts;
    assert s.jobs[0 := s.jobs[0].(pc := pc)] == [s.jobs[0].(pc := pc)];
  }

  /** A move that writes no event leaves the events as they are. */
  lemma {:induction false} SameEvents(s: State, move: Move)
    requires |s.jobs| == 1 && !move.Mark? && !move.Record? && !(move.Handle? && s.jobs[0].kind.EventJob?)
    ensures WriteEvents(s.events, s.jobs[0], move) == s.events
  {
    assert forall i: nat | i < |s.events| :: s.events[i := s.events[i]] == s.events;
  }

  /** A move that commits nothing. */
  lemma {:induction false} Quiet(s0: State, acts: seq<Action>, s: State, move: Move, pc: Pc)
    returns (longer: seq<Action>)
    requires Exec(s0, acts) == Some(s) && |s.jobs| == 1 && After(s, s.jobs[0], move) == Some(pc)
    requires !move.Mark? && !move.Record? && !move.Write? && !(move.Handle? && s.jobs[0].kind.EventJob?)
    ensures Exec(s0, longer) == Some(s.(jobs := [s.jobs[0].(pc := pc)]))
  {
    hide Exec, After, WriteUsage, WriteEvents;
    longer := Did(s0, acts, s, move, pc);
    SameEvents(s, move);
  }
}
