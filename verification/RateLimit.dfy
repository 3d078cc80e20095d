/** The request limit per tenant (backend/src/core/security_middleware.py, lines 13-40), over every order in
    which the clock readings, the increments and the expiry calls of concurrent requests take effect. */
module RateLimit {
  import opened Options
  import opened Totals
  import Runs

  const WINDOW: nat := 60
  const MAX: nat := 100

  type Tenant = nat

  datatype Key = Key(tenant: Tenant, window: nat)

  /** A counter and the time its key disappears, if one was set. */
  datatype Counter = Counter(count: nat, expiry: Option<nat>)

  /** One request: when it read the clock, when its increment took effect, what it was told. */
  datatype Entry = Entry(tenant: Tenant, read: nat, at: nat, admitted: bool)

  datatype State = State(counters: map<Key, Counter>, pending: multiset<Key>, clock: nat, log: seq<Entry>)

  const Init := State(map[], multiset{}, 0, [])

  /** `pending` holds the expiry calls still under way; one that is lost stays there. */
  datatype Action = Request(tenant: Tenant, read: nat, at: nat) | Expire(key: Key, at: nat)

  function KeyAt(tenant: Tenant, read: nat): Key {
    Key(tenant, read / WINDOW)
  }

  predicate Live(counters: map<Key, Counter>, k: Key, at: nat) {
    k in counters && (counters[k].expiry.Some? ==> at < counters[k].expiry.value)
  }

  /** INCR. */
  function Incremented(counters: map<Key, Counter>, k: Key, at: nat): Counter {
    if Live(counters, k, at) then counters[k].(count := counters[k].count + 1) else Counter(1, None)
  }

  /** EXPIRE with twice the window. */
  function Expiring(counters: map<Key, Counter>, k: Key, at: nat): map<Key, Counter> {
    if Live(counters, k, at) then counters[k := counters[k].(expiry := Some(at + 2 * WINDOW))] else counters
  }

  function Next(s: State, a: Action): Option<State> {
    match a
    case Request(tenant, read, at) =>
      if !(read <= at && s.clock <= at) then None
      else
        var k := KeyAt(tenant, read);
        var counter := Incremented(s.counters, k, at);
        Some(State(s.counters[k := counter], if counter.count == 1 then s.pending + multiset{k} else s.pending,
                   at, s.log + [Entry(tenant, read, at, counter.count <= MAX)]))
    case Expire(k, at) =>
      if k !in s.pending || at < s.clock then None
      else Some(State(Expiring(s.counters, k, at), s.pending - multiset{k}, at, s.log))
  }

  ghost function Exec(s: State, acts: seq<Action>): Option<State> {
    Runs.Exec(Next, s, acts)
  }

  // ---- counting requests ----

  function OfKey(k: Key): Entry -> bool {
    (e: Entry) => KeyAt(e.tenant, e.read) == k
  }

  function AdmittedOfKey(k: Key): Entry -> bool {
    (e: Entry) => e.admitted && KeyAt(e.tenant, e.read) == k
  }

  function Number(p: Entry -> bool, log: seq<Entry>): int {
    Sum(Indicator(p), log)
  }

  lemma {:induction false} NumberAppend(p: Entry -> bool, log: seq<Entry>, e: Entry)
    ensures Number(p, log + [e]) == Number(p, log) + if p(e) then 1 else 0
  {
    SumAppend(Indicator(p), log, e);
  }

  lemma {:induction false} NumberIs(p: Entry -> bool, log: seq<Entry>)
    ensures Number(p, log) == |Where(p, log)|
  {
    SumOfIndicator(p, log);
  }

  /** Every increment takes effect within `delay` seconds of its clock reading. */
  predicate Within(acts: seq<Action>, delay: nat) {
    forall i | 0 <= i < |acts| && acts[i].Request? :: acts[i].at <= acts[i].read + delay
  }

  predicate Punctual(acts: seq<Action>) {
    Within(acts, WINDOW)
  }

  /** The n-th request is admitted exactly when fewer than 100 requests of its window came before it. */
  predicate AdmittedRightly(log: seq<Entry>, n: nat)
    requires n < |log|
  {
    log[n].admitted <==> Number(OfKey(KeyAt(log[n].tenant, log[n].read)), log[..n]) < MAX
  }

  /** The counter of a window holds the number of its requests and does not disappear while requests that
      are punctual can still count. */
  predicate CounterRight(s: State, k: Key) {
    && (k in s.counters <==> Number(OfKey(k), s.log) > 0)
    && (k in s.counters ==>
        && s.counters[k].count == Number(OfKey(k), s.log)
        && s.clock >= k.window * WINDOW
        && (s.counters[k].expiry.Some? ==> s.counters[k].expiry.value >= (k.window + 2) * WINDOW))
  }

  lemma {:induction false} CounterStep(s: State, a: Action, k: Key)
    requires CounterRight(s, k) && Next(s, a).Some?
    requires a.Request? ==> a.at <= a.read + WINDOW
    requires Number(OfKey(k), s.log) >= 0
    ensures CounterRight(Next(s, a).value, k)
  {
    hide Sum;
    if a.Request? {
      WindowOf(a.read);
      NumberAppend(OfKey(k), s.log, Next(s, a).value.log[|s.log|]);
    }
  }

  lemma {:induction false} WindowOf(read: nat)
    ensures read / WINDOW * WINDOW <= read < (read / WINDOW + 1) * WINDOW
  {
  }

  lemma {:induction false} NumberNonNegative(p: Entry -> bool, log: seq<Entry>)
    ensures Number(p, log) >= 0
  {
    NumberIs(p, log);
  }

  lemma {:induction false} CounterAlways(acts: seq<Action>, k: Key)
    requires Exec(Init, acts).Some? && Punctual(acts)
    ensures CounterRight(Exec(Init, acts).value, k)
  {
    hide Next, CounterRight, Number;
    if acts == [] {
      CounterInit(k);
    } else {
      var front := acts[..|acts| - 1];
      CounterAlways(front, k);
      NumberNonNegative(OfKey(k), Exec(Init, front).value.log);
      CounterStep(Exec(Init, front).value, acts[|acts| - 1], k);
    }
  }

  lemma {:induction false} CounterInit(k: Key)
    ensures CounterRight(Init, k)
  {
  }

  /** Whatever the order of increments and expiry calls, delayed or lost: a request is admitted exactly when
      fewer than 100 requests of its window came before it. */
  lemma {:induction false} AdmissionExact(acts: seq<Action>, n: nat)
    requires Exec(Init, acts).Some? && Punctual(acts) && n < |Exec(Init, acts).value.log|
    ensures AdmittedRightly(Exec(Init, acts).value.log, n)
  {
    hide Next, AdmittedRightly;
    var front, a := acts[..|acts| - 1], acts[|acts| - 1];
    var s := Exec(Init, front).value;
    LogGrows(s, a);
    if n < |s.log| {
      AdmissionExact(front, n);
      StillRight(s.log, Exec(Init, acts).value.log, n);
    } else {
      CounterAlways(front, KeyAt(a.tenant, a.read));
      NewRight(s, a);
    }
  }

  lemma {:induction false} LogGrows(s: State, a: Action)
    requires Next(s, a).Some?
    ensures s.log <= Next(s, a).value.log
    ensures |Next(s, a).value.log| == |s.log| + if a.Request? then 1 else 0
  {
  }

  lemma {:induction false} StillRight(log: seq<Entry>, longer: seq<Entry>, n: nat)
    requires log <= longer && n < |log| && AdmittedRightly(log, n)
    ensures AdmittedRightly(longer, n)
  {
    assert longer[..n] == log[..n];
  }

  lemma {:induction false} NewRight(s: State, a: Action)
    requires a.Request? && Next(s, a).Some? && a.at <= a.read + WINDOW && CounterRight(s, KeyAt(a.tenant, a.read))
    ensures AdmittedRightly(Next(s, a).value.log, |s.log|)
  {
    hide Number;
    WindowOf(a.read);
    NumberNonNegative(OfKey(KeyAt(a.tenant, a.read)), s.log);
    assert Next(s, a).value.log[..|s.log|] == s.log;
  }

  // ---- how many are admitted ----

  lemma {:induction false} AdmittedCount(log: seq<Entry>, k: Key)
    requires forall n: nat | n < |log| :: AdmittedRightly(log, n)
    ensures Number(AdmittedOfKey(k), log) == if Number(OfKey(k), log) < MAX then Number(OfKey(k), log) else MAX
  {
    hide Number, AdmittedRightly;
    if log == [] {
      EmptyLog(k);
    } else {
      var n := |log| - 1;
      var front, e := log[..n], log[n];
      assert log == front + [e];
      forall m: nat | m < n ensures AdmittedRightly(front, m) {
        assert AdmittedRightly(log, m);
        ShorterRight(front, log, m);
      }
      AdmittedCount(front, k);
      NumberAppend(OfKey(k), front, e);
      NumberAppend(AdmittedOfKey(k), front, e);
      assert AdmittedRightly(log, n);
      if OfKey(k)(e) {
        LastRight(log, k);
      }
    }
  }

  lemma {:induction false} EmptyLog(k: Key)
    ensures Number(OfKey(k), []) == 0 && Number(AdmittedOfKey(k), []) == 0
  {
  }

  lemma {:induction false} ShorterRight(log: seq<Entry>, longer: seq<Entry>, n: nat)
    requires log <= longer && n < |log| && AdmittedRightly(longer, n)
    ensures AdmittedRightly(log, n)
  {
    assert longer[..n] == log[..n];
  }

  lemma {:induction false} LastRight(log: seq<Entry>, k: Key)
    requires log != [] && AdmittedRightly(log, |log| - 1) && OfKey(k)(log[|log| - 1])
    ensures log[|log| - 1].admitted <==> Number(OfKey(k), log[..|log| - 1]) < MAX
  {
  }

  /** Of the requests of a tenant in one aligned window the first 100 are admitted. */
  lemma {:induction false} WindowLimit(acts: seq<Action>, k: Key)
    requires Exec(Init, acts).Some? && Punctual(acts)
    ensures var log := Exec(Init, acts).value.log;
            |Where(AdmittedOfKey(k), log)| == if |Where(OfKey(k), log)| < MAX then |Where(OfKey(k), log)| else MAX
  {
    hide Runs.Exec, Number, AdmittedRightly;
    var log := Exec(Init, acts).value.log;
    forall n: nat | n < |log| ensures AdmittedRightly(log, n) {
      AdmissionExact(acts, n);
    }
    AdmittedCount(log, k);
    NumberIs(OfKey(k), log);
    NumberIs(AdmittedOfKey(k), log);
  }

  /** The requests of a tenant whose clock reading lies in its n-th minute. */
  function InMinute(tenant: Tenant, minute: nat): Entry -> bool {
    (e: Entry) => e.tenant == tenant && 60 * minute <= e.read < 60 * (minute + 1)
  }

  function AdmittedInMinute(tenant: Tenant, minute: nat): Entry -> bool {
    (e: Entry) => e.admitted && e.tenant == tenant && 60 * minute <= e.read < 60 * (minute + 1)
  }

  /** In numbers: of the requests of a tenant in one minute of the clock the first 100 are admitted. */
  lemma {:induction false} MinuteLimit(acts: seq<Action>, tenant: Tenant, minute: nat)
    requires Exec(Init, acts).Some? && Punctual(acts)
    ensures var log := Exec(Init, acts).value.log;
            |Where(AdmittedInMinute(tenant, minute), log)|
            == if |Where(InMinute(tenant, minute), log)| < 100 then |Where(InMinute(tenant, minute), log)| else 100
  {
    hide Runs.Exec;
    var log, k := Exec(Init, acts).value.log, Key(tenant, minute);
    WindowLimit(acts, k);
    forall e: Entry ensures InMinute(tenant, minute)(e) == OfKey(k)(e)
                    ensures AdmittedInMinute(tenant, minute)(e) == AdmittedOfKey(k)(e)
    {
      MinuteOf(e.read, minute);
    }
    assert Where(InMinute(tenant, minute), log) == Where(OfKey(k), log);
    assert Where(AdmittedInMinute(tenant, minute), log) == Where(AdmittedOfKey(k), log);
  }

  lemma {:induction false} MinuteOf(read: nat, minute: nat)
    ensures 60 * minute <= read < 60 * (minute + 1) <==> read / WINDOW == minute
  {
  }

  /** Admitted requests of a tenant whose clock reading lies in the 60 seconds from `start` on. */
  function AdmittedWithin(tenant: Tenant, start: nat): Entry -> bool {
    (e: Entry) => e.admitted && e.tenant == tenant && start <= e.read < start + WINDOW
  }

  /** The limiter has fixed windows: in 60 consecutive seconds it admits at most twice the limit. */
  lemma {:induction false} SlidingLimit(acts: seq<Action>, tenant: Tenant, start: nat)
    requires Exec(Init, acts).Some? && Punctual(acts)
    ensures |Where(AdmittedWithin(tenant, start), Exec(Init, acts).value.log)| <= 200
  {
    hide Runs.Exec;
    var log := Exec(Init, acts).value.log;
    var k1, k2 := Key(tenant, start / WINDOW), Key(tenant, start / WINDOW + 1);
    WindowLimit(acts, k1);
    WindowLimit(acts, k2);
    var within := Where(AdmittedWithin(tenant, start), log);
    var first, second := Where(AdmittedOfKey(k1), log), Where(AdmittedOfKey(k2), log);
    forall j | j in within ensures j in first + second {
      WindowOf(start);
      WindowOf(log[j].read);
      TwoWindows(start, log[j].read);
    }
    SubsetSize(within, first + second);
    assert |first + second| <= |first| + |second|;
  }

  lemma {:induction false} TwoWindows(start: nat, read: nat)
    requires start <= read < start + WINDOW
    ensures read / WINDOW == start / WINDOW || read / WINDOW == start / WINDOW + 1
  {
  }

  // ---- both limits are reached ----

  /** `n` requests of a tenant, one after the other at the same second. */
  function Burst(tenant: Tenant, at: nat, n: nat): seq<Action> {
    if n == 0 then [] else Burst(tenant, at, n - 1) + [Request(tenant, at, at)]
  }

  predicate Untouched(s: State, k: Key) {
    k !in s.counters
  }

  /** A burst on a window without requests: the first 100 are admitted. */
  lemma {:induction false} BurstAdmits(s: State, tenant: Tenant, at: nat, n: nat) returns (s': State)
    requires Untouched(s, KeyAt(tenant, at)) && s.clock <= at && n <= MAX
    ensures Exec(s, Burst(tenant, at, n)) == Some(s')
    ensures s'.log == s.log + seq(n, _ => Entry(tenant, at, at, true)) && s'.clock <= at
    ensures s'.counters == if n > 0 then s.counters[KeyAt(tenant, at) := Counter(n, None)] else s.counters
    ensures s'.pending == if n > 0 then s.pending + multiset{KeyAt(tenant, at)} else s.pending
  {
    hide Runs.Exec, Next, KeyAt;
    if n == 0 {
      s' := s;
      Runs.Empty(Next, s);
    } else {
      var mid := BurstAdmits(s, tenant, at, n - 1);
      s' := NextRequest(mid, tenant, at, n - 1);
      Runs.ExecParts(Next, s, Burst(tenant, at, n - 1), [Request(tenant, at, at)]);
      Runs.Single(Next, mid, Request(tenant, at, at));
      var k := KeyAt(tenant, at);
      assert s.counters[k := Counter(n - 1, None)][k := Counter(n, None)] == s.counters[k := Counter(n, None)];
      assert seq(n, _ => Entry(tenant, at, at, true)) == seq(n - 1, _ => Entry(tenant, at, at, true))
        + [Entry(tenant, at, at, true)];
    }
  }

  lemma {:induction false} NextRequest(s: State, tenant: Tenant, at: nat, n: nat) returns (s': State)
    requires n < MAX && s.clock <= at
    requires if n == 0 then Untouched(s, KeyAt(tenant, at))
             else KeyAt(tenant, at) in s.counters && s.counters[KeyAt(tenant, at)] == Counter(n, None)
    ensures Next(s, Request(tenant, at, at)) == Some(s')
    ensures s'.log == s.log + [Entry(tenant, at, at, true)] && s'.clock == at
    ensures s'.counters == s.counters[KeyAt(tenant, at) := Counter(n + 1, None)]
    ensures s'.pending == if n == 0 then s.pending + multiset{KeyAt(tenant, at)} else s.pending
  {
    s' := Next(s, Request(tenant, at, at)).value;
  }

  lemma {:induction false} BurstPunctual(tenant: Tenant, at: nat, n: nat)
    ensures Punctual(Burst(tenant, at, n))
    decreases n
  {
    if n > 0 {
      BurstPunctual(tenant, at, n - 1);
    }
  }

  /** Two bursts in different windows: all 200 requests are admitted. */
  lemma {:induction false} TwoBursts(tenant: Tenant, first: nat, second: nat) returns (acts: seq<Action>, s': State)
    requires first <= second && KeyAt(tenant, first) != KeyAt(tenant, second)
    ensures Exec(Init, acts) == Some(s') && Punctual(acts) && |s'.log| == 2 * MAX
    ensures forall e | e in s'.log :: e.admitted && e.tenant == tenant && (e.read == first || e.read == second)
  {
    hide Runs.Exec, Next, KeyAt;
    var s := BurstAdmits(Init, tenant, first, MAX);
    s' := BurstAdmits(s, tenant, second, MAX);
    BurstPunctual(tenant, first, MAX);
    BurstPunctual(tenant, second, MAX);
    acts := Burst(tenant, first, MAX) + Burst(tenant, second, MAX);
    Runs.ExecParts(Next, Init, Burst(tenant, first, MAX), Burst(tenant, second, MAX));
  }

  /** Two bursts around the end of a window: 200 requests admitted within two seconds. */
  lemma {:induction false} BoundaryBurst(tenant: Tenant, window: nat) returns (acts: seq<Action>, s': State)
    ensures Exec(Init, acts) == Some(s') && Punctual(acts) && |s'.log| == 2 * MAX
    ensures forall e | e in s'.log ::
              e.admitted && e.tenant == tenant
              && (window + 1) * WINDOW - 1 <= e.read <= (window + 1) * WINDOW
  {
    hide Runs.Exec, Next;
    BoundaryKeys(window);
    acts, s' := TwoBursts(tenant, (window + 1) * WINDOW - 1, (window + 1) * WINDOW);
  }

  /** A span of 60 seconds never admits more than the limit, in all runs, exactly when it is one of the
      limiter's own windows. */
  lemma {:induction false} SlidingExactly(tenant: Tenant, start: nat)
    ensures (forall acts | Exec(Init, acts).Some? && Punctual(acts) ::
               |Where(AdmittedWithin(tenant, start), Exec(Init, acts).value.log)| <= 100)
            <==> start % 60 == 0
  {
    hide Runs.Exec;
    if start % WINDOW == 0 {
      forall acts | Exec(Init, acts).Some? && Punctual(acts)
        ensures |Where(AdmittedWithin(tenant, start), Exec(Init, acts).value.log)| <= MAX
      {
        AlignedLimit(acts, tenant, start);
      }
    } else {
      var next := (start / WINDOW + 1) * WINDOW;
      UnalignedKeys(start);
      var acts, s' := TwoBursts(tenant, start, next);
      assert Where(AdmittedWithin(tenant, start), s'.log) == Where((e: Entry) => true, s'.log);
      AllPositions(s'.log);
    }
  }

  lemma {:induction false} AlignedLimit(acts: seq<Action>, tenant: Tenant, start: nat)
    requires Exec(Init, acts).Some? && Punctual(acts) && start % WINDOW == 0
    ensures |Where(AdmittedWithin(tenant, start), Exec(Init, acts).value.log)| <= MAX
  {
    hide Runs.Exec;
    var log, k := Exec(Init, acts).value.log, Key(tenant, start / WINDOW);
    WindowLimit(acts, k);
    forall j | j in Where(AdmittedWithin(tenant, start), log) ensures j in Where(AdmittedOfKey(k), log) {
      AlignedKey(start, log[j].read);
    }
    SubsetSize(Where(AdmittedWithin(tenant, start), log), Where(AdmittedOfKey(k), log));
  }

  lemma {:induction false} AlignedKey(start: nat, read: nat)
    requires start % WINDOW == 0 && start <= read < start + WINDOW
    ensures read / WINDOW == start / WINDOW
  {
  }

  lemma {:induction false} UnalignedKeys(start: nat)
    requires start % WINDOW != 0
    ensures start < (start / WINDOW + 1) * WINDOW < start + WINDOW
    ensures (start / WINDOW + 1) * WINDOW / WINDOW == start / WINDOW + 1
  {
  }

  lemma {:induction false} AllPositions(log: seq<Entry>)
    ensures |Where((e: Entry) => true, log)| == |log|
  {
    if log == [] {
      assert Where((e: Entry) => true, log) == {};
    } else {
      var n := |log| - 1;
      AllPositions(log[..n]);
      assert Where((e: Entry) => true, log) == Where((e: Entry) => true, log[..n]) + {n};
    }
  }

  lemma {:induction false} BoundaryKeys(window: nat)
    ensures ((window + 1) * WINDOW - 1) / WINDOW == window && (window + 1) * WINDOW / WINDOW == window + 1
  {
  }

  /** The 60 seconds cannot be stretched: a request that reads the clock in the last second of a window and
      increments 61 seconds later finds the counter gone, and is the 101st to be admitted. */
  lemma {:induction false} LateIncrement(tenant: Tenant, window: nat) returns (acts: seq<Action>, s': State)
    ensures Exec(Init, acts) == Some(s')
    ensures |s'.log| == MAX + 1
    ensures forall e | e in s'.log :: e.admitted && KeyAt(e.tenant, e.read) == Key(tenant, window)
    ensures Within(acts, WINDOW + 1)
  {
    hide Runs.Exec, Next;
    var at := window * WINDOW;
    BurstPunctual(tenant, window * WINDOW, MAX);
    var k := Key(tenant, window);
    LateKeys(window);
    var s := BurstAdmits(Init, tenant, at, MAX);
    var s1, s2 := ExpireThenLate(s, tenant, window);
    s' := s2;
    var late := Request(tenant, at + WINDOW - 1, at + 2 * WINDOW);
    Runs.Single(Next, s, Expire(k, at));
    Runs.Single(Next, s1, late);
    Runs.ExecParts(Next, s, [Expire(k, at)], [late]);
    acts := Burst(tenant, at, MAX) + ([Expire(k, at)] + [late]);
    Runs.ExecParts(Next, Init, Burst(tenant, at, MAX), [Expire(k, at)] + [late]);
  }

  lemma {:induction false} ExpireThenLate(s: State, tenant: Tenant, window: nat) returns (s1: State, s2: State)
    requires Key(tenant, window) in s.pending && s.clock <= window * WINDOW
    requires Key(tenant, window) in s.counters && s.counters[Key(tenant, window)] == Counter(MAX, None)
    ensures Next(s, Expire(Key(tenant, window), window * WINDOW)) == Some(s1)
    ensures Next(s1, Request(tenant, window * WINDOW + WINDOW - 1, window * WINDOW + 2 * WINDOW)) == Some(s2)
    ensures s2.log == s.log + [Entry(tenant, window * WINDOW + WINDOW - 1, window * WINDOW + 2 * WINDOW, true)]
  {
    LateKeys(window);
    s1 := Next(s, Expire(Key(tenant, window), window * WINDOW)).value;
    s2 := Next(s1, Request(tenant, window * WINDOW + WINDOW - 1, window * WINDOW + 2 * WINDOW)).value;
  }

  /** The limit of a window holds in all runs whose increments take effect within `delay` seconds exactly when
      that is at most 60 seconds. */
  lemma {:induction false} DelayExactly(k: Key, delay: nat)
    ensures (forall acts | Exec(Init, acts).Some? && Within(acts, delay) ::
             |Where(AdmittedOfKey(k), Exec(Init, acts).value.log)| <= 100)
            <==> delay <= 60
  {
    hide Runs.Exec;
    if delay <= WINDOW {
      forall acts | Exec(Init, acts).Some? && Within(acts, delay)
        ensures |Where(AdmittedOfKey(k), Exec(Init, acts).value.log)| <= MAX {
        WindowLimit(acts, k);
      }
    } else {
      var acts, s' := LateIncrement(k.tenant, k.window);
      assert Where(AdmittedOfKey(k), s'.log) == Where((e: Entry) => true, s'.log);
      AllPositions(s'.log);
    }
  }

  lemma {:induction false} LateKeys(window: nat)
    ensures window * WINDOW / WINDOW == window && (window * WINDOW + WINDOW - 1) / WINDOW == window
  {
  }

  // ---- one check, as it is written ----

  class Redis {
    var counters: map<Key, Counter>

    constructor ()
      ensures counters == map[]
    {
      counters := map[];
    }

    method Incr(k: Key, at: nat) returns (current: nat)
      modifies this
      ensures counters == old(counters)[k := Incremented(old(counters), k, at)] && current == counters[k].count
    {
      if k in counters && (counters[k].expiry == None || at < counters[k].expiry.value) {
        counters := counters[k := counters[k].(count := counters[k].count + 1)];
      } else {
        counters := counters[k := Counter(1, None)];
      }
      current := counters[k].count;
    }

    method SetExpiry(k: Key, at: nat)
      modifies this
      ensures counters == Expiring(old(counters), k, at)
    {
      if Live(counters, k, at) {
        counters := counters[k := counters[k].(expiry := Some(at + 2 * WINDOW))];
      }
    }

    /** A request whose three steps take effect at once: it is admitted or refused as the machine says, and
        its expiry call is made when, and only when, the machine has it pending. */
    method CheckRateLimit(tenant: Tenant, now: nat, ghost s: State) returns (admitted: bool, ghost acts: seq<Action>)
      requires s.counters == counters && s.clock <= now
      modifies this
      ensures Exec(s, acts).Some? && Exec(s, acts).value.counters == counters
      ensures Exec(s, acts).value.log == s.log + [Entry(tenant, now, now, admitted)]
      ensures Exec(s, acts).value.pending == s.pending
    {
      var k := Key(tenant, now / WINDOW);
      var current := Incr(k, now);
      ghost var s1 := Next(s, Request(tenant, now, now)).value;
      acts := [Request(tenant, now, now)];
      Runs.Single(Next, s, acts[0]);
      if current == 1 {
        SetExpiry(k, now);
        assert s1.pending - multiset{k} == s.pending;
        Runs.Single(Next, s1, Expire(k, now));
        Runs.ExecParts(Next, s, acts, [Expire(k, now)]);
        acts := acts + [Expire(k, now)];
      }
      admitted := current <= MAX;
    }
  }
}
