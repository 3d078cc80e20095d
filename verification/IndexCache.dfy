/** The per-tenant cache of BM25 indexes as it is used by interleaved requests
    (backend/src/services/rag_query.py, lines 24 and 90-148; backend/src/api/v1/rag.py, lines 59-70 and 122-128).
    Requests interleave at their awaits, so a search that misses, reads the chunks and stores an index
    is three steps, and an upload or delete that commits and then invalidates is two. */
module IndexCache {
  import opened Bm25
  import opened ChunkIds
  import opened Options
  import Runs
  import opened StableSort

  type Tenant = nat

  /** The API keys the cache by UUID; the agent's researcher keys it by the tenant id as text. */
  datatype Key = UuidKey(tenant: Tenant) | TextKey(tenant: Tenant)

  datatype Chunk = Chunk(content: string, index: nat)
  type Chunks = map<ChunkId, Chunk>
  type Rows = seq<(ChunkId, string)>

  datatype State = State(
    history: map<Tenant, seq<Chunks>>,   // every committed chunk set of a tenant, oldest first
    cache: map<Key, Rows>,               // an index is determined by the rows it was built from
    misses: multiset<Key>,               // searches that missed and have not read yet
    builds: multiset<(Key, Rows)>,       // searches that have read and not stored yet
    outstanding: multiset<Tenant>        // commits whose invalidation is still to come
  )

  const Init := State(map[], map[], multiset{}, multiset{}, multiset{})

  datatype Action =
    | Miss(key: Key)
    | Select(key: Key, rows: Rows)
    | Store(key: Key, rows: Rows)
    | Upload(tenant: Tenant, added: Chunks)
    | Delete(tenant: Tenant, removed: set<ChunkId>)
    | Invalidate(tenant: Tenant)

  function Snapshots(s: State, t: Tenant): (r: seq<Chunks>)
    ensures t !in s.history ==> r == [map[]]
  {
    if t in s.history && s.history[t] != [] then s.history[t] else [map[]]
  }

  function Current(s: State, t: Tenant): Chunks {
    Snapshots(s, t)[|Snapshots(s, t)| - 1]
  }

  /** The rows are what the query may return: every chunk once, ordered by chunk index. Chunks of
      equal index come in an order the database chooses. */
  ghost predicate SelectOf(rows: Rows, chunks: Chunks) {
    && (forall i | 0 <= i < |rows| :: rows[i].0 in chunks && rows[i].1 == chunks[rows[i].0].content)
    && (forall id | id in chunks :: exists i :: 0 <= i < |rows| && rows[i].0 == id)
    && (forall i, j | 0 <= i < j < |rows| ::
          rows[i].0 != rows[j].0 && chunks[rows[i].0].index <= chunks[rows[j].0].index)
  }

  function Committed(s: State, t: Tenant, chunks: Chunks): State {
    s.(history := s.history[t := Snapshots(s, t) + [chunks]], outstanding := s.outstanding + multiset{t})
  }

  ghost function Next(s: State, a: Action): Option<State> {
    match a
    case Miss(k) =>
      if k in s.cache then None else Some(s.(misses := s.misses + multiset{k}))
    case Select(k, rows) =>
      if k !in s.misses || !SelectOf(rows, Current(s, k.tenant)) then None
      else Some(s.(misses := s.misses - multiset{k}, builds := s.builds + multiset{(k, rows)}))
    case Store(k, rows) =>
      if (k, rows) !in s.builds then None
      else Some(s.(builds := s.builds - multiset{(k, rows)}, cache := s.cache[k := rows]))
    case Upload(t, added) =>
      if added.Keys !! Current(s, t).Keys then Some(Committed(s, t, Current(s, t) + added)) else None
    case Delete(t, removed) =>
      Some(Committed(s, t, Current(s, t) - removed))
    case Invalidate(t) =>
      if t !in s.outstanding then None
      else Some(s.(outstanding := s.outstanding - multiset{t}, cache := s.cache - {UuidKey(t)}))
  }

  ghost function Exec(s: State, acts: seq<Action>): Option<State> {
    Runs.Exec(Next, s, acts)
  }

  // ---- in every interleaving: an index of some committed snapshot ----

  ghost predicate FromSnapshot(s: State, k: Key, rows: Rows) {
    exists i :: 0 <= i < |Snapshots(s, k.tenant)| && SelectOf(rows, Snapshots(s, k.tenant)[i])
  }

  ghost predicate Traceable(s: State) {
    && (forall k | k in s.cache :: FromSnapshot(s, k, s.cache[k]))
    && (forall b | b in s.builds :: FromSnapshot(s, b.0, b.1))
  }

  lemma {:induction false} FromSnapshotKept(s: State, s': State, k: Key, rows: Rows)
    requires FromSnapshot(s, k, rows) && Snapshots(s, k.tenant) <= Snapshots(s', k.tenant)
    ensures FromSnapshot(s', k, rows)
  {
    var i :| 0 <= i < |Snapshots(s, k.tenant)| && SelectOf(rows, Snapshots(s, k.tenant)[i]);
    assert Snapshots(s', k.tenant)[i] == Snapshots(s, k.tenant)[i];
  }

  lemma {:induction false} SnapshotsGrow(s: State, a: Action, t: Tenant)
    requires Next(s, a).Some?
    ensures Snapshots(s, t) <= Snapshots(Next(s, a).value, t)
  {
  }

  lemma {:induction false} CachedTraceable(s: State, a: Action, k: Key)
    requires Traceable(s) && Next(s, a).Some? && k in Next(s, a).value.cache
    ensures FromSnapshot(Next(s, a).value, k, Next(s, a).value.cache[k])
  {
    var s' := Next(s, a).value;
    SnapshotsGrow(s, a, k.tenant);
    if a == Store(k, s'.cache[k]) {
      var b := (k, s'.cache[k]);
      assert b in s.builds;
      FromSnapshotKept(s, s', k, b.1);
    } else {
      assert k in s.cache && s'.cache[k] == s.cache[k];
      FromSnapshotKept(s, s', k, s.cache[k]);
    }
  }

  lemma {:induction false} BuildTraceable(s: State, a: Action, b: (Key, Rows))
    requires Traceable(s) && Next(s, a).Some? && b in Next(s, a).value.builds
    ensures FromSnapshot(Next(s, a).value, b.0, b.1)
  {
    SnapshotsGrow(s, a, b.0.tenant);
    if b in s.builds {
      FromSnapshotKept(s, Next(s, a).value, b.0, b.1);
    } else {
      assert a == Select(b.0, b.1);
      assert SelectOf(b.1, Snapshots(s, b.0.tenant)[|Snapshots(s, b.0.tenant)| - 1]);
    }
  }

  lemma {:induction false} StepKeepsTraceable(s: State, a: Action)
    requires Traceable(s) && Next(s, a).Some?
    ensures Traceable(Next(s, a).value)
  {
    forall k | k in Next(s, a).value.cache
      ensures FromSnapshot(Next(s, a).value, k, Next(s, a).value.cache[k])
    {
      CachedTraceable(s, a, k);
    }
    forall b | b in Next(s, a).value.builds
      ensures FromSnapshot(Next(s, a).value, b.0, b.1)
    {
      BuildTraceable(s, a, b);
    }
  }

  /** Whatever the interleaving, every cached index is the index of some committed chunk set of its tenant. */
  lemma {:induction false} CachedIsSomeSnapshot(acts: seq<Action>)
    requires Exec(Init, acts).Some?
    ensures Traceable(Exec(Init, acts).value)
  {
    if acts != [] {
      CachedIsSomeSnapshot(acts[..|acts| - 1]);
      StepKeepsTraceable(Exec(Init, acts[..|acts| - 1]).value, acts[|acts| - 1]);
    }
  }

  // ---- when the cached index is the current one ----

  /** Once its invalidations are through, a tenant's cached index is that of its current chunks. */
  ghost predicate Coherent(s: State) {
    forall t :: CoherentAt(s, t)
  }

  /** A search stores an index of chunks that have changed since it read them, with no invalidation
      left to remove it. */
  ghost predicate StaleStore(s: State, a: Action) {
    a.Store? && a.key.UuidKey? && a.key.tenant !in s.outstanding && !SelectOf(a.rows, Current(s, a.key.tenant))
  }

  ghost predicate CoherentAt(s: State, t: Tenant) {
    UuidKey(t) in s.cache && t !in s.outstanding ==> SelectOf(s.cache[UuidKey(t)], Current(s, t))
  }

  lemma {:induction false} CoherentAtKept(s: State, a: Action, t: Tenant)
    requires CoherentAt(s, t) && Next(s, a).Some? && !StaleStore(s, a)
    ensures CoherentAt(Next(s, a).value, t)
  {
    hide SelectOf, Snapshots;
    SameHistory(s, Next(s, a).value, t);
    match a
    case Miss(k) =>
    case Select(k, rows) =>
    case Store(k, rows) =>
    case Upload(u, added) => OthersUnchanged(s, u, Current(s, u) + added, t);
    case Delete(u, removed) => OthersUnchanged(s, u, Current(s, u) - removed, t);
    case Invalidate(u) =>
  }

  lemma {:induction false} SameHistory(s: State, s': State, t: Tenant)
    ensures s.history == s'.history ==> Current(s, t) == Current(s', t)
  {
  }

  lemma {:induction false} OthersUnchanged(s: State, u: Tenant, chunks: Chunks, t: Tenant)
    ensures t != u ==> Snapshots(Committed(s, u, chunks), t) == Snapshots(s, t)
  {
  }

  /** Exactly the stale stores break coherence. */
  lemma {:induction false} CoherenceExactly(s: State, a: Action)
    requires Coherent(s) && Next(s, a).Some?
    ensures Coherent(Next(s, a).value) <==> !StaleStore(s, a)
  {
    var s' := Next(s, a).value;
    if StaleStore(s, a) {
      assert !CoherentAt(s', a.key.tenant);
    } else {
      forall t ensures CoherentAt(s', t) {
        assert CoherentAt(s, t);
        CoherentAtKept(s, a, t);
      }
    }
  }

  predicate Commits(a: Action, t: Tenant) {
    (a.Upload? || a.Delete?) && a.tenant == t
  }

  /** Action `j` reads the rows that action `i` stores, and no chunks of the tenant are committed in between. */
  predicate ReadAt(acts: seq<Action>, i: nat, j: int)
    requires i < |acts| && acts[i].Store?
  {
    0 <= j < i && acts[j] == Select(acts[i].key, acts[i].rows)
    && forall m | j < m < i :: !Commits(acts[m], acts[i].key.tenant)
  }

  ghost predicate ReadQuietly(acts: seq<Action>, i: nat)
    requires i < |acts| && acts[i].Store?
  {
    exists j :: ReadAt(acts, i, j)
  }

  /** No search has an upload or delete of its own tenant commit between its read and its store. */
  ghost predicate ReadsQuietly(acts: seq<Action>) {
    forall i | 0 <= i < |acts| && acts[i].Store? :: ReadQuietly(acts, i)
  }

  lemma {:induction false} OnlyCommitsChange(s: State, a: Action, t: Tenant)
    requires Next(s, a).Some? && !Commits(a, t)
    ensures Current(Next(s, a).value, t) == Current(s, t)
  {
    hide Next, Commits, Current, Snapshots;
    CurrentAfter(s, a, t);
  }

  lemma {:induction false} CommittedSnapshots(s: State, s': State, u: Tenant, chunks: Chunks, t: Tenant)
    ensures s.history == s'.history ==> Snapshots(s', t) == Snapshots(s, t)
    ensures Snapshots(Committed(s, u, chunks), t) == Snapshots(s, t) + if t == u then [chunks] else []
  {
  }

  lemma {:induction false} SnapshotsAfter(s: State, a: Action, t: Tenant)
    requires Next(s, a).Some?
    ensures Snapshots(Next(s, a).value, t)
         == Snapshots(s, t) + if !Commits(a, t) then []
                              else [if a.Upload? then Current(s, t) + a.added else Current(s, t) - a.removed]
  {
    hide SelectOf, Snapshots, Current, Committed;
    assert Snapshots(s, t) + [] == Snapshots(s, t);
    CommittedSnapshots(s, Next(s, a).value, t, map[], t);
    match a
    case Miss(k) =>
    case Select(k, rows) =>
    case Store(k, rows) =>
    case Upload(u, added) => CommittedSnapshots(s, s, u, Current(s, u) + added, t);
    case Delete(u, removed) => CommittedSnapshots(s, s, u, Current(s, u) - removed, t);
    case Invalidate(u) =>
  }

  /** What is committed: an upload adds its chunks to the tenant's, a delete takes its own away, and nothing else
      changes any tenant's chunks. Earlier chunk sets are kept. */
  lemma {:induction false} CurrentAfter(s: State, a: Action, t: Tenant)
    requires Next(s, a).Some?
    ensures var chunks := Current(Next(s, a).value, t);
            && chunks == (if !Commits(a, t) then Current(s, t)
                          else if a.Upload? then Current(s, t) + a.added
                          else Current(s, t) - a.removed)
            && Snapshots(Next(s, a).value, t) == Snapshots(s, t) + if Commits(a, t) then [chunks] else []
  {
    hide Next, Commits, Snapshots;
    SnapshotsAfter(s, a, t);
  }

  /** Without a commit of the tenant in between, what was read is what is current. */
  lemma {:induction false} ReadIsCurrent(s: State, acts: seq<Action>, key: Key, rows: Rows, j: nat)
    requires Exec(s, acts).Some? && j < |acts| && acts[j] == Select(key, rows)
    requires forall m | j < m < |acts| :: !Commits(acts[m], key.tenant)
    ensures SelectOf(rows, Current(Exec(s, acts).value, key.tenant))
  {
    hide Next, SelectOf, Current;
    var front, a := acts[..|acts| - 1], acts[|acts| - 1];
    var mid := Exec(s, front).value;
    if j < |front| {
      ReadIsCurrent(s, front, key, rows, j);
      OnlyCommitsChange(mid, a, key.tenant);
    } else {
      SelectReads(mid, key, rows);
    }
  }

  lemma {:induction false} SelectReads(s: State, key: Key, rows: Rows)
    requires Next(s, Select(key, rows)).Some?
    ensures SelectOf(rows, Current(Next(s, Select(key, rows)).value, key.tenant))
  {
    hide SelectOf;
  }

  /** Then, whatever else interleaves, every index is current once its invalidations are through. */
  lemma {:induction false} QuietReadsCoherent(acts: seq<Action>)
    requires Exec(Init, acts).Some? && ReadsQuietly(acts)
    ensures Coherent(Exec(Init, acts).value)
  {
    hide SelectOf, Coherent;
    if acts == [] {
      NothingCached();
    } else {
      var front, a := acts[..|acts| - 1], acts[|acts| - 1];
      QuietFront(acts);
      QuietReadsCoherent(front);
      var s := Exec(Init, front).value;
      if a.Store? {
        assert ReadQuietly(acts, |front|);
        var j :| ReadAt(acts, |front|, j);
        ReadIsCurrent(Init, front, a.key, a.rows, j);
      }
      CoherenceExactly(s, a);
    }
  }

  lemma {:induction false} NothingCached()
    ensures Coherent(Init)
  {
  }

  lemma {:induction false} QuietFront(acts: seq<Action>)
    requires acts != [] && ReadsQuietly(acts)
    ensures ReadsQuietly(acts[..|acts| - 1])
  {
    var front := acts[..|acts| - 1];
    forall i | 0 <= i < |front| && front[i].Store? ensures ReadQuietly(front, i) {
      assert ReadQuietly(acts, i);
      var j :| ReadAt(acts, i, j);
      assert ReadAt(front, i, j);
    }
  }

  /** No await separates a search's read from its store. */
  predicate BuildsAtomic(acts: seq<Action>) {
    forall i | 0 <= i < |acts| && acts[i].Store? :: i > 0 && acts[i - 1] == Select(acts[i].key, acts[i].rows)
  }

  lemma {:induction false} AtomicBuildsCoherent(acts: seq<Action>)
    requires Exec(Init, acts).Some? && BuildsAtomic(acts)
    ensures Coherent(Exec(Init, acts).value)
  {
    forall i | 0 <= i < |acts| && acts[i].Store? ensures ReadQuietly(acts, i) {
      assert ReadAt(acts, i, i - 1);
    }
    QuietReadsCoherent(acts);
  }

  lemma {:induction false} RaceRead(s: State, k: Key, rows: Rows) returns (acts: seq<Action>, s': State)
    requires k !in s.cache && SelectOf(rows, Current(s, k.tenant))
    ensures Exec(s, acts) == Some(s') && s' == s.(builds := s.builds + multiset{(k, rows)})
  {
    hide Runs.Exec;
    var s1 := Next(s, Miss(k)).value;
    s' := Next(s1, Select(k, rows)).value;
    assert s.misses + multiset{k} - multiset{k} == s.misses;
    acts := [Miss(k), Select(k, rows)];
    Runs.Chain(Next, acts, [s, s1, s']);
  }

  lemma {:induction false} RaceUpload(s: State, t: Tenant, added: Chunks) returns (acts: seq<Action>, s': State)
    requires added.Keys !! Current(s, t).Keys
    ensures Exec(s, acts) == Some(s') && Current(s', t) == Current(s, t) + added
    ensures s'.misses == s.misses && s'.builds == s.builds && s'.outstanding == s.outstanding
    ensures s'.cache == s.cache - {UuidKey(t)}
  {
    hide Runs.Exec, SelectOf;
    var s1 := Next(s, Upload(t, added)).value;
    s' := Next(s1, Invalidate(t)).value;
    assert s.outstanding + multiset{t} - multiset{t} == s.outstanding;
    acts := [Upload(t, added), Invalidate(t)];
    Runs.Chain(Next, acts, [s, s1, s']);
  }

  /** Without that the race is real, from every state in which the tenant has no index: a search reads
      the chunks, an upload commits and invalidates, the search stores. Nothing is left outstanding and
      the tenant's index lacks the upload. */
  lemma {:induction false} RaceLeavesStaleIndex(s: State, t: Tenant, rows: Rows, added: Chunks)
    returns (acts: seq<Action>, s': State)
    requires UuidKey(t) !in s.cache && t !in s.outstanding && SelectOf(rows, Current(s, t))
    requires added != map[] && added.Keys !! Current(s, t).Keys
    ensures Exec(s, acts) == Some(s') && !Coherent(s')
    ensures s'.misses == s.misses && s'.builds == s.builds && s'.outstanding == s.outstanding
    ensures UuidKey(t) in s'.cache && s'.cache[UuidKey(t)] == rows && Current(s', t) == Current(s, t) + added
  {
    var read, s1 := RaceRead(s, UuidKey(t), rows);
    var write, s2 := RaceUpload(s1, t, added);
    s' := RaceStore(s, s2, t, rows, added);
    Runs.ExecParts(Next, s, read, write);
    acts := read + write + [Store(UuidKey(t), rows)];
    assert acts[..|acts| - 1] == read + write;
  }

  lemma {:induction false} RaceStore(s: State, s1: State, t: Tenant, rows: Rows, added: Chunks) returns (s': State)
    requires SelectOf(rows, Current(s, t)) && added != map[] && added.Keys !! Current(s, t).Keys
    requires Current(s1, t) == Current(s, t) + added
    requires t !in s1.outstanding && s1.builds == s.builds + multiset{(UuidKey(t), rows)}
    ensures Next(s1, Store(UuidKey(t), rows)) == Some(s') && !Coherent(s')
    ensures s'.misses == s1.misses && s'.builds == s.builds && s'.outstanding == s1.outstanding
    ensures s'.cache == s1.cache[UuidKey(t) := rows] && Current(s', t) == Current(s1, t)
  {
    s' := Next(s1, Store(UuidKey(t), rows)).value;
    assert s.builds + multiset{(UuidKey(t), rows)} - multiset{(UuidKey(t), rows)} == s.builds;
    LacksUpload(rows, Current(s, t), added);
    assert !CoherentAt(s', t);
  }

  /** An index of the chunks before an upload is not one of the chunks after it. */
  lemma {:induction false} LacksUpload(rows: Rows, chunks: Chunks, added: Chunks)
    requires SelectOf(rows, chunks) && added != map[] && added.Keys !! chunks.Keys
    ensures !SelectOf(rows, chunks + added)
  {
    var id :| id in added;
    assert id in chunks + added && id !in chunks;
  }

  // ---- an index under a text key is never refreshed ----

  ghost predicate Settled(s: State, t: Tenant, rows: Rows) {
    && TextKey(t) in s.cache && s.cache[TextKey(t)] == rows
    && TextKey(t) !in s.misses
    && (forall b | b in s.builds :: b.0 != TextKey(t))
  }

  /** Uploads and deletes remove the UUID key only, so the index the agent searches never changes
      once it has been cached, whatever is committed afterwards. */
  lemma {:induction false} TextKeyNeverRefreshed(s: State, acts: seq<Action>, t: Tenant, rows: Rows)
    requires Settled(s, t, rows) && Exec(s, acts).Some?
    ensures Settled(Exec(s, acts).value, t, rows)
  {
    if acts != [] {
      var front, a := acts[..|acts| - 1], acts[|acts| - 1];
      TextKeyNeverRefreshed(s, front, t, rows);
      SettledStep(Exec(s, front).value, a, t, rows);
    }
  }

  lemma {:induction false} SettledStep(s: State, a: Action, t: Tenant, rows: Rows)
    requires Settled(s, t, rows) && Next(s, a).Some?
    ensures Settled(Next(s, a).value, t, rows)
  {
    match a
    case Miss(k) =>
    case Select(k, r) =>
    case Store(k, r) => assert (k, r) in s.builds;
    case Upload(u, added) =>
    case Delete(u, removed) =>
    case Invalidate(u) =>
  }

  /** From every state in which nobody has cached or is building a tenant's text index, one search by the agent, an
      upload and its invalidation lead to a settled index that lacks the upload, and every later run keeps it. */
  lemma {:induction false} TextKeyGoesStale(s: State, t: Tenant, rows: Rows, added: Chunks)
    returns (acts: seq<Action>, s': State)
    requires TextKey(t) !in s.cache && TextKey(t) !in s.misses && (forall b | b in s.builds :: b.0 != TextKey(t))
    requires SelectOf(rows, Current(s, t)) && added != map[] && added.Keys !! Current(s, t).Keys
    ensures Exec(s, acts) == Some(s') && s'.outstanding == s.outstanding
    ensures Settled(s', t, rows) && Current(s', t) == Current(s, t) + added && !SelectOf(rows, Current(s', t))
    ensures forall more :: Exec(s', more).Some? ==> Settled(Exec(s', more).value, t, rows)
  {
    hide SelectOf, Runs.Exec;
    var read, s1 := RaceRead(s, TextKey(t), rows);
    var s2 := StoreRead(s, s1, t, rows);
    var write, s3 := RaceUpload(s2, t, added);
    Runs.Single(Next, s1, Store(TextKey(t), rows));
    Runs.ExecParts(Next, s, read, [Store(TextKey(t), rows)]);
    Runs.ExecParts(Next, s, read + [Store(TextKey(t), rows)], write);
    acts, s' := read + [Store(TextKey(t), rows)] + write, s3;
    LacksUpload(rows, Current(s, t), added);
    forall more | Exec(s', more).Some? ensures Settled(Exec(s', more).value, t, rows) {
      TextKeyNeverRefreshed(s', more, t, rows);
    }
  }

  lemma {:induction false} StoreRead(s: State, s1: State, t: Tenant, rows: Rows) returns (s2: State)
    requires s1 == s.(builds := s.builds + multiset{(TextKey(t), rows)})
    ensures Next(s1, Store(TextKey(t), rows)) == Some(s2) && s2 == s.(cache := s.cache[TextKey(t) := rows])
    ensures Current(s2, t) == Current(s, t)
  {
    s2 := Next(s1, Store(TextKey(t), rows)).value;
    assert s.builds + multiset{(TextKey(t), rows)} - multiset{(TextKey(t), rows)} == s.builds;
  }

  // ---- what a search over a coherent index returns ----

  function Search(log: real -> real, rows: Rows, query: string): seq<(ChunkId, real)> {
    Ranked(log, DocsOf(rows), Tokenize(query))
  }

  lemma {:induction false} UniqueElements<T>(s: seq<T>, x: T)
    requires forall i, j | 0 <= i < j < |s| :: s[i] != s[j]
    ensures multiset(s)[x] == if x in s then 1 else 0
  {
    if s != [] {
      UniqueElements(s[..|s| - 1], x);
      assert s == s[..|s| - 1] + [s[|s| - 1]];
    }
  }

  lemma {:induction false} SelectsSameDocs(rows1: Rows, rows2: Rows, chunks: Chunks)
    requires SelectOf(rows1, chunks) && SelectOf(rows2, chunks)
    ensures forall d | d in DocsOf(rows1) :: d in DocsOf(rows2)
  {
    forall d | d in DocsOf(rows1) ensures d in DocsOf(rows2) {
      var i :| 0 <= i < |rows1| && DocsOf(rows1)[i] == d;
      assert rows1[i].0 in chunks;
      var j :| 0 <= j < |rows2| && rows2[j].0 == rows1[i].0;
      assert DocsOf(rows2)[j] == d;
    }
  }

  lemma {:induction false} SelectsPermuted(rows1: Rows, rows2: Rows, chunks: Chunks)
    requires SelectOf(rows1, chunks) && SelectOf(rows2, chunks)
    ensures multiset(DocsOf(rows1)) == multiset(DocsOf(rows2))
  {
    SelectsSameDocs(rows1, rows2, chunks);
    SelectsSameDocs(rows2, rows1, chunks);
    forall d ensures multiset(DocsOf(rows1))[d] == multiset(DocsOf(rows2))[d] {
      UniqueElements(DocsOf(rows1), d);
      UniqueElements(DocsOf(rows2), d);
    }
  }

  /** Searches on two indexes of the same chunks agree after any cut, up to ties with the last chunk taken. */
  lemma {:induction false} SelectsSearchAlike(log: real -> real, rows1: Rows, rows2: Rows, chunks: Chunks,
                                              query: string, topK: nat)
    requires SelectOf(rows1, chunks) && SelectOf(rows2, chunks)
    ensures forall e :: e in Search(log, rows1, query) <==> e in Search(log, rows2, query)
    ensures SameToTies(Take(Search(log, rows1, query), topK), Take(Search(log, rows2, query), topK))
  {
    hide Ranked, SameToTies, Take;
    SelectsPermuted(rows1, rows2, chunks);
    RankedPermuted(log, DocsOf(rows1), DocsOf(rows2), Tokenize(query));
    RankedDistinct(log, DocsOf(rows1), Tokenize(query));
    RankedDistinct(log, DocsOf(rows2), Tokenize(query));
    CutsAgree(Search(log, rows1, query), Search(log, rows2, query), topK);
  }

  /** In a run whose builds read quietly, a search on the cached index of a tenant with no invalidation
      outstanding finds the same chunks with the same scores as a search on any index built now, and the two lists
      cut to `topK` have the same scores at every position and differ at most in ties with the last. */
  lemma {:induction false} CoherentSearch(log: real -> real, acts: seq<Action>, t: Tenant, rebuilt: Rows,
                                          query: string, topK: nat)
    requires Exec(Init, acts).Some? && ReadsQuietly(acts)
    requires UuidKey(t) in Exec(Init, acts).value.cache && t !in Exec(Init, acts).value.outstanding
    requires SelectOf(rebuilt, Current(Exec(Init, acts).value, t))
    ensures forall e :: e in Search(log, Exec(Init, acts).value.cache[UuidKey(t)], query) <==>
            e in Search(log, rebuilt, query)
    ensures SameToTies(Take(Search(log, Exec(Init, acts).value.cache[UuidKey(t)], query), topK),
                       Take(Search(log, rebuilt, query), topK))
  {
    hide SameToTies, Take, Search, SelectOf;
    var s := Exec(Init, acts).value;
    QuietReadsCoherent(acts);
    assert CoherentAt(s, t);
    SelectsSearchAlike(log, s.cache[UuidKey(t)], rebuilt, Current(s, t), query, topK);
  }
}
