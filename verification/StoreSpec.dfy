/** The store as a value, with one function per store operation (common/store.py).
    These functions are the specification of the class `InMemoryStore`, the atomic steps
    of the protocol, and the abstract side of the Postgres refinement. */
module StoreSpec {
  import opened Models

  datatype Store = Store(
    jobs: map<int, Job>,
    outbox: map<int, OutboxMessage>,
    published: set<int>,
    config: map<string, TypeConfig>,
    nextJob: int,
    nextOutbox: int)
  {
    function Timeout(ty: string): int {
      if ty in config then config[ty].runTimeout else DEFAULT_RUN_TIMEOUT
    }

    function MaxAttempts(ty: string): int {
      if ty in config then config[ty].maxAttempts else DEFAULT_MAX_ATTEMPTS
    }

    /** The churn cap as a bound on `attempts`: a non-positive cap allows no requeue. */
    function Cap(ty: string): int {
      Max(0, MaxAttempts(ty))
    }

    ghost predicate HasActive(ty: string) {
      exists i :: i in jobs && jobs[i].jobType == ty && jobs[i].status.Active()
    }

    function Put(id: int, job: Job): Store {
      this.(jobs := jobs[id := job])
    }

    predicate Is(id: int, status: Status) {
      id in jobs && jobs[id].status == status
    }
  }

  function Empty(config: map<string, TypeConfig>): Store {
    Store(map[], map[], {}, config, 1, 1)
  }

  // ----- operations ---------------------------------------------------------------

  function NewJob(id: int, ty: string, input: Option<Payload>, creator: Option<Creator>, now: int): Job {
    Job(id, ty, Queued, OrEmpty(input), map[], 0, now, now, creator)
  }

  ghost function Enqueue(s: Store, ty: string, input: Option<Payload>, creator: Option<Creator>, now: int)
    : (Store, Option<int>)
  {
    if s.HasActive(ty) then (s, None)
    else
      (s.(jobs := s.jobs[s.nextJob := NewJob(s.nextJob, ty, input, creator, now)],
          outbox := s.outbox[s.nextOutbox := OutboxMessage(s.nextOutbox, s.nextJob, Envelope(s.nextJob, ty))],
          nextJob := s.nextJob + 1,
          nextOutbox := s.nextOutbox + 1),
       Some(s.nextJob))
  }

  /** The unpublished rows with ids below `n`, in ascending id. */
  function UnpublishedBelow(s: Store, n: int): seq<OutboxMessage>
    decreases n
  {
    if n <= 1 then []
    else UnpublishedBelow(s, n - 1) +
         if n - 1 in s.outbox && n - 1 !in s.published then [s.outbox[n - 1]] else []
  }

  function FetchUnpublished(s: Store, limit: int): seq<OutboxMessage> {
    Slice(UnpublishedBelow(s, s.nextOutbox), limit)
  }

  function MarkDispatched(s: Store, outboxId: int, jobId: int, now: int): Store {
    var s' := s.(published := s.published + {outboxId});
    if s.Is(jobId, Queued) then s'.Put(jobId, s.jobs[jobId].(status := Dispatched, updatedAt := now))
    else s'
  }

  function Claim(s: Store, id: int, now: int): (Store, bool) {
    if id in s.jobs && s.jobs[id].status.Claimable()
    then (s.Put(id, s.jobs[id].(status := Running, updatedAt := now)), true)
    else (s, false)
  }

  /** The effective payload a run of this job uses, when its type has a configuration row. */
  function EffectivePayload(s: Store, id: int): Payload
    requires id in s.jobs && s.jobs[id].jobType in s.config
  {
    Overlay(s.config[s.jobs[id].jobType].payload, s.jobs[id].inputPayload)
  }

  /** The type argument is ignored: the row's own type selects the configuration. */
  function ResolvePayload(s: Store, id: int, ty: string, now: int): (Store, Option<Payload>) {
    if !s.Is(id, Running) || s.jobs[id].jobType !in s.config then (s, None)
    else
      var p := EffectivePayload(s, id);
      (s.Put(id, s.jobs[id].(payload := p, updatedAt := now)), Some(p))
  }

  /** `complete` (ok), `fail` and `dead_letter` (not ok): running -> terminal. */
  function Finish(s: Store, id: int, ok: bool, now: int): (Store, bool) {
    if s.Is(id, Running)
    then (s.Put(id, s.jobs[id].(status := if ok then Completed else Failed, updatedAt := now)), true)
    else (s, false)
  }

  predicate Stuck(s: Store, id: int, now: int) {
    s.Is(id, Running) && now - s.jobs[id].updatedAt > s.Timeout(s.jobs[id].jobType)
  }

  /** The stuck runs with ids below `n`, in ascending id (the dictionary's own order). */
  function StuckBelow(s: Store, now: int, n: int): seq<StuckJob>
    decreases n
  {
    if n <= 1 then []
    else StuckBelow(s, now, n - 1) +
         if Stuck(s, n - 1, now) then [StuckJob(n - 1, s.jobs[n - 1].jobType, s.jobs[n - 1].attempts)] else []
  }

  function FindStuck(s: Store, now: int): seq<StuckJob> {
    StuckBelow(s, now, s.nextJob)
  }

  predicate CanRequeue(s: Store, id: int) {
    s.Is(id, Running) && s.jobs[id].attempts < s.MaxAttempts(s.jobs[id].jobType)
  }

  function RowsOf(s: Store, id: int): set<int> {
    set m | m in s.outbox && s.outbox[m].jobId == id
  }

  function Requeue(s: Store, id: int, now: int): (Store, bool) {
    if CanRequeue(s, id)
    then
      var job := s.jobs[id];
      (s.Put(id, job.(status := Queued, attempts := job.attempts + 1, updatedAt := now))
        .(published := s.published - RowsOf(s, id)),
       true)
    else (s, false)
  }

  /** The state-changing store operations as data. */
  datatype Op =
    | OpNone
    | OpEnqueue(ty: string, input: Option<Payload>, creator: Option<Creator>)
    | OpMark(outboxId: int, jobId: int)
    | OpClaim(id: int)
    | OpResolve(id: int, envType: string)
    | OpFinish(id: int, ok: bool)
    | OpRequeue(id: int)

  ghost function ApplyOp(s: Store, op: Op, now: int): Store {
    match op
    case OpNone => s
    case OpEnqueue(ty, input, creator) => Enqueue(s, ty, input, creator, now).0
    case OpMark(outboxId, jobId) => MarkDispatched(s, outboxId, jobId, now)
    case OpClaim(id) => Claim(s, id, now).0
    case OpResolve(id, envType) => ResolvePayload(s, id, envType, now).0
    case OpFinish(id, ok) => Finish(s, id, ok, now).0
    case OpRequeue(id) => Requeue(s, id, now).0
  }

  // ----- the store invariant ------------------------------------------------------

  /** Every row is filed under its own id and has not been requeued past its type's cap. */
  predicate JobOk(s: Store, i: int)
    requires i in s.jobs
  {
    s.jobs[i].id == i && 0 <= s.jobs[i].attempts <= s.Cap(s.jobs[i].jobType)
  }

  /** Row `i` of the outbox belongs to job `i`: the two id counters advance together. */
  predicate RowOk(s: Store, i: int)
    requires i in s.outbox
  {
    i in s.jobs && s.outbox[i] == OutboxMessage(i, i, Envelope(i, s.jobs[i].jobType))
  }

  /** When a newer job of the same type exists, the older one is terminal. */
  predicate Superseded(s: Store, i: int, j: int)
    requires i in s.jobs && j in s.jobs
  {
    i < j && s.jobs[i].jobType == s.jobs[j].jobType ==> s.jobs[i].status.Terminal()
  }

  ghost predicate Consistent(s: Store) {
    && 1 <= s.nextJob == s.nextOutbox
    && (forall i :: i in s.jobs <==> 1 <= i < s.nextJob)
    && (forall i :: i in s.outbox <==> 1 <= i < s.nextJob)
    && (forall i :: i in s.jobs ==> JobOk(s, i))
    && (forall i :: i in s.outbox ==> RowOk(s, i))
    && (forall i, j :: i in s.jobs && j in s.jobs ==> Superseded(s, i, j))
  }

  /** At most one active job per type. */
  lemma OneActivePerType(s: Store, i: int, j: int)
    requires Consistent(s)
    requires i in s.jobs && j in s.jobs && s.jobs[i].jobType == s.jobs[j].jobType
    requires s.jobs[i].status.Active() && s.jobs[j].status.Active()
    ensures i == j
  {
  }

  /** In a consistent store the rows re-armed by a requeue are exactly the job's own row. */
  lemma RowsOfJob(s: Store, i: int)
    requires Consistent(s) && i in s.jobs
    ensures RowsOf(s, i) == {i}
  {
    assert RowOk(s, i);
    forall m | m in s.outbox ensures s.outbox[m].jobId == m {
      assert RowOk(s, m);
    }
  }

  /** What consistency means to a reader of the tables: one active job per type, `attempts`
      within the cap, and exactly one outbox row per job, carrying that job's envelope. */
  lemma ConsistentMeans(s: Store)
    requires Consistent(s)
    ensures forall i, j :: BothActive(s, i, j) ==> i == j
    ensures forall i :: i in s.jobs ==> WithinCap(s.jobs[i], s.config)
    ensures s.outbox.Keys == s.jobs.Keys
    ensures forall i :: i in s.jobs ==> RowsOf(s, i) == {i} && s.outbox[i].payload == Envelope(i, s.jobs[i].jobType)
  {
    assert forall i :: i in s.outbox.Keys <==> i in s.jobs.Keys;
    forall i, j | BothActive(s, i, j)
      ensures i == j
    {
      OneActivePerType(s, i, j);
    }
    forall i | i in s.jobs
      ensures WithinCap(s.jobs[i], s.config)
    {
      assert JobOk(s, i);
    }
    forall i | i in s.jobs
      ensures RowsOf(s, i) == {i} && s.outbox[i].payload == Envelope(i, s.jobs[i].jobType)
    {
      RowsOfJob(s, i);
      assert RowOk(s, i);
    }
  }

  /** `attempts` in the reader's terms: at most the type's configured cap, or 3 for a type without a
      configuration row; and a cap of zero or less allows no requeue at all. */
  predicate WithinCap(job: Job, config: map<string, TypeConfig>) {
    0 <= job.attempts && (0 < job.attempts ==> job.attempts <= if job.jobType in config then config[job.jobType].maxAttempts else 3)
  }

  /** Two active jobs of the same type. */
  predicate BothActive(s: Store, i: int, j: int) {
    && i in s.jobs && j in s.jobs && s.jobs[i].jobType == s.jobs[j].jobType
    && s.jobs[i].status.Active() && s.jobs[j].status.Active()
  }

  // ----- durable history ----------------------------------------------------------

  /** What a row may turn into: identity, type, request and creator are fixed, `attempts`
      never falls, and a terminal row is frozen in every field. */
  predicate RowEvolves(a: Job, b: Job) {
    && b.id == a.id && b.jobType == a.jobType && b.inputPayload == a.inputPayload
    && b.createdBy == a.createdBy && b.createdAt == a.createdAt
    && a.attempts <= b.attempts
    && (a.status.Terminal() ==> b == a)
  }

  /** What a store may turn into: rows are only added, with new and larger ids. */
  ghost predicate Evolves(s: Store, t: Store) {
    && t.config == s.config
    && s.nextJob <= t.nextJob
    && (forall i :: i in s.jobs ==> i in t.jobs && RowEvolves(s.jobs[i], t.jobs[i]))
    && (forall i :: i in t.jobs && i !in s.jobs ==> s.nextJob <= i < t.nextJob)
    && (forall i :: i in s.outbox ==> i in t.outbox && t.outbox[i] == s.outbox[i])
  }

  lemma EvolvesTransitive(s: Store, t: Store, u: Store)
    requires Evolves(s, t) && Evolves(t, u)
    ensures Evolves(s, u)
  {
  }

  // ----- every operation keeps the invariant and the history -----------------------

  /** Rewriting one row in a permitted way. */
  lemma PutKeeps(s: Store, id: int, job: Job, published: set<int>)
    requires Consistent(s) && id in s.jobs
    requires RowEvolves(s.jobs[id], job) && job.attempts <= s.Cap(job.jobType)
    ensures var t := s.Put(id, job).(published := published); Consistent(t) && Evolves(s, t)
  {
  }

  lemma EnqueueKeeps(s: Store, ty: string, input: Option<Payload>, creator: Option<Creator>, now: int)
    requires Consistent(s)
    ensures var t := Enqueue(s, ty, input, creator, now).0; Consistent(t) && Evolves(s, t)
  {
    var t := Enqueue(s, ty, input, creator, now).0;
    forall i | i in t.outbox
      ensures RowOk(t, i)
    {
      assert i in s.outbox ==> RowOk(s, i);
    }
    forall i | i in t.jobs
      ensures JobOk(t, i)
    {
      assert i in s.jobs ==> JobOk(s, i);
    }
    forall i, j | i in t.jobs && j in t.jobs
      ensures Superseded(t, i, j)
    {
      assert i in s.jobs && j in s.jobs ==> Superseded(s, i, j);
      if !s.HasActive(ty) && i in s.jobs && j == s.nextJob && t.jobs[i].jobType == ty {
        assert !s.jobs[i].status.Active();
      }
    }
  }

  lemma MarkKeeps(s: Store, outboxId: int, jobId: int, now: int)
    requires Consistent(s)
    ensures var t := MarkDispatched(s, outboxId, jobId, now); Consistent(t) && Evolves(s, t)
  {
    if s.Is(jobId, Queued) {
      var job := s.jobs[jobId].(status := Dispatched, updatedAt := now);
      assert JobOk(s, jobId);
      PutKeeps(s, jobId, job, s.published + {outboxId});
    } else {
      PublishedIsFree(s, s.published + {outboxId});
    }
  }

  /** The invariant does not constrain which rows count as published. */
  lemma PublishedIsFree(s: Store, published: set<int>)
    requires Consistent(s)
    ensures Consistent(s.(published := published)) && Evolves(s, s.(published := published))
  {
  }

  lemma ClaimKeeps(s: Store, id: int, now: int)
    requires Consistent(s)
    ensures var t := Claim(s, id, now).0; Consistent(t) && Evolves(s, t)
  {
    if Claim(s, id, now).1 {
      assert JobOk(s, id);
      PutKeeps(s, id, s.jobs[id].(status := Running, updatedAt := now), s.published);
    }
  }

  lemma ResolveKeeps(s: Store, id: int, ty: string, now: int)
    requires Consistent(s)
    ensures var t := ResolvePayload(s, id, ty, now).0; Consistent(t) && Evolves(s, t)
  {
    if ResolvePayload(s, id, ty, now).1.Some? {
      assert JobOk(s, id);
      PutKeeps(s, id, s.jobs[id].(payload := EffectivePayload(s, id), updatedAt := now), s.published);
    }
  }

  lemma FinishKeeps(s: Store, id: int, ok: bool, now: int)
    requires Consistent(s)
    ensures var t := Finish(s, id, ok, now).0; Consistent(t) && Evolves(s, t)
  {
    if s.Is(id, Running) {
      assert JobOk(s, id);
      PutKeeps(s, id, s.jobs[id].(status := if ok then Completed else Failed, updatedAt := now), s.published);
    }
  }

  lemma RequeueKeeps(s: Store, id: int, now: int)
    requires Consistent(s)
    ensures var t := Requeue(s, id, now).0; Consistent(t) && Evolves(s, t)
  {
    if CanRequeue(s, id) {
      assert JobOk(s, id);
      var job := s.jobs[id];
      var published := s.published - RowsOf(s, id);
      var job' := job.(status := Queued, attempts := job.attempts + 1, updatedAt := now);
      PutKeeps(s, id, job', published);
      assert Requeue(s, id, now).0 == s.Put(id, job').(published := published);
    }
  }

  lemma OpKeeps(s: Store, op: Op, now: int)
    requires Consistent(s)
    ensures Consistent(ApplyOp(s, op, now)) && Evolves(s, ApplyOp(s, op, now))
  {
    match op
    case OpNone =>
    case OpEnqueue(ty, input, creator) => EnqueueKeeps(s, ty, input, creator, now);
    case OpMark(outboxId, jobId) => MarkKeeps(s, outboxId, jobId, now);
    case OpClaim(id) => ClaimKeeps(s, id, now);
    case OpResolve(id, envType) => ResolveKeeps(s, id, envType, now);
    case OpFinish(id, ok) => FinishKeeps(s, id, ok, now);
    case OpRequeue(id) => RequeueKeeps(s, id, now);
  }

  /** An envelope that points at an existing job and names its true type. */
  predicate Genuine(s: Store, e: Envelope) {
    e.jobId in s.jobs && e == Envelope(e.jobId, s.jobs[e.jobId].jobType)
  }

  ghost predicate RowsOk(s: Store, rows: seq<OutboxMessage>) {
    forall k :: 0 <= k < |rows| ==> rows[k].id in s.outbox && rows[k] == s.outbox[rows[k].id]
  }

  // ----- what an operation does to one row ------------------------------------------

  /** How many runs of this job have been started. */
  function Runs(job: Job): int {
    job.attempts + if job.status.Claimable() then 0 else 1
  }

  /** The number of started runs rises by one on a successful claim and never otherwise:
      a requeue trades the running run for one more attempt. */
  lemma RunsStep(s: Store, op: Op, now: int, j: int)
    requires Consistent(s) && j in s.jobs
    ensures var t := ApplyOp(s, op, now);
      && j in t.jobs
      && Runs(t.jobs[j]) == Runs(s.jobs[j]) + if op == OpClaim(j) && s.jobs[j].status.Claimable() then 1 else 0
  {
  }

  function Phase(status: Status): int {
    match status
    case Queued => 3
    case Dispatched => 2
    case Running => 1
    case _ => 0
  }

  /** An upper bound on the status changes a job can still make. */
  function Measure(s: Store, j: int): int
    requires j in s.jobs
  {
    3 * (s.Cap(s.jobs[j].jobType) - s.jobs[j].attempts) + Phase(s.jobs[j].status)
  }

  /** The measure drops at every status change, requeue included, and stays put otherwise. */
  lemma MeasureStep(s: Store, op: Op, now: int, j: int)
    requires Consistent(s) && j in s.jobs
    ensures var t := ApplyOp(s, op, now);
      && j in t.jobs && 0 <= Measure(s, j)
      && (t.jobs[j].status != s.jobs[j].status ==> Measure(t, j) < Measure(s, j))
      && (t.jobs[j].status == s.jobs[j].status ==> Measure(t, j) == Measure(s, j))
  {
    assert JobOk(s, j);
  }

  // ----- the two listing queries ----------------------------------------------------

  /** `fetch_unpublished` sees exactly the unpublished rows, in strictly ascending id. */
  lemma {:induction false} UnpublishedExact(s: Store, n: int)
    requires Consistent(s) && n <= s.nextOutbox
    ensures var rows := UnpublishedBelow(s, n);
      && (forall k :: 0 <= k < |rows| ==>
            1 <= rows[k].id < n && rows[k].id !in s.published && rows[k].id in s.outbox && rows[k] == s.outbox[rows[k].id])
      && (forall k, l :: 0 <= k < l < |rows| ==> rows[k].id < rows[l].id)
      && (forall i :: 1 <= i < n && i !in s.published ==> s.outbox[i] in rows)
    decreases n
  {
    if n > 1 {
      UnpublishedExact(s, n - 1);
      assert RowOk(s, n - 1);
    }
  }

  /** The entry is of a run that has been running for more than its type's configured timeout, or for
      more than fifteen minutes if the type has no configuration row. */
  predicate StuckEntry(s: Store, e: StuckJob, now: int) {
    && e.jobId in s.jobs && s.jobs[e.jobId].status == Running
    && now - s.jobs[e.jobId].updatedAt > (if e.jobType in s.config then s.config[e.jobType].runTimeout else 900)
    && e.jobType == s.jobs[e.jobId].jobType && e.attempts == s.jobs[e.jobId].attempts
  }

  /** The rows are exactly the stuck runs with ids below `n`, each once, in ascending id. */
  ghost predicate ListsStuck(s: Store, rows: seq<StuckJob>, now: int, n: int) {
    && (forall k :: 0 <= k < |rows| ==> rows[k].jobId < n && StuckEntry(s, rows[k], now))
    && (forall k, l :: 0 <= k < l < |rows| ==> rows[k].jobId < rows[l].jobId)
    && (forall e: StuckJob :: 1 <= e.jobId < n && StuckEntry(s, e, now) ==> e in rows)
  }

  /** `find_stuck` lists exactly the stuck runs. */
  lemma {:induction false} StuckExact(s: Store, now: int, n: int)
    ensures ListsStuck(s, StuckBelow(s, now, n), now, n)
    decreases n
  {
    if n > 1 {
      StuckExact(s, now, n - 1);
      StuckNext(s, StuckBelow(s, now, n - 1), now, n - 1);
    }
  }

  lemma StuckNext(s: Store, rows: seq<StuckJob>, now: int, n: int)
    requires ListsStuck(s, rows, now, n)
    ensures Stuck(s, n, now) ==> ListsStuck(s, rows + [StuckJob(n, s.jobs[n].jobType, s.jobs[n].attempts)], now, n + 1)
    ensures !Stuck(s, n, now) ==> ListsStuck(s, rows, now, n + 1)
  {
  }
}
