/** Each component's unit of work as a function on the store, when nothing else runs:
    `process` (worker/service.py), `dispatch_once` (dispatcher/service.py) and `reap_once`
    (reaper/service.py). Clock readings are arbitrary; "up to updated_at" is `Alike`. */
module Sequential {
  import opened Models
  import opened StoreSpec
  import opened Effects

  /** `lookup(type)` is the registered handler, if any; a handler returns (true) or raises (false). */
  type Lookup = string -> Option<Payload -> bool>

  datatype Outcome = Skipped | NoConfig | RunFailed | RunCompleted

  function EraseJob(j: Job): Job {
    j.(updatedAt := 0)
  }

  /** Equal up to `updated_at`. */
  ghost predicate Alike(s: Store, t: Store) {
    && s == t.(jobs := s.jobs)
    && s.jobs.Keys == t.jobs.Keys
    && forall i :: i in s.jobs ==> EraseJob(s.jobs[i]) == EraseJob(t.jobs[i])
  }

  lemma AlikeChain(a: Store, b: Store, c: Store, d: Store)
    requires Alike(a, b) && Alike(b, c) && Alike(d, c)
    ensures Alike(a, d)
  {
  }

  /** A clock that stands still. */
  function Steady(now: int): int -> int {
    (i: int) => now
  }

  // ----- worker ------------------------------------------------------------------

  predicate Accepts(lookup: Lookup, ty: string, p: Payload) {
    lookup(ty).Some? && lookup(ty).value(p)
  }

  function Process(s: Store, lookup: Lookup, e: Envelope, t0: int, t1: int, t2: int): (Store, Outcome) {
    var (s1, won) := Claim(s, e.jobId, t0);
    if !won then (s1, Skipped)
    else
      var (s2, p) := ResolvePayload(s1, e.jobId, e.jobType, t1);
      if p.None? then (Finish(s2, e.jobId, false, t2).0, NoConfig)
      else if lookup(e.jobType).None? then (Finish(s2, e.jobId, false, t2).0, RunFailed)
      else if !lookup(e.jobType).value(p.value) then (Finish(s2, e.jobId, false, t2).0, RunFailed)
      else (Finish(s2, e.jobId, true, t2).0, RunCompleted)
  }

  /** The store after processing the first `n` envelopes in order. */
  function ProcessUpTo(s: Store, lookup: Lookup, es: seq<Envelope>, clk: int -> int, n: nat): Store
    requires n <= |es|
  {
    if n == 0 then s
    else Process(ProcessUpTo(s, lookup, es, clk, n - 1), lookup, es[n - 1],
                 clk(3 * n), clk(3 * n + 1), clk(3 * n + 2)).0
  }

  /** What a run of a claimable job leaves in its row, whichever message triggered it. */
  function Ran(s: Store, lookup: Lookup, i: int): Job
    requires i in s.jobs
  {
    var job := s.jobs[i];
    if job.jobType !in s.config then job.(status := Failed)
    else
      var p := EffectivePayload(s, i);
      job.(payload := p, status := if Accepts(lookup, job.jobType, p) then Completed else Failed)
  }

  /** The store once every claimable job among `ids` has run. */
  function AfterRuns(s: Store, lookup: Lookup, ids: set<int>): Store {
    s.(jobs := map i | i in s.jobs ::
         if i in ids && s.jobs[i].status.Claimable() then Ran(s, lookup, i) else s.jobs[i])
  }

  function JobIds(es: seq<Envelope>): set<int> {
    set k | 0 <= k < |es| :: es[k].jobId
  }

  /** What one call of `process` answers and leaves, branch by branch. A job that is not queued or
      dispatched is skipped. Otherwise its row has ended at `t2`: without a configuration row for the
      job's own type the answer is `no_config` and the run has failed without a payload; with one, the
      stored payload is the overlay, and the answer is `completed` exactly when a handler is
      registered for the type in the message and returns on that payload, and `failed` otherwise. */
  ghost predicate ProcessedAs(s: Store, lookup: Lookup, e: Envelope, t2: int, t: Store, outcome: Outcome) {
    var id := e.jobId;
    if !s.Is(id, Queued) && !s.Is(id, Dispatched) then outcome == Skipped && t == s
    else
      && id in t.jobs && t.jobs[id].updatedAt == t2
      && t == s.(jobs := s.jobs[id := t.jobs[id]])
      && var (was, row) := (s.jobs[id], t.jobs[id]);
      && row == was.(status := row.status, payload := row.payload, updatedAt := t2)
      && if was.jobType !in s.config then outcome == NoConfig && row.status == Failed && row.payload == was.payload
         else
           && KeyByKey(row.payload, s.config[was.jobType].payload, was.inputPayload)
           && if lookup(e.jobType).Some? && lookup(e.jobType).value(row.payload)
              then outcome == RunCompleted && row.status == Completed
              else outcome == RunFailed && row.status == Failed
  }

  /** Every store, every message, genuine or not. */
  lemma ProcessMeans(s: Store, lookup: Lookup, e: Envelope, t0: int, t1: int, t2: int)
    ensures var (t, outcome) := Process(s, lookup, e, t0, t1, t2); ProcessedAs(s, lookup, e, t2, t, outcome)
  {
    var t := Process(s, lookup, e, t0, t1, t2).0;
    if e.jobId in s.jobs {
      assert t.jobs == s.jobs[e.jobId := t.jobs[e.jobId]];
    }
  }

  /** One message: the run happens iff the job is claimable, and nothing else changes. */
  lemma ProcessExact(s: Store, lookup: Lookup, e: Envelope, t0: int, t1: int, t2: int)
    requires Genuine(s, e)
    ensures var (t, outcome) := Process(s, lookup, e, t0, t1, t2);
      && (outcome.Skipped? <==> !s.jobs[e.jobId].status.Claimable())
      && (outcome.Skipped? ==> t == s)
      && (outcome.RunCompleted? <==> t != s && t.Is(e.jobId, Completed))
      && (outcome.NoConfig? || outcome.RunFailed? <==> t != s && t.Is(e.jobId, Failed))
      && (outcome.NoConfig? ==> s.jobs[e.jobId].jobType !in s.config)
      && (outcome.RunFailed? || outcome.RunCompleted? ==> s.jobs[e.jobId].jobType in s.config)
      && (outcome.RunCompleted? <==> !outcome.Skipped? && s.jobs[e.jobId].jobType in s.config
                                     && Accepts(lookup, s.jobs[e.jobId].jobType, t.jobs[e.jobId].payload))
      && t.jobs.Keys == s.jobs.Keys && t.config == s.config
      && t == s.(jobs := t.jobs)
      && (forall i :: i in s.jobs && i != e.jobId ==> t.jobs[i] == s.jobs[i])
      && (s.jobs[e.jobId].status.Claimable() ==>
            EraseJob(t.jobs[e.jobId]) == EraseJob(Ran(s, lookup, e.jobId)))
  {
  }

  lemma RunsCompose(s: Store, lookup: Lookup, t: Store, u: Store, ids: set<int>, id: int)
    requires Alike(t, AfterRuns(s, lookup, ids)) && id in s.jobs && id in t.jobs
    requires u == t.(jobs := u.jobs) && u.jobs.Keys == t.jobs.Keys
    requires forall i :: i in t.jobs && i != id ==> u.jobs[i] == t.jobs[i]
    requires t.jobs[id].status.Claimable() ==> EraseJob(u.jobs[id]) == EraseJob(Ran(t, lookup, id))
    requires !t.jobs[id].status.Claimable() ==> u == t
    ensures Alike(u, AfterRuns(s, lookup, ids + {id}))
  {
    RunsComposeRow(s, lookup, t, u, ids, id);
    var a := AfterRuns(s, lookup, ids);
    forall i | i in u.jobs && i != id
      ensures EraseJob(u.jobs[i]) == EraseJob(AfterRuns(s, lookup, ids + {id}).jobs[i])
    {
      assert EraseJob(t.jobs[i]) == EraseJob(a.jobs[i]);
    }
  }

  lemma RunsComposeRow(s: Store, lookup: Lookup, t: Store, u: Store, ids: set<int>, id: int)
    requires Alike(t, AfterRuns(s, lookup, ids)) && id in s.jobs && id in t.jobs && id in u.jobs
    requires t.jobs[id].status.Claimable() ==> EraseJob(u.jobs[id]) == EraseJob(Ran(t, lookup, id))
    requires !t.jobs[id].status.Claimable() ==> u == t
    ensures EraseJob(u.jobs[id]) == EraseJob(AfterRuns(s, lookup, ids + {id}).jobs[id])
  {
    assert EraseJob(t.jobs[id]) == EraseJob(AfterRuns(s, lookup, ids).jobs[id]);
    RanAlike(s, t, lookup, id);
  }

  /** A run does not depend on `updated_at`. */
  lemma RanAlike(s: Store, t: Store, lookup: Lookup, id: int)
    requires id in s.jobs && id in t.jobs && s.config == t.config
    ensures EraseJob(s.jobs[id]) == EraseJob(t.jobs[id]) ==> EraseJob(Ran(s, lookup, id)) == EraseJob(Ran(t, lookup, id))
  {
  }

  /** One more genuine message, after any number of them. */
  lemma OneMoreRun(s: Store, lookup: Lookup, t: Store, es: seq<Envelope>, n: nat, t0: int, t1: int, t2: int)
    requires n < |es| && Genuine(s, es[n]) && Alike(t, AfterRuns(s, lookup, JobIds(es[..n])))
    ensures Alike(Process(t, lookup, es[n], t0, t1, t2).0, AfterRuns(s, lookup, JobIds(es[..n + 1])))
  {
    var ids, id := JobIds(es[..n]), es[n].jobId;
    assert EraseJob(t.jobs[id]) == EraseJob(AfterRuns(s, lookup, ids).jobs[id]);
    ProcessExact(t, lookup, es[n], t0, t1, t2);
    RunsCompose(s, lookup, t, Process(t, lookup, es[n], t0, t1, t2).0, ids, id);
    JobIdsSnoc(es, n + 1);
  }

  lemma {:induction false} ProcessAllExact(s: Store, lookup: Lookup, es: seq<Envelope>, clk: int -> int, n: nat)
    requires n <= |es|
    requires forall k :: 0 <= k < |es| ==> Genuine(s, es[k])
    ensures Alike(ProcessUpTo(s, lookup, es, clk, n), AfterRuns(s, lookup, JobIds(es[..n])))
    decreases n
  {
    if n == 0 {
      assert AfterRuns(s, lookup, {}) == s;
    } else {
      ProcessAllExact(s, lookup, es, clk, n - 1);
      OneMoreRun(s, lookup, ProcessUpTo(s, lookup, es, clk, n - 1), es, n - 1,
                 clk(3 * n), clk(3 * n + 1), clk(3 * n + 2));
    }
  }

  lemma JobIdsSnoc(es: seq<Envelope>, n: nat)
    requires 0 < n <= |es|
    ensures JobIds(es[..n]) == JobIds(es[..n - 1]) + {es[n - 1].jobId}
  {
  }

  /** Delivery confluence: any two deliveries of the same genuine envelopes, in any order and
      with any duplication, and at any times, leave the same store up to `updated_at`. */
  lemma DeliveryConfluence(s: Store, lookup: Lookup, es: seq<Envelope>, fs: seq<Envelope>,
                           clk: int -> int, clk': int -> int)
    requires forall e :: e in es <==> e in fs
    requires forall e :: e in es ==> Genuine(s, e)
    ensures Alike(ProcessUpTo(s, lookup, es, clk, |es|), ProcessUpTo(s, lookup, fs, clk', |fs|))
  {
    assert forall k :: 0 <= k < |fs| ==> fs[k] in fs;
    ProcessAllExact(s, lookup, es, clk, |es|);
    ProcessAllExact(s, lookup, fs, clk', |fs|);
    assert es[..|es|] == es && fs[..|fs|] == fs;
    assert JobIds(es) == JobIds(fs) by {
      forall k | 0 <= k < |es| ensures es[k].jobId in JobIds(fs) {
        assert es[k] in fs;
      }
      forall k | 0 <= k < |fs| ensures fs[k].jobId in JobIds(es) {
        assert fs[k] in es;
      }
    }
  }

  // ----- dispatcher ----------------------------------------------------------------

  /** The store after the first `n` rows of a batch have been marked. */
  function MarkUpTo(s: Store, rows: seq<OutboxMessage>, clk: int -> int, n: nat): Store
    requires n <= |rows|
  {
    if n == 0 then s
    else MarkDispatched(MarkUpTo(s, rows, clk, n - 1), rows[n - 1].id, rows[n - 1].jobId, clk(n - 1))
  }

  function Unpublished(s: Store): seq<OutboxMessage> {
    UnpublishedBelow(s, s.nextOutbox)
  }

  function Envelopes(rows: seq<OutboxMessage>): seq<Envelope> {
    seq(|rows|, k requires 0 <= k < |rows| => rows[k].payload)
  }

  /** One `dispatch_once`: the new store and the envelopes it published, in order. */
  function Dispatch(s: Store, limit: int, clk: int -> int): (Store, seq<Envelope>) {
    var rows := FetchUnpublished(s, limit);
    (MarkUpTo(s, rows, clk, |rows|), Envelopes(rows))
  }

  function RowIds(rows: seq<OutboxMessage>): set<int> {
    set k | 0 <= k < |rows| :: rows[k].id
  }

  /** The store once the rows `ids` are published and their queued jobs dispatched. */
  function AfterMarks(s: Store, ids: set<int>): Store {
    s.(published := s.published + ids,
       jobs := map i | i in s.jobs ::
         if i in ids && s.jobs[i].status.Queued? then s.jobs[i].(status := Dispatched) else s.jobs[i])
  }

  lemma MarksCompose(s: Store, t: Store, p: set<int>, q: set<int>)
    requires Alike(t, AfterMarks(s, p))
    ensures Alike(AfterMarks(t, q), AfterMarks(s, p + q))
  {
  }

  lemma MarkOneExact(s: Store, i: int, now: int)
    ensures Alike(MarkDispatched(s, i, i, now), AfterMarks(s, {i}))
  {
  }

  lemma {:induction false} MarkAllKeeps(s: Store, rows: seq<OutboxMessage>, clk: int -> int, n: nat)
    requires Consistent(s) && n <= |rows|
    ensures Consistent(MarkUpTo(s, rows, clk, n))
    decreases n
  {
    if n > 0 {
      MarkAllKeeps(s, rows, clk, n - 1);
      MarkKeeps(MarkUpTo(s, rows, clk, n - 1), rows[n - 1].id, rows[n - 1].jobId, clk(n - 1));
    }
  }

  lemma {:induction false} MarkAllExact(s: Store, rows: seq<OutboxMessage>, clk: int -> int, n: nat)
    requires Consistent(s) && n <= |rows| && RowsOk(s, rows)
    ensures Alike(MarkUpTo(s, rows, clk, n), AfterMarks(s, RowIds(rows[..n])))
    decreases n
  {
    if n == 0 {
      assert s.published + RowIds(rows[..0]) == s.published;
    } else {
      MarkAllExact(s, rows, clk, n - 1);
      MarkNext(s, rows, n, MarkUpTo(s, rows, clk, n - 1), clk(n - 1));
    }
  }

  lemma MarkNext(s: Store, rows: seq<OutboxMessage>, n: nat, t: Store, now: int)
    requires Consistent(s) && 0 < n <= |rows| && RowsOk(s, rows)
    requires Alike(t, AfterMarks(s, RowIds(rows[..n - 1])))
    ensures Alike(MarkDispatched(t, rows[n - 1].id, rows[n - 1].jobId, now), AfterMarks(s, RowIds(rows[..n])))
  {
    var row := rows[n - 1];
    assert RowOk(s, row.id);
    MarkOneExact(t, row.id, now);
    MarksCompose(s, t, RowIds(rows[..n - 1]), {row.id});
    RowIdsSnoc(rows, n);
  }

  lemma RowIdsSnoc(rows: seq<OutboxMessage>, n: nat)
    requires 0 < n <= |rows|
    ensures RowIds(rows[..n]) == RowIds(rows[..n - 1]) + {rows[n - 1].id}
  {
  }

  /** Publishing the first `a` unpublished rows leaves exactly the later ones unpublished. */
  lemma {:induction false} UnpublishedAfter(s: Store, t: Store, rows: seq<OutboxMessage>, a: nat, n: int)
    requires a <= |rows| && Ascending(rows)
    requires t.outbox == s.outbox && t.published == s.published + RowIds(rows[..a])
    requires UnpublishedBelow(s, n) <= rows
    requires forall i :: i in s.outbox ==> s.outbox[i].id == i
    ensures var r := UnpublishedBelow(s, n);
      UnpublishedBelow(t, n) == if |r| <= a then [] else r[a..]
    decreases n
  {
    if n > 1 {
      var r := UnpublishedBelow(s, n - 1);
      assert r <= UnpublishedBelow(s, n);
      UnpublishedAfter(s, t, rows, a, n - 1);
      if n - 1 in s.outbox && n - 1 !in s.published {
        assert UnpublishedBelow(s, n) == r + [s.outbox[n - 1]];
        assert rows[|r|] == s.outbox[n - 1];
        PrefixIds(rows, a, |r|);
      }
    }
  }

  ghost predicate Ascending(rows: seq<OutboxMessage>) {
    forall k, l :: 0 <= k < l < |rows| ==> rows[k].id < rows[l].id
  }

  lemma PrefixIds(rows: seq<OutboxMessage>, a: nat, k: nat)
    requires a <= |rows| && k < |rows| && Ascending(rows)
    ensures rows[k].id in RowIds(rows[..a]) <==> k < a
  {
  }

  /** A batch is a prefix of the unpublished rows, each as the outbox has it. */
  lemma BatchIsPrefix(s: Store, limit: nat)
    requires Consistent(s)
    ensures var (batch, rows) := (FetchUnpublished(s, limit), Unpublished(s));
      |batch| <= |rows| && batch == rows[..|batch|] && RowsOk(s, batch) && Ascending(rows)
  {
    UnpublishedExact(s, s.nextOutbox);
  }

  lemma RestUnpublished(s: Store, t: Store, batch: seq<OutboxMessage>)
    requires Consistent(s) && |batch| <= |Unpublished(s)| && batch == Unpublished(s)[..|batch|] && Ascending(Unpublished(s))
    requires t.outbox == s.outbox && t.nextOutbox == s.nextOutbox && t.published == s.published + RowIds(batch)
    ensures batch + Unpublished(t) == Unpublished(s)
  {
    forall i | i in s.outbox
      ensures s.outbox[i].id == i
    {
      assert RowOk(s, i);
    }
    UnpublishedAfter(s, t, Unpublished(s), |batch|, s.nextOutbox);
  }

  /** A batch marks a prefix of the unpublished rows and leaves exactly the rest. */
  lemma DispatchExact(s: Store, limit: nat, clk: int -> int)
    requires Consistent(s)
    ensures Consistent(Dispatch(s, limit, clk).0)
    ensures Alike(Dispatch(s, limit, clk).0, AfterMarks(s, RowIds(FetchUnpublished(s, limit))))
    ensures FetchUnpublished(s, limit) + Unpublished(Dispatch(s, limit, clk).0) == Unpublished(s)
  {
    var batch := FetchUnpublished(s, limit);
    BatchIsPrefix(s, limit);
    MarkAllExact(s, batch, clk, |batch|);
    MarkAllKeeps(s, batch, clk, |batch|);
    assert batch[..|batch|] == batch;
    RestUnpublished(s, MarkUpTo(s, batch, clk, |batch|), batch);
  }

  /** `dispatch_once(a)` then `dispatch_once(b)` is `dispatch_once(a + b)`: the same published
      log, and the same store up to `updated_at`. */
  lemma BatchedDrain(s: Store, a: nat, b: nat, clk: int -> int, clk': int -> int, clk'': int -> int)
    requires Consistent(s)
    ensures var (t, log) := Dispatch(s, a, clk);
      var (u, log') := Dispatch(t, b, clk');
      var (v, log'') := Dispatch(s, a + b, clk'');
      log + log' == log'' && Alike(u, v)
  {
    var p, q := FetchUnpublished(s, a), FetchUnpublished(Dispatch(s, a, clk).0, b);
    BatchesConcat(s, a, b, clk);
    EnvelopesOfConcat(p, q);
    BatchedStore(s, a, b, clk, clk', clk'');
  }

  lemma BatchesConcat(s: Store, a: nat, b: nat, clk: int -> int)
    requires Consistent(s)
    ensures FetchUnpublished(s, a) + FetchUnpublished(Dispatch(s, a, clk).0, b) == FetchUnpublished(s, a + b)
  {
    DispatchExact(s, a, clk);
    FetchSplit(Unpublished(s), Unpublished(Dispatch(s, a, clk).0), a, b);
  }

  lemma BatchedStore(s: Store, a: nat, b: nat, clk: int -> int, clk': int -> int, clk'': int -> int)
    requires Consistent(s)
    ensures Alike(Dispatch(Dispatch(s, a, clk).0, b, clk').0, Dispatch(s, a + b, clk'').0)
  {
    var t := Dispatch(s, a, clk).0;
    var p, q := FetchUnpublished(s, a), FetchUnpublished(t, b);
    BatchesConcat(s, a, b, clk);
    DispatchExact(s, a, clk);
    DispatchExact(t, b, clk');
    DispatchExact(s, a + b, clk'');
    IdsOfConcat(p, q);
    MarksCompose(s, t, RowIds(p), RowIds(q));
    AlikeChain(Dispatch(t, b, clk').0, AfterMarks(t, RowIds(q)), AfterMarks(s, RowIds(p + q)), Dispatch(s, a + b, clk'').0);
  }

  lemma EnvelopesOfConcat(p: seq<OutboxMessage>, q: seq<OutboxMessage>)
    ensures Envelopes(p) + Envelopes(q) == Envelopes(p + q)
  {
  }

  lemma FetchSplit(rows: seq<OutboxMessage>, rest: seq<OutboxMessage>, a: nat, b: nat)
    requires Slice(rows, a) + rest == rows
    ensures Slice(rows, a) + Slice(rest, b) == Slice(rows, a + b)
  {
  }

  lemma IdsOfConcat(p: seq<OutboxMessage>, q: seq<OutboxMessage>)
    ensures RowIds(p + q) == RowIds(p) + RowIds(q)
  {
    forall k | 0 <= k < |p| ensures p[k].id in RowIds(p + q) {
      assert (p + q)[k] == p[k];
    }
    forall k | 0 <= k < |q| ensures q[k].id in RowIds(p + q) {
      assert (p + q)[|p| + k] == q[k];
    }
  }

  // ----- reaper --------------------------------------------------------------------

  datatype ReapStats = ReapStats(requeued: int, deadLettered: int)

  function ReapOne(s: Store, id: int, now: int): Store {
    var (t, ok) := Requeue(s, id, now);
    if ok then t else Finish(s, id, false, now).0
  }

  /** The store after the first `n` stuck entries have been handled. */
  function ReapUpTo(s: Store, stuck: seq<StuckJob>, clk: int -> int, n: nat): Store
    requires n <= |stuck|
  {
    if n == 0 then s else ReapOne(ReapUpTo(s, stuck, clk, n - 1), stuck[n - 1].jobId, clk(n - 1))
  }

  function StatsUpTo(s: Store, stuck: seq<StuckJob>, clk: int -> int, n: nat): ReapStats
    requires n <= |stuck|
  {
    if n == 0 then ReapStats(0, 0)
    else Tally(StatsUpTo(s, stuck, clk, n - 1), ReapUpTo(s, stuck, clk, n - 1), stuck[n - 1].jobId, clk(n - 1))
  }

  /** The counts after one more entry. */
  function Tally(st: ReapStats, s: Store, id: int, now: int): ReapStats {
    if Requeue(s, id, now).1 then st.(requeued := st.requeued + 1)
    else if Finish(s, id, false, now).1 then st.(deadLettered := st.deadLettered + 1)
    else st
  }

  /** `attempts` is below the cap configured for the type, or below 3 without a configuration row. */
  predicate BelowCap(job: Job, config: map<string, TypeConfig>) {
    job.attempts < if job.jobType in config then config[job.jobType].maxAttempts else 3
  }

  /** What a sweep makes of a stuck row: requeued under the cap, failed at it. */
  function Reaped(s: Store, i: int): Job
    requires i in s.jobs
  {
    var job := s.jobs[i];
    if BelowCap(job, s.config)
    then job.(status := Queued, attempts := job.attempts + 1)
    else job.(status := Failed)
  }

  function StuckIds(stuck: seq<StuckJob>): set<int> {
    set k | 0 <= k < |stuck| :: stuck[k].jobId
  }

  function UnderCap(s: Store, ids: set<int>): set<int> {
    set i | i in ids && i in s.jobs && BelowCap(s.jobs[i], s.config)
  }

  /** The store once every job among `ids` has been reaped. */
  function AfterReaps(s: Store, ids: set<int>): Store {
    s.(published := s.published - UnderCap(s, ids),
       jobs := map i | i in s.jobs :: if i in ids then Reaped(s, i) else s.jobs[i])
  }

  ghost predicate Distinct(stuck: seq<StuckJob>) {
    forall k, l :: 0 <= k < l < |stuck| ==> stuck[k].jobId < stuck[l].jobId
  }

  ghost predicate AllRunning(s: Store, stuck: seq<StuckJob>) {
    forall k :: 0 <= k < |stuck| ==> s.Is(stuck[k].jobId, Running)
  }

  lemma ReapOneExact(s: Store, id: int, now: int)
    requires Consistent(s) && s.Is(id, Running)
    ensures var t := ReapOne(s, id, now);
      && Consistent(t) && t.jobs.Keys == s.jobs.Keys
      && t == s.(jobs := t.jobs, published := s.published - UnderCap(s, {id}))
      && EraseJob(t.jobs[id]) == EraseJob(Reaped(s, id))
      && forall i :: i in s.jobs && i != id ==> t.jobs[i] == s.jobs[i]
  {
    RequeueKeeps(s, id, now);
    FinishKeeps(s, id, false, now);
    RowsOfJob(s, id);
    if CanRequeue(s, id) {
      assert UnderCap(s, {id}) == {id};
    } else {
      assert UnderCap(s, {id}) == {};
    }
  }

  lemma {:induction false} ReapAllKeeps(s: Store, stuck: seq<StuckJob>, clk: int -> int, n: nat)
    requires Consistent(s) && n <= |stuck|
    ensures Consistent(ReapUpTo(s, stuck, clk, n))
    decreases n
  {
    if n > 0 {
      ReapAllKeeps(s, stuck, clk, n - 1);
      RequeueKeeps(ReapUpTo(s, stuck, clk, n - 1), stuck[n - 1].jobId, clk(n - 1));
      FinishKeeps(ReapUpTo(s, stuck, clk, n - 1), stuck[n - 1].jobId, false, clk(n - 1));
    }
  }

  /** Handling one entry touches only its own job. */
  lemma ReapOneTouches(s: Store, id: int, now: int, i: int)
    requires i in s.jobs && i != id
    ensures i in ReapOne(s, id, now).jobs && ReapOne(s, id, now).jobs[i] == s.jobs[i]
  {
  }

  /** An entry that is still to be handled has its row as it was. */
  lemma {:induction false} NotYetReaped(s: Store, stuck: seq<StuckJob>, clk: int -> int, n: nat, k: nat)
    requires n <= k < |stuck| && Distinct(stuck) && stuck[k].jobId in s.jobs
    ensures var t := ReapUpTo(s, stuck, clk, n);
      stuck[k].jobId in t.jobs && t.jobs[stuck[k].jobId] == s.jobs[stuck[k].jobId]
    decreases n
  {
    if n > 0 {
      NotYetReaped(s, stuck, clk, n - 1, k);
      ReapOneTouches(ReapUpTo(s, stuck, clk, n - 1), stuck[n - 1].jobId, clk(n - 1), stuck[k].jobId);
    }
  }

  /** The first `n` entries, handled one after the other, reap that set of jobs. */
  lemma {:induction false} ReapAllExact(s: Store, stuck: seq<StuckJob>, clk: int -> int, n: nat)
    requires Consistent(s) && n <= |stuck| && Distinct(stuck) && AllRunning(s, stuck)
    ensures Alike(ReapUpTo(s, stuck, clk, n), AfterReaps(s, StuckIds(stuck[..n])))
    decreases n
  {
    if n == 0 {
      ReapNone(s, stuck, n);
    } else {
      ReapAllExact(s, stuck, clk, n - 1);
      ReapStep(s, stuck, clk, n);
    }
  }

  lemma ReapStep(s: Store, stuck: seq<StuckJob>, clk: int -> int, n: nat)
    requires Consistent(s) && 0 < n <= |stuck| && Distinct(stuck) && AllRunning(s, stuck)
    ensures Alike(ReapUpTo(s, stuck, clk, n - 1), AfterReaps(s, StuckIds(stuck[..n - 1])))
        ==> Alike(ReapUpTo(s, stuck, clk, n), AfterReaps(s, StuckIds(stuck[..n])))
  {
    ReapAllKeeps(s, stuck, clk, n - 1);
    NotYetReaped(s, stuck, clk, n - 1, n - 1);
    ReapNth(s, stuck, n, ReapUpTo(s, stuck, clk, n - 1), ReapUpTo(s, stuck, clk, n), clk(n - 1));
  }

  lemma ReapNth(s: Store, stuck: seq<StuckJob>, n: nat, t: Store, u: Store, now: int)
    requires 0 < n <= |stuck| && Distinct(stuck) && AllRunning(s, stuck) && stuck[n - 1].jobId in t.jobs
    requires u == ReapOne(t, stuck[n - 1].jobId, now)
    ensures Consistent(t) && t.jobs[stuck[n - 1].jobId] == s.jobs[stuck[n - 1].jobId]
         && Alike(t, AfterReaps(s, StuckIds(stuck[..n - 1])))
        ==> Alike(u, AfterReaps(s, StuckIds(stuck[..n])))
  {
    var id := stuck[n - 1].jobId;
    StuckIdsSnoc(stuck, n);
    if Consistent(t) && t.jobs[id] == s.jobs[id] && Alike(t, AfterReaps(s, StuckIds(stuck[..n - 1]))) {
      ReapNext(s, t, StuckIds(stuck[..n - 1]), id, now);
    }
  }

  lemma ReapNone(s: Store, stuck: seq<StuckJob>, n: nat)
    requires n == 0
    ensures Alike(s, AfterReaps(s, StuckIds(stuck[..n])))
  {
    assert StuckIds(stuck[..n]) == {} && UnderCap(s, {}) == {};
    assert AfterReaps(s, {}) == s;
  }

  lemma ReapNext(s: Store, t: Store, before: set<int>, id: int, now: int)
    requires Consistent(t) && id in s.jobs && t.Is(id, Running) && t.jobs[id] == s.jobs[id] && id !in before
    requires Alike(t, AfterReaps(s, before))
    ensures Alike(ReapOne(t, id, now), AfterReaps(s, before + {id}))
  {
    ReapOneExact(t, id, now);
    CapSplit(s, t, before, id);
    ReapsCompose(s, t, ReapOne(t, id, now), before, id);
  }

  /** The counts: how many of the first `n` entries were under their cap, and how many at it. */
  lemma {:induction false} StatsExact(s: Store, stuck: seq<StuckJob>, clk: int -> int, n: nat)
    requires Consistent(s) && n <= |stuck| && Distinct(stuck) && AllRunning(s, stuck)
    ensures var st := StatsUpTo(s, stuck, clk, n);
      st.requeued == |UnderCap(s, StuckIds(stuck[..n]))| && st.requeued + st.deadLettered == n
    decreases n
  {
    if n == 0 {
      assert StuckIds(stuck[..0]) == {} && UnderCap(s, {}) == {};
    } else {
      StatsExact(s, stuck, clk, n - 1);
      NotYetReaped(s, stuck, clk, n - 1, n - 1);
      ReapAllExact(s, stuck, clk, n - 1);
      StuckIdsSnoc(stuck, n);
      CapSplit(s, ReapUpTo(s, stuck, clk, n - 1), StuckIds(stuck[..n - 1]), stuck[n - 1].jobId);
    }
  }

  lemma StuckIdsSnoc(stuck: seq<StuckJob>, n: nat)
    requires 0 < n <= |stuck|
    ensures StuckIds(stuck[..n]) == StuckIds(stuck[..n - 1]) + {stuck[n - 1].jobId}
    ensures Distinct(stuck) ==> stuck[n - 1].jobId !in StuckIds(stuck[..n - 1])
  {
  }

  lemma CapSplit(s: Store, t: Store, before: set<int>, id: int)
    requires id !in before && id in s.jobs && id in t.jobs && t.jobs[id] == s.jobs[id] && t.config == s.config
    ensures UnderCap(s, before + {id}) == UnderCap(s, before) + UnderCap(t, {id})
    ensures |UnderCap(s, before + {id})| == |UnderCap(s, before)| + if BelowCap(s.jobs[id], s.config) then 1 else 0
  {
    if BelowCap(s.jobs[id], s.config) {
      assert UnderCap(s, before + {id}) == UnderCap(s, before) + {id};
      assert UnderCap(t, {id}) == {id};
    } else {
      assert UnderCap(s, before + {id}) == UnderCap(s, before);
      assert UnderCap(t, {id}) == {};
    }
  }

  lemma ReapsCompose(s: Store, t: Store, u: Store, before: set<int>, id: int)
    requires Alike(t, AfterReaps(s, before))
    requires id !in before && id in s.jobs && id in t.jobs && t.jobs[id] == s.jobs[id]
    requires u.jobs.Keys == t.jobs.Keys
    requires u == t.(jobs := u.jobs, published := t.published - UnderCap(t, {id}))
    requires EraseJob(u.jobs[id]) == EraseJob(Reaped(t, id))
    requires forall i :: i in t.jobs && i != id ==> u.jobs[i] == t.jobs[i]
    requires UnderCap(s, before + {id}) == UnderCap(s, before) + UnderCap(t, {id})
    ensures Alike(u, AfterReaps(s, before + {id}))
  {
  }

  /** The jobs that have been running for more than their type's timeout, 900 seconds by default. */
  ghost function AllStuck(s: Store, now: int): set<int> {
    set i | i in s.jobs && s.jobs[i].status == Running
            && now - s.jobs[i].updatedAt >
               (if s.jobs[i].jobType in s.config then s.config[s.jobs[i].jobType].runTimeout else 900)
  }

  /** `find_stuck` lists exactly the stuck jobs. */
  lemma StuckListed(s: Store, now: int)
    requires Consistent(s)
    ensures var stuck := FindStuck(s, now);
      Distinct(stuck) && AllRunning(s, stuck) && StuckIds(stuck) == AllStuck(s, now) && |stuck| == |AllStuck(s, now)|
  {
    var stuck := FindStuck(s, now);
    StuckExact(s, now, s.nextJob);
    assert stuck == StuckBelow(s, now, s.nextJob);
    forall i | i in AllStuck(s, now) ensures i in StuckIds(stuck) {
      var e := StuckJob(i, s.jobs[i].jobType, s.jobs[i].attempts);
      assert StuckEntry(s, e, now) && e in stuck;
      var k :| 0 <= k < |stuck| && stuck[k] == e;
      assert stuck[k].jobId == i;
    }
    assert StuckIds(stuck) == AllStuck(s, now);
    DistinctCount(stuck);
  }

  /** Sweep exactness: a `reap_once` run alone requeues exactly the stuck jobs under their cap
      (attempts + 1, outbox row unpublished), fails exactly those at the cap, leaves every other
      job and row untouched, and returns the matching counts. */
  lemma SweepExact(s: Store, now: int, clk: int -> int)
    requires Consistent(s)
    ensures var stuck := FindStuck(s, now);
      var all := AllStuck(s, now);
      && Consistent(ReapUpTo(s, stuck, clk, |stuck|))
      && Alike(ReapUpTo(s, stuck, clk, |stuck|), AfterReaps(s, all))
      && StatsUpTo(s, stuck, clk, |stuck|) == ReapStats(|UnderCap(s, all)|, |all| - |UnderCap(s, all)|)
  {
    var stuck := FindStuck(s, now);
    StuckListed(s, now);
    ReapAllExact(s, stuck, clk, |stuck|);
    ReapAllKeeps(s, stuck, clk, |stuck|);
    StatsExact(s, stuck, clk, |stuck|);
    assert stuck[..|stuck|] == stuck;
  }

  /** A sweep leaves nothing stuck at its own clock value. */
  lemma SweepClears(s: Store, now: int, clk: int -> int)
    requires Consistent(s)
    ensures var stuck := FindStuck(s, now); FindStuck(ReapUpTo(s, stuck, clk, |stuck|), now) == []
  {
    var stuck := FindStuck(s, now);
    var t := ReapUpTo(s, stuck, clk, |stuck|);
    SweepExact(s, now, clk);
    StuckListed(s, now);
    StuckListed(t, now);
    UntouchedRows(s, stuck, clk, |stuck|);
    forall i | i in t.jobs
      ensures !Stuck(t, i, now)
    {
      RowCleared(s, t, i, now);
    }
    assert AllStuck(t, now) == {};
  }

  lemma RowCleared(s: Store, t: Store, i: int, now: int)
    requires i in t.jobs && Alike(t, AfterReaps(s, AllStuck(s, now)))
    requires i !in AllStuck(s, now) ==> t.jobs[i] == s.jobs[i]
    ensures !Stuck(t, i, now)
  {
  }

  /** Rows outside the sweep's list keep even their `updated_at`. */
  lemma {:induction false} UntouchedRows(s: Store, stuck: seq<StuckJob>, clk: int -> int, n: nat)
    requires Consistent(s) && n <= |stuck|
    ensures var t := ReapUpTo(s, stuck, clk, n);
      && t.jobs.Keys == s.jobs.Keys && t.config == s.config && t.nextJob == s.nextJob
      && forall i :: i in s.jobs && i !in StuckIds(stuck) ==> t.jobs[i] == s.jobs[i]
    decreases n
  {
    if n > 0 {
      UntouchedRows(s, stuck, clk, n - 1);
      assert stuck[n - 1].jobId in StuckIds(stuck);
    }
  }

  lemma {:induction false} DistinctCount(stuck: seq<StuckJob>)
    requires Distinct(stuck)
    ensures |StuckIds(stuck)| == |stuck|
  {
    if stuck == [] {
      assert StuckIds(stuck) == {};
    } else {
      var init, last := stuck[..|stuck| - 1], stuck[|stuck| - 1];
      DistinctCount(init);
      assert stuck == init + [last];
      assert StuckIds(stuck) == StuckIds(init) + {last.jobId};
      assert last.jobId !in StuckIds(init);
    }
  }
}
