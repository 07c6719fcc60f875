/** Durable history, dedup, claim accounting and bounded re-execution, over every run of the
    system. */
module Claims {
  import opened Models
  import opened StoreSpec
  import opened Effects
  import opened Protocol

  // ----- durable history -----------------------------------------------------------

  /** From any point of any run to any later point, the store only moves along its durable
      history: no row is removed or renamed, `attempts` never falls, a terminal row is frozen. */
  lemma {:induction false} DurableHistory(config: map<string, TypeConfig>, t0: int, acts: seq<Action>, n: nat)
    requires n <= |acts|
    ensures Evolves(Exec(Init(config, t0), acts[..n]).store, Exec(Init(config, t0), acts).store)
    decreases |acts|
  {
    var s0 := Init(config, t0);
    if n == |acts| {
      assert acts[..n] == acts;
    } else {
      var init, last := acts[..|acts| - 1], acts[|acts| - 1];
      DurableHistory(config, t0, init, n);
      assert init[..n] == acts[..n];
      BaseAlways(config, t0, init);
      StoreEvolves(Exec(s0, init), last);
      EvolvesTransitive(Exec(s0, acts[..n]).store, Exec(s0, init).store, Exec(s0, acts).store);
    }
  }

  /** In every reachable state: one active job per type, `attempts` within the cap, and one
      outbox row per job, carrying exactly that job's envelope. */
  lemma ReachableStores(config: map<string, TypeConfig>, t0: int, acts: seq<Action>)
    ensures var s := Exec(Init(config, t0), acts).store;
      && s.config == config
      && (forall i, j :: BothActive(s, i, j) ==> i == j)
      && (forall i :: i in s.jobs ==> WithinCap(s.jobs[i], config))
      && (forall i :: i in s.jobs ==> RowsOf(s, i) == {i} && s.outbox[i].payload == Envelope(i, s.jobs[i].jobType))
      && s.outbox.Keys == s.jobs.Keys
  {
    BaseAlways(config, t0, acts);
    DurableHistory(config, t0, acts, 0);
    assert acts[..0] == [];
    ConsistentMeans(Exec(Init(config, t0), acts).store);
  }

  /** Dedup: in every reachable state, `enqueue` is refused exactly when an active job of that type
      exists, and then changes nothing. Otherwise it hands out an id larger than any before, adds one
      row to each table, unpublished, alters no other row, and the new job is the only active one of
      its type. The new row carries the caller's type, input and creator, with an empty input where
      none was given, and the time of the call. */
  lemma Dedup(config: map<string, TypeConfig>, t0: int, acts: seq<Action>,
              ty: string, input: Option<Payload>, creator: Option<Creator>)
    ensures var s := Exec(Init(config, t0), acts);
      var (t, r) := Enqueue(s.store, ty, input, creator, s.clock);
      && (r.None? <==> exists i :: i in s.store.jobs && s.store.jobs[i].jobType == ty
                                   && s.store.jobs[i].status in {Queued, Dispatched, Running})
      && (r.None? ==> t == s.store)
      && (r.Some? ==>
            && t.Is(r.value, Queued) && r.value !in t.published
            && (forall i :: i in s.store.jobs ==> i < r.value && t.jobs[i] == s.store.jobs[i])
            && t.jobs.Keys == s.store.jobs.Keys + {r.value} && t.outbox.Keys == s.store.outbox.Keys + {r.value}
            && (forall i :: i in t.jobs && t.jobs[i].jobType == ty && t.jobs[i].status.Active() ==> i == r.value)
            && NewRow(t.jobs[r.value], r.value, ty, input, creator, s.clock)
            && t.outbox[r.value] == OutboxMessage(r.value, r.value, Envelope(r.value, ty)))
  {
    BaseAlways(config, t0, acts);
  }

  /** Every message ever on the topic is the envelope of an existing job with its true type. */
  lemma GenuineMessages(config: map<string, TypeConfig>, t0: int, acts: seq<Action>, k: int)
    requires 0 <= k < |Exec(Init(config, t0), acts).topic|
    ensures var s := Exec(Init(config, t0), acts);
      s.topic[k].env.jobId in s.store.jobs && s.topic[k].env.jobType == s.store.jobs[s.topic[k].env.jobId].jobType
  {
    BaseAlways(config, t0, acts);
    assert Genuine(Exec(Init(config, t0), acts).store, Exec(Init(config, t0), acts).topic[k].env);
  }

  // ----- bounded status changes ------------------------------------------------------

  /** How often the status of job `j` changed along the run. */
  ghost function StatusChanges(s: System, acts: seq<Action>, j: int): nat
    decreases |acts|
  {
    if acts == [] then 0
    else
      var p, q := Exec(s, acts[..|acts| - 1]).store, Exec(s, acts).store;
      StatusChanges(s, acts[..|acts| - 1], j) +
      if j in p.jobs && j in q.jobs && p.jobs[j].status != q.jobs[j].status then 1 else 0
  }

  lemma {:induction false} ChangesAndMeasure(config: map<string, TypeConfig>, t0: int, acts: seq<Action>, j: int)
    ensures var s := Exec(Init(config, t0), acts).store;
      if j in s.jobs
      then 0 <= Measure(s, j) && StatusChanges(Init(config, t0), acts, j) + Measure(s, j) <= 3 * (s.Cap(s.jobs[j].jobType) + 1)
      else StatusChanges(Init(config, t0), acts, j) == 0
    decreases |acts|
  {
    if acts != [] {
      var init, last := acts[..|acts| - 1], acts[|acts| - 1];
      var p, q := Exec(Init(config, t0), init), Exec(Init(config, t0), acts);
      ChangesAndMeasure(config, t0, init, j);
      BaseAlways(config, t0, init);
      BaseAlways(config, t0, acts);
      StoreStep(p, last);
      StoreEvolves(p, last);
      if j in p.store.jobs {
        MeasureStep(p.store, OpOf(p, last), p.clock, j);
      } else if j in q.store.jobs {
        NewRowIsQueued(p.store, OpOf(p, last), p.clock, j);
      }
      if j in q.store.jobs {
        assert JobOk(q.store, j);
      }
    }
  }

  lemma NewRowIsQueued(s: Store, op: Op, now: int, j: int)
    requires j !in s.jobs && j in ApplyOp(s, op, now).jobs
    ensures ApplyOp(s, op, now).Is(j, Queued) && ApplyOp(s, op, now).jobs[j].attempts == 0
  {
  }

  /** In any run a job makes at most 3 * (max(0, max_attempts) + 1) status changes; for a type without
      a configuration row `max_attempts` is 3, which makes twelve. */
  lemma BoundedStatusChanges(config: map<string, TypeConfig>, t0: int, acts: seq<Action>, j: int)
    requires j in Exec(Init(config, t0), acts).store.jobs
    ensures var s := Exec(Init(config, t0), acts).store;
      var ty := s.jobs[j].jobType;
      StatusChanges(Init(config, t0), acts, j) <=
        3 * (Max(0, if ty in config then config[ty].maxAttempts else 3) + 1)
  {
    ChangesAndMeasure(config, t0, acts, j);
    ReachableStores(config, t0, acts);
  }

  // ----- tickets ---------------------------------------------------------------------

  function Count(ts: seq<Ticket>, j: int): nat {
    if ts == [] then 0
    else Count(ts[..|ts| - 1], j) + if ts[|ts| - 1].job == j then 1 else 0
  }

  ghost predicate NoDup(ts: seq<Ticket>) {
    forall i, k :: 0 <= i < k < |ts| ==> ts[i] != ts[k]
  }

  /** The run this ticket names has been started. */
  predicate Issued(s: Store, t: Ticket) {
    t.job in s.jobs && 0 <= t.attempt < Runs(s.jobs[t.job])
  }

  /** The action is a claim that succeeds. */
  predicate Won(s: System, a: Action) {
    OpOf(s, a).OpClaim? && OpOf(s, a).id in s.store.jobs && s.store.jobs[OpOf(s, a).id].status.Claimable()
  }

  lemma ClaimsStep(s: System, a: Action)
    ensures Apply(s, a).history.claims ==
      s.history.claims + if Won(s, a) then [CurrentRun(s.store, OpOf(s, a).id)] else []
  {
  }

  lemma EntriesStep(s: System, a: Action)
    ensures Apply(s, a).history.entries ==
      s.history.entries + if a.Enter? && a.found && s.W(a.w).Resolved? then [s.W(a.w).t] else []
  {
  }

  /** A worker keeps its ticket until it lets go, and gains one only by winning a claim. */
  lemma TicketMoves(s: System, a: Action, w: int)
    ensures var x, y := s.W(w), Apply(s, a).W(w);
      && (y.Holds() ==>
            || (x.Holds() && y.t == x.t)
            || (Won(s, a) && a == TryClaim(w) && y.Claimed? && y.t == CurrentRun(s.store, OpOf(s, a).id)))
      && (y.Claimed? || y.Resolved? ==> x.Claimed? || (Won(s, a) && a == TryClaim(w)) || (x.Resolved? && y == x))
  {
    if OfWorker(a, w) {
      OwnTicketMoves(s, a, w);
    } else {
      WorkerSame(s, a, w);
    }
  }

  lemma OwnTicketMoves(s: System, a: Action, w: int)
    requires OfWorker(a, w)
    ensures var x, y := s.W(w), Apply(s, a).W(w);
      && (y.Holds() ==>
            || (x.Holds() && y.t == x.t)
            || (Won(s, a) && a == TryClaim(w) && y.Claimed? && y.t == CurrentRun(s.store, OpOf(s, a).id)))
      && (y.Claimed? || y.Resolved? ==> x.Claimed? || (Won(s, a) && a == TryClaim(w)) || (x.Resolved? && y == x))
  {
  }

  /** Started runs stay started; a won claim starts exactly the run it names. */
  lemma IssuedStep(s: System, a: Action)
    requires Consistent(s.store)
    ensures forall t :: Issued(s.store, t) ==> Issued(Apply(s, a).store, t)
    ensures Won(s, a) ==>
      var t := CurrentRun(s.store, OpOf(s, a).id); !Issued(s.store, t) && Issued(Apply(s, a).store, t)
  {
    StoreStep(s, a);
    forall t | Issued(s.store, t)
      ensures Issued(Apply(s, a).store, t)
    {
      RunsStep(s.store, OpOf(s, a), s.clock, t.job);
    }
    if Won(s, a) {
      assert JobOk(s.store, OpOf(s, a).id);
      RunsStep(s.store, OpOf(s, a), s.clock, OpOf(s, a).id);
    }
  }

  ghost predicate ClaimsOk(s: System) {
    && (forall i :: 0 <= i < |s.history.claims| ==> Issued(s.store, s.history.claims[i]))
    && NoDup(s.history.claims)
    && (forall j :: Count(s.history.claims, j) == Started(s.store, j))
  }

  ghost predicate TicketsOk(s: System) {
    && (forall w :: s.W(w).Holds() ==> Issued(s.store, s.W(w).t))
    && (forall v, w :: v != w && s.W(v).Holds() && s.W(w).Holds() ==> s.W(v).t != s.W(w).t)
  }

  ghost predicate EntriesOk(s: System) {
    && (forall i :: 0 <= i < |s.history.entries| ==> Issued(s.store, s.history.entries[i]))
    && NoDup(s.history.entries)
    && (forall w :: s.W(w).Claimed? || s.W(w).Resolved? ==> s.W(w).t !in s.history.entries)
  }

  lemma CountSnoc(ts: seq<Ticket>, t: Ticket, j: int)
    ensures Count(ts + [t], j) == Count(ts, j) + if t.job == j then 1 else 0
  {
  }

  lemma ClaimCountStep(s: System, a: Action, j: int)
    requires Consistent(s.store)
    requires Count(s.history.claims, j) == Started(s.store, j)
    ensures var s' := Apply(s, a);
      Count(s'.history.claims, j) == Started(s'.store, j)
  {
    ClaimsStep(s, a);
    StoreStep(s, a);
    if Won(s, a) {
      CountSnoc(s.history.claims, CurrentRun(s.store, OpOf(s, a).id), j);
    }
    StartedStep(s.store, OpOf(s, a), s.clock, j);
  }

  /** The started runs of `j`; none when there is no such job. */
  function Started(s: Store, j: int): int {
    if j in s.jobs then Runs(s.jobs[j]) else 0
  }

  lemma StartedStep(s: Store, op: Op, now: int, j: int)
    requires Consistent(s)
    ensures Started(ApplyOp(s, op, now), j) ==
      Started(s, j) + if op == OpClaim(j) && j in s.jobs && s.jobs[j].status.Claimable() then 1 else 0
  {
    if j in s.jobs {
      RunsStep(s, op, now, j);
    } else if j in ApplyOp(s, op, now).jobs {
      NewRowIsQueued(s, op, now, j);
    }
  }

  lemma ClaimsOkStep(s: System, a: Action)
    requires Consistent(s.store) && ClaimsOk(s)
    ensures ClaimsOk(Apply(s, a))
  {
    ClaimsStep(s, a);
    IssuedStep(s, a);
    forall j
      ensures Count(Apply(s, a).history.claims, j) ==
        Started(Apply(s, a).store, j)
    {
      ClaimCountStep(s, a, j);
    }
  }

  lemma TicketsOkStep(s: System, a: Action)
    requires Consistent(s.store) && TicketsOk(s)
    ensures TicketsOk(Apply(s, a))
  {
    var s' := Apply(s, a);
    IssuedStep(s, a);
    forall w | s'.W(w).Holds()
      ensures Issued(s'.store, s'.W(w).t)
    {
      TicketMoves(s, a, w);
    }
    forall v, w | v != w && s'.W(v).Holds() && s'.W(w).Holds()
      ensures s'.W(v).t != s'.W(w).t
    {
      TicketMoves(s, a, v);
      TicketMoves(s, a, w);
    }
  }

  lemma EntriesOkStep(s: System, a: Action)
    requires Consistent(s.store) && TicketsOk(s) && EntriesOk(s)
    ensures EntriesOk(Apply(s, a))
  {
    var s' := Apply(s, a);
    EntriesStep(s, a);
    IssuedStep(s, a);
    forall w | s'.W(w).Claimed? || s'.W(w).Resolved?
      ensures s'.W(w).t !in s'.history.entries
    {
      NotEntered(s, a, w);
    }
  }

  /** A worker that has still to enter its handler holds a run that no worker has entered. */
  lemma NotEntered(s: System, a: Action, w: int)
    requires Consistent(s.store) && TicketsOk(s) && EntriesOk(s) && (Apply(s, a).W(w).Claimed? || Apply(s, a).W(w).Resolved?)
    ensures Apply(s, a).W(w).t !in Apply(s, a).history.entries
  {
    EntriesStep(s, a);
    IssuedStep(s, a);
    TicketMoves(s, a, w);
  }

  lemma {:induction false} TicketsAlways(config: map<string, TypeConfig>, t0: int, acts: seq<Action>)
    ensures var s := Exec(Init(config, t0), acts); Base(s) && ClaimsOk(s) && TicketsOk(s) && EntriesOk(s)
    decreases |acts|
  {
    if acts != [] {
      var init, last := acts[..|acts| - 1], acts[|acts| - 1];
      TicketsAlways(config, t0, init);
      var s := Exec(Init(config, t0), init);
      BaseStep(s, last);
      ClaimsOkStep(s, last);
      TicketsOkStep(s, last);
      EntriesOkStep(s, last);
    }
  }

  /** Exact claim accounting: in every run, the successful claims of a job number its `attempts`,
      plus one if it is running or terminal; and no two claims ever win the same run. */
  lemma ExactClaimAccounting(config: map<string, TypeConfig>, t0: int, acts: seq<Action>, j: int)
    ensures var s := Exec(Init(config, t0), acts);
      && NoDup(s.history.claims)
      && (j in s.store.jobs ==>
            var job := s.store.jobs[j];
            Count(s.history.claims, j) == job.attempts + if job.status.Running? || job.status.Terminal() then 1 else 0)
      && (j !in s.store.jobs ==> Count(s.history.claims, j) == 0)
  {
    TicketsAlways(config, t0, acts);
  }

  lemma {:induction false} CountConcat(a: seq<Ticket>, b: seq<Ticket>, j: int)
    ensures Count(a + b, j) == Count(a, j) + Count(b, j)
    decreases |b|
  {
    if b == [] {
      assert a + b == a;
    } else {
      CountConcat(a, b[..|b| - 1], j);
      assert a + b == (a + b[..|b| - 1]) + [b[|b| - 1]];
      CountSnoc(a + b[..|b| - 1], b[|b| - 1], j);
    }
  }

  lemma {:induction false} CountNone(ts: seq<Ticket>, j: int)
    requires forall i :: 0 <= i < |ts| ==> ts[i].job != j
    ensures Count(ts, j) == 0
  {
    if ts != [] {
      CountNone(ts[..|ts| - 1], j);
    }
  }

  /** Pigeonhole: distinct tickets of one job with attempts below `n` number at most `n`. */
  lemma {:induction false} CountBound(ts: seq<Ticket>, j: int, n: nat)
    requires NoDup(ts)
    requires forall i :: 0 <= i < |ts| && ts[i].job == j ==> 0 <= ts[i].attempt < n
    ensures Count(ts, j) <= n
    decreases n
  {
    if n == 0 {
      CountNone(ts, j);
    } else if p :| 0 <= p < |ts| && ts[p] == Ticket(j, n - 1) {
      var rest := ts[..p] + ts[p + 1..];
      CountBound(rest, j, n - 1);
      CountConcat(ts[..p], ts[p + 1..], j);
      CountConcat(ts[..p + 1], ts[p + 1..], j);
      CountSnoc(ts[..p], ts[p], j);
      assert ts == ts[..p + 1] + ts[p + 1..] && ts[..p + 1] == ts[..p] + [ts[p]];
    } else {
      CountBound(ts, j, n - 1);
    }
  }

  /** Bounded re-runs: whatever Kafka duplicates or reorders, a job's handler is entered at most
      once per claim, and claimed at most max(0, max_attempts) + 1 times, where `max_attempts` is the
      one configured for the job's type, or 3 for a type without a configuration row. */
  lemma BoundedInvocations(config: map<string, TypeConfig>, t0: int, acts: seq<Action>, j: int)
    requires j in Exec(Init(config, t0), acts).store.jobs
    ensures var s := Exec(Init(config, t0), acts);
      && NoDup(s.history.entries)
      && Count(s.history.entries, j) <= Count(s.history.claims, j)
      && var ty := s.store.jobs[j].jobType;
      Count(s.history.claims, j) <= Max(0, if ty in config then config[ty].maxAttempts else 3) + 1
  {
    TicketsAlways(config, t0, acts);
    ReachableStores(config, t0, acts);
    var s := Exec(Init(config, t0), acts);
    assert JobOk(s.store, j);
    CountBound(s.history.entries, j, Runs(s.store.jobs[j]));
  }
}
