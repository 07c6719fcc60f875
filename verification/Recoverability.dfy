/** Recoverability, exactly: a reachable state can be driven to one in which every job is terminal,
    whatever the handlers do, if and only if no job is stranded. The continuation never goes behind a
    committed offset and makes no hazardous requeue: a spare dispatcher drains the outbox, the other
    dispatchers work off what they hold, the reaper finishes and sweeps once more after the longest
    timeout, the outbox is drained again, and every message that may still be delivered is processed. */
module Recoverability {
  import opened Models
  import opened StoreSpec
  import opened Sequential
  import opened Protocol
  import opened Embedding
  import opened Spare
  import opened NoLostJob
  import opened Stranding

  // ----- lawful continuations ----------------------------------------------------------------

  /** Handlers behave as the lookup says: found iff registered, succeeding iff the payload is accepted. */
  predicate Heeds(s: System, a: Action, lookup: Lookup) {
    && (a.Enter? && s.W(a.w).Resolved? && 0 <= s.W(a.w).k < |s.topic| ==>
          a.found == lookup(s.topic[s.W(a.w).k].env.jobType).Some?)
    && (a.Leave? && s.W(a.w).InHandler? && 0 <= s.W(a.w).k < |s.topic| ==>
          a.ok == Accepts(lookup, s.topic[s.W(a.w).k].env.jobType, s.W(a.w).payload))
  }

  /** The action heeds the lookup, polls no committed message and requeues nothing hazardously. */
  ghost predicate Lawful(s: System, a: Action, lookup: Lookup) {
    Heeds(s, a, lookup) && NoRewind(s, a) && forall j :: !Hazard(s, a, j)
  }

  ghost predicate AllLawful(s: System, acts: seq<Action>, lookup: Lookup) {
    forall i :: 0 <= i < |acts| ==> Lawful(Exec(s, acts[..i]), acts[i], lookup)
  }

  lemma LawfulConcat(s: System, a: seq<Action>, b: seq<Action>, lookup: Lookup)
    requires AllLawful(s, a, lookup) && AllLawful(Exec(s, a), b, lookup)
    ensures AllLawful(s, a + b, lookup) && Exec(s, a + b) == Exec(Exec(s, a), b)
  {
    ExecConcat(s, a, b);
    forall i | 0 <= i < |a + b|
      ensures Lawful(Exec(s, (a + b)[..i]), (a + b)[i], lookup)
    {
      ConcatPrefix(s, a, b, i);
    }
  }

  lemma LawfulOne(s: System, a: Action, lookup: Lookup)
    requires Lawful(s, a, lookup)
    ensures AllLawful(s, [a], lookup) && Exec(s, [a]) == Apply(s, a)
  {
    ExecSnoc(s, [], a);
    assert [a][..0] == [];
  }

  predicate Plain(a: Action) {
    !a.Enter? && !a.Leave? && !a.Poll? && !a.TryRequeue?
  }

  /** Only handlers, polls and requeues can be unlawful. */
  lemma PlainLawful(s: System, acts: seq<Action>, lookup: Lookup)
    requires forall i :: 0 <= i < |acts| ==> Plain(acts[i])
    ensures AllLawful(s, acts, lookup)
  {
  }

  // ----- health ------------------------------------------------------------------------------

  ghost predicate Healthy(s: System) {
    Sound(s) && forall j :: s.store.Is(j, Dispatched) ==> Deliverable(s, j)
  }

  ghost predicate None(s: Store, status: Status) {
    forall j :: !s.Is(j, status)
  }

  ghost predicate NoBatches(s: System) {
    forall d :: s.D(d).batch == []
  }

  // ----- the spare dispatcher drains the outbox ----------------------------------------------

  /** With an empty outbox, a sound store holds no queued job. */
  lemma DrainedMeansNoneQueued(s: System)
    requires Sound(s) && Unpublished(s.store) == []
    ensures None(s.store, Queued)
  {
    UnpublishedExact(s.store, s.store.nextOutbox);
    forall j
      ensures !s.store.Is(j, Queued)
    {
      assert RowInStep(s.store, j);
    }
  }

  /** A marked row is published, and only a queued job changes its status. */
  lemma MarkedJob(s: Store, t: Store, rows: seq<OutboxMessage>, j: int)
    requires Alike(t, AfterMarks(s, RowIds(rows))) && j in t.jobs
    ensures j in s.jobs && (t.Is(j, Running) ==> s.Is(j, Running))
    ensures t.Is(j, Dispatched) ==> s.Is(j, Dispatched) || (s.Is(j, Queued) && j in RowIds(rows))
  {
    assert EraseJob(t.jobs[j]) == EraseJob(AfterMarks(s, RowIds(rows)).jobs[j]);
  }

  /** Publishing the rows keeps every dispatched job deliverable and makes the new ones so. */
  lemma DrainedDeliverable(s: System, t: System, n: int, rows: seq<OutboxMessage>, j: int)
    requires Base(s) && RowsOk(s.store, rows) && t.topic == s.topic + Fresh(rows) && OnlyDispatched(s, t, n)
    requires s.D(n) == Dispatcher([], false)
    requires Deliverable(s, j) || j in RowIds(rows)
    ensures Deliverable(t, j)
  {
    if i :| 0 <= i < |rows| && rows[i].id == j {
      assert RowOk(s.store, j);
      assert UncommittedAt(t, |s.topic| + i, j);
    } else if k :| UncommittedAt(s, k, j) {
      assert UncommittedAt(t, k, j);
    } else if w :| PolledOn(s, w, j) {
      assert PolledOn(t, w, j);
    } else {
      var d, i :| Carries(s, d, i, j);
      assert Carries(t, d, i, j);
    }
  }

  lemma DrainAll(s: System, n: int, lookup: Lookup) returns (acts: seq<Action>)
    requires Healthy(s) && s.D(n) == Dispatcher([], false)
    ensures var t := Exec(s, acts);
      && AllLawful(s, acts, lookup) && Healthy(t) && None(t.store, Queued)
      && OnlyDispatched(s, t, n) && t.D(n) == Dispatcher([], false)
      && (None(s.store, Running) ==> None(t.store, Running))
  {
    acts := DrainOutbox(s, n);
    PlainLawful(s, acts, lookup);
    SoundRun(s, acts);
    DrainEnds(s, Exec(s, acts), n);
  }

  lemma DrainEnds(s: System, t: System, n: int)
    requires Healthy(s) && Sound(t) && s.D(n) == Dispatcher([], false) && OnlyDispatched(s, t, n)
    requires var rows := Unpublished(s.store);
      && RowsOk(s.store, rows) && t.topic == s.topic + Fresh(rows)
      && Alike(t.store, AfterMarks(s.store, RowIds(rows))) && Unpublished(t.store) == []
    ensures Healthy(t) && None(t.store, Queued) && (None(s.store, Running) ==> None(t.store, Running))
  {
    var rows := Unpublished(s.store);
    DrainedMeansNoneQueued(t);
    forall j | t.store.Is(j, Dispatched)
      ensures Deliverable(t, j)
    {
      MarkedJob(s.store, t.store, rows, j);
      DrainedDeliverable(s, t, n, rows, j);
    }
    if None(s.store, Running) {
      forall j
        ensures !t.store.Is(j, Running)
      {
        if j in t.store.jobs {
          MarkedJob(s.store, t.store, rows, j);
        }
      }
    }
  }

  // ----- the other dispatchers work off what they hold ----------------------------------------

  /** With nothing queued, publishing and marking alter no job and lose no delivery. */
  lemma FlushKeeps(s: System, a: Action, j: int)
    requires Base(s) && None(s.store, Queued) && (a.Publish? || a.Mark?)
    ensures Apply(s, a).store.jobs == s.store.jobs
    ensures Deliverable(s, j) ==> Deliverable(Apply(s, a), j)
  {
    var t := Apply(s, a);
    assert RowsOk(s.store, s.D(a.d).batch);
    if k :| UncommittedAt(s, k, j) {
      assert UncommittedAt(t, k, j);
    } else if w :| PolledOn(s, w, j) {
      assert PolledOn(t, w, j);
    } else if d, i :| Carries(s, d, i, j) {
      FlushCarried(s, a, d, i, j);
    }
  }

  lemma FlushCarried(s: System, a: Action, d: int, i: int, j: int)
    requires Base(s) && Carries(s, d, i, j) && (a.Publish? || a.Mark?)
    ensures Deliverable(Apply(s, a), j)
  {
    var t := Apply(s, a);
    if a == Publish(d) && i == 0 {
      assert RowsOk(s.store, s.D(d).batch) && RowOk(s.store, s.D(d).batch[0].id);
      assert UncommittedAt(t, |s.topic|, j);
    } else if a == Mark(d) && s.D(d).open {
      assert Carries(t, d, i - 1, j);
    } else {
      assert Carries(t, d, i, j);
    }
  }

  lemma {:induction false} FlushRun(s: System, acts: seq<Action>)
    requires Healthy(s) && None(s.store, Queued)
    requires forall i :: 0 <= i < |acts| ==> acts[i].Publish? || acts[i].Mark?
    ensures Healthy(Exec(s, acts)) && None(Exec(s, acts).store, Queued)
    decreases |acts|
  {
    if acts != [] {
      var init, last := acts[..|acts| - 1], acts[|acts| - 1];
      FlushRun(s, init);
      var t := Exec(s, init);
      SoundStep(t, last);
      forall j
        ensures Apply(t, last).store.jobs == t.store.jobs && (Deliverable(t, j) ==> Deliverable(Apply(t, last), j))
      {
        FlushKeeps(t, last, j);
      }
      SameStatus(t, Apply(t, last));
    }
  }

  lemma SameStatus(s: System, t: System)
    requires Healthy(s) && None(s.store, Queued) && Sound(t) && t.store.jobs == s.store.jobs
    requires forall j :: Deliverable(s, j) ==> Deliverable(t, j)
    ensures Healthy(t) && None(t.store, Queued)
  {
    forall j
      ensures !t.store.Is(j, Queued) && (t.store.Is(j, Dispatched) ==> Deliverable(t, j))
    {
      assert s.store.Is(j, Queued) == t.store.Is(j, Queued) && s.store.Is(j, Dispatched) == t.store.Is(j, Dispatched);
    }
  }

  lemma MarkTouches(s: System, d: int)
    ensures var t := Apply(s, Mark(d));
      && (t.D(d).batch == [] || !t.D(d).open) && (forall e :: e != d ==> t.D(e) == s.D(e))
      && t.workers == s.workers && t.reapers == s.reapers
  {
  }

  lemma FlushOne(s: System, d: int) returns (acts: seq<Action>)
    ensures var t := Exec(s, acts);
      && (forall i :: 0 <= i < |acts| ==> acts[i].Publish? || acts[i].Mark?)
      && t.D(d).batch == [] && (forall e :: e != d ==> t.D(e) == s.D(e))
      && t.workers == s.workers && t.reapers == s.reapers
  {
    var s1 := Apply(s, Mark(d));
    MarkTouches(s, d);
    ExecSnoc(s, [], Mark(d));
    var m := |s1.D(d).batch|;
    if m == 0 {
      acts := [Mark(d)];
    } else {
      acts := [Mark(d)] + DispatchActs(d, m);
      DispatchActsKinds(d, m);
      ExecConcat(s, [Mark(d)], DispatchActs(d, m));
      DispatchRun(s1, d, m);
    }
  }

  lemma {:induction false} FlushUpTo(s: System, lo: int, hi: int) returns (acts: seq<Action>)
    requires lo <= hi
    ensures var t := Exec(s, acts);
      && (forall i :: 0 <= i < |acts| ==> acts[i].Publish? || acts[i].Mark?)
      && (forall d :: lo <= d < hi ==> t.D(d).batch == [])
      && (forall d :: d < lo || hi <= d ==> t.D(d) == s.D(d))
      && t.workers == s.workers && t.reapers == s.reapers
    decreases hi - lo
  {
    acts := [];
    if lo < hi {
      var init := FlushUpTo(s, lo, hi - 1);
      var last := FlushOne(Exec(s, init), hi - 1);
      ExecConcat(s, init, last);
      acts := init + last;
    }
  }

  lemma FlushAll(s: System, n: int, lookup: Lookup) returns (acts: seq<Action>)
    requires 0 <= n && Healthy(s) && None(s.store, Queued)
    requires forall d :: d < -n || n <= d ==> s.D(d) == Dispatcher([], false)
    ensures var t := Exec(s, acts);
      && AllLawful(s, acts, lookup) && Healthy(t) && NoBatches(t) && t.D(n) == s.D(n) && t.workers == s.workers
  {
    acts := FlushUpTo(s, -n, n);
    PlainLawful(s, acts, lookup);
    FlushRun(s, acts);
    var t := Exec(s, acts);
    forall d
      ensures t.D(d).batch == []
    {
      if d < -n || n <= d {
        assert t.D(d) == s.D(d);
      }
    }
  }

  // ----- the reaper finishes, and sweeps once more ---------------------------------------------

  predicate OfReaper(a: Action) {
    a.Tick? || a.Sweep? || a.TryRequeue? || a.TryDeadLetter?
  }

  lemma ReaperTouches(s: System, a: Action)
    requires OfReaper(a)
    ensures var t := Apply(s, a);
      && t.topic == s.topic && t.dispatchers == s.dispatchers && t.workers == s.workers
      && !OpOf(s, a).OpMark?
  {
  }

  /** The reaper leaves deliveries alone and dispatches nothing. */
  lemma ReaperStepHealthy(s: System, a: Action)
    requires Healthy(s) && OfReaper(a)
    ensures Healthy(Apply(s, a))
  {
    var t := Apply(s, a);
    SoundStep(s, a);
    ReaperTouches(s, a);
    StoreStep(s, a);
    forall j | t.store.Is(j, Dispatched)
      ensures Deliverable(t, j)
    {
      DispatchedStep(s.store, OpOf(s, a), s.clock, j);
      SameDeliverable(s, t, j);
    }
  }

  lemma SameDeliverable(s: System, t: System, j: int)
    requires t.topic == s.topic && t.dispatchers == s.dispatchers && t.workers == s.workers && Deliverable(s, j)
    ensures Deliverable(t, j)
  {
    if k :| UncommittedAt(s, k, j) {
      assert UncommittedAt(t, k, j);
    } else if w :| PolledOn(s, w, j) {
      assert PolledOn(t, w, j);
    } else {
      var d, i :| Carries(s, d, i, j);
      assert Carries(t, d, i, j);
    }
  }

  /** Without batches there are no windows, so no requeue is hazardous. */
  lemma {:induction false} ReaperRun(s: System, acts: seq<Action>, lookup: Lookup)
    requires Healthy(s) && NoBatches(s) && forall i :: 0 <= i < |acts| ==> OfReaper(acts[i])
    ensures var t := Exec(s, acts);
      && AllLawful(s, acts, lookup) && Healthy(t) && NoBatches(t)
      && t.dispatchers == s.dispatchers && t.workers == s.workers
    decreases |acts|
  {
    if acts != [] {
      var init, last := acts[..|acts| - 1], acts[|acts| - 1];
      ReaperRun(s, init, lookup);
      var t := Exec(s, init);
      ReaperStepHealthy(t, last);
      ReaperTouches(t, last);
      SameBatches(t, Apply(t, last));
      assert forall j, d :: !OpenOn(t, d, j);
      LawfulOne(t, last, lookup);
      LawfulConcat(s, init, [last], lookup);
      assert acts == init + [last];
    }
  }

  lemma SameBatches(s: System, t: System)
    requires NoBatches(s) && t.dispatchers == s.dispatchers
    ensures NoBatches(t)
  {
    forall d ensures t.D(d).batch == [] {
      assert s.D(d).batch == [];
    }
  }

  lemma {:induction false} ReapActsKinds(r: int, n: nat)
    ensures forall i :: 0 <= i < |ReapActs(r, n)| ==> OfReaper(ReapActs(r, n)[i])
    decreases n
  {
    if n > 0 {
      ReapActsKinds(r, n - 1);
    }
  }

  /** A reaper stopped anywhere in its list finishes it: a refused requeue is followed by its dead
      letter, then each remaining entry is handled. */
  lemma FinishSweep(s: System) returns (acts: seq<Action>)
    ensures (forall i :: 0 <= i < |acts| ==> OfReaper(acts[i])) && Exec(s, acts).R(0).pending == []
  {
    if s.R(0).pending == [] {
      acts := [];
    } else {
      var s1 := Apply(s, TryDeadLetter(0));
      assert !s1.R(0).refused;
      var m := |s1.R(0).pending|;
      acts := [TryDeadLetter(0)] + ReapActs(0, m);
      ReapActsKinds(0, m);
      ExecFirst(s, TryDeadLetter(0), ReapActs(0, m));
      ReapRun(s1, 0, m);
    }
  }

  /** A clock advance after which every running job is past its timeout. */
  lemma {:induction false} LongEnough(s: Store, clock: int, n: int) returns (delta: nat)
    requires Consistent(s) && n <= s.nextJob
    ensures forall j :: 1 <= j < n && s.Is(j, Running) ==> Stuck(s, j, clock + delta)
    decreases n
  {
    delta := 0;
    if n > 1 {
      var before := LongEnough(s, clock, n - 1);
      delta := Max(before, s.jobs[n - 1].updatedAt + s.Timeout(s.jobs[n - 1].jobType) - clock + 1);
      forall j | 1 <= j < n && s.Is(j, Running)
        ensures Stuck(s, j, clock + delta)
      {
        if j < n - 1 {
          assert Stuck(s, j, clock + before);
        }
      }
    }
  }

  /** A sweep that finds every running job leaves none running. */
  lemma SweepLeavesNoneRunning(s: Store, now: int)
    requires Consistent(s) && forall j :: s.Is(j, Running) ==> Stuck(s, j, now)
    ensures var stuck := FindStuck(s, now); None(ReapUpTo(s, stuck, Steady(now), |stuck|), Running)
  {
    var stuck := FindStuck(s, now);
    SweepExact(s, now, Steady(now));
    var t := ReapUpTo(s, stuck, Steady(now), |stuck|);
    forall j
      ensures !t.Is(j, Running)
    {
      NotRunningAfter(s, t, now, j);
    }
  }

  lemma NotRunningAfter(s: Store, t: Store, now: int, j: int)
    requires Alike(t, AfterReaps(s, AllStuck(s, now))) && (s.Is(j, Running) ==> Stuck(s, j, now))
    ensures !t.Is(j, Running)
  {
    if j in t.jobs {
      assert EraseJob(t.jobs[j]) == EraseJob(AfterReaps(s, AllStuck(s, now)).jobs[j]);
    }
  }

  lemma LastSweep(s: System) returns (acts: seq<Action>)
    requires Consistent(s.store) && s.R(0).pending == []
    ensures (forall i :: 0 <= i < |acts| ==> OfReaper(acts[i])) && None(Exec(s, acts).store, Running)
  {
    var delta := LongEnough(s.store, s.clock, s.store.nextJob);
    var s1 := Apply(s, Tick(delta));
    var m := |FindStuck(s1.store, s1.clock)|;
    acts := [Tick(delta)] + ([Sweep(0)] + ReapActs(0, m));
    ReapActsKinds(0, m);
    ExecFirst(s, Tick(delta), [Sweep(0)] + ReapActs(0, m));
    ReapIsARun(s1, 0);
    SweepLeavesNoneRunning(s1.store, s1.clock);
  }

  lemma ReapAll(s: System, lookup: Lookup) returns (acts: seq<Action>)
    requires Healthy(s) && NoBatches(s)
    ensures var t := Exec(s, acts);
      && AllLawful(s, acts, lookup) && Healthy(t) && NoBatches(t) && None(t.store, Running)
      && t.dispatchers == s.dispatchers && t.workers == s.workers
  {
    var a := FinishSweep(s);
    ReaperRun(s, a, lookup);
    var b := LastSweep(Exec(s, a));
    ReaperRun(Exec(s, a), b, lookup);
    LawfulConcat(s, a, b, lookup);
    acts := a + b;
  }

  // ----- every message that may still be delivered is processed ---------------------------------

  /** Every job is terminal, or dispatched and within reach of a worker. */
  ghost predicate Settled(s: System) {
    && Base(s) && None(s.store, Queued) && None(s.store, Running)
    && forall j :: s.store.Is(j, Dispatched) ==> InReach(s, j)
  }

  ghost predicate InReach(s: System, j: int) {
    (exists k :: UncommittedAt(s, k, j)) || (exists w :: PolledOn(s, w, j))
  }

  /** Processing a message settles its job and leaves the others alone. */
  lemma ProcessSettles(s: System, t: System, w: int, k: int, lookup: Lookup)
    requires Settled(s) && Base(t) && 0 <= k < |s.topic| && Processed(s, t, w, k, lookup)
    requires s.W(w).Waiting? || s.W(w) == Polled(k)
    ensures Settled(t)
  {
    var e := s.topic[k].env;
    assert Genuine(s.store, e);
    ProcessExact(s.store, lookup, e, s.clock, s.clock, s.clock);
    ProcessedStatus(s.store, t.store, lookup, e);
    forall j | t.store.Is(j, Dispatched)
      ensures InReach(t, j)
    {
      assert s.store.Is(j, Dispatched) && j != e.jobId;
      StaysInReach(s, t, w, k, lookup, j);
    }
  }

  lemma ProcessedStatus(s: Store, t: Store, lookup: Lookup, e: Envelope)
    requires Genuine(s, e) && t.jobs.Keys == s.jobs.Keys && None(s, Queued) && None(s, Running)
    requires forall i :: i in s.jobs && i != e.jobId ==> t.jobs[i] == s.jobs[i]
    requires s.jobs[e.jobId].status.Claimable() ==> EraseJob(t.jobs[e.jobId]) == EraseJob(Ran(s, lookup, e.jobId))
    requires !s.jobs[e.jobId].status.Claimable() ==> t.jobs[e.jobId] == s.jobs[e.jobId]
    ensures None(t, Queued) && None(t, Running) && t.jobs[e.jobId].status.Terminal()
    ensures forall j :: t.Is(j, Dispatched) ==> s.Is(j, Dispatched) && j != e.jobId
  {
    assert !s.Is(e.jobId, Running);
    forall j
      ensures !t.Is(j, Queued) && !t.Is(j, Running)
    {
      assert !s.Is(j, Queued) && !s.Is(j, Running);
    }
  }

  lemma StaysInReach(s: System, t: System, w: int, k: int, lookup: Lookup, j: int)
    requires 0 <= k < |s.topic| && Processed(s, t, w, k, lookup) && s.topic[k].env.jobId != j
    requires (s.W(w).Waiting? || s.W(w) == Polled(k)) && InReach(s, j)
    ensures InReach(t, j)
  {
    if i :| UncommittedAt(s, i, j) {
      assert UncommittedAt(t, i, j);
    } else {
      var v :| PolledOn(s, v, j);
      assert PolledOn(t, v, j);
    }
  }

  /** The two handler steps of an uninterrupted `process` heed the lookup. */
  lemma HandlersHeed(s: System, s1: System, w: int, k: int, lookup: Lookup)
    requires 0 <= k < |s.topic| && AfterClaim(s, s1, w, k)
    ensures var e := s.topic[k].env;
      AllLawful(s1, HandlerActs(w, Found(lookup, e), Succeeds(s.store, lookup, e)), lookup)
  {
    var e := s.topic[k].env;
    var enter, leave := Enter(w, Found(lookup, e)), Leave(w, Succeeds(s.store, lookup, e));
    HeedsTwice(s, s1, w, k, lookup);
    HandlerLawful(s1, enter, lookup);
    HandlerLawful(Apply(s1, enter), leave, lookup);
    LawfulConcat(s1, [enter], [leave], lookup);
    assert [enter] + [leave] == [enter, leave];
  }

  lemma HandlerLawful(s: System, a: Action, lookup: Lookup)
    requires (a.Enter? || a.Leave?) && Heeds(s, a, lookup)
    ensures AllLawful(s, [a], lookup) && Exec(s, [a]) == Apply(s, a)
  {
    LawfulOne(s, a, lookup);
  }

  lemma HeedsTwice(s: System, s1: System, w: int, k: int, lookup: Lookup)
    requires 0 <= k < |s.topic| && AfterClaim(s, s1, w, k)
    ensures var (found, ok) := (Found(lookup, s.topic[k].env), Succeeds(s.store, lookup, s.topic[k].env));
      Heeds(s1, Enter(w, found), lookup) && Heeds(DoEnter(s1, w, found), Leave(w, ok), lookup)
  {
  }

  lemma ResumeLawful(s: System, w: int, lookup: Lookup)
    requires s.W(w).Polled? && 0 <= s.W(w).k < |s.topic|
    ensures var e := s.topic[s.W(w).k].env;
      AllLawful(s, ResumeActs(w, Found(lookup, e), Succeeds(s.store, lookup, e)), lookup)
  {
    var e := s.topic[s.W(w).k].env;
    var a, b, c := ClaimActs(w), HandlerActs(w, Found(lookup, e), Succeeds(s.store, lookup, e)), EndActs(w);
    ClaimSegment(s, w);
    HandlersHeed(s, Exec(s, a), w, s.W(w).k, lookup);
    PlainLawful(s, a, lookup);
    LawfulConcat(s, a, b, lookup);
    PlainLawful(Exec(s, a + b), c, lookup);
    LawfulConcat(s, a + b, c, lookup);
  }

  /** A worker that has already polled goes on. */
  lemma ResumeOne(s: System, w: int, lookup: Lookup) returns (acts: seq<Action>)
    requires Settled(s) && s.W(w).Polled?
    ensures var t := Exec(s, acts);
      AllLawful(s, acts, lookup) && Settled(t) && t.W(w).Waiting? && forall v :: v != w ==> t.W(v) == s.W(v)
  {
    assert WorkerOk(s, s.W(w));
    var e := s.topic[s.W(w).k].env;
    acts := ResumeActs(w, Found(lookup, e), Succeeds(s.store, lookup, e));
    ResumeIsARun(s, w, lookup);
    ResumeLawful(s, w, lookup);
    BaseRun(s, acts);
    ProcessSettles(s, Exec(s, acts), w, s.W(w).k, lookup);
  }

  lemma {:induction false} ResumeUpTo(s: System, lo: int, hi: int, lookup: Lookup) returns (acts: seq<Action>)
    requires lo <= hi && Settled(s)
    ensures var t := Exec(s, acts);
      && AllLawful(s, acts, lookup) && Settled(t)
      && (forall w :: lo <= w < hi ==> !t.W(w).Polled?) && (forall w :: w < lo || hi <= w ==> t.W(w) == s.W(w))
    decreases hi - lo
  {
    acts := [];
    if lo < hi {
      acts := ResumeUpTo(s, lo, hi - 1, lookup);
      var t := Exec(s, acts);
      if t.W(hi - 1).Polled? {
        var last := ResumeOne(t, hi - 1, lookup);
        LawfulConcat(s, acts, last, lookup);
        acts := acts + last;
      }
    }
  }

  ghost predicate NonePolled(s: System) {
    forall w :: !s.W(w).Polled?
  }

  /** Worker `w` is spare, no other has a message in hand, and the first `m` messages are committed. */
  ghost predicate Delivered(s: System, w: int, m: int) {
    && Settled(s) && NonePolled(s) && s.W(w).Waiting?
    && forall k :: 0 <= k < m && k < |s.topic| ==> s.topic[k].committed
  }

  /** The spare worker receives an uncommitted message. */
  lemma DeliverOne(s: System, w: int, k: nat, lookup: Lookup) returns (acts: seq<Action>)
    requires Delivered(s, w, k) && k < |s.topic| && !s.topic[k].committed
    ensures var t := Exec(s, acts);
      AllLawful(s, acts, lookup) && Delivered(t, w, k + 1) && |t.topic| == |s.topic|
  {
    var e := s.topic[k].env;
    acts := ProcessActs(w, k, Found(lookup, e), Succeeds(s.store, lookup, e));
    ProcessIsARun(s, w, k, lookup);
    LawfulOne(s, Poll(w, k), lookup);
    ResumeLawful(Apply(s, Poll(w, k)), w, lookup);
    LawfulConcat(s, [Poll(w, k)], ResumeActs(w, Found(lookup, e), Succeeds(s.store, lookup, e)), lookup);
    BaseRun(s, acts);
    ProcessSettles(s, Exec(s, acts), w, k, lookup);
    StillNonePolled(s, Exec(s, acts), w);
  }

  lemma StillNonePolled(s: System, t: System, w: int)
    requires NonePolled(s) && t.W(w).Waiting? && forall v :: v != w ==> t.W(v) == s.W(v)
    ensures NonePolled(t)
  {
    forall v ensures !t.W(v).Polled? {
      assert !s.W(v).Polled?;
    }
  }

  /** Message `k`, unless it is committed already. */
  lemma DeliverNext(s: System, w: int, k: nat, lookup: Lookup) returns (acts: seq<Action>)
    requires Delivered(s, w, k) && k < |s.topic|
    ensures var t := Exec(s, acts);
      AllLawful(s, acts, lookup) && Delivered(t, w, k + 1) && |t.topic| == |s.topic|
  {
    if s.topic[k].committed {
      acts := [];
    } else {
      acts := DeliverOne(s, w, k, lookup);
    }
  }

  lemma {:induction false} DeliverUpTo(s: System, w: int, m: nat, lookup: Lookup) returns (acts: seq<Action>)
    requires Delivered(s, w, 0) && m <= |s.topic|
    ensures var t := Exec(s, acts);
      AllLawful(s, acts, lookup) && Delivered(t, w, m) && |t.topic| == |s.topic|
    decreases m
  {
    acts := [];
    if m > 0 {
      var init := DeliverUpTo(s, w, m - 1, lookup);
      var last := DeliverNext(Exec(s, init), w, m - 1, lookup);
      LawfulConcat(s, init, last, lookup);
      acts := init + last;
    }
  }

  ghost predicate AllTerminal(s: Store) {
    forall j :: j in s.jobs ==> s.jobs[j].status.Terminal()
  }

  lemma SettledMeansDone(s: System)
    requires Settled(s) && NonePolled(s) && forall k :: 0 <= k < |s.topic| ==> s.topic[k].committed
    ensures AllTerminal(s.store)
  {
    forall j | j in s.store.jobs
      ensures s.store.jobs[j].status.Terminal()
    {
      assert !s.store.Is(j, Queued) && !s.store.Is(j, Running) && !InReach(s, j);
    }
  }

  lemma DeliverAll(s: System, n: int, lookup: Lookup) returns (acts: seq<Action>)
    requires 0 <= n && Settled(s) && forall w :: w < -n || n <= w ==> s.W(w).Waiting?
    ensures AllLawful(s, acts, lookup) && AllTerminal(Exec(s, acts).store)
  {
    var a := ResumeUpTo(s, -n, n, lookup);
    var t := Exec(s, a);
    assert NonePolled(t) && t.W(n) == s.W(n);
    var b := DeliverUpTo(t, n, |t.topic|, lookup);
    SettledMeansDone(Exec(t, b));
    LawfulConcat(s, a, b, lookup);
    acts := a + b;
  }

  // ----- all stages ------------------------------------------------------------------------------

  lemma Unload(s: System, n: int, lookup: Lookup) returns (acts: seq<Action>)
    requires 0 <= n && Healthy(s) && IdleBeyond(s, n)
    ensures var t := Exec(s, acts);
      && AllLawful(s, acts, lookup) && Healthy(t) && NoBatches(t) && t.D(n) == Dispatcher([], false) && t.workers == s.workers
  {
    var a := DrainAll(s, n, lookup);
    var t := Exec(s, a);
    forall d | d < -n || n <= d
      ensures t.D(d) == Dispatcher([], false)
    {
      assert s.D(d) == Dispatcher([], false);
    }
    var b := FlushAll(t, n, lookup);
    LawfulConcat(s, a, b, lookup);
    acts := a + b;
  }

  /** With no batch left, what is deliverable is within a worker's reach. */
  lemma HealthyMeansSettled(s: System)
    requires Healthy(s) && NoBatches(s) && None(s.store, Queued) && None(s.store, Running)
    ensures Settled(s)
  {
    forall j | s.store.Is(j, Dispatched)
      ensures InReach(s, j)
    {
      assert forall d, i :: !Carries(s, d, i, j);
    }
  }

  lemma Recover(s: System, n: int, lookup: Lookup) returns (acts: seq<Action>)
    requires 0 <= n && Healthy(s) && IdleBeyond(s, n)
    ensures AllLawful(s, acts, lookup) && AllTerminal(Exec(s, acts).store)
  {
    var a := Unload(s, n, lookup);
    var b := ReapAll(Exec(s, a), lookup);
    LawfulConcat(s, a, b, lookup);
    var t := Exec(s, a + b);
    var c := DrainAll(t, n, lookup);
    LawfulConcat(s, a + b, c, lookup);
    var u := Exec(s, a + b + c);
    StillNoBatches(t, u, n);
    HealthyMeansSettled(u);
    StillWaiting(s, u, n);
    var d := DeliverAll(u, n, lookup);
    LawfulConcat(s, a + b + c, d, lookup);
    acts := a + b + c + d;
  }

  lemma StillNoBatches(s: System, t: System, n: int)
    requires NoBatches(s) && OnlyDispatched(s, t, n) && t.D(n).batch == []
    ensures NoBatches(t)
  {
    forall d ensures t.D(d).batch == [] {
      assert s.D(d).batch == [];
    }
  }

  lemma StillWaiting(s: System, t: System, n: int)
    requires IdleBeyond(s, n) && t.workers == s.workers
    ensures forall w :: w < -n || n <= w ==> t.W(w).Waiting?
  {
    forall w | w < -n || n <= w
      ensures t.W(w).Waiting?
    {
      assert s.D(w) == Dispatcher([], false) && s.W(w).Waiting?;
    }
  }

  /** `more` leads, with handlers that behave as `lookup` says, without going behind a committed
      offset and without a hazardous requeue, to a state where every job is terminal and every type
      can be enqueued again. */
  ghost predicate RecoversBy(s: System, more: seq<Action>, lookup: Lookup) {
    var t := Exec(s, more).store;
    && AllLawful(s, more, lookup)
    && AllTerminal(t)
    && forall ty, input, creator, now :: Enqueue(t, ty, input, creator, now).1.Some?
  }

  /** A stranded job cannot be recovered by any continuation that does not rewind. */
  lemma StrandedBlocks(s: System, more: seq<Action>, lookup: Lookup, j: int)
    requires Base(s) && Stranded(s, j) && AllLawful(s, more, lookup)
    ensures !AllTerminal(Exec(s, more).store)
  {
    forall i | 0 <= i < |more|
      ensures NoRewind(Exec(s, more[..i]), more[i])
    {
      assert Lawful(Exec(s, more[..i]), more[i], lookup);
    }
    StrandedForever(s, more, j);
  }

  /** Recoverability, exactly: whatever the handlers do, a reachable state has a finite continuation
      to a state where every job is terminal and every type can be enqueued again, if and only if no
      job is stranded. */
  lemma RecoverableIff(config: map<string, TypeConfig>, t0: int, acts: seq<Action>, lookup: Lookup)
    ensures var s := Exec(Init(config, t0), acts);
      (exists more :: RecoversBy(s, more, lookup)) <==> (forall j :: !Stranded(s, j))
  {
    var s := Exec(Init(config, t0), acts);
    SoundAlways(config, t0, acts);
    if j :| Stranded(s, j) {
      forall more
        ensures !RecoversBy(s, more, lookup)
      {
        if AllLawful(s, more, lookup) {
          StrandedBlocks(s, more, lookup, j);
        }
      }
    } else {
      UnstrandedMeansHealthy(s);
      var n := IdleBound(config, t0, acts);
      var more := Recover(s, n, lookup);
      assert RecoversBy(s, more, lookup);
    }
  }

  lemma UnstrandedMeansHealthy(s: System)
    requires Sound(s) && forall j :: !Stranded(s, j)
    ensures Healthy(s)
  {
    forall j | s.store.Is(j, Dispatched)
      ensures Deliverable(s, j)
    {
      assert RowInStep(s.store, j) && !Stranded(s, j);
    }
  }

  /** In every run without hazardous requeues no job is stranded, so the run is recoverable. */
  lemma Recoverability(config: map<string, TypeConfig>, t0: int, acts: seq<Action>, lookup: Lookup)
    requires forall j :: Benign(Init(config, t0), acts, j)
    ensures exists more :: RecoversBy(Exec(Init(config, t0), acts), more, lookup)
  {
    var s := Exec(Init(config, t0), acts);
    OfferedAlways(config, t0, acts);
    forall j
      ensures !Stranded(s, j)
    {
      NoLostJob.NoLostJob(config, t0, acts, j);
      if k :| UnofferedAt(s, k, j) {
        assert UncommittedAt(s, k, j);
      }
    }
    RecoverableIff(config, t0, acts, lookup);
  }
}
