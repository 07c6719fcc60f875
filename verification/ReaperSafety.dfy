/** What reapers may do, although neither `requeue_stuck` nor `dead_letter` rechecks the timeout and
    `dead_letter` does not recheck the cap: with any number of reapers, acting on an entry whose
    `attempts` is still the row's is safe, and the entries of a single reaper always are. */
module ReaperSafety {
  import opened Models
  import opened StoreSpec
  import opened Protocol
  import opened Claims

  lemma ClaimedAtStep(s: System, a: Action)
    ensures Apply(s, a).history.claimedAt ==
      if Won(s, a) then s.history.claimedAt[OpOf(s, a).id := s.clock] else s.history.claimedAt
  {
  }

  /** A run's `updated_at` is never earlier than its claim. */
  ghost predicate TimesOk(s: System) {
    && (forall j :: s.store.Is(j, Running) ==> j in s.history.claimedAt && s.history.claimedAt[j] <= s.store.jobs[j].updatedAt)
    && (forall j :: j in s.history.claimedAt ==> s.history.claimedAt[j] <= s.clock)
  }

  /** A row is running after an operation because it was, or because it has just been claimed. */
  lemma RunningStep(s: Store, op: Op, now: int, j: int)
    requires ApplyOp(s, op, now).Is(j, Running)
    ensures || (op == OpClaim(j) && j in s.jobs && s.jobs[j].status.Claimable())
            || (s.Is(j, Running)
                && (ApplyOp(s, op, now).jobs[j].updatedAt == s.jobs[j].updatedAt || ApplyOp(s, op, now).jobs[j].updatedAt == now))
    ensures op == OpClaim(j) && j in s.jobs && s.jobs[j].status.Claimable() ==> ApplyOp(s, op, now).jobs[j].updatedAt == now
  {
  }

  lemma TimesStep(s: System, a: Action)
    requires Consistent(s.store) && TimesOk(s)
    ensures TimesOk(Apply(s, a))
  {
    ClaimedAtStep(s, a);
    StoreStep(s, a);
    TopicStep(s, a);
    forall j | Apply(s, a).store.Is(j, Running)
      ensures j in Apply(s, a).history.claimedAt
      ensures Apply(s, a).history.claimedAt[j] <= Apply(s, a).store.jobs[j].updatedAt
    {
      RunningStep(s.store, OpOf(s, a), s.clock, j);
    }
  }

  /** The job's last run was claimed longer ago than its type's timeout, 900 seconds without a
      configuration row. */
  predicate Late(s: System, j: int)
    requires j in s.store.jobs
  {
    && j in s.history.claimedAt && !s.store.jobs[j].status.Claimable()
    && var ty := s.store.jobs[j].jobType;
    s.clock - s.history.claimedAt[j] > if ty in s.store.config then s.store.config[ty].runTimeout else 900
  }

  /** The run that the entry names is still the job's last run. */
  predicate Current(s: System, e: StuckJob) {
    e.jobId in s.store.jobs && s.store.jobs[e.jobId].attempts == e.attempts
  }

  predicate EntryOk(s: System, e: StuckJob) {
    e.jobId in s.store.jobs && e.attempts <= s.store.jobs[e.jobId].attempts && (Current(s, e) ==> Late(s, e.jobId))
  }

  predicate RefusalOk(s: System, x: Reaper) {
    x.refused ==> x.pending != [] && (Current(s, x.pending[0]) ==> !CanRequeue(s.store, x.pending[0].jobId))
  }

  ghost predicate ReaperOk(s: System, x: Reaper) {
    (forall i :: 0 <= i < |x.pending| ==> EntryOk(s, x.pending[i])) && RefusalOk(s, x)
  }

  /** A non-claimable row that is not requeued keeps its attempts and stays non-claimable; if it is
      running afterwards, it was running before. */
  lemma LastRunStep(s: Store, op: Op, now: int, j: int)
    requires Consistent(s) && j in s.jobs && !s.jobs[j].status.Claimable()
    requires j in ApplyOp(s, op, now).jobs && ApplyOp(s, op, now).jobs[j].attempts == s.jobs[j].attempts
    ensures var t := ApplyOp(s, op, now);
      && t.jobs[j].jobType == s.jobs[j].jobType && !t.jobs[j].status.Claimable() && t.config == s.config
      && (CanRequeue(t, j) ==> CanRequeue(s, j))
  {
  }

  /** An entry stays good, and stays refused, whatever happens. */
  lemma EntryStep(s: System, a: Action, e: StuckJob)
    requires Consistent(s.store) && EntryOk(s, e)
    ensures EntryOk(Apply(s, a), e)
    ensures Current(Apply(s, a), e) ==> Current(s, e) && (!CanRequeue(s.store, e.jobId) ==> !CanRequeue(Apply(s, a).store, e.jobId))
  {
    StoreEvolves(s, a);
    if Current(Apply(s, a), e) {
      StoreStep(s, a);
      TopicStep(s, a);
      ClaimedAtStep(s, a);
      LastRunStep(s.store, OpOf(s, a), s.clock, e.jobId);
    }
  }

  /** What a reaper's list becomes: itself, a fresh sweep, nothing, its tail, or itself refused. */
  lemma ReaperMoves(s: System, a: Action, r: int)
    ensures var (x, y) := (s.R(r), Apply(s, a).R(r));
      || y == x
      || (a == Sweep(r) && y == Reaper(FindStuck(s.store, s.clock), false))
      || y == Reaper([], false)
      || (x.pending != [] && y == Reaper(x.pending[1..], false))
      || (x.pending != [] && y == x.(refused := true) && !CanRequeue(s.store, x.pending[0].jobId))
  {
  }

  lemma SweepEntries(s: System)
    requires Base(s) && TimesOk(s)
    ensures var stuck := FindStuck(s.store, s.clock);
      && (forall i :: 0 <= i < |stuck| ==> EntryOk(s, stuck[i]) && Current(s, stuck[i]))
      && (forall i, k :: 0 <= i < k < |stuck| ==> stuck[i].jobId < stuck[k].jobId)
  {
    var stuck := FindStuck(s.store, s.clock);
    StuckExact(s.store, s.clock, s.store.nextJob);
    assert stuck == StuckBelow(s.store, s.clock, s.store.nextJob);
    forall i | 0 <= i < |stuck|
      ensures EntryOk(s, stuck[i]) && Current(s, stuck[i])
    {
      assert StuckEntry(s.store, stuck[i], s.clock);
    }
  }

  /** A list that is good before the step is good after it. */
  lemma PendingStep(s: System, a: Action, y: Reaper)
    requires Consistent(s.store) && ReaperOk(s, y)
    ensures ReaperOk(Apply(s, a), y)
  {
    forall i | 0 <= i < |y.pending|
      ensures EntryOk(Apply(s, a), y.pending[i])
    {
      EntryStep(s, a, y.pending[i]);
    }
    if y.refused {
      EntryStep(s, a, y.pending[0]);
    }
  }

  lemma ReaperOkStep(s: System, a: Action, r: int)
    requires Base(s) && TimesOk(s) && ReaperOk(s, s.R(r))
    ensures ReaperOk(Apply(s, a), Apply(s, a).R(r))
  {
    ReaperMoves(s, a, r);
    if a == Sweep(r) {
      SweepEntries(s);
    }
    PendingStep(s, a, Apply(s, a).R(r));
  }

  lemma {:induction false} ReapersAlways(config: map<string, TypeConfig>, t0: int, acts: seq<Action>)
    ensures var s := Exec(Init(config, t0), acts); Base(s) && TimesOk(s) && forall r :: ReaperOk(s, s.R(r))
    decreases |acts|
  {
    BaseAlways(config, t0, acts);
    if acts != [] {
      var init, last := acts[..|acts| - 1], acts[|acts| - 1];
      var s := Exec(Init(config, t0), init);
      ReapersAlways(config, t0, init);
      TimesStep(s, last);
      forall r ensures ReaperOk(Apply(s, last), Apply(s, last).R(r)) {
        ReaperOkStep(s, last, r);
      }
    }
  }

  /** The action is a requeue or a dead letter by reaper `r` that takes effect. */
  ghost predicate Reaps(s: System, a: Action, r: int) {
    (a == TryRequeue(r) || a == TryDeadLetter(r)) && Apply(s, a).store != s.store
  }

  /** What reaping safely means for the first entry of reaper `r`, in terms of the configuration: the
      run is running and was claimed longer ago than its type's timeout, or than 900 seconds without a
      configuration row; it is requeued exactly when `attempts` is below the type's cap, or below 3
      without a configuration row, and dead-lettered exactly when it is not. */
  predicate ReapedInTime(s: System, config: map<string, TypeConfig>, a: Action, r: int) {
    && s.R(r).pending != []
    && var j := s.R(r).pending[0].jobId;
    && s.store.Is(j, Running) && j in s.history.claimedAt
    && var (ty, attempts) := (s.store.jobs[j].jobType, s.store.jobs[j].attempts);
    && s.clock - s.history.claimedAt[j] > (if ty in config then config[ty].runTimeout else 900)
    && (a.TryRequeue? <==> attempts < if ty in config then config[ty].maxAttempts else 3)
    && (a.TryDeadLetter? <==> attempts >= if ty in config then config[ty].maxAttempts else 3)
    && WithinCap(s.store.jobs[j], config)
  }

  /** Any number of reapers: whatever interleaves, a reaper that acts on an entry whose `attempts` is
      still the row's reaps in time. */
  lemma TimelyReaping(config: map<string, TypeConfig>, t0: int, acts: seq<Action>, a: Action, r: int)
    requires var s := Exec(Init(config, t0), acts);
      Reaps(s, a, r) && (s.R(r).pending != [] ==> Current(s, s.R(r).pending[0]))
    ensures ReapedInTime(Exec(Init(config, t0), acts), config, a, r)
  {
    ReapersAlways(config, t0, acts);
    ReachableStores(config, t0, acts);
    var s := Exec(Init(config, t0), acts);
    StoreStep(s, a);
    ReapEffect(s, a, r);
  }

  lemma ReapEffect(s: System, a: Action, r: int)
    requires Base(s) && ReaperOk(s, s.R(r)) && (a == TryRequeue(r) || a == TryDeadLetter(r))
    requires ApplyOp(s.store, OpOf(s, a), s.clock) != s.store
    requires s.R(r).pending != [] ==> Current(s, s.R(r).pending[0])
    ensures ReapedInTime(s, s.store.config, a, r)
  {
    assert s.R(r).pending != [];
    assert EntryOk(s, s.R(r).pending[0]) && JobOk(s.store, s.R(r).pending[0].jobId);
  }

  // ----- a single reaper ---------------------------------------------------------------------

  /** Only reaper 0 takes part: the reaper runs as a single replica. */
  predicate SingleReaper(a: Action) {
    a.Sweep? || a.TryRequeue? || a.TryDeadLetter? || a.CrashReaper? ==> a.r == 0
  }

  /** The entries are of distinct jobs and name their last runs. */
  ghost predicate AllCurrent(s: System, pending: seq<StuckJob>) {
    && (forall i :: 0 <= i < |pending| ==> Current(s, pending[i]))
    && (forall i, k :: 0 <= i < k < |pending| ==> pending[i].jobId < pending[k].jobId)
  }

  /** A job's `attempts` changes only when a reaper requeues the first entry of its list. */
  lemma AttemptsStep(s: System, a: Action, e: StuckJob)
    requires Consistent(s.store) && Current(s, e)
    ensures Current(Apply(s, a), e) || OpOf(s, a) == OpRequeue(e.jobId)
  {
    StoreStep(s, a);
    StoreEvolves(s, a);
    AttemptsOp(s.store, OpOf(s, a), s.clock, e.jobId);
  }

  lemma AttemptsOp(s: Store, op: Op, now: int, j: int)
    requires Consistent(s) && j in s.jobs
    ensures j in ApplyOp(s, op, now).jobs
    ensures ApplyOp(s, op, now).jobs[j].attempts == s.jobs[j].attempts || op == OpRequeue(j)
  {
  }

  /** The only reaper either leaves every row's `attempts` alone, or drops the entry it requeues. */
  lemma SingleMoves(s: System, a: Action)
    requires SingleReaper(a) && s.R(0).pending != [] && OpOf(s, a).OpRequeue? && CanRequeue(s.store, OpOf(s, a).id)
    requires forall r :: r != 0 ==> s.R(r).pending == []
    ensures OpOf(s, a).id == s.R(0).pending[0].jobId && Apply(s, a).R(0) == Reaper(s.R(0).pending[1..], false)
  {
  }

  lemma RefusedRequeue(s: Store, now: int, j: int)
    requires !CanRequeue(s, j)
    ensures ApplyOp(s, OpRequeue(j), now) == s
  {
  }

  lemma CurrentStep(s: System, a: Action)
    requires Base(s) && TimesOk(s) && SingleReaper(a) && AllCurrent(s, s.R(0).pending)
    requires forall r :: r != 0 ==> s.R(r).pending == []
    ensures AllCurrent(Apply(s, a), Apply(s, a).R(0).pending)
  {
    var y := Apply(s, a).R(0);
    ReaperMoves(s, a, 0);
    if a == Sweep(0) {
      SweepEntries(s);
    }
    StoreStep(s, a);
    if s.R(0).pending != [] && OpOf(s, a).OpRequeue? && CanRequeue(s.store, OpOf(s, a).id) {
      SingleMoves(s, a);
    }
    forall i | 0 <= i < |y.pending|
      ensures Current(Apply(s, a), y.pending[i])
    {
      StillCurrent(s, a, y.pending[i]);
    }
  }

  lemma StillCurrent(s: System, a: Action, e: StuckJob)
    requires Consistent(s.store) && Current(s, e)
    requires !(OpOf(s, a) == OpRequeue(e.jobId) && CanRequeue(s.store, e.jobId))
    ensures Current(Apply(s, a), e)
  {
    AttemptsStep(s, a, e);
    if OpOf(s, a) == OpRequeue(e.jobId) {
      StoreStep(s, a);
      RefusedRequeue(s.store, s.clock, e.jobId);
    }
  }

  lemma OthersStep(s: System, a: Action, r: int)
    requires SingleReaper(a) && r != 0 && s.R(r).pending == []
    ensures Apply(s, a).R(r).pending == []
  {
  }

  lemma {:induction false} SingleAlways(config: map<string, TypeConfig>, t0: int, acts: seq<Action>)
    requires forall i :: 0 <= i < |acts| ==> SingleReaper(acts[i])
    ensures var s := Exec(Init(config, t0), acts);
      AllCurrent(s, s.R(0).pending) && forall r :: r != 0 ==> s.R(r).pending == []
    decreases |acts|
  {
    if acts != [] {
      var init, last := acts[..|acts| - 1], acts[|acts| - 1];
      var s := Exec(Init(config, t0), init);
      SingleAlways(config, t0, init);
      ReapersAlways(config, t0, init);
      CurrentStep(s, last);
      forall r | r != 0 ensures Apply(s, last).R(r).pending == [] {
        OthersStep(s, last, r);
      }
    }
  }

  /** Reaper safety: with one reaper, whatever interleaves, a run is requeued or dead-lettered only
      more than its type's timeout after the job's latest claim, and dead-lettered only when
      `attempts` has reached the cap. */
  lemma ReaperSafety(config: map<string, TypeConfig>, t0: int, acts: seq<Action>, a: Action)
    requires forall i :: 0 <= i < |acts| ==> SingleReaper(acts[i])
    requires Reaps(Exec(Init(config, t0), acts), a, 0)
    ensures ReapedInTime(Exec(Init(config, t0), acts), config, a, 0)
  {
    SingleAlways(config, t0, acts);
    TimelyReaping(config, t0, acts, a, 0);
  }
}
