/** Exclusive execution: when two workers can be busy with the same job type at once. */
module Exclusive {
  import opened Models
  import opened StoreSpec
  import opened Protocol
  import opened Claims

  /** The action ends the current run of some job. */
  predicate Closes(s: System, a: Action) {
    var op := OpOf(s, a);
    (op.OpFinish? && s.store.Is(op.id, Running)) || (op.OpRequeue? && CanRequeue(s.store, op.id))
  }

  function EndKind(s: System, a: Action): RunEnd
    requires Closes(s, a)
  {
    if a.TryRequeue? then Requeued
    else if a.TryDeadLetter? then DeadLettered
    else FinishedBy(s.W(a.w).t)
  }

  lemma EndsStep(s: System, a: Action)
    ensures Apply(s, a).history.ends ==
      if Closes(s, a) then s.history.ends[CurrentRun(s.store, OpOf(s, a).id) := EndKind(s, a)] else s.history.ends
  {
  }

  /** The ended runs of job `j` are exactly those before its `attempts`, all ended by a requeue,
      and its last one when the job is terminal. */
  ghost predicate EndOk(s: System, j: int)
    requires j in s.store.jobs
  {
    var job := s.store.jobs[j];
    && (forall a :: 0 <= a < job.attempts ==> Ticket(j, a) in s.history.ends && s.history.ends[Ticket(j, a)] == Requeued)
    && (job.status.Terminal() <==> Ticket(j, job.attempts) in s.history.ends)
    && (job.status.Terminal() ==> LastEndOk(j, job.attempts, s.history.ends[Ticket(j, job.attempts)]))
  }

  /** A last run is dead-lettered, or finished by a worker of this or an earlier run. */
  predicate LastEndOk(j: int, attempts: int, e: RunEnd) {
    e.DeadLettered? || (e.FinishedBy? && e.t.job == j && 0 <= e.t.attempt <= attempts)
  }

  ghost predicate EndsOk(s: System) {
    && (forall j :: j in s.store.jobs ==> EndOk(s, j))
    && (forall t :: t in s.history.ends ==> t.job in s.store.jobs && 0 <= t.attempt <= s.store.jobs[t.job].attempts)
  }

  /** No worker still holds a run that it finished itself. */
  predicate HolderOk(s: System, w: int) {
    s.W(w).Holds() && s.W(w).t in s.history.ends ==> s.history.ends[s.W(w).t] != FinishedBy(s.W(w).t)
  }

  lemma RowAfterClose(s: System, a: Action)
    requires Consistent(s.store) && Closes(s, a)
    ensures var j := OpOf(s, a).id;
      var (p, q) := (s.store, Apply(s, a).store);
      && j in p.jobs && j in q.jobs && p.jobs[j].status.Running? && q.jobs.Keys == p.jobs.Keys
      && q.jobs[j].attempts == p.jobs[j].attempts + (if a.TryRequeue? then 1 else 0)
      && (if a.TryRequeue? then q.jobs[j].status.Queued? else q.jobs[j].status.Terminal())
      && (a.TryRequeue? || a.TryDeadLetter? || (a.End? && s.W(a.w).Holds() && s.W(a.w).t.job == j))
      && forall i :: i in p.jobs && i != j ==> q.jobs[i] == p.jobs[i]
  {
  }

  lemma RowWithoutClose(s: Store, op: Op, now: int, j: int)
    requires j in s.jobs
    requires !(op.OpFinish? && s.Is(op.id, Running)) && !(op.OpRequeue? && CanRequeue(s, op.id))
    requires j != s.nextJob
    ensures var t := ApplyOp(s, op, now);
      && j in t.jobs && t.jobs[j].attempts == s.jobs[j].attempts
      && (t.jobs[j].status.Terminal() <==> s.jobs[j].status.Terminal())
  {
  }

  lemma EndOkAfterClose(s: System, a: Action, j: int)
    requires Consistent(s.store) && TicketsOk(s) && EndsOk(s) && Closes(s, a) && j in s.store.jobs
    ensures j in Apply(s, a).store.jobs && EndOk(Apply(s, a), j)
  {
    EndsStep(s, a);
    RowAfterClose(s, a);
    assert JobOk(s.store, j) && EndOk(s, j);
    assert Ticket(j, s.store.jobs[j].attempts + 1) !in s.history.ends;
    if a.End? {
      assert Issued(s.store, s.W(a.w).t);
    }
    EndOkClosed(s, Apply(s, a), j, OpOf(s, a).id, EndKind(s, a));
  }

  lemma EndOkClosed(s: System, t: System, j: int, id: int, e: RunEnd)
    requires j in s.store.jobs && EndOk(s, j) && j in t.store.jobs && id in s.store.jobs && id in t.store.jobs
    requires 0 <= s.store.jobs[j].attempts && Ticket(j, s.store.jobs[j].attempts + 1) !in s.history.ends
    requires t.history.ends == s.history.ends[CurrentRun(s.store, id) := e]
    requires j != id ==> t.store.jobs[j] == s.store.jobs[j]
    requires s.store.jobs[id].status.Running?
    requires if e.Requeued? then t.store.jobs[id].status.Queued? && t.store.jobs[id].attempts == s.store.jobs[id].attempts + 1
             else t.store.jobs[id].status.Terminal() && t.store.jobs[id].attempts == s.store.jobs[id].attempts
                  && LastEndOk(id, s.store.jobs[id].attempts, e)
    ensures EndOk(t, j)
  {
  }

  lemma EndOkStep(s: System, a: Action, j: int)
    requires Consistent(s.store) && TicketsOk(s) && EndsOk(s) && j in Apply(s, a).store.jobs
    ensures EndOk(Apply(s, a), j)
  {
    StoreStep(s, a);
    if Closes(s, a) {
      RowAfterClose(s, a);
      EndOkAfterClose(s, a, j);
    } else {
      EndsStep(s, a);
      if j in s.store.jobs {
        RowWithoutClose(s.store, OpOf(s, a), s.clock, j);
        assert EndOk(s, j);
      } else {
        NewRowIsQueued(s.store, OpOf(s, a), s.clock, j);
        assert Ticket(j, 0) !in s.history.ends;
      }
    }
  }

  lemma EndsOkStep(s: System, a: Action)
    requires Consistent(s.store) && TicketsOk(s) && EndsOk(s)
    ensures EndsOk(Apply(s, a))
  {
    var s' := Apply(s, a);
    forall j | j in s'.store.jobs
      ensures EndOk(s', j)
    {
      EndOkStep(s, a, j);
    }
    EndsStep(s, a);
    StoreEvolves(s, a);
    if Closes(s, a) {
      RowAfterClose(s, a);
      assert JobOk(s.store, OpOf(s, a).id);
    }
    forall t | t in s'.history.ends
      ensures t.job in s'.store.jobs && 0 <= t.attempt <= s'.store.jobs[t.job].attempts
    {
      assert t in s.history.ends || (Closes(s, a) && t == CurrentRun(s.store, OpOf(s, a).id));
    }
  }

  lemma HolderStep(s: System, a: Action, w: int)
    requires Consistent(s.store) && TicketsOk(s) && EndsOk(s) && HolderOk(s, w)
    ensures HolderOk(Apply(s, a), w)
  {
    TicketMoves(s, a, w);
    EndsStep(s, a);
    WonNotEnded(s, a);
    if Closes(s, a) {
      HolderAfterClose(s, a, w);
    }
  }

  /** A worker that records an outcome lets go of its run. */
  lemma HolderAfterClose(s: System, a: Action, w: int)
    requires Consistent(s.store) && TicketsOk(s) && HolderOk(s, w) && Closes(s, a)
    ensures HolderOk(Apply(s, a), w)
  {
    TicketMoves(s, a, w);
    EndsStep(s, a);
    RowAfterClose(s, a);
  }

  lemma {:induction false} EndsAlways(config: map<string, TypeConfig>, t0: int, acts: seq<Action>)
    ensures var s := Exec(Init(config, t0), acts); Base(s) && TicketsOk(s) && EndsOk(s) && forall w :: HolderOk(s, w)
    decreases |acts|
  {
    TicketsAlways(config, t0, acts);
    if acts != [] {
      var init, last := acts[..|acts| - 1], acts[|acts| - 1];
      EndsAlways(config, t0, init);
      var s := Exec(Init(config, t0), init);
      EndsOkStep(s, last);
      forall w ensures HolderOk(Apply(s, last), w) {
        HolderStep(s, last, w);
      }
    }
  }

  /** The reaper ended run `t` itself, or it had requeued an earlier run of the same job whose
      worker, still alive, then finished run `t`. */
  predicate ReaperEnded(ends: map<Ticket, RunEnd>, t: Ticket) {
    && t in ends
    && (|| ends[t].Requeued?
        || ends[t].DeadLettered?
        || (&& ends[t].FinishedBy? && ends[t].t.job == t.job && ends[t].t.attempt < t.attempt
            && ends[t].t in ends && ends[t.(attempt := ends[t].t.attempt)].Requeued?))
  }

  predicate Before(t: Ticket, u: Ticket) {
    t.job < u.job || (t.job == u.job && t.attempt < u.attempt)
  }

  /** A busy worker's run is its job's current run exactly as long as nothing has ended it. */
  lemma CurrentIffNotEnded(config: map<string, TypeConfig>, t0: int, acts: seq<Action>, w: int)
    requires Exec(Init(config, t0), acts).W(w).Holds()
    ensures var s := Exec(Init(config, t0), acts);
      var t := s.W(w).t;
      && t.job in s.store.jobs
      && (t !in s.history.ends <==> s.store.jobs[t.job].status.Running? && s.store.jobs[t.job].attempts == t.attempt)
  {
    EndsAlways(config, t0, acts);
    var s := Exec(Init(config, t0), acts);
    assert Issued(s.store, s.W(w).t) && EndOk(s, s.W(w).t.job);
  }

  /** Exclusive execution: two workers are busy with the same job type at once only if the
      reaper ended the earlier run, or let a stale worker end it. */
  lemma ExclusiveExecution(config: map<string, TypeConfig>, t0: int, acts: seq<Action>, v: int, w: int)
    requires var s := Exec(Init(config, t0), acts);
      v != w && s.W(v).Holds() && s.W(w).Holds()
    requires var s := Exec(Init(config, t0), acts);
      var (t, u) := (s.W(v).t, s.W(w).t);
      t.job in s.store.jobs && u.job in s.store.jobs ==> s.store.jobs[t.job].jobType == s.store.jobs[u.job].jobType
    ensures var s := Exec(Init(config, t0), acts);
      var (t, u) := (s.W(v).t, s.W(w).t);
      t != u && ReaperEnded(s.history.ends, if Before(t, u) then t else u)
  {
    EndsAlways(config, t0, acts);
    var s := Exec(Init(config, t0), acts);
    if Before(s.W(v).t, s.W(w).t) {
      EarlierRunEnded(s, v, w);
    } else {
      assert s.W(v).t != s.W(w).t;
      EarlierRunEnded(s, w, v);
    }
  }

  lemma EarlierRunEnded(s: System, v: int, w: int)
    requires Base(s) && TicketsOk(s) && EndsOk(s) && HolderOk(s, v)
    requires s.W(v).Holds() && s.W(w).Holds() && Before(s.W(v).t, s.W(w).t)
    requires Issued(s.store, s.W(v).t) && Issued(s.store, s.W(w).t) ==>
      s.store.jobs[s.W(v).t.job].jobType == s.store.jobs[s.W(w).t.job].jobType
    ensures ReaperEnded(s.history.ends, s.W(v).t)
  {
    var t, u := s.W(v).t, s.W(w).t;
    assert Issued(s.store, t) && Issued(s.store, u);
    assert Superseded(s.store, t.job, u.job) && EndOk(s, t.job);
  }

  // ----- when the sharper statement holds ---------------------------------------------------

  /** The action lets a worker record the outcome of a run that is not its own: the row's `attempts`
      has moved on since that worker's claim. */
  predicate StaleFinish(s: System, a: Action) {
    && a.End? && s.W(a.w).Ending? && s.store.Is(s.W(a.w).t.job, Running)
    && s.store.jobs[s.W(a.w).t.job].attempts != s.W(a.w).t.attempt
  }

  /** Every run that a worker finished was finished by its own worker. */
  ghost predicate OwnFinishes(s: System) {
    forall t :: t in s.history.ends && s.history.ends[t].FinishedBy? ==> s.history.ends[t].t == t
  }

  /** An action that ends a run adds one entry, a stale finish an entry of another run. */
  lemma OwnFinishStep(s: System, a: Action)
    requires Consistent(s.store) && EndsOk(s)
    ensures OwnFinishes(Apply(s, a)) <==> OwnFinishes(s) && !StaleFinish(s, a)
  {
    EndsStep(s, a);
    StaleCloses(s, a);
    if Closes(s, a) {
      assert EndOk(s, OpOf(s, a).id);
      OwnAfterEnd(s, Apply(s, a), CurrentRun(s.store, OpOf(s, a).id), EndKind(s, a));
    }
  }

  lemma StaleCloses(s: System, a: Action)
    ensures StaleFinish(s, a) <==>
      Closes(s, a) && EndKind(s, a).FinishedBy? && EndKind(s, a).t != CurrentRun(s.store, OpOf(s, a).id)
    ensures Closes(s, a) ==> s.store.Is(OpOf(s, a).id, Running)
  {
  }

  lemma OwnAfterEnd(s: System, s': System, t: Ticket, e: RunEnd)
    requires t !in s.history.ends && s'.history.ends == s.history.ends[t := e]
    ensures OwnFinishes(s') <==> OwnFinishes(s) && (e.FinishedBy? ==> e.t == t)
  {
    assert s'.history.ends[t] == e;
    assert forall u :: u in s.history.ends ==> u in s'.history.ends && s'.history.ends[u] == s.history.ends[u];
  }

  ghost predicate NoStaleFinish(s: System, acts: seq<Action>) {
    forall i :: 0 <= i < |acts| ==> !StaleFinish(Exec(s, acts[..i]), acts[i])
  }

  /** Every finished run was finished by its own worker exactly when no worker called `complete` or
      `fail` on a running job whose `attempts` had changed since its claim. */
  lemma {:induction false} OwnFinishesIff(config: map<string, TypeConfig>, t0: int, acts: seq<Action>)
    ensures OwnFinishes(Exec(Init(config, t0), acts)) <==> NoStaleFinish(Init(config, t0), acts)
    decreases |acts|
  {
    if acts != [] {
      var init, last := acts[..|acts| - 1], acts[|acts| - 1];
      OwnFinishesIff(config, t0, init);
      EndsAlways(config, t0, init);
      OwnFinishStep(Exec(Init(config, t0), init), last);
      StaleSnoc(Init(config, t0), acts);
    }
  }

  lemma StaleSnoc(s: System, acts: seq<Action>)
    requires acts != []
    ensures var (init, last) := (acts[..|acts| - 1], acts[|acts| - 1]);
      NoStaleFinish(s, acts) <==> NoStaleFinish(s, init) && !StaleFinish(Exec(s, init), last)
  {
    var init := acts[..|acts| - 1];
    assert forall i :: 0 <= i < |init| ==> init[..i] == acts[..i] && init[i] == acts[i];
  }

  // ----- stolen runs ---------------------------------------------------------------------------

  /** A stale finish of a run that some worker still holds. */
  ghost predicate Steals(s: System, a: Action) {
    StaleFinish(s, a) && exists v :: HoldsRun(s, v, CurrentRun(s.store, s.W(a.w).t.job))
  }

  predicate HoldsRun(s: System, w: int, t: Ticket) {
    s.W(w).Holds() && s.W(w).t == t
  }

  predicate Stolen(s: System, w: int) {
    s.W(w).Holds() && s.W(w).t in s.history.ends && s.history.ends[s.W(w).t].FinishedBy?
  }

  /** No busy worker's run has been finished under its hands. */
  ghost predicate NoneStolen(s: System) {
    forall w :: !Stolen(s, w)
  }

  ghost predicate RunsOk(s: System) {
    Consistent(s.store) && TicketsOk(s) && EndsOk(s) && forall w :: HolderOk(s, w)
  }

  lemma StealShows(s: System, a: Action, v: int)
    requires RunsOk(s) && StaleFinish(s, a) && HoldsRun(s, v, CurrentRun(s.store, s.W(a.w).t.job))
    ensures Stolen(Apply(s, a), v) && Apply(s, a).W(v) == s.W(v)
  {
    EndsStep(s, a);
    StaleCloses(s, a);
    EndTouches(s, a.w, v);
  }

  lemma EndTouches(s: System, w: int, v: int)
    requires v != w
    ensures Apply(s, End(w)).W(v) == s.W(v)
  {
  }

  /** A worker that has just won a claim, or keeps a run that was not stolen, has not lost it now
      unless the action steals it. */
  lemma StolenBefore(s: System, a: Action, w: int)
    requires RunsOk(s) && Stolen(Apply(s, a), w) && !Stolen(s, w)
    ensures StaleFinish(s, a) && HoldsRun(s, w, CurrentRun(s.store, s.W(a.w).t.job))
  {
    TicketMoves(s, a, w);
    EndsStep(s, a);
    StaleCloses(s, a);
    WonNotEnded(s, a);
    HolderStep(s, a, w);
  }

  /** A run that is being claimed has not ended. */
  lemma WonNotEnded(s: System, a: Action)
    requires EndsOk(s)
    ensures Won(s, a) ==> CurrentRun(s.store, OpOf(s, a).id) !in s.history.ends
  {
    if Won(s, a) {
      assert EndOk(s, OpOf(s, a).id);
    }
  }

  /** One step: runs stay unstolen exactly when the action does not steal one. */
  lemma StealStep(s: System, a: Action)
    requires RunsOk(s) && NoneStolen(s)
    ensures NoneStolen(Apply(s, a)) <==> !Steals(s, a)
  {
    if Steals(s, a) {
      var v :| HoldsRun(s, v, CurrentRun(s.store, s.W(a.w).t.job));
      StealShows(s, a, v);
    } else {
      forall w
        ensures !Stolen(Apply(s, a), w)
      {
        if Stolen(Apply(s, a), w) {
          StolenBefore(s, a, w);
        }
      }
    }
  }

  ghost predicate NoSteals(s: System, acts: seq<Action>) {
    forall i :: 0 <= i < |acts| ==> !Steals(Exec(s, acts[..i]), acts[i])
  }

  ghost predicate NeverStolen(s: System, acts: seq<Action>) {
    forall i :: 0 <= i <= |acts| ==> NoneStolen(Exec(s, acts[..i]))
  }

  lemma {:induction false} StaysUnstolen(config: map<string, TypeConfig>, t0: int, acts: seq<Action>, i: nat)
    requires NoSteals(Init(config, t0), acts) && i <= |acts|
    ensures NoneStolen(Exec(Init(config, t0), acts[..i]))
    decreases i
  {
    if i > 0 {
      StaysUnstolen(config, t0, acts, i - 1);
      EndsAlways(config, t0, acts[..i - 1]);
      StealStep(Exec(Init(config, t0), acts[..i - 1]), acts[i - 1]);
      ExecNext(Init(config, t0), acts, i - 1);
    }
  }

  /** Every run: no busy worker's run is ever finished by another worker exactly when no worker
      records an outcome on a running row whose `attempts` has moved since its claim while the
      current run's own worker still holds it. */
  lemma NeverStolenIff(config: map<string, TypeConfig>, t0: int, acts: seq<Action>)
    ensures NeverStolen(Init(config, t0), acts) <==> NoSteals(Init(config, t0), acts)
  {
    var s0 := Init(config, t0);
    if NoSteals(s0, acts) {
      forall i | 0 <= i <= |acts| ensures NoneStolen(Exec(s0, acts[..i])) {
        StaysUnstolen(config, t0, acts, i);
      }
    }
    if NeverStolen(s0, acts) {
      forall i | 0 <= i < |acts| ensures !Steals(Exec(s0, acts[..i]), acts[i]) {
        assert NoneStolen(Exec(s0, acts[..i])) && NoneStolen(Exec(s0, acts[..i + 1]));
        EndsAlways(config, t0, acts[..i]);
        StealStep(Exec(s0, acts[..i]), acts[i]);
        ExecNext(s0, acts, i);
      }
    }
  }

  /** Two workers are busy with the same job type, `v` with the earlier run. */
  predicate Together(s: System, v: int, w: int) {
    && s.W(v).Holds() && s.W(w).Holds() && Before(s.W(v).t, s.W(w).t)
    && s.W(v).t.job in s.store.jobs && s.W(w).t.job in s.store.jobs
    && s.store.jobs[s.W(v).t.job].jobType == s.store.jobs[s.W(w).t.job].jobType
  }

  /** The sharp statement: wherever two workers are busy with the same type, the reaper requeued or
      dead-lettered the earlier worker's own run. */
  ghost predicate Sharp(s: System) {
    forall v, w :: Together(s, v, w) ==>
      s.W(v).t in s.history.ends && (s.history.ends[s.W(v).t].Requeued? || s.history.ends[s.W(v).t].DeadLettered?)
  }

  /** In every run without a steal, the sharp statement holds. */
  lemma SharpExclusion(config: map<string, TypeConfig>, t0: int, acts: seq<Action>)
    requires NoSteals(Init(config, t0), acts)
    ensures Sharp(Exec(Init(config, t0), acts))
  {
    var s := Exec(Init(config, t0), acts);
    StaysUnstolen(config, t0, acts, |acts|);
    assert acts[..|acts|] == acts;
    forall v, w | Together(s, v, w)
      ensures s.W(v).t in s.history.ends && !s.history.ends[s.W(v).t].FinishedBy?
    {
      ExclusiveExecution(config, t0, acts, v, w);
      assert !Stolen(s, v);
    }
  }

  /** Run `t` is of type `ty` and the reaper requeued or dead-lettered it. */
  predicate ReapedRun(s: System, ty: string, t: Ticket) {
    && t in s.history.ends && t.job in s.store.jobs && s.store.jobs[t.job].jobType == ty
    && !s.history.ends[t].FinishedBy?
  }

  /** Without a reaper-ended run of that type, at most one worker is busy with the type. */
  lemma ExclusiveUnlessReaped(config: map<string, TypeConfig>, t0: int, acts: seq<Action>, v: int, w: int)
    requires var s := Exec(Init(config, t0), acts);
      && s.W(v).Holds() && s.W(w).Holds()
      && s.W(v).t.job in s.store.jobs && s.W(w).t.job in s.store.jobs
      && s.store.jobs[s.W(v).t.job].jobType == s.store.jobs[s.W(w).t.job].jobType
      && (forall t :: !ReapedRun(s, s.store.jobs[s.W(v).t.job].jobType, t))
    ensures v == w
  {
    if v != w {
      ExclusiveExecution(config, t0, acts, v, w);
      var s := Exec(Init(config, t0), acts);
      var ty := s.store.jobs[s.W(v).t.job].jobType;
      var t := if Before(s.W(v).t, s.W(w).t) then s.W(v).t else s.W(w).t;
      assert !ReapedRun(s, ty, t);
      assert ReapedRun(s, ty, s.history.ends[t].t);
    }
  }
}
