/** No lost job, and the exact condition under which a requeue is safe. */
module NoLostJob {
  import opened Models
  import opened StoreSpec
  import opened Protocol

  /** Some message of job `j` on the topic has not yet been offered to `claim`. */
  ghost predicate Unoffered(s: System, j: int) {
    exists k :: UnofferedAt(s, k, j)
  }

  predicate UnofferedAt(s: System, k: int, j: int) {
    0 <= k < |s.topic| && s.topic[k].env.jobId == j && !s.topic[k].offered
  }

  /** Dispatcher `d` has published job `j`'s row and not yet marked it. */
  predicate OpenOn(s: System, d: int, j: int) {
    s.D(d).batch != [] && s.D(d).open && s.D(d).batch[0].jobId == j
  }

  ghost predicate Window(s: System, j: int) {
    exists d :: OpenOn(s, d, j)
  }

  /** A queued job will be published, a dispatched one will be delivered. */
  ghost predicate NotLost(s: System, j: int) {
    && (s.store.Is(j, Queued) ==> j !in s.store.published && (Window(s, j) ==> Unoffered(s, j)))
    && (s.store.Is(j, Dispatched) ==> Unoffered(s, j))
  }

  /** The action requeues job `j`. */
  predicate Requeues(s: System, a: Action, j: int) {
    OpOf(s, a) == OpRequeue(j) && CanRequeue(s.store, j)
  }

  /** The action requeues `j` inside an open publish/mark window of `j` when every message of
      `j` has already been offered. */
  ghost predicate Hazard(s: System, a: Action, j: int) {
    Requeues(s, a, j) && Window(s, j) && !Unoffered(s, j)
  }

  // ----- one step --------------------------------------------------------------------

  /** An unoffered message stays unoffered until a claim of its job is attempted. */
  lemma UnofferedStep(s: System, a: Action, j: int)
    requires Unoffered(s, j) && OpOf(s, a) != OpClaim(j)
    ensures Unoffered(Apply(s, a), j)
  {
    var k :| UnofferedAt(s, k, j);
    assert UnofferedAt(Apply(s, a), k, j);
  }

  /** No step but a publication makes a message that is not offered. */
  lemma NoNewUnoffered(s: System, a: Action, j: int)
    requires !Unoffered(s, j) && !a.Publish?
    ensures !Unoffered(Apply(s, a), j)
  {
    forall k
      ensures !UnofferedAt(Apply(s, a), k, j)
    {
      assert !UnofferedAt(s, k, j);
    }
  }

  /** A window is open because it was, or because its message has just been published. */
  lemma WindowStep(s: System, a: Action, j: int)
    requires Base(s) && Window(Apply(s, a), j)
    ensures Window(s, j) || (a.Publish? && Unoffered(Apply(s, a), j))
  {
    var s' := Apply(s, a);
    var d :| OpenOn(s', d, j);
    if OpenOn(s, d, j) {
    } else {
      assert a == Publish(d);
      assert RowsOk(s.store, s.D(d).batch) && RowOk(s.store, s.D(d).batch[0].id);
      assert UnofferedAt(s', |s.topic|, j);
    }
  }

  /** How a row can come to be queued. */
  lemma QueuedStep(s: Store, op: Op, now: int, j: int)
    requires Consistent(s) && ApplyOp(s, op, now).Is(j, Queued)
    requires op.OpMark? ==> op.outboxId == op.jobId
    ensures op != OpClaim(j)
    ensures || (s.Is(j, Queued) && (j in ApplyOp(s, op, now).published ==> j in s.published))
            || (j == s.nextJob && j !in s.jobs && ApplyOp(s, op, now).published == s.published)
            || (op == OpRequeue(j) && CanRequeue(s, j) && j !in ApplyOp(s, op, now).published)
  {
    if j in s.jobs {
      RowsOfJob(s, j);
    }
  }

  lemma DispatchedStep(s: Store, op: Op, now: int, j: int)
    requires Consistent(s) && ApplyOp(s, op, now).Is(j, Dispatched)
    ensures op != OpClaim(j)
    ensures s.Is(j, Dispatched) || (s.Is(j, Queued) && op.OpMark? && op.jobId == j)
  {
  }

  lemma MarkNamesRow(s: System, a: Action)
    requires Base(s) && OpOf(s, a).OpMark?
    ensures OpOf(s, a).outboxId == OpOf(s, a).jobId && Window(s, OpOf(s, a).jobId)
  {
    assert RowsOk(s.store, s.D(a.d).batch) && RowOk(s.store, s.D(a.d).batch[0].id);
    assert OpenOn(s, a.d, OpOf(s, a).jobId);
  }

  lemma NoWindowOnNewJob(s: System, j: int)
    requires Base(s) && j !in s.store.jobs
    ensures !Window(s, j)
  {
  }

  lemma QueuedNotLost(s: System, a: Action, j: int)
    requires Base(s) && NotLost(s, j) && !Hazard(s, a, j) && Apply(s, a).store.Is(j, Queued)
    ensures j !in Apply(s, a).store.published && (Window(Apply(s, a), j) ==> Unoffered(Apply(s, a), j))
  {
    StoreStep(s, a);
    if OpOf(s, a).OpMark? {
      MarkNamesRow(s, a);
    }
    QueuedStep(s.store, OpOf(s, a), s.clock, j);
    if j !in s.store.jobs {
      NoWindowOnNewJob(s, j);
    }
    if Window(Apply(s, a), j) {
      WindowStep(s, a, j);
      if Unoffered(s, j) {
        UnofferedStep(s, a, j);
      }
    }
  }

  lemma NotLostStep(s: System, a: Action, j: int)
    requires Base(s) && NotLost(s, j) && !Hazard(s, a, j)
    ensures NotLost(Apply(s, a), j)
  {
    if Apply(s, a).store.Is(j, Queued) {
      QueuedNotLost(s, a, j);
    }
    if Apply(s, a).store.Is(j, Dispatched) {
      StoreStep(s, a);
      DispatchedStep(s.store, OpOf(s, a), s.clock, j);
      if OpOf(s, a).OpMark? {
        MarkNamesRow(s, a);
      }
      UnofferedStep(s, a, j);
    }
  }

  // ----- every run -------------------------------------------------------------------

  /** No requeue of `j` along the run was hazardous. */
  ghost predicate Benign(s: System, acts: seq<Action>, j: int) {
    forall i :: 0 <= i < |acts| ==> !Hazard(Exec(s, acts[..i]), acts[i], j)
  }

  lemma {:induction false} NotLostRun(s: System, acts: seq<Action>, j: int)
    requires Base(s) && NotLost(s, j) && Benign(s, acts, j)
    ensures Base(Exec(s, acts)) && NotLost(Exec(s, acts), j)
    decreases |acts|
  {
    if acts != [] {
      var init, last := acts[..|acts| - 1], acts[|acts| - 1];
      forall i | 0 <= i < |init|
        ensures !Hazard(Exec(s, init[..i]), init[i], j)
      {
        assert init[..i] == acts[..i];
      }
      NotLostRun(s, init, j);
      BaseStep(Exec(s, init), last);
      NotLostStep(Exec(s, init), last, j);
    }
  }

  /** No lost job: in every run, whatever crashes, duplicates and interleaves, a queued job's outbox
      row is unpublished and a dispatched job has a message not yet offered to `claim`, provided no
      requeue of that job fell into an open window of it with all its messages offered. */
  lemma NoLostJob(config: map<string, TypeConfig>, t0: int, acts: seq<Action>, j: int)
    requires Benign(Init(config, t0), acts, j)
    ensures var s := Exec(Init(config, t0), acts);
      && (s.store.Is(j, Queued) ==> j !in s.store.published)
      && (s.store.Is(j, Dispatched) ==> exists k :: UnofferedAt(s, k, j))
  {
    BaseAlways(config, t0, []);
    NotLostRun(Init(config, t0), acts, j);
  }

  /** In every run without hazardous requeues, a drained outbox, no unoffered message and no running
      job mean that every job is terminal. */
  lemma QuiescentMeansDone(config: map<string, TypeConfig>, t0: int, acts: seq<Action>)
    requires forall j :: Benign(Init(config, t0), acts, j)
    requires var s := Exec(Init(config, t0), acts);
      && (forall j :: j in s.store.jobs ==> j in s.store.published && !s.store.Is(j, Running))
      && (forall k :: 0 <= k < |s.topic| ==> s.topic[k].offered)
    ensures var s := Exec(Init(config, t0), acts);
      forall j :: j in s.store.jobs ==> s.store.jobs[j].status.Terminal()
  {
    var s := Exec(Init(config, t0), acts);
    forall j | j in s.store.jobs
      ensures s.store.jobs[j].status.Terminal()
    {
      NoLostJob(config, t0, acts, j);
    }
  }

  // ----- the condition is exact --------------------------------------------------------

  /** A requeue of `j` keeps the promise exactly when it is not hazardous. */
  lemma RequeueSafeIff(s: System, a: Action, j: int)
    requires Base(s) && NotLost(s, j) && Requeues(s, a, j)
    ensures NotLost(Apply(s, a), j) <==> !(Window(s, j) && !Unoffered(s, j))
  {
    if Window(s, j) && !Unoffered(s, j) {
      var d :| OpenOn(s, d, j);
      assert OpenOn(Apply(s, a), d, j);
      NoNewUnoffered(s, a, j);
      StoreStep(s, a);
    } else {
      NotLostStep(s, a, j);
    }
  }

  /** After a hazardous requeue, the pending mark alone loses the job: it is dispatched, its row is
      published, and every message of it has been offered already. */
  lemma HazardLosesJob(s: System, a: Action, j: int, d: int)
    requires Base(s) && Hazard(s, a, j) && OpenOn(s, d, j)
    ensures var s' := Apply(Apply(s, a), Mark(d));
      s'.store.Is(j, Dispatched) && j in s'.store.published && !Unoffered(s', j)
  {
    var s1 := Apply(s, a);
    BaseStep(s, a);
    NoNewUnoffered(s, a, j);
    NoNewUnoffered(s1, Mark(d), j);
    StoreStep(s, a);
    assert OpenOn(s1, d, j);
    MarkNamesRow(s1, Mark(d));
    StoreStep(s1, Mark(d));
  }
}
