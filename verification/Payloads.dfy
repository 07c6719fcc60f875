/** The payload a run used, over every run of the system. */
module Payloads {
  import opened Models
  import opened StoreSpec
  import opened Effects
  import opened Protocol

  /** The job's type has a configuration row and its `payload` is the effective payload. */
  predicate Snapshotted(s: Store, j: int) {
    j in s.jobs && s.jobs[j].jobType in s.config && s.jobs[j].payload == EffectivePayload(s, j)
  }

  /** Once taken, a snapshot is never altered, by any run of the job. */
  lemma SnapshotStep(s: Store, op: Op, now: int, j: int)
    requires Consistent(s) && Snapshotted(s, j)
    ensures Snapshotted(ApplyOp(s, op, now), j) && EffectivePayload(ApplyOp(s, op, now), j) == EffectivePayload(s, j)
  {
  }

  /** A row becomes `completed` only through a successful `complete`. */
  lemma CompletedStep(s: Store, op: Op, now: int, j: int)
    requires ApplyOp(s, op, now).Is(j, Completed) && !s.Is(j, Completed)
    ensures op == OpFinish(j, true)
  {
  }

  predicate WorkerPayloadOk(s: System, x: Worker) {
    && (x.Resolved? || x.InHandler? ==> Snapshotted(s.store, x.t.job) && x.payload == EffectivePayload(s.store, x.t.job))
    && (x.Ending? && x.ok ==> Snapshotted(s.store, x.t.job))
  }

  ghost predicate PayloadsOk(s: System) {
    && (forall w :: WorkerPayloadOk(s, s.W(w)))
    && (forall j :: s.store.Is(j, Completed) ==> Snapshotted(s.store, j))
  }

  lemma WorkerPayloadFrame(s: System, a: Action, x: Worker)
    requires Consistent(s.store) && WorkerPayloadOk(s, x)
    ensures WorkerPayloadOk(Apply(s, a), x)
  {
    StoreStep(s, a);
    if (x.Resolved? || x.InHandler? || (x.Ending? && x.ok)) {
      SnapshotStep(s.store, OpOf(s, a), s.clock, x.t.job);
    }
  }

  /** A worker's own step needs nothing but its previous payload, or a fresh snapshot. */
  lemma WorkerPayloadMove(s: System, a: Action, w: int)
    requires WorkerPayloadOk(s, s.W(w))
    ensures WorkerPayloadOk(s, Apply(s, a).W(w)) || (a == Resolve(w) && WorkerPayloadOk(Apply(s, a), Apply(s, a).W(w)))
  {
  }

  lemma PayloadsStep(s: System, a: Action)
    requires Base(s) && PayloadsOk(s)
    ensures PayloadsOk(Apply(s, a))
  {
    forall w
      ensures WorkerPayloadOk(Apply(s, a), Apply(s, a).W(w))
    {
      WorkerPayloadMove(s, a, w);
      if WorkerPayloadOk(s, Apply(s, a).W(w)) {
        WorkerPayloadFrame(s, a, Apply(s, a).W(w));
      }
    }
    StoreStep(s, a);
    forall j | Apply(s, a).store.Is(j, Completed)
      ensures Snapshotted(Apply(s, a).store, j)
    {
      if !s.store.Is(j, Completed) {
        CompletedStep(s.store, OpOf(s, a), s.clock, j);
        assert a.End? && WorkerPayloadOk(s, s.W(a.w));
      }
      SnapshotStep(s.store, OpOf(s, a), s.clock, j);
    }
  }

  lemma {:induction false} PayloadsAlways(config: map<string, TypeConfig>, t0: int, acts: seq<Action>)
    ensures PayloadsOk(Exec(Init(config, t0), acts))
    decreases |acts|
  {
    if acts != [] {
      var init, last := acts[..|acts| - 1], acts[|acts| - 1];
      PayloadsAlways(config, t0, init);
      BaseAlways(config, t0, init);
      PayloadsStep(Exec(Init(config, t0), init), last);
    }
  }

  /** Effective payload: in every run, every completed job's type has a configuration row and its
      `payload` is the base configuration overlaid key by key with its input, even when stale
      workers and requeues interleave; and a handler in progress was given exactly that map. */
  lemma EffectivePayloads(config: map<string, TypeConfig>, t0: int, acts: seq<Action>)
    ensures var s := Exec(Init(config, t0), acts);
      && s.store.config == config
      && (forall j :: s.store.Is(j, Completed) ==>
            && s.store.jobs[j].jobType in config
            && KeyByKey(s.store.jobs[j].payload, config[s.store.jobs[j].jobType].payload, s.store.jobs[j].inputPayload))
      && (forall w :: s.W(w).InHandler? ==>
            && s.W(w).t.job in s.store.jobs
            && var job := s.store.jobs[s.W(w).t.job];
            && job.jobType in config && KeyByKey(s.W(w).payload, config[job.jobType].payload, job.inputPayload)
            && job.payload == s.W(w).payload)
  {
    PayloadsAlways(config, t0, acts);
    ConfigFixed(config, t0, acts);
    var s := Exec(Init(config, t0), acts);
    forall w | s.W(w).InHandler?
      ensures Snapshotted(s.store, s.W(w).t.job) && s.W(w).payload == EffectivePayload(s.store, s.W(w).t.job)
    {
      assert WorkerPayloadOk(s, s.W(w));
    }
  }

  lemma {:induction false} ConfigFixed(config: map<string, TypeConfig>, t0: int, acts: seq<Action>)
    ensures Exec(Init(config, t0), acts).store.config == config
    decreases |acts|
  {
    if acts != [] {
      var init, last := acts[..|acts| - 1], acts[|acts| - 1];
      ConfigFixed(config, t0, init);
      BaseAlways(config, t0, init);
      StoreEvolves(Exec(Init(config, t0), init), last);
    }
  }
}
