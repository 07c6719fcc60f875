/** Where the contents of the tables come from, over every run: each row belongs to one call of a
    producer and carries what that call gave, `updated_at` is the time of the latest write, and caps
    and timeouts are those of the configuration the run started with. */
module Provenance {
  import opened Models
  import opened StoreSpec
  import opened Effects
  import opened Protocol
  import opened Claims
  import opened Payloads

  /** The action is a producer's call that is accepted. */
  ghost predicate Accepted(s: System, a: Action) {
    a.Produce? && NoneActive(s.store, a.ty)
  }

  /** How many calls of producers have been accepted along the run. */
  ghost function Births(s: System, acts: seq<Action>): nat
    decreases |acts|
  {
    if acts == [] then 0
    else
      var init := acts[..|acts| - 1];
      Births(s, init) + if Accepted(Exec(s, init), acts[|acts| - 1]) then 1 else 0
  }

  lemma BirthStep(s: System, a: Action)
    requires Consistent(s.store)
    ensures Apply(s, a).store.nextJob == s.store.nextJob + if Accepted(s, a) then 1 else 0
    ensures Accepted(s, a) ==>
      && s.store.nextJob in Apply(s, a).store.jobs
      && Born(Apply(s, a).store.jobs[s.store.nextJob], a.ty, a.input, a.creator, s.clock)
  {
    StoreStep(s, a);
    if a.Produce? {
      ActiveOrNone(s.store, a.ty);
      RowTable(s.store, OpOf(s, a), s.clock, s.store.nextJob);
    }
  }

  lemma {:induction false} BirthsCount(config: map<string, TypeConfig>, t0: int, acts: seq<Action>)
    ensures Exec(Init(config, t0), acts).store.nextJob == Births(Init(config, t0), acts) + 1
    decreases |acts|
  {
    if acts != [] {
      var init := acts[..|acts| - 1];
      BirthsCount(config, t0, init);
      BaseAlways(config, t0, init);
      BirthStep(Exec(Init(config, t0), init), acts[|acts| - 1]);
    }
  }

  /** The k-th action is the accepted call that made job `j`, the one after `j - 1` earlier ones, and
      the row still carries what that call gave. */
  ghost predicate MadeBy(s0: System, acts: seq<Action>, k: int, j: int) {
    && 0 <= k < |acts| && Accepted(Exec(s0, acts[..k]), acts[k])
    && j == Births(s0, acts[..k]) + 1
    && var jobs := Exec(s0, acts).store.jobs;
    && j in jobs
    && Born(jobs[j], acts[k].ty, acts[k].input, acts[k].creator, Exec(s0, acts[..k]).clock)
  }

  /** An accepted call is remembered: however the run goes on, its row is there with its contents. */
  lemma CallsAreKept(config: map<string, TypeConfig>, t0: int, acts: seq<Action>, k: nat)
    requires k < |acts| && Accepted(Exec(Init(config, t0), acts[..k]), acts[k])
    ensures MadeBy(Init(config, t0), acts, k, Births(Init(config, t0), acts[..k]) + 1)
  {
    var s0 := Init(config, t0);
    BaseAlways(config, t0, acts[..k]);
    BirthsCount(config, t0, acts[..k]);
    BirthStep(Exec(s0, acts[..k]), acts[k]);
    ExecNext(s0, acts, k);
    DurableHistory(config, t0, acts, k + 1);
  }

  /** And every row comes from such a call. */
  lemma {:induction false} RowsAreMade(config: map<string, TypeConfig>, t0: int, acts: seq<Action>, j: int) returns (k: nat)
    requires j in Exec(Init(config, t0), acts).store.jobs
    ensures MadeBy(Init(config, t0), acts, k, j)
    decreases |acts|
  {
    var s0 := Init(config, t0);
    var init := acts[..|acts| - 1];
    if j in Exec(s0, init).store.jobs {
      k := RowsAreMade(config, t0, init, j);
      assert init[..k] == acts[..k];
    } else {
      k := |acts| - 1;
      BaseAlways(config, t0, init);
      BaseAlways(config, t0, acts);
      BirthsCount(config, t0, init);
      BirthStep(Exec(s0, init), acts[k]);
    }
    CallsAreKept(config, t0, acts, k);
  }

  /** Jobs and accepted calls correspond one to one, in order: the ids in the table are 1, 2, ... up to
      the number of accepted calls, and every row was made by the call of its number, whose type,
      input, creator and time it carries. `CallsAreKept` is the other direction. */
  lemma Provenance(config: map<string, TypeConfig>, t0: int, acts: seq<Action>, j: int)
    ensures var s0 := Init(config, t0);
      && (j in Exec(s0, acts).store.jobs <==> 1 <= j <= Births(s0, acts))
      && (j in Exec(s0, acts).store.jobs ==> exists k :: MadeBy(s0, acts, k, j))
  {
    BaseAlways(config, t0, acts);
    BirthsCount(config, t0, acts);
    if j in Exec(Init(config, t0), acts).store.jobs {
      var k := RowsAreMade(config, t0, acts, j);
    }
  }

  /** The base configuration of the call's type overlaid, key by key, with the input of the call. */
  ghost predicate FromCall(p: Payload, config: map<string, TypeConfig>, call: Action)
    requires call.Produce?
  {
    && call.ty in config
    && (call.input.Some? ==> KeyByKey(p, config[call.ty].payload, call.input.value))
    && (call.input.None? ==> p == config[call.ty].payload)
  }

  /** From the producer to the outcome: whatever interleaves, the payload of a completed job is made
      from the input of the call that made the job. */
  lemma CompletedFromCall(config: map<string, TypeConfig>, t0: int, acts: seq<Action>, k: int, j: int)
    requires MadeBy(Init(config, t0), acts, k, j) && Exec(Init(config, t0), acts).store.Is(j, Completed)
    ensures FromCall(Exec(Init(config, t0), acts).store.jobs[j].payload, config, acts[k])
  {
    EffectivePayloads(config, t0, acts);
    var job := Exec(Init(config, t0), acts).store.jobs[j];
    OverlayFromCall(job.payload, config, job, acts[k], Exec(Init(config, t0), acts[..k]).clock);
  }

  /** And so is the payload that a handler of the job is given. */
  lemma HandlerFromCall(config: map<string, TypeConfig>, t0: int, acts: seq<Action>, k: int, w: int)
    requires var s := Exec(Init(config, t0), acts);
      s.W(w).InHandler? && MadeBy(Init(config, t0), acts, k, s.W(w).t.job)
    ensures FromCall(Exec(Init(config, t0), acts).W(w).payload, config, acts[k])
  {
    EffectivePayloads(config, t0, acts);
    var s := Exec(Init(config, t0), acts);
    OverlayFromCall(s.W(w).payload, config, s.store.jobs[s.W(w).t.job], acts[k], Exec(Init(config, t0), acts[..k]).clock);
  }

  lemma OverlayFromCall(p: Payload, config: map<string, TypeConfig>, job: Job, call: Action, at: int)
    requires call.Produce? && Born(job, call.ty, call.input, call.creator, at)
    requires job.jobType in config && KeyByKey(p, config[job.jobType].payload, job.inputPayload)
    ensures FromCall(p, config, call)
  {
    if call.input.None? {
      assert p == config[job.jobType].payload;
    }
  }

  // ----- updated_at ----------------------------------------------------------------------------------

  /** The clock at the latest action that wrote row `j`. */
  ghost function LastWrite(s: System, acts: seq<Action>, j: int): int
    decreases |acts|
  {
    if acts == [] then s.clock
    else
      var p := Exec(s, acts[..|acts| - 1]);
      if Writes(p.store, OpOf(p, acts[|acts| - 1]), j) then p.clock
      else LastWrite(s, acts[..|acts| - 1], j)
  }

  /** In every run `updated_at` is the time of the latest write of the row: acceptance, mark, claim,
      payload snapshot, outcome or requeue. In particular a successful `resolve_payload` renews it. */
  lemma {:induction false} UpdatedAtExact(config: map<string, TypeConfig>, t0: int, acts: seq<Action>, j: int)
    requires j in Exec(Init(config, t0), acts).store.jobs
    ensures Exec(Init(config, t0), acts).store.jobs[j].updatedAt == LastWrite(Init(config, t0), acts, j)
    decreases |acts|
  {
    var init, last := acts[..|acts| - 1], acts[|acts| - 1];
    var s := Exec(Init(config, t0), init);
    BaseAlways(config, t0, init);
    StoreStep(s, last);
    RowTable(s.store, OpOf(s, last), s.clock, j);
    if !Writes(s.store, OpOf(s, last), j) {
      UpdatedAtExact(config, t0, init, j);
    }
  }

  // ----- types without a configuration row -----------------------------------------------------------

  ghost predicate EntriesConfigured(s: System) {
    forall i :: 0 <= i < |s.history.entries| ==> ConfiguredJob(s.store, s.history.entries[i].job)
  }

  predicate ConfiguredJob(s: Store, j: int) {
    j in s.jobs && s.jobs[j].jobType in s.config
  }

  lemma EntryConfigured(s: System, a: Action)
    requires Base(s) && PayloadsOk(s) && EntriesConfigured(s)
    ensures EntriesConfigured(Apply(s, a))
  {
    EntriesStep(s, a);
    StoreEvolves(s, a);
    if a.Enter? {
      assert WorkerPayloadOk(s, s.W(a.w));
    }
  }

  lemma {:induction false} EntriesAlways(config: map<string, TypeConfig>, t0: int, acts: seq<Action>)
    ensures EntriesConfigured(Exec(Init(config, t0), acts))
    decreases |acts|
  {
    if acts != [] {
      var init := acts[..|acts| - 1];
      EntriesAlways(config, t0, init);
      BaseAlways(config, t0, init);
      PayloadsAlways(config, t0, init);
      EntryConfigured(Exec(Init(config, t0), init), acts[|acts| - 1]);
    }
  }

  /** A job whose type has no configuration row never enters a handler and never completes. */
  lemma UnconfiguredNeverRuns(config: map<string, TypeConfig>, t0: int, acts: seq<Action>, j: int)
    requires var s := Exec(Init(config, t0), acts).store; j in s.jobs && s.jobs[j].jobType !in config
    ensures Count(Exec(Init(config, t0), acts).history.entries, j) == 0
    ensures Exec(Init(config, t0), acts).store.jobs[j].status != Completed
  {
    EntriesAlways(config, t0, acts);
    EffectivePayloads(config, t0, acts);
    var s := Exec(Init(config, t0), acts);
    forall i | 0 <= i < |s.history.entries|
      ensures s.history.entries[i].job != j
    {
      assert ConfiguredJob(s.store, s.history.entries[i].job);
    }
    CountNone(s.history.entries, j);
  }
}
