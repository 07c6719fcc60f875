/** The condition of `SharpExclusion` is exact: after a steal, a new job of the same type can be
    enqueued, published and claimed at once, beside the worker whose run was stolen. */
module Stealing {
  import opened Models
  import opened StoreSpec
  import opened Sequential
  import opened Protocol
  import opened Embedding
  import opened Spare
  import opened Claims
  import opened Exclusive

  /** The sharp statement holds now and in every continuation without a further steal. */
  ghost predicate SharpFrom(s: System) {
    forall more :: NoSteals(s, more) ==> Sharp(Exec(s, more))
  }

  lemma NoStealsConcat(s: System, a: seq<Action>, b: seq<Action>)
    requires NoSteals(s, a) && NoSteals(Exec(s, a), b)
    ensures NoSteals(s, a + b)
  {
    forall i | 0 <= i < |a + b|
      ensures !Steals(Exec(s, (a + b)[..i]), (a + b)[i])
    {
      ConcatPrefix(s, a, b, i);
    }
  }

  /** The run of `v` was stolen, and no job of its type is active. */
  ghost predicate Vacant(s: System, v: int) {
    && Stolen(s, v) && s.W(v).t.job in s.store.jobs
    && !s.store.HasActive(s.store.jobs[s.W(v).t.job].jobType)
  }

  /** A steal ends the only active job of its type. */
  lemma StealVacates(s: System, a: Action, v: int)
    requires Base(s) && RunsOk(s) && StaleFinish(s, a) && HoldsRun(s, v, CurrentRun(s.store, s.W(a.w).t.job))
    ensures Vacant(Apply(s, a), v)
  {
    StealShows(s, a, v);
    StaleCloses(s, a);
    RowAfterClose(s, a);
    StoreEvolves(s, a);
    VacantBy(s, Apply(s, a), v);
  }

  lemma VacantBy(s: System, t: System, v: int)
    requires Consistent(s.store) && Stolen(t, v) && t.W(v) == s.W(v) && s.store.Is(s.W(v).t.job, Running)
    requires Evolves(s.store, t.store) && t.store.jobs.Keys == s.store.jobs.Keys
    requires t.store.jobs[s.W(v).t.job].status.Terminal()
    requires forall i :: i in s.store.jobs && i != s.W(v).t.job ==> t.store.jobs[i] == s.store.jobs[i]
    ensures Vacant(t, v)
  {
    NoOtherActive(s.store, t.store, s.W(v).t.job);
  }

  lemma NoOtherActive(s: Store, t: Store, j: int)
    requires Consistent(s) && s.Is(j, Running) && t.jobs.Keys == s.jobs.Keys && t.jobs[j].status.Terminal()
    requires t.jobs[j].jobType == s.jobs[j].jobType && forall i :: i in s.jobs && i != j ==> t.jobs[i] == s.jobs[i]
    ensures !t.HasActive(t.jobs[j].jobType)
  {
    forall i | i in t.jobs && t.jobs[i].jobType == t.jobs[j].jobType
      ensures !t.jobs[i].status.Active()
    {
      assert Superseded(s, i, j) && Superseded(s, j, i);
    }
  }

  lemma Produced(s: System, ty: string)
    requires Base(s) && !s.store.HasActive(ty)
    ensures var t := Apply(s, Produce(ty, None, None));
      && Base(t) && t.store.Is(s.store.nextJob, Queued) && t.store.jobs[s.store.nextJob].jobType == ty
      && s.store.nextJob !in t.store.published
      && t == s.(store := t.store)
  {
    BaseStep(s, Produce(ty, None, None));
  }

  /** Message `k` offers job `j`, of type `ty`, which is still to be claimed. */
  predicate Offers(t: System, k: int, j: int, ty: string) {
    && 0 <= k < |t.topic| && t.topic[k].env.jobId == j
    && j in t.store.jobs && t.store.jobs[j].status.Claimable() && t.store.jobs[j].jobType == ty
  }

  ghost predicate NoEnds(acts: seq<Action>) {
    forall i :: 0 <= i < |acts| ==> !acts[i].End?
  }

  /** The whole outbox is taken to the topic, the row of `j` included. */
  lemma OfferJob(s: System, n: int, j: int) returns (acts: seq<Action>, k: int)
    requires Base(s) && s.D(n) == Dispatcher([], false) && s.store.Is(j, Queued) && j !in s.store.published
    ensures var t := Exec(s, acts);
      NoEnds(acts) && t.workers == s.workers && t.history == s.history && Offers(t, k, j, s.store.jobs[j].jobType)
  {
    acts := DrainOutbox(s, n);
    k := RowListed(s, j);
    NewJobOffered(s, Exec(s, acts), j, k);
    k := |s.topic| + k;
  }

  /** Enqueue a job of the type and offer it. */
  lemma OfferNewJob(s: System, n: int, ty: string) returns (acts: seq<Action>, k: int)
    requires Base(s) && s.D(n) == Dispatcher([], false) && !s.store.HasActive(ty)
    ensures var t := Exec(s, acts);
      NoEnds(acts) && t.workers == s.workers && t.history == s.history && Offers(t, k, s.store.nextJob, ty)
  {
    var a := Produce(ty, None, None);
    Produced(s, ty);
    var drain, m := OfferJob(Apply(s, a), n, s.store.nextJob);
    ExecFirst(s, a, drain);
    acts, k := [a] + drain, m;
  }

  lemma RowListed(s: System, j: int) returns (i: int)
    requires Consistent(s.store) && j in s.store.jobs && j !in s.store.published
    ensures 0 <= i < |Unpublished(s.store)| && Unpublished(s.store)[i].id == j && Unpublished(s.store)[i].payload.jobId == j
  {
    UnpublishedExact(s.store, s.store.nextOutbox);
    assert RowOk(s.store, j);
    i :| 0 <= i < |Unpublished(s.store)| && Unpublished(s.store)[i] == s.store.outbox[j];
  }

  lemma NewJobOffered(s: System, t: System, j: int, i: int)
    requires s.store.Is(j, Queued) && t.topic == s.topic + Fresh(Unpublished(s.store))
    requires Alike(t.store, AfterMarks(s.store, RowIds(Unpublished(s.store))))
    requires 0 <= i < |Unpublished(s.store)| && Unpublished(s.store)[i].payload.jobId == j
    ensures Offers(t, |s.topic| + i, j, s.store.jobs[j].jobType)
  {
    assert j in t.store.jobs;
    assert EraseJob(t.store.jobs[j]) == EraseJob(AfterMarks(s.store, RowIds(Unpublished(s.store))).jobs[j]);
  }

  /** A spare worker polls and claims message `k`. */
  lemma ClaimNewJob(s: System, n: int, k: int)
    requires s.W(n).Waiting? && 0 <= k < |s.topic| && s.topic[k].env.jobId in s.store.jobs
    requires s.store.jobs[s.topic[k].env.jobId].status.Claimable()
    ensures var t := Exec(s, [Poll(n, k), TryClaim(n)]);
      && t.W(n).Holds() && t.W(n).t.job == s.topic[k].env.jobId
      && (forall v :: v != n ==> t.W(v) == s.W(v)) && t.history.ends == s.history.ends
      && (forall i :: i in s.store.jobs ==> i in t.store.jobs && t.store.jobs[i].jobType == s.store.jobs[i].jobType)
  {
    ExecTwo(s, Poll(n, k), TryClaim(n));
    assert Apply(Apply(s, Poll(n, k)), TryClaim(n)) == DoClaim(DoPoll(s, n, k), n);
  }

  lemma VacantNotSharp(s: System, v: int, n: int)
    requires Base(s) && Vacant(s, v) && s.D(n) == Dispatcher([], false) && s.W(n).Waiting?
    ensures !SharpFrom(s)
  {
    var ty := s.store.jobs[s.W(v).t.job].jobType;
    var a, k := OfferNewJob(s, n, ty);
    var t := Exec(s, a);
    var b := [Poll(n, k), TryClaim(n)];
    ClaimNewJob(t, n, k);
    ExecConcat(s, a, b);
    RunKeepsJobs(s, a);
    assert Together(Exec(s, a + b), v, n);
    NoEndsNoSteals(s, a + b);
  }

  lemma NoEndsNoSteals(s: System, acts: seq<Action>)
    requires NoEnds(acts)
    ensures NoSteals(s, acts)
  {
  }

  lemma {:induction false} RunKeepsJobs(s: System, acts: seq<Action>)
    requires Base(s)
    ensures Evolves(s.store, Exec(s, acts).store)
    decreases |acts|
  {
    if acts != [] {
      var init, last := acts[..|acts| - 1], acts[|acts| - 1];
      RunKeepsJobs(s, init);
      BaseRun(s, init);
      StoreEvolves(Exec(s, init), last);
      EvolvesTransitive(s.store, Exec(s, init).store, Exec(s, acts).store);
    }
  }

  lemma StealNotSharp(config: map<string, TypeConfig>, t0: int, acts: seq<Action>, i: nat)
    requires i < |acts| && Steals(Exec(Init(config, t0), acts[..i]), acts[i])
    ensures !SharpFrom(Exec(Init(config, t0), acts[..i + 1]))
  {
    var s, a := Exec(Init(config, t0), acts[..i]), acts[i];
    EndsAlways(config, t0, acts[..i]);
    var v :| HoldsRun(s, v, CurrentRun(s.store, s.W(a.w).t.job));
    StealVacates(s, a, v);
    BaseStep(s, a);
    ExecNext(Init(config, t0), acts, i);
    var n := IdleBound(config, t0, acts[..i + 1]);
    assert Apply(s, a).D(n) == Dispatcher([], false) && Apply(s, a).W(n).Waiting?;
    VacantNotSharp(Apply(s, a), v, n);
  }

  /** The exact condition: the sharp statement holds at every point of a run, and in every
      continuation from there without a further steal, if and only if the run has no steal. */
  lemma SharpIff(config: map<string, TypeConfig>, t0: int, acts: seq<Action>)
    ensures NoSteals(Init(config, t0), acts) <==>
      forall i :: 0 <= i <= |acts| ==> SharpFrom(Exec(Init(config, t0), acts[..i]))
  {
    var s0 := Init(config, t0);
    if NoSteals(s0, acts) {
      forall i | 0 <= i <= |acts|
        ensures SharpFrom(Exec(s0, acts[..i]))
      {
        SharpWithoutSteals(config, t0, acts, i);
      }
    } else {
      var i :| 0 <= i < |acts| && Steals(Exec(s0, acts[..i]), acts[i]);
      StealNotSharp(config, t0, acts, i);
    }
  }

  lemma SharpWithoutSteals(config: map<string, TypeConfig>, t0: int, acts: seq<Action>, i: int)
    requires NoSteals(Init(config, t0), acts) && 0 <= i <= |acts|
    ensures SharpFrom(Exec(Init(config, t0), acts[..i]))
  {
    var s0, init := Init(config, t0), acts[..i];
    assert forall k :: 0 <= k < i ==> init[..k] == acts[..k];
    forall more | NoSteals(Exec(s0, init), more)
      ensures Sharp(Exec(Exec(s0, init), more))
    {
      NoStealsConcat(s0, init, more);
      ExecConcat(s0, init, more);
      SharpExclusion(config, t0, init + more);
    }
  }
}
