/** The process-local store (common/store.py, class InMemoryStore), with its dictionaries as
    map fields that the operations reassign. Every method is proved against the function of
    the same name in `StoreSpec`. Dictionaries are walked in insertion order, which is
    ascending id because ids come from counters. */
module InMemoryStore {
  import opened Models
  import opened StoreSpec
  import opened Effects

  ghost function RowsBelow(s: Store, id: int, n: int): set<int> {
    set k | k in RowsOf(s, id) && k < n
  }

  class InMemoryStore {
    var jobs: map<int, Job>
    var outbox: map<int, OutboxMessage>
    var published: set<int>
    var typeConfig: map<string, TypeConfig>
    var nextJob: int
    var nextOutbox: int

    ghost function State(): Store
      reads this
    {
      Store(jobs, outbox, published, typeConfig, nextJob, nextOutbox)
    }

    ghost predicate Valid()
      reads this
    {
      Consistent(State())
    }

    constructor (config: map<string, TypeConfig>)
      ensures Valid() && State() == Empty(config)
    {
      jobs, outbox, published := map[], map[], {};
      typeConfig := config;
      nextJob, nextOutbox := 1, 1;
    }

    method Timeout(ty: string) returns (r: int)
      ensures r == State().Timeout(ty) == if ty in typeConfig then typeConfig[ty].runTimeout else 900
    {
      r := if ty in typeConfig then typeConfig[ty].runTimeout else DEFAULT_RUN_TIMEOUT;
    }

    method MaxAttempts(ty: string) returns (r: int)
      ensures r == State().MaxAttempts(ty) == if ty in typeConfig then typeConfig[ty].maxAttempts else 3
    {
      r := if ty in typeConfig then typeConfig[ty].maxAttempts else DEFAULT_MAX_ATTEMPTS;
    }

    /** The linear scan behind dedup. */
    method Active(ty: string) returns (found: bool)
      requires Valid()
      ensures found <==> exists i :: i in jobs && jobs[i].jobType == ty && jobs[i].status.Active()
    {
      found := false;
      for i := 1 to nextJob
        invariant !found
        invariant forall k :: 1 <= k < i ==> !(jobs[k].jobType == ty && jobs[k].status.Active())
      {
        if jobs[i].jobType == ty && jobs[i].status.Active() {
          return true;
        }
      }
    }

    method EnqueueJob(ty: string, input: Option<Payload>, creator: Option<Creator>, now: int)
      returns (r: Option<int>)
      requires Valid()
      modifies this
      ensures Valid()
      ensures (State(), r) == Enqueue(old(State()), ty, input, creator, now)
      ensures r.None? <==> old(State()).HasActive(ty)
      ensures r.Some? ==> r.value in jobs && NewRow(jobs[r.value], r.value, ty, input, creator, now)
    {
      EnqueueKeeps(State(), ty, input, creator, now);
      AcceptedRow(State(), ty, input, creator, now);
      var active := Active(ty);
      if active {
        return None;
      }
      var jobId := nextJob;
      nextJob := nextJob + 1;
      jobs := jobs[jobId := NewJob(jobId, ty, input, creator, now)];
      var outboxId := nextOutbox;
      nextOutbox := nextOutbox + 1;
      outbox := outbox[outboxId := OutboxMessage(outboxId, jobId, Envelope(jobId, ty))];
      r := Some(jobId);
      assert State() == Enqueue(old(State()), ty, input, creator, now).0;
    }

    method FetchRows(limit: int) returns (r: seq<OutboxMessage>)
      requires Valid()
      ensures r == FetchUnpublished(State(), limit)
    {
      var rows := [];
      for i := 1 to nextOutbox
        invariant rows == UnpublishedBelow(State(), i)
      {
        if i !in published {
          rows := rows + [outbox[i]];
        }
      }
      r := Slice(rows, limit);
    }

    method MarkRowDispatched(outboxId: int, jobId: int, now: int)
      requires Valid()
      modifies this
      ensures Valid()
      ensures State() == MarkDispatched(old(State()), outboxId, jobId, now)
    {
      MarkKeeps(State(), outboxId, jobId, now);
      published := published + {outboxId};
      if jobId in jobs && jobs[jobId].status == Queued {
        jobs := jobs[jobId := jobs[jobId].(status := Dispatched, updatedAt := now)];
      }
    }

    method ClaimJob(id: int, now: int) returns (won: bool)
      requires Valid()
      modifies this
      ensures Valid()
      ensures (State(), won) == Claim(old(State()), id, now)
    {
      ClaimKeeps(State(), id, now);
      if id in jobs && (jobs[id].status == Queued || jobs[id].status == Dispatched) {
        jobs := jobs[id := jobs[id].(status := Running, updatedAt := now)];
        return true;
      }
      won := false;
    }

    method Resolve(id: int, ty: string, now: int) returns (r: Option<Payload>)
      requires Valid()
      modifies this
      ensures Valid()
      ensures (State(), r) == ResolvePayload(old(State()), id, ty, now)
      ensures r.Some? <==> id in old(jobs) && old(jobs)[id].status == Running && old(jobs)[id].jobType in typeConfig
      ensures r.Some? ==>
        && jobs == old(jobs)[id := old(jobs)[id].(payload := r.value, updatedAt := now)]
        && KeyByKey(r.value, typeConfig[jobs[id].jobType].payload, jobs[id].inputPayload)
    {
      ResolveKeeps(State(), id, ty, now);
      if id !in jobs || jobs[id].status != Running {
        return None;
      }
      var job := jobs[id];
      if job.jobType !in typeConfig {
        return None;
      }
      var p := Overlay(typeConfig[job.jobType].payload, job.inputPayload);
      jobs := jobs[id := job.(payload := p, updatedAt := now)];
      r := Some(p);
    }

    method Complete(id: int, now: int) returns (done: bool)
      requires Valid()
      modifies this
      ensures Valid()
      ensures (State(), done) == Finish(old(State()), id, true, now)
    {
      done := End(id, Completed, now);
    }

    method Fail(id: int, now: int) returns (done: bool)
      requires Valid()
      modifies this
      ensures Valid()
      ensures (State(), done) == Finish(old(State()), id, false, now)
    {
      done := End(id, Failed, now);
    }

    /** `_terminal`. */
    method End(id: int, status: Status, now: int) returns (done: bool)
      requires Valid() && status.Terminal()
      modifies this
      ensures Valid()
      ensures (State(), done) == Finish(old(State()), id, status.Completed?, now)
    {
      FinishKeeps(State(), id, status.Completed?, now);
      if id in jobs && jobs[id].status == Running {
        jobs := jobs[id := jobs[id].(status := status, updatedAt := now)];
        return true;
      }
      done := false;
    }

    method FindStuckRuns(now: int) returns (stuck: seq<StuckJob>)
      requires Valid()
      ensures stuck == FindStuck(State(), now)
      ensures forall e: StuckJob :: e in stuck <==>
        && e.jobId in jobs && jobs[e.jobId].status == Running
        && now - jobs[e.jobId].updatedAt > (if e.jobType in typeConfig then typeConfig[e.jobType].runTimeout else 900)
        && e.jobType == jobs[e.jobId].jobType && e.attempts == jobs[e.jobId].attempts
    {
      stuck := [];
      for i := 1 to nextJob
        invariant stuck == StuckBelow(State(), now, i)
      {
        if jobs[i].status == Running {
          var timeout := Timeout(jobs[i].jobType);
          if now - jobs[i].updatedAt > timeout {
            stuck := stuck + [StuckJob(jobs[i].id, jobs[i].jobType, jobs[i].attempts)];
          }
        }
        assert JobOk(State(), i);
      }
      StuckExact(State(), now, nextJob);
    }

    method RequeueStuck(id: int, now: int) returns (requeued: bool)
      requires Valid()
      modifies this
      ensures Valid()
      ensures (State(), requeued) == Requeue(old(State()), id, now)
      ensures requeued <==>
        && id in old(jobs) && old(jobs)[id].status == Running
        && var ty := old(jobs)[id].jobType;
        old(jobs)[id].attempts < if ty in typeConfig then typeConfig[ty].maxAttempts else 3
    {
      RequeueKeeps(State(), id, now);
      if id !in jobs || jobs[id].status != Running {
        return false;
      }
      var cap := MaxAttempts(jobs[id].jobType);
      if jobs[id].attempts >= cap {
        return false;
      }
      jobs := jobs[id := jobs[id].(status := Queued, attempts := jobs[id].attempts + 1, updatedAt := now)];
      Rearm(id);
      requeued := true;
      assert State() == Requeue(old(State()), id, now).0;
    }

    /** The next fetch returns the job's rows again. */
    method Rearm(id: int)
      requires 1 <= nextOutbox && forall m :: m in outbox <==> 1 <= m < nextOutbox
      modifies `published
      ensures published == old(published) - RowsOf(State(), id)
    {
      for m := 1 to nextOutbox
        modifies `published
        invariant published == old(published) - RowsBelow(old(State()), id, m)
      {
        if outbox[m].jobId == id {
          published := published - {m};
        }
      }
      assert RowsBelow(State(), id, nextOutbox) == RowsOf(State(), id);
    }

    method GetJob(id: int) returns (r: Option<Job>)
      ensures r.Some? <==> id in State().jobs
      ensures r.Some? ==> r.value == State().jobs[id]
    {
      r := if id in jobs then Some(jobs[id]) else None;
    }

    method DeadLetter(id: int, now: int) returns (done: bool)
      requires Valid()
      modifies this
      ensures Valid()
      ensures (State(), done) == Finish(old(State()), id, false, now)
    {
      FinishKeeps(State(), id, false, now);
      if id in jobs && jobs[id].status == Running {
        jobs := jobs[id := jobs[id].(status := Failed, updatedAt := now)];
        return true;
      }
      done := false;
    }
  }
}
