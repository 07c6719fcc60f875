/** What it means for a job to be lost: it is dispatched, and nothing in the system can offer it to
    `claim` any more. Kafka keeps every message, but does not go back behind a committed offset. */
module Stranding {
  import opened Models
  import opened StoreSpec
  import opened Protocol
  import opened NoLostJob

  /** Kafka does not go back behind a committed offset. */
  predicate NoRewind(s: System, a: Action) {
    a.Poll? && 0 <= a.k < |s.topic| ==> !s.topic[a.k].committed
  }

  predicate UncommittedAt(s: System, k: int, j: int) {
    0 <= k < |s.topic| && s.topic[k].env.jobId == j && !s.topic[k].committed
  }

  /** Worker `w` has polled a message of `j` and is about to claim. */
  predicate PolledOn(s: System, w: int, j: int) {
    s.W(w).Polled? && 0 <= s.W(w).k < |s.topic| && s.topic[s.W(w).k].env.jobId == j
  }

  /** Dispatcher `d` has the row of `j` in hand and has not yet published it. */
  predicate Carries(s: System, d: int, i: int, j: int) {
    0 <= i < |s.D(d).batch| && s.D(d).batch[i].jobId == j && (i > 0 || !s.D(d).open)
  }

  /** Some claim of `j` can still be made without a requeue of `j`. */
  ghost predicate Deliverable(s: System, j: int) {
    || (exists k :: UncommittedAt(s, k, j))
    || (exists w :: PolledOn(s, w, j))
    || (exists d, i :: Carries(s, d, i, j))
  }

  /** `j` is dispatched and published, its messages are all committed, no worker has polled one of
      them, and no dispatcher has still to publish its row. */
  ghost predicate Stranded(s: System, j: int) {
    s.store.Is(j, Dispatched) && j in s.store.published && !Deliverable(s, j)
  }

  // ----- offered before committed ----------------------------------------------------------

  /** Past `claim`, a worker's message has been offered. */
  predicate WorkerOffered(s: System, x: Worker) {
    !x.Waiting? && !x.Polled? ==> 0 <= x.k < |s.topic| && s.topic[x.k].offered
  }

  ghost predicate OfferedOk(s: System) {
    && (forall k :: 0 <= k < |s.topic| && s.topic[k].committed ==> s.topic[k].offered)
    && (forall w :: WorkerOffered(s, s.W(w)))
  }

  /** A worker gets past `claim` only by offering its message. */
  lemma WorkerOfferedMove(s: System, a: Action, w: int)
    requires WorkerOffered(s, s.W(w))
    ensures WorkerOffered(s, Apply(s, a).W(w)) || (a == TryClaim(w) && WorkerOffered(Apply(s, a), Apply(s, a).W(w)))
  {
  }

  lemma WorkerOfferedStep(s: System, a: Action, w: int)
    requires WorkerOffered(s, s.W(w))
    ensures WorkerOffered(Apply(s, a), Apply(s, a).W(w))
  {
    WorkerOfferedMove(s, a, w);
    TopicStep(s, a);
    OfferedFrame(s, Apply(s, a), Apply(s, a).W(w));
  }

  lemma OfferedFrame(s: System, s': System, x: Worker)
    requires TopicGrows(s, s')
    ensures WorkerOffered(s, x) ==> WorkerOffered(s', x)
  {
  }

  lemma CommittedStep(s: System, a: Action, k: int)
    requires OfferedOk(s) && 0 <= k < |Apply(s, a).topic| && Apply(s, a).topic[k].committed
    ensures Apply(s, a).topic[k].offered
  {
    if a.Commit? {
      assert WorkerOffered(s, s.W(a.w));
    }
  }

  /** In every reachable state a committed message has been offered to `claim`. */
  lemma {:induction false} OfferedAlways(config: map<string, TypeConfig>, t0: int, acts: seq<Action>)
    ensures OfferedOk(Exec(Init(config, t0), acts))
    decreases |acts|
  {
    if acts != [] {
      var init, last := acts[..|acts| - 1], acts[|acts| - 1];
      OfferedAlways(config, t0, init);
      var s := Exec(Init(config, t0), init);
      forall k | 0 <= k < |Apply(s, last).topic| && Apply(s, last).topic[k].committed
        ensures Apply(s, last).topic[k].offered
      {
        CommittedStep(s, last, k);
      }
      forall w ensures WorkerOffered(Apply(s, last), Apply(s, last).W(w)) {
        WorkerOfferedStep(s, last, w);
      }
    }
  }

  // ----- status and outbox agree -------------------------------------------------------------

  /** A queued job's row is unpublished, a dispatched job's row is published. */
  predicate RowInStep(s: Store, j: int) {
    (s.Is(j, Queued) ==> j !in s.published) && (s.Is(j, Dispatched) ==> j in s.published)
  }

  ghost predicate Sound(s: System) {
    Base(s) && forall j :: RowInStep(s.store, j)
  }

  lemma StatusStep(s: Store, op: Op, now: int, j: int)
    requires Consistent(s) && RowInStep(s, j) && (op.OpMark? ==> op.outboxId == op.jobId)
    requires forall p :: p in s.published ==> p < s.nextOutbox
    ensures RowInStep(ApplyOp(s, op, now), j)
  {
    if ApplyOp(s, op, now).Is(j, Queued) {
      QueuedStep(s, op, now, j);
    } else if ApplyOp(s, op, now).Is(j, Dispatched) {
      DispatchedStep(s, op, now, j);
      if s.Is(j, Dispatched) {
        StaysPublished(s, op, now, j);
      }
    }
  }

  /** Nothing but a requeue takes a publication back. */
  lemma StaysPublished(s: Store, op: Op, now: int, j: int)
    requires Consistent(s) && j in s.jobs && j in s.published && !(op == OpRequeue(j) && CanRequeue(s, j))
    ensures j in ApplyOp(s, op, now).published
  {
    if op.OpRequeue? && op.id in s.jobs {
      RowsOfJob(s, op.id);
    }
  }

  lemma SoundStep(s: System, a: Action)
    requires Sound(s)
    ensures Sound(Apply(s, a))
  {
    BaseStep(s, a);
    StoreStep(s, a);
    if OpOf(s, a).OpMark? {
      MarkNamesRow(s, a);
    }
    forall j ensures RowInStep(Apply(s, a).store, j) {
      StatusStep(s.store, OpOf(s, a), s.clock, j);
    }
  }

  lemma {:induction false} SoundRun(s: System, acts: seq<Action>)
    requires Sound(s)
    ensures Sound(Exec(s, acts))
    decreases |acts|
  {
    if acts != [] {
      SoundRun(s, acts[..|acts| - 1]);
      SoundStep(Exec(s, acts[..|acts| - 1]), acts[|acts| - 1]);
    }
  }

  lemma SoundAlways(config: map<string, TypeConfig>, t0: int, acts: seq<Action>)
    ensures Sound(Exec(Init(config, t0), acts))
  {
    BaseAlways(config, t0, []);
    SoundRun(Init(config, t0), acts);
  }

  // ----- a stranded job stays stranded ---------------------------------------------------------

  lemma UncommittedBefore(s: System, a: Action, k: int, j: int)
    requires Base(s) && UncommittedAt(Apply(s, a), k, j)
    ensures UncommittedAt(s, k, j) || (a.Publish? && Carries(s, a.d, 0, j))
  {
    TopicStep(s, a);
    if |s.topic| <= k {
      NewMessage(s, a);
    }
  }

  /** A new message is the first row of a batch, which was not yet published. */
  lemma NewMessage(s: System, a: Action)
    requires Base(s) && |s.topic| < |Apply(s, a).topic|
    ensures a.Publish? && |Apply(s, a).topic| == |s.topic| + 1
    ensures s.D(a.d).batch != [] && !s.D(a.d).open && Apply(s, a).topic[|s.topic|].env.jobId == s.D(a.d).batch[0].jobId
  {
    if a.Publish? && s.D(a.d).batch != [] {
      assert RowsOk(s.store, s.D(a.d).batch) && RowOk(s.store, s.D(a.d).batch[0].id);
    }
  }

  /** A worker holds a polled message because it did before, or because it has just polled it. */
  lemma PolledStep(s: System, a: Action, w: int)
    requires Apply(s, a).W(w).Polled?
    ensures s.W(w) == Apply(s, a).W(w) || (a == Poll(w, Apply(s, a).W(w).k) && 0 <= Apply(s, a).W(w).k < |s.topic|)
  {
  }

  lemma PolledBefore(s: System, a: Action, w: int, j: int)
    requires Base(s) && NoRewind(s, a) && PolledOn(Apply(s, a), w, j)
    ensures PolledOn(s, w, j) || UncommittedAt(s, Apply(s, a).W(w).k, j)
  {
    PolledStep(s, a, w);
    assert WorkerOk(s, s.W(w));
    SameJob(s, a, Apply(s, a).W(w).k);
  }

  lemma SameJob(s: System, a: Action, k: int)
    requires 0 <= k < |s.topic|
    ensures k < |Apply(s, a).topic| && Apply(s, a).topic[k].env == s.topic[k].env
  {
    TopicStep(s, a);
  }

  /** What a dispatcher still has to publish it had before, unless it has just fetched it. */
  lemma CarriesBefore(s: System, a: Action, d: int, i: int, j: int)
    requires Base(s) && Carries(Apply(s, a), d, i, j) && j in s.store.published
    ensures Carries(s, d, i, j) || Carries(s, d, i + 1, j)
  {
    if a.Fetch? && a.d == d && s.D(d).batch == [] {
      FetchedUnpublished(s.store, a.limit, a.locked, i);
    }
  }

  lemma FetchedUnpublished(s: Store, limit: int, locked: set<int>, i: int)
    requires Consistent(s)
    requires 0 <= i < |FetchUnpublished(s.(published := s.published + locked), limit)|
    ensures FetchUnpublished(s.(published := s.published + locked), limit)[i].jobId !in s.published
  {
    var st := s.(published := s.published + locked);
    PublishedIsFree(s, s.published + locked);
    UnpublishedExact(st, st.nextOutbox);
    assert RowOk(st, FetchUnpublished(st, limit)[i].id);
  }

  /** Nothing makes a published job deliverable again but a requeue. */
  lemma DeliverableBefore(s: System, a: Action, j: int)
    requires Base(s) && NoRewind(s, a) && j in s.store.published && Deliverable(Apply(s, a), j)
    ensures Deliverable(s, j)
  {
    if k :| UncommittedAt(Apply(s, a), k, j) {
      UncommittedBefore(s, a, k, j);
    } else if w :| PolledOn(Apply(s, a), w, j) {
      PolledBefore(s, a, w, j);
    } else {
      var d, i :| Carries(Apply(s, a), d, i, j);
      CarriesBefore(s, a, d, i, j);
    }
  }

  lemma DispatchedStays(s: Store, op: Op, now: int, j: int)
    requires Consistent(s) && s.Is(j, Dispatched) && op != OpClaim(j)
    ensures ApplyOp(s, op, now).Is(j, Dispatched)
  {
  }

  lemma StrandedStep(s: System, a: Action, j: int)
    requires Base(s) && Stranded(s, j) && NoRewind(s, a)
    ensures Stranded(Apply(s, a), j)
  {
    StoreStep(s, a);
    assert a.TryClaim? ==> !PolledOn(s, a.w, j);
    DispatchedStays(s.store, OpOf(s, a), s.clock, j);
    StaysPublished(s.store, OpOf(s, a), s.clock, j);
    if Deliverable(Apply(s, a), j) {
      DeliverableBefore(s, a, j);
    }
  }

  /** A stranded job stays dispatched whatever every component does from then on, and every later
      enqueue of its type is refused. */
  lemma {:induction false} StrandedForever(s: System, acts: seq<Action>, j: int)
    requires Base(s) && Stranded(s, j)
    requires forall i :: 0 <= i < |acts| ==> NoRewind(Exec(s, acts[..i]), acts[i])
    ensures var s' := Exec(s, acts);
      && Base(s') && Stranded(s', j)
      && forall input, creator, now :: Enqueue(s'.store, s'.store.jobs[j].jobType, input, creator, now).1.None?
    decreases |acts|
  {
    if acts != [] {
      var init, last := acts[..|acts| - 1], acts[|acts| - 1];
      forall i | 0 <= i < |init|
        ensures NoRewind(Exec(s, init[..i]), init[i])
      {
        assert init[..i] == acts[..i];
      }
      StrandedForever(s, init, j);
      BaseStep(Exec(s, init), last);
      StrandedStep(Exec(s, init), last, j);
    }
  }
}
