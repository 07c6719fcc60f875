/** The running system: producers, dispatchers, workers and reapers that share one store and
    one Kafka topic, interleaved at the grain of single store or transport operations.

    A run is any sequence of actions. An action that is not enabled leaves the state alone, so
    quantifying over action sequences quantifies over all interleavings, crashes, duplicate
    deliveries and clock advances. */
module Protocol {
  import opened Models
  import opened StoreSpec

  /** A message on the topic. `offered`: some worker has called `claim` for it. `committed`: a
      worker has committed its offset. */
  datatype Message = Message(env: Envelope, offered: bool, committed: bool)

  /** One successful claim: the job, and its `attempts` when it was claimed. */
  datatype Ticket = Ticket(job: int, attempt: int)

  /** The rows left in a dispatcher's batch. `open`: the first of them has been published but
      not yet marked (between dispatcher/service.py lines 18 and 19). */
  datatype Dispatcher = Dispatcher(batch: seq<OutboxMessage>, open: bool)

  /** Where a worker stands between `poll` and `commit`; `k` is the message it holds. */
  datatype Worker =
    | Waiting
    | Polled(k: int)
    | Claimed(k: int, t: Ticket)
    | Resolved(k: int, t: Ticket, payload: Payload)
    | InHandler(k: int, t: Ticket, payload: Payload)
    | Ending(k: int, t: Ticket, ok: bool)
    | Acking(k: int)
  {
    predicate Holds() { Claimed? || Resolved? || InHandler? || Ending? }
  }

  /** The stuck runs a reaper has still to handle. `refused`: `requeue_stuck` has just returned
      False for the first of them. */
  datatype Reaper = Reaper(pending: seq<StuckJob>, refused: bool)

  /** How a run stopped being its job's current run. */
  datatype RunEnd = Requeued | DeadLettered | FinishedBy(t: Ticket)

  /** Bookkeeping that no component reads. */
  datatype History = History(
    claims: seq<Ticket>,         // successful claims, in order
    entries: seq<Ticket>,        // handler invocations, in order
    claimedAt: map<int, int>,    // clock at each job's latest successful claim
    ends: map<Ticket, RunEnd>)   // how each finished run ended

  datatype System = System(
    store: Store,
    topic: seq<Message>,
    dispatchers: map<int, Dispatcher>,
    workers: map<int, Worker>,
    reapers: map<int, Reaper>,
    clock: int,
    history: History)
  {
    function D(d: int): Dispatcher {
      if d in dispatchers then dispatchers[d] else Dispatcher([], false)
    }

    function W(w: int): Worker {
      if w in workers then workers[w] else Waiting
    }

    function R(r: int): Reaper {
      if r in reapers then reapers[r] else Reaper([], false)
    }

    function SetD(d: int, x: Dispatcher): System {
      this.(dispatchers := dispatchers[d := x])
    }

    function SetW(w: int, x: Worker): System {
      this.(workers := workers[w := x])
    }

    function SetR(r: int, x: Reaper): System {
      this.(reapers := reapers[r := x])
    }
  }

  datatype Action =
    | Tick(delta: nat)
    | Produce(ty: string, input: Option<Payload>, creator: Option<Creator>)
    | Fetch(d: int, limit: int, locked: set<int>)
    | Publish(d: int)
    | Mark(d: int)
    | CrashDispatcher(d: int)
    | Poll(w: int, k: int)
    | TryClaim(w: int)
    | Resolve(w: int)
    | Enter(w: int, found: bool)
    | Leave(w: int, ok: bool)
    | End(w: int)
    | Commit(w: int)
    | CrashWorker(w: int)
    | Sweep(r: int)
    | TryRequeue(r: int)
    | TryDeadLetter(r: int)
    | CrashReaper(r: int)

  function Init(config: map<string, TypeConfig>, clock: int): System {
    System(Empty(config), [], map[], map[], map[], clock, History([], [], map[], map[]))
  }

  // ----- dispatcher ----------------------------------------------------------------

  /** `fetch_unpublished`; rows locked by a concurrent transaction are skipped (common/db.py:93). */
  function DoFetch(s: System, d: int, limit: int, locked: set<int>): System {
    if s.D(d).batch != [] then s
    else s.SetD(d, Dispatcher(FetchUnpublished(s.store.(published := s.store.published + locked), limit), false))
  }

  function DoPublish(s: System, d: int): System {
    if s.D(d).batch == [] || s.D(d).open then s
    else s.SetD(d, s.D(d).(open := true)).(topic := s.topic + [Message(s.D(d).batch[0].payload, false, false)])
  }

  function DoMark(s: System, d: int): System {
    if s.D(d).batch == [] || !s.D(d).open then s
    else
      var row := s.D(d).batch[0];
      s.SetD(d, Dispatcher(s.D(d).batch[1..], false))
       .(store := MarkDispatched(s.store, row.id, row.jobId, s.clock))
  }

  // ----- worker --------------------------------------------------------------------

  /** Kafka may deliver any message of the topic, again and in any order. */
  function DoPoll(s: System, w: int, k: int): System {
    if s.W(w).Waiting? && 0 <= k < |s.topic| then s.SetW(w, Polled(k)) else s
  }

  function DoClaim(s: System, w: int): System {
    if !s.W(w).Polled? || !(0 <= s.W(w).k < |s.topic|) then s
    else
      var k := s.W(w).k;
      var id := s.topic[k].env.jobId;
      var (store', won) := Claim(s.store, id, s.clock);
      var s' := s.(topic := s.topic[k := s.topic[k].(offered := true)], store := store');
      if !won then s'.SetW(w, Acking(k))
      else
        var t := Ticket(id, s.store.jobs[id].attempts);
        s'.SetW(w, Claimed(k, t))
          .(history := s.history.(claims := s.history.claims + [t],
                                  claimedAt := s.history.claimedAt[id := s.clock]))
  }

  function DoResolve(s: System, w: int): System {
    if !s.W(w).Claimed? || !(0 <= s.W(w).k < |s.topic|) then s
    else
      var (k, t) := (s.W(w).k, s.W(w).t);
      var (store', p) := ResolvePayload(s.store, t.job, s.topic[k].env.jobType, s.clock);
      s.SetW(w, if p.None? then Ending(k, t, false) else Resolved(k, t, p.value)).(store := store')
  }

  function DoEnter(s: System, w: int, found: bool): System {
    if !s.W(w).Resolved? then s
    else
      var (k, t, p) := (s.W(w).k, s.W(w).t, s.W(w).payload);
      if !found then s.SetW(w, Ending(k, t, false))
      else s.SetW(w, InHandler(k, t, p)).(history := s.history.(entries := s.history.entries + [t]))
  }

  function DoLeave(s: System, w: int, ok: bool): System {
    if !s.W(w).InHandler? then s else s.SetW(w, Ending(s.W(w).k, s.W(w).t, ok))
  }

  /** The run of job `id` that the store currently records. */
  function CurrentRun(s: Store, id: int): Ticket {
    Ticket(id, if id in s.jobs then s.jobs[id].attempts else 0)
  }

  /** `complete` or `fail`: neither names the run it means to finish. */
  function DoEnd(s: System, w: int): System {
    if !s.W(w).Ending? then s
    else
      var t := s.W(w).t;
      var (store', done) := Finish(s.store, t.job, s.W(w).ok, s.clock);
      var s' := s.SetW(w, Acking(s.W(w).k)).(store := store');
      if !done then s'
      else s'.(history := s.history.(ends := s.history.ends[CurrentRun(s.store, t.job) := FinishedBy(t)]))
  }

  function DoCommit(s: System, w: int): System {
    if !s.W(w).Acking? || !(0 <= s.W(w).k < |s.topic|) then s
    else
      var k := s.W(w).k;
      s.SetW(w, Waiting).(topic := s.topic[k := s.topic[k].(committed := true)])
  }

  // ----- reaper --------------------------------------------------------------------

  function DoSweep(s: System, r: int): System {
    if s.R(r).pending != [] then s else s.SetR(r, Reaper(FindStuck(s.store, s.clock), false))
  }

  function DoRequeue(s: System, r: int): System {
    if s.R(r).pending == [] || s.R(r).refused then s
    else
      var id := s.R(r).pending[0].jobId;
      var (store', done) := Requeue(s.store, id, s.clock);
      if !done then s.SetR(r, s.R(r).(refused := true))
      else s.SetR(r, Reaper(s.R(r).pending[1..], false))
            .(store := store',
              history := s.history.(ends := s.history.ends[CurrentRun(s.store, id) := Requeued]))
  }

  function DoDeadLetter(s: System, r: int): System {
    if s.R(r).pending == [] || !s.R(r).refused then s
    else
      var id := s.R(r).pending[0].jobId;
      var (store', done) := Finish(s.store, id, false, s.clock);
      var s' := s.SetR(r, Reaper(s.R(r).pending[1..], false)).(store := store');
      if !done then s'
      else s'.(history := s.history.(ends := s.history.ends[CurrentRun(s.store, id) := DeadLettered]))
  }

  // ----- runs ----------------------------------------------------------------------

  ghost function Apply(s: System, a: Action): System {
    match a
    case Tick(delta) => s.(clock := s.clock + delta)
    case Produce(ty, input, creator) => s.(store := Enqueue(s.store, ty, input, creator, s.clock).0)
    case Fetch(d, limit, locked) => DoFetch(s, d, limit, locked)
    case Publish(d) => DoPublish(s, d)
    case Mark(d) => DoMark(s, d)
    case CrashDispatcher(d) => s.SetD(d, Dispatcher([], false))
    case Poll(w, k) => DoPoll(s, w, k)
    case TryClaim(w) => DoClaim(s, w)
    case Resolve(w) => DoResolve(s, w)
    case Enter(w, found) => DoEnter(s, w, found)
    case Leave(w, ok) => DoLeave(s, w, ok)
    case End(w) => DoEnd(s, w)
    case Commit(w) => DoCommit(s, w)
    case CrashWorker(w) => s.SetW(w, Waiting)
    case Sweep(r) => DoSweep(s, r)
    case TryRequeue(r) => DoRequeue(s, r)
    case TryDeadLetter(r) => DoDeadLetter(s, r)
    case CrashReaper(r) => s.SetR(r, Reaper([], false))
  }

  /** The state after all of `acts`, in order. */
  ghost function Exec(s: System, acts: seq<Action>): System
    decreases |acts|
  {
    if acts == [] then s else Apply(Exec(s, acts[..|acts| - 1]), acts[|acts| - 1])
  }

  lemma {:induction false} ExecConcat(s: System, a: seq<Action>, b: seq<Action>)
    ensures Exec(s, a + b) == Exec(Exec(s, a), b)
    decreases |b|
  {
    if b == [] {
      assert a + b == a;
    } else {
      var b', x := b[..|b| - 1], b[|b| - 1];
      ExecConcat(s, a, b');
      assert (a + b)[..|a + b| - 1] == a + b';
    }
  }

  lemma ExecSnoc(s: System, acts: seq<Action>, a: Action)
    ensures Exec(s, acts + [a]) == Apply(Exec(s, acts), a)
  {
  }

  lemma ExecFirst(s: System, a: Action, b: seq<Action>)
    ensures Exec(s, [a] + b) == Exec(Apply(s, a), b)
  {
    ExecSnoc(s, [], a);
    ExecConcat(s, [a], b);
  }

  lemma ExecNext(s: System, acts: seq<Action>, i: nat)
    requires i < |acts|
    ensures Exec(s, acts[..i + 1]) == Apply(Exec(s, acts[..i]), acts[i])
  {
    assert acts[..i + 1] == acts[..i] + [acts[i]];
    ExecSnoc(s, acts[..i], acts[i]);
  }

  /** A prefix of a concatenation ends in the first part, or runs into the second. */
  lemma ConcatPrefix(s: System, a: seq<Action>, b: seq<Action>, i: nat)
    requires i < |a + b|
    ensures i < |a| ==> Exec(s, (a + b)[..i]) == Exec(s, a[..i])
    ensures |a| <= i ==> Exec(s, (a + b)[..i]) == Exec(Exec(s, a), b[..i - |a|])
  {
    if i < |a| {
      assert (a + b)[..i] == a[..i];
    } else {
      assert (a + b)[..i] == a + b[..i - |a|];
      ExecConcat(s, a, b[..i - |a|]);
    }
  }

  // ----- the base invariant ----------------------------------------------------------

  /** The worker holds an existing message, and a ticket for that message's job. */
  predicate WorkerOk(s: System, x: Worker) {
    && (!x.Waiting? ==> 0 <= x.k < |s.topic|)
    && (x.Holds() ==> 0 <= x.k < |s.topic| && x.t.job == s.topic[x.k].env.jobId)
  }

  ghost predicate TopicOk(s: System) {
    forall k :: 0 <= k < |s.topic| ==> Genuine(s.store, s.topic[k].env)
  }

  ghost predicate Base(s: System) {
    && Consistent(s.store)
    && (forall p :: p in s.store.published ==> p < s.store.nextOutbox)
    && TopicOk(s)
    && (forall d :: RowsOk(s.store, s.D(d).batch))
    && (forall w :: WorkerOk(s, s.W(w)))
  }

  /** Messages are never removed and never change their envelope; the flags only rise. */
  ghost predicate TopicGrows(s: System, t: System) {
    && |s.topic| <= |t.topic|
    && (forall k :: 0 <= k < |s.topic| ==>
          && t.topic[k].env == s.topic[k].env
          && (s.topic[k].offered ==> t.topic[k].offered)
          && (s.topic[k].committed ==> t.topic[k].committed))
  }

  /** The one store operation an action performs. */
  function OpOf(s: System, a: Action): Op {
    match a
    case Produce(ty, input, creator) => OpEnqueue(ty, input, creator)
    case Mark(d) =>
      if s.D(d).batch != [] && s.D(d).open then OpMark(s.D(d).batch[0].id, s.D(d).batch[0].jobId) else OpNone
    case TryClaim(w) =>
      if s.W(w).Polled? && 0 <= s.W(w).k < |s.topic| then OpClaim(s.topic[s.W(w).k].env.jobId) else OpNone
    case Resolve(w) =>
      if s.W(w).Claimed? && 0 <= s.W(w).k < |s.topic|
      then OpResolve(s.W(w).t.job, s.topic[s.W(w).k].env.jobType) else OpNone
    case End(w) => if s.W(w).Ending? then OpFinish(s.W(w).t.job, s.W(w).ok) else OpNone
    case TryRequeue(r) =>
      if s.R(r).pending != [] && !s.R(r).refused then OpRequeue(s.R(r).pending[0].jobId) else OpNone
    case TryDeadLetter(r) =>
      if s.R(r).pending != [] && s.R(r).refused then OpFinish(s.R(r).pending[0].jobId, false) else OpNone
    case _ => OpNone
  }

  lemma StoreStep(s: System, a: Action)
    ensures Apply(s, a).store == ApplyOp(s.store, OpOf(s, a), s.clock)
  {
  }

  /** Every action moves the store along its durable history. */
  lemma StoreEvolves(s: System, a: Action)
    requires Consistent(s.store)
    ensures Consistent(Apply(s, a).store) && Evolves(s.store, Apply(s, a).store)
  {
    StoreStep(s, a);
    OpKeeps(s.store, OpOf(s, a), s.clock);
  }

  lemma TopicStep(s: System, a: Action)
    ensures TopicGrows(s, Apply(s, a)) && s.clock <= Apply(s, a).clock
  {
  }

  /** A message that comes new onto the topic is genuine: it is the envelope of an outbox row. */
  lemma PublishesGenuine(s: System, a: Action, k: int)
    requires Base(s) && |s.topic| <= k < |Apply(s, a).topic|
    ensures Genuine(s.store, Apply(s, a).topic[k].env)
  {
    assert a.Publish? && RowsOk(s.store, s.D(a.d).batch);
    assert RowOk(s.store, s.D(a.d).batch[0].id);
  }

  lemma GenuineStays(s: Store, t: Store, e: Envelope)
    requires Genuine(s, e) && Evolves(s, t)
    ensures Genuine(t, e)
  {
  }

  lemma TopicOkStep(s: System, a: Action)
    requires Base(s)
    ensures TopicOk(Apply(s, a))
  {
    StoreEvolves(s, a);
    TopicStep(s, a);
    forall k | 0 <= k < |Apply(s, a).topic|
      ensures Genuine(Apply(s, a).store, Apply(s, a).topic[k].env)
    {
      if |s.topic| <= k {
        PublishesGenuine(s, a, k);
      } else {
        assert Genuine(s.store, s.topic[k].env);
      }
      GenuineStays(s.store, Apply(s, a).store, Apply(s, a).topic[k].env);
    }
  }

  lemma DispatcherMoves(s: System, a: Action, d: int)
    requires Consistent(s.store) && RowsOk(s.store, s.D(d).batch)
    ensures RowsOk(s.store, Apply(s, a).D(d).batch)
  {
    if a.Fetch? {
      var st := s.store.(published := s.store.published + a.locked);
      PublishedIsFree(s.store, s.store.published + a.locked);
      UnpublishedExact(st, st.nextOutbox);
    }
  }

  lemma DispatcherStep(s: System, a: Action, d: int)
    requires Consistent(s.store) && RowsOk(s.store, s.D(d).batch)
    ensures RowsOk(Apply(s, a).store, Apply(s, a).D(d).batch)
  {
    DispatcherMoves(s, a, d);
    StoreEvolves(s, a);
  }

  lemma PublishedStep(s: System, a: Action)
    requires Consistent(s.store) && (forall p :: p in s.store.published ==> p < s.store.nextOutbox)
    requires forall d :: RowsOk(s.store, s.D(d).batch)
    ensures forall p :: p in Apply(s, a).store.published ==> p < Apply(s, a).store.nextOutbox
  {
  }

  /** The action is a step of worker `w`. */
  predicate OfWorker(a: Action, w: int) {
    (a.Poll? || a.TryClaim? || a.Resolve? || a.Enter? || a.Leave? || a.End? || a.Commit? || a.CrashWorker?) && a.w == w
  }

  lemma WorkerSame(s: System, a: Action, w: int)
    requires !OfWorker(a, w)
    ensures Apply(s, a).W(w) == s.W(w)
  {
  }

  lemma OwnWorkerMoves(s: System, a: Action, w: int)
    requires OfWorker(a, w) && WorkerOk(s, s.W(w))
    ensures WorkerOk(s, Apply(s, a).W(w))
  {
  }

  /** Whatever a worker holds after a step, it can hold on the topic of before the step. */
  lemma WorkerMoves(s: System, a: Action, w: int)
    requires WorkerOk(s, s.W(w))
    ensures WorkerOk(s, Apply(s, a).W(w))
  {
    if OfWorker(a, w) {
      OwnWorkerMoves(s, a, w);
    } else {
      WorkerSame(s, a, w);
    }
  }

  lemma WorkerStep(s: System, a: Action, w: int)
    requires WorkerOk(s, s.W(w))
    ensures WorkerOk(Apply(s, a), Apply(s, a).W(w))
  {
    WorkerMoves(s, a, w);
    TopicStep(s, a);
    WorkerFrame(s, Apply(s, a), Apply(s, a).W(w));
  }

  lemma WorkerFrame(s: System, s': System, x: Worker)
    requires WorkerOk(s, x) && TopicGrows(s, s')
    ensures WorkerOk(s', x)
  {
  }

  lemma BaseStep(s: System, a: Action)
    requires Base(s)
    ensures Base(Apply(s, a))
  {
    StoreEvolves(s, a);
    TopicOkStep(s, a);
    PublishedStep(s, a);
    forall d ensures RowsOk(Apply(s, a).store, Apply(s, a).D(d).batch) {
      DispatcherStep(s, a, d);
    }
    forall w ensures WorkerOk(Apply(s, a), Apply(s, a).W(w)) {
      WorkerStep(s, a, w);
    }
  }

  lemma {:induction false} BaseRun(s: System, acts: seq<Action>)
    requires Base(s)
    ensures Base(Exec(s, acts))
    decreases |acts|
  {
    if acts != [] {
      BaseRun(s, acts[..|acts| - 1]);
      BaseStep(Exec(s, acts[..|acts| - 1]), acts[|acts| - 1]);
    }
  }

  lemma BaseAlways(config: map<string, TypeConfig>, t0: int, acts: seq<Action>)
    ensures Base(Exec(Init(config, t0), acts))
  {
    BaseRun(Init(config, t0), acts);
  }
}
