/** Concrete runs that show which hypotheses of the main theorems are needed. Each run is given
    by its successive states. */
module Scenarios {
  import opened Models
  import opened StoreSpec
  import opened Protocol
  import opened Claims
  import opened Exclusive
  import opened ReaperSafety
  import opened NoLostJob
  import opened Stranding
  import opened Publications

  ghost predicate IsTrace(states: seq<System>, acts: seq<Action>) {
    |states| == |acts| + 1 && forall i :: 0 <= i < |acts| ==> Apply(states[i], acts[i]) == states[i + 1]
  }

  lemma {:induction false} TraceExec(states: seq<System>, acts: seq<Action>)
    requires IsTrace(states, acts)
    ensures Exec(states[0], acts) == states[|acts|]
    decreases |acts|
  {
    if acts != [] {
      TraceExec(states[..|acts|], acts[..|acts| - 1]);
    }
  }

  /** Gluing two traces. */
  lemma TraceConcat(p: seq<System>, a: seq<Action>, q: seq<System>, b: seq<Action>)
    requires IsTrace(p, a) && IsTrace(q, b) && p[|a|] == q[0]
    ensures Exec(p[0], a + b) == q[|b|]
  {
    TraceExec(p, a);
    TraceExec(q, b);
    ExecConcat(p[0], a, b);
  }

  const TYPE := "t"

  const CONFIG: map<string, TypeConfig> := map[TYPE := TypeConfig(900, 3, map[])]

  function JobOne(status: Status, attempts: int, updatedAt: int): Job {
    Job(1, TYPE, status, map[], map[], attempts, 0, updatedAt, None)
  }

  function RowFor(i: int): OutboxMessage {
    OutboxMessage(i, i, Envelope(i, TYPE))
  }

  /** A store with the single job 1. */
  function One(job: Job, published: set<int>): Store {
    Store(map[1 := job], map[1 := RowFor(1)], published, CONFIG, 2, 2)
  }

  function Sent(i: int, offered: bool, committed: bool): Message {
    Message(Envelope(i, TYPE), offered, committed)
  }

  const NO_HISTORY := History([], [], map[], map[])

  const FIRST := Ticket(1, 0)

  const SECOND := Ticket(1, 1)

  const THIRD := Ticket(2, 0)

  // ----- the common beginning: claimed at time 0, listed as stuck at time 1000 --------------

  const CLAIMED_ONCE := History([FIRST], [], map[1 := 0], map[])

  const OPEN_ROW := Dispatcher([RowFor(1)], true)

  const ENTRY := StuckJob(1, TYPE, 0)

  function Start(): seq<System> {
    var queued := One(JobOne(Queued, 0, 0), {});
    var running := One(JobOne(Running, 0, 0), {});
    [ Init(CONFIG, 0),
      System(queued, [], map[], map[], map[], 0, NO_HISTORY),
      System(queued, [], map[0 := Dispatcher([RowFor(1)], false)], map[], map[], 0, NO_HISTORY),
      System(queued, [Sent(1, false, false)], map[0 := OPEN_ROW], map[], map[], 0, NO_HISTORY),
      System(queued, [Sent(1, false, false)], map[0 := OPEN_ROW], map[0 := Polled(0)], map[], 0, NO_HISTORY),
      System(running, [Sent(1, true, false)], map[0 := OPEN_ROW], map[0 := Claimed(0, FIRST)], map[], 0, CLAIMED_ONCE),
      System(running, [Sent(1, true, false)], map[0 := OPEN_ROW], map[0 := Claimed(0, FIRST)], map[], 1000, CLAIMED_ONCE),
      Listed() ]
  }

  function Listed(): System {
    System(One(JobOne(Running, 0, 0), {}), [Sent(1, true, false)], map[0 := OPEN_ROW], map[0 := Claimed(0, FIRST)],
           map[0 := Reaper([ENTRY], false)], 1000, CLAIMED_ONCE)
  }

  function StartActs(): seq<Action> {
    [Produce(TYPE, None, None), Fetch(0, 1, {}), Publish(0), Poll(0, 0), TryClaim(0), Tick(1000), Sweep(0)]
  }

  lemma FetchOne(s: Store, locked: set<int>)
    requires s.nextOutbox == 2 && 1 in s.outbox && 1 !in s.published && 1 !in locked
    ensures FetchUnpublished(s.(published := s.published + locked), 1) == [s.outbox[1]]
  {
  }

  lemma ListOne(s: Store, now: int)
    requires s.nextJob == 2 && Stuck(s, 1, now)
    ensures FindStuck(s, now) == [StuckJob(1, s.jobs[1].jobType, s.jobs[1].attempts)]
  {
  }

  lemma StartSteps()
    ensures IsTrace(Start(), StartActs())
  {
    StartOne();
    StartTwo();
    StartThree();
  }

  lemma StartOne()
    ensures Apply(Start()[0], StartActs()[0]) == Start()[1]
    ensures Apply(Start()[1], StartActs()[1]) == Start()[2]
    ensures Apply(Start()[2], StartActs()[2]) == Start()[3]
  {
    FetchOne(Start()[1].store, {});
  }

  lemma StartTwo()
    ensures Apply(Start()[3], StartActs()[3]) == Start()[4]
    ensures Apply(Start()[4], StartActs()[4]) == Start()[5]
  {
  }

  lemma StartThree()
    ensures Apply(Start()[5], StartActs()[5]) == Start()[6]
    ensures Apply(Start()[6], StartActs()[6]) == Start()[7]
  {
    ListOne(Start()[6].store, 1000);
  }

  // ----- a requeue inside an open window loses the job --------------------------------------

  const REQUEUED_ONCE := History([FIRST], [], map[1 := 0], map[FIRST := Requeued])

  const SWEPT := Reaper([], false)

  const DONE := Dispatcher([], false)

  function Losing(): seq<System> {
    var queued := One(JobOne(Queued, 1, 1000), {});
    var dispatched := One(JobOne(Dispatched, 1, 1000), {1});
    var sent := [Sent(1, true, false)];
    [ Listed(),
      System(queued, sent, map[0 := OPEN_ROW], map[0 := Claimed(0, FIRST)], map[0 := SWEPT], 1000, REQUEUED_ONCE),
      System(dispatched, sent, map[0 := DONE], map[0 := Claimed(0, FIRST)], map[0 := SWEPT], 1000, REQUEUED_ONCE),
      System(dispatched, sent, map[0 := DONE], map[0 := Ending(0, FIRST, false)], map[0 := SWEPT], 1000, REQUEUED_ONCE),
      System(dispatched, sent, map[0 := DONE], map[0 := Acking(0)], map[0 := SWEPT], 1000, REQUEUED_ONCE),
      System(dispatched, [Sent(1, true, true)], map[0 := DONE], map[0 := Waiting], map[0 := SWEPT], 1000, REQUEUED_ONCE) ]
  }

  function LosingActs(): seq<Action> {
    [TryRequeue(0), Mark(0), Resolve(0), End(0), Commit(0)]
  }

  lemma RequeueOne()
    ensures Requeue(One(JobOne(Running, 0, 0), {}), 1, 1000) == (One(JobOne(Queued, 1, 1000), {}), true)
  {
    var s := One(JobOne(Running, 0, 0), {});
    assert s.published - RowsOf(s, 1) == {};
    assert CanRequeue(s, 1);
    assert s.jobs[1 := JobOne(Queued, 1, 1000)] == map[1 := JobOne(Queued, 1, 1000)];
  }

  lemma MarkOne()
    ensures MarkDispatched(One(JobOne(Queued, 1, 1000), {}), 1, 1, 1000) == One(JobOne(Dispatched, 1, 1000), {1})
  {
  }

  lemma LosingRequeue()
    ensures Apply(Losing()[0], LosingActs()[0]) == Losing()[1]
  {
    RequeueOne();
    assert [ENTRY][1..] == [];
  }

  lemma LosingMark()
    ensures Apply(Losing()[1], LosingActs()[1]) == Losing()[2]
  {
    MarkOne();
    assert [RowFor(1)][1..] == [];
  }

  lemma LosingResolve()
    ensures Apply(Losing()[2], LosingActs()[2]) == Losing()[3]
  {
  }

  lemma LosingEnd()
    ensures Apply(Losing()[3], LosingActs()[3]) == Losing()[4]
  {
  }

  lemma LosingCommit()
    ensures Apply(Losing()[4], LosingActs()[4]) == Losing()[5]
  {
  }

  lemma LosingSteps()
    ensures IsTrace(Losing(), LosingActs())
  {
    LosingRequeue();
    LosingMark();
    LosingResolve();
    LosingEnd();
    LosingCommit();
  }

  /** The hypothesis of `NoLostJob` is needed: with one dispatcher, one slow worker and one reaper,
      a requeue between a publication and its mark strands the job for good. */
  lemma RequeueInWindowLosesJob()
    ensures var s := Exec(Init(CONFIG, 0), StartActs() + LosingActs());
      Hazard(Exec(Init(CONFIG, 0), StartActs()), TryRequeue(0), 1) && Stranded(s, 1)
  {
    StartSteps();
    TraceExec(Start(), StartActs());
    LosingSteps();
    TraceConcat(Start(), StartActs(), Losing(), LosingActs());
    HazardAtListed();
    StrandedAtEnd();
  }

  lemma HazardAtListed()
    ensures Hazard(Listed(), TryRequeue(0), 1)
  {
    assert OpenOn(Listed(), 0, 1);
    assert forall k :: !UnofferedAt(Listed(), k, 1);
  }

  lemma StrandedAtEnd()
    ensures Stranded(Losing()[5], 1)
  {
  }

  // ----- two dispatchers publish a row twice ------------------------------------------------

  function Twice(): seq<System> {
    var queued := One(JobOne(Queued, 0, 0), {});
    var row := Dispatcher([RowFor(1)], false);
    [ Init(CONFIG, 0),
      System(queued, [], map[], map[], map[], 0, NO_HISTORY),
      System(queued, [], map[0 := row], map[], map[], 0, NO_HISTORY),
      System(queued, [], map[0 := row, 1 := row], map[], map[], 0, NO_HISTORY),
      System(queued, [Sent(1, false, false)], map[0 := OPEN_ROW, 1 := row], map[], map[], 0, NO_HISTORY),
      System(queued, [Sent(1, false, false), Sent(1, false, false)], map[0 := OPEN_ROW, 1 := OPEN_ROW], map[], map[], 0, NO_HISTORY) ]
  }

  function TwiceActs(): seq<Action> {
    [Produce(TYPE, None, None), Fetch(0, 1, {}), Fetch(1, 1, {}), Publish(0), Publish(1)]
  }

  lemma TwiceFetch()
    ensures Apply(Twice()[0], TwiceActs()[0]) == Twice()[1]
    ensures Apply(Twice()[1], TwiceActs()[1]) == Twice()[2]
    ensures Apply(Twice()[2], TwiceActs()[2]) == Twice()[3]
  {
    FetchOne(Twice()[1].store, {});
  }

  lemma TwicePublish()
    ensures Apply(Twice()[3], TwiceActs()[3]) == Twice()[4]
    ensures Apply(Twice()[4], TwiceActs()[4]) == Twice()[5]
  {
  }

  lemma MessagesTwice()
    ensures Messages(Twice()[5].topic, 1) == 2
  {
  }

  /** The hypothesis of `PublicationBound` is needed: row locks end with the fetch, so a second
      dispatcher fetches a row that the first still holds, and both publish it, with no crash and no
      requeue. */
  lemma TwoDispatchersPublishTwice()
    ensures var s := Exec(Init(CONFIG, 0), TwiceActs());
      Messages(s.topic, 1) == 2 && s.store.Is(1, Queued) && s.store.jobs[1].attempts == 0
  {
    TwiceFetch();
    TwicePublish();
    TraceExec(Twice(), TwiceActs());
    MessagesTwice();
  }

  // ----- two reapers can reap a fresh run ---------------------------------------------------

  const CLAIMED_TWICE := History([FIRST, SECOND], [], map[1 := 1000], map[FIRST := Requeued])

  function Doubled(): seq<System> {
    var running := One(JobOne(Running, 0, 0), {});
    var queued := One(JobOne(Queued, 1, 1000), {});
    var rerun := One(JobOne(Running, 1, 1000), {});
    var sent := [Sent(1, true, false)];
    var both := map[0 := SWEPT, 1 := Reaper([ENTRY], false)];
    [ Listed(),
      System(running, sent, map[0 := OPEN_ROW], map[0 := Claimed(0, FIRST)],
             map[0 := Reaper([ENTRY], false), 1 := Reaper([ENTRY], false)], 1000, CLAIMED_ONCE),
      System(queued, sent, map[0 := OPEN_ROW], map[0 := Claimed(0, FIRST)], both, 1000, REQUEUED_ONCE),
      System(queued, sent, map[0 := OPEN_ROW], map[0 := Claimed(0, FIRST), 1 := Polled(0)], both, 1000, REQUEUED_ONCE),
      System(rerun, sent, map[0 := OPEN_ROW], map[0 := Claimed(0, FIRST), 1 := Claimed(0, SECOND)], both, 1000, CLAIMED_TWICE) ]
  }

  function DoubledActs(): seq<Action> {
    [Sweep(1), TryRequeue(0), Poll(1, 0), TryClaim(1)]
  }

  lemma DoubledSweep()
    ensures Apply(Doubled()[0], DoubledActs()[0]) == Doubled()[1]
  {
    ListOne(Listed().store, 1000);
  }

  lemma DoubledRequeue()
    ensures Apply(Doubled()[1], DoubledActs()[1]) == Doubled()[2]
  {
    RequeueOne();
    assert [ENTRY][1..] == [];
  }

  lemma DoubledPoll()
    ensures Apply(Doubled()[2], DoubledActs()[2]) == Doubled()[3]
  {
  }

  lemma DoubledClaim()
    ensures Apply(Doubled()[3], DoubledActs()[3]) == Doubled()[4]
  {
    assert [FIRST] + [SECOND] == [FIRST, SECOND];
  }

  lemma DoubledSteps()
    ensures IsTrace(Doubled(), DoubledActs())
  {
    DoubledSweep();
    DoubledRequeue();
    DoubledPoll();
    DoubledClaim();
  }

  lemma FreshRunRequeued()
    ensures Apply(Doubled()[4], TryRequeue(1)).store.Is(1, Queued)
  {
  }

  /** The hypothesis of `TimelyReaping` is needed: a second reaper acting on an entry whose `attempts`
      is no longer the row's requeues a run at the very moment of its claim. */
  lemma SecondReaperReapsFreshRun()
    ensures var s := Exec(Init(CONFIG, 0), StartActs() + DoubledActs());
      && s.store.Is(1, Running) && 1 in s.history.claimedAt && s.clock - s.history.claimedAt[1] == 0
      && s.R(1).pending == [ENTRY] && !Current(s, ENTRY) && Apply(s, TryRequeue(1)).store.Is(1, Queued)
  {
    StartSteps();
    DoubledSteps();
    FreshRunRequeued();
    TraceConcat(Start(), StartActs(), Doubled(), DoubledActs());
  }

  // ----- a stale worker can finish a later run ------------------------------------------------

  const BUSY := InHandler(0, FIRST, map[])

  const BUSY_AGAIN := InHandler(0, SECOND, map[])

  const BOTH_ENTERED := History([FIRST, SECOND], [FIRST, SECOND], map[1 := 1000], map[FIRST := Requeued])

  const FINISHED := BOTH_ENTERED.(ends := map[FIRST := Requeued, SECOND := FinishedBy(FIRST)])

  /** Job 1 as given, and a second job of the same type, created at time 1000. */
  function Two(status: Status): Store {
    Store(map[1 := JobOne(Completed, 1, 1000), 2 := Job(2, TYPE, status, map[], map[], 0, 1000, 1000, None)],
          map[1 := RowFor(1), 2 := RowFor(2)], {}, CONFIG, 3, 3)
  }

  /** Both workers are in a handler of job 1, the first of them reaped. */
  function Overtaken(): seq<System> {
    var sent := [Sent(1, true, false)];
    var open := map[0 := OPEN_ROW];
    var listed := map[0 := Reaper([ENTRY], false)];
    var swept := map[0 := SWEPT];
    var entered := History([FIRST], [FIRST], map[1 := 0], map[]);
    var requeued := entered.(ends := map[FIRST := Requeued]);
    var reclaimed := History([FIRST, SECOND], [FIRST], map[1 := 1000], map[FIRST := Requeued]);
    var rerun := One(JobOne(Running, 1, 1000), {});
    [ Listed(),
      System(One(JobOne(Running, 0, 1000), {}), sent, open, map[0 := Resolved(0, FIRST, map[])], listed, 1000, CLAIMED_ONCE),
      System(One(JobOne(Running, 0, 1000), {}), sent, open, map[0 := BUSY], listed, 1000, entered),
      System(One(JobOne(Queued, 1, 1000), {}), sent, open, map[0 := BUSY], swept, 1000, requeued),
      System(One(JobOne(Queued, 1, 1000), {}), sent, open, map[0 := BUSY, 1 := Polled(0)], swept, 1000, requeued),
      System(rerun, sent, open, map[0 := BUSY, 1 := Claimed(0, SECOND)], swept, 1000, reclaimed),
      System(rerun, sent, open, map[0 := BUSY, 1 := Resolved(0, SECOND, map[])], swept, 1000, reclaimed),
      System(rerun, sent, open, map[0 := BUSY, 1 := BUSY_AGAIN], swept, 1000, BOTH_ENTERED) ]
  }

  function OvertakenActs(): seq<Action> {
    [Resolve(0), Enter(0, true), TryRequeue(0), Poll(1, 0), TryClaim(1), Resolve(1), Enter(1, true)]
  }

  lemma RequeueResolved()
    ensures Requeue(One(JobOne(Running, 0, 1000), {}), 1, 1000) == (One(JobOne(Queued, 1, 1000), {}), true)
  {
    var s := One(JobOne(Running, 0, 1000), {});
    assert s.published - RowsOf(s, 1) == {};
    assert CanRequeue(s, 1);
    assert s.jobs[1 := JobOne(Queued, 1, 1000)] == map[1 := JobOne(Queued, 1, 1000)];
  }

  lemma ResolveOne(attempts: int, updatedAt: int)
    ensures ResolvePayload(One(JobOne(Running, attempts, updatedAt), {}), 1, TYPE, 1000)
         == (One(JobOne(Running, attempts, 1000), {}), Some(map[]))
  {
    var s := One(JobOne(Running, attempts, updatedAt), {});
    assert EffectivePayload(s, 1) == map[];
    assert s.jobs[1 := JobOne(Running, attempts, 1000)] == map[1 := JobOne(Running, attempts, 1000)];
  }

  lemma OvertakenResolve()
    ensures Apply(Overtaken()[0], OvertakenActs()[0]) == Overtaken()[1]
  {
    ResolveOne(0, 0);
  }

  lemma OvertakenEnter()
    ensures Apply(Overtaken()[1], OvertakenActs()[1]) == Overtaken()[2]
  {
    assert [] + [FIRST] == [FIRST];
  }

  lemma OvertakenRequeue()
    ensures Apply(Overtaken()[2], OvertakenActs()[2]) == Overtaken()[3]
  {
    RequeueResolved();
    assert [ENTRY][1..] == [];
  }

  lemma OvertakenPoll()
    ensures Apply(Overtaken()[3], OvertakenActs()[3]) == Overtaken()[4]
  {
  }

  lemma OvertakenClaim()
    ensures Apply(Overtaken()[4], OvertakenActs()[4]) == Overtaken()[5]
  {
    assert [FIRST] + [SECOND] == [FIRST, SECOND];
  }

  lemma OvertakenResolveAgain()
    ensures Apply(Overtaken()[5], OvertakenActs()[5]) == Overtaken()[6]
  {
    ResolveOne(1, 1000);
  }

  lemma OvertakenEnterAgain()
    ensures Apply(Overtaken()[6], OvertakenActs()[6]) == Overtaken()[7]
  {
    assert [FIRST] + [SECOND] == [FIRST, SECOND];
  }

  lemma OvertakenSteps()
    ensures IsTrace(Overtaken(), OvertakenActs())
  {
    OvertakenResolve();
    OvertakenEnter();
    OvertakenRequeue();
    OvertakenPoll();
    OvertakenClaim();
    OvertakenResolveAgain();
    OvertakenEnterAgain();
  }

  /** The first worker finishes job 1; a second job of the type is enqueued, delivered and entered. */
  function Beside(): seq<System> {
    var sent := [Sent(1, true, false)];
    var both := [Sent(1, true, false), Sent(2, false, false)];
    var open := map[0 := OPEN_ROW];
    var more := map[0 := OPEN_ROW, 1 := Dispatcher([RowFor(2)], true)];
    var swept := map[0 := SWEPT];
    var crew := map[0 := Acking(0), 1 := BUSY_AGAIN];
    var third := FINISHED.(claims := [FIRST, SECOND, THIRD], claimedAt := map[1 := 1000, 2 := 1000]);
    var taken := [Sent(1, true, false), Sent(2, true, false)];
    [ Overtaken()[7],
      System(One(JobOne(Running, 1, 1000), {}), sent, open, map[0 := Ending(0, FIRST, true), 1 := BUSY_AGAIN], swept, 1000, BOTH_ENTERED),
      System(One(JobOne(Completed, 1, 1000), {}), sent, open, crew, swept, 1000, FINISHED),
      System(Two(Queued), sent, open, crew, swept, 1000, FINISHED),
      System(Two(Queued), sent, open[1 := Dispatcher([RowFor(2)], false)], crew, swept, 1000, FINISHED),
      System(Two(Queued), both, more, crew, swept, 1000, FINISHED),
      System(Two(Queued), both, more, crew[2 := Polled(1)], swept, 1000, FINISHED),
      System(Two(Running), taken, more, crew[2 := Claimed(1, THIRD)], swept, 1000, third),
      System(Two(Running), taken, more, crew[2 := Resolved(1, THIRD, map[])], swept, 1000, third),
      System(Two(Running), taken, more, crew[2 := InHandler(1, THIRD, map[])], swept, 1000,
             third.(entries := [FIRST, SECOND, THIRD])) ]
  }

  function BesideActs(): seq<Action> {
    [Leave(0, true), End(0), Produce(TYPE, None, None), Fetch(1, 1, {1}), Publish(1), Poll(2, 1), TryClaim(2), Resolve(2),
     Enter(2, true)]
  }

  lemma EnqueueTwo()
    ensures Enqueue(One(JobOne(Completed, 1, 1000), {}), TYPE, None, None, 1000).0 == Two(Queued)
  {
  }

  lemma FetchTwo()
    ensures FetchUnpublished(Two(Queued).(published := Two(Queued).published + {1}), 1) == [RowFor(2)]
  {
  }

  lemma BesideLeave()
    ensures Apply(Beside()[0], BesideActs()[0]) == Beside()[1]
  {
  }

  lemma BesideEnd()
    ensures Apply(Beside()[1], BesideActs()[1]) == Beside()[2]
  {
  }

  lemma BesideProduce()
    ensures Apply(Beside()[2], BesideActs()[2]) == Beside()[3]
    ensures Apply(Beside()[3], BesideActs()[3]) == Beside()[4]
  {
    EnqueueTwo();
    FetchTwo();
  }

  lemma BesidePublish()
    ensures Apply(Beside()[4], BesideActs()[4]) == Beside()[5]
  {
    assert [Sent(1, true, false)] + [Sent(2, false, false)] == [Sent(1, true, false), Sent(2, false, false)];
  }

  lemma BesidePoll()
    ensures Apply(Beside()[5], BesideActs()[5]) == Beside()[6]
  {
  }

  lemma ClaimTwo()
    ensures Claim(Two(Queued), 2, 1000) == (Two(Running), true)
  {
    assert Two(Queued).jobs[2 := Two(Running).jobs[2]] == Two(Running).jobs;
  }

  lemma BesideClaim()
    ensures Apply(Beside()[6], BesideActs()[6]) == Beside()[7]
  {
    ClaimTwo();
    assert [FIRST, SECOND] + [THIRD] == [FIRST, SECOND, THIRD];
  }

  lemma ResolveTwo()
    ensures ResolvePayload(Two(Running), 2, TYPE, 1000) == (Two(Running), Some(map[]))
  {
    assert EffectivePayload(Two(Running), 2) == map[];
    assert Two(Running).jobs[2 := Two(Running).jobs[2]] == Two(Running).jobs;
  }

  lemma BesideResolve()
    ensures Apply(Beside()[7], BesideActs()[7]) == Beside()[8]
  {
    ResolveTwo();
  }

  lemma BesideEnter()
    ensures Apply(Beside()[8], BesideActs()[8]) == Beside()[9]
  {
  }

  lemma BesideSteps()
    ensures IsTrace(Beside(), BesideActs())
  {
    BesideLeave();
    BesideEnd();
    BesideProduce();
    BesidePublish();
    BesidePoll();
    BesideClaim();
    BesideResolve();
    BesideEnter();
  }

  /** `ExclusiveExecution` cannot be sharpened to "the reaper ended the earlier worker's own run":
      here two workers are in handlers of one type, and the earlier run was ended neither by a
      requeue nor by a dead letter, but by the stale worker of the run before it. */
  lemma StaleWorkerFinishesLaterRun()
    ensures var s := Exec(Init(CONFIG, 0), StartActs() + OvertakenActs() + BesideActs());
      && s.W(1).InHandler? && s.W(1).t == SECOND && s.W(2).InHandler? && s.W(2).t == THIRD
      && s.store.jobs.Keys == {1, 2} && s.store.jobs[1].jobType == s.store.jobs[2].jobType
      && SECOND in s.history.ends && s.history.ends[SECOND] == FinishedBy(FIRST)
  {
    StartSteps();
    OvertakenSteps();
    BesideSteps();
    TraceConcat(Start(), StartActs(), Overtaken(), OvertakenActs());
    TraceExec(Beside(), BesideActs());
    ExecConcat(Init(CONFIG, 0), StartActs() + OvertakenActs(), BesideActs());
    LastBeside();
  }

  lemma LastBeside()
    ensures var s := Beside()[9];
      && s.W(1).InHandler? && s.W(1).t == SECOND && s.W(2).InHandler? && s.W(2).t == THIRD
      && s.store.jobs.Keys == {1, 2} && s.store.jobs[1].jobType == s.store.jobs[2].jobType
      && SECOND in s.history.ends && s.history.ends[SECOND] == FinishedBy(FIRST)
  {
  }
}
