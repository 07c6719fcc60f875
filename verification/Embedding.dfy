/** Each component's unit of work, run without interruption, is a run of the interleaved system:
    the sequential functions and the protocol's steps describe the same code. */
module Embedding {
  import opened Models
  import opened StoreSpec
  import opened Sequential
  import opened Protocol

  lemma ExecPair(s: System, acts: seq<Action>, a: Action, b: Action)
    ensures Exec(s, acts + [a, b]) == Apply(Apply(Exec(s, acts), a), b)
  {
    assert acts + [a, b] == (acts + [a]) + [b];
    ExecSnoc(s, acts, a);
    ExecSnoc(s, acts + [a], b);
  }

  // ----- the environment -------------------------------------------------------------

  /** A crash loses what the process has in hand, wherever it stands, and nothing else: the store, the
      topic and every other process are as they were. */
  lemma CrashesLoseHands(s: System, d: int, w: int, r: int)
    ensures var t := Apply(Apply(Apply(s, CrashDispatcher(d)), CrashWorker(w)), CrashReaper(r));
      && t.D(d) == Dispatcher([], false) && t.W(w) == Waiting && t.R(r) == Reaper([], false)
      && (forall x :: x != d ==> t.D(x) == s.D(x))
      && (forall x :: x != w ==> t.W(x) == s.W(x))
      && (forall x :: x != r ==> t.R(x) == s.R(x))
      && t.store == s.store && t.topic == s.topic && t.clock == s.clock && t.history == s.history
  {
  }

  /** A fetch takes the rows, in ascending id, that are neither published nor locked by a concurrent
      fetch: all of them if there are fewer than the limit. */
  lemma FetchTakes(s: System, d: int, limit: nat, locked: set<int>)
    requires Consistent(s.store) && s.D(d).batch == []
    ensures var t := Apply(s, Fetch(d, limit, locked));
      var rows := t.D(d).batch;
      && t == s.(dispatchers := s.dispatchers[d := Dispatcher(rows, false)])
      && |rows| <= limit && Ascending(rows) && RowsOk(s.store, rows)
      && (forall k :: 0 <= k < |rows| ==> rows[k].id !in s.store.published && rows[k].id !in locked)
      && (|rows| < limit ==>
            forall i :: i in s.store.outbox && i !in s.store.published && i !in locked ==> s.store.outbox[i] in rows)
  {
    var seen := s.store.(published := s.store.published + locked);
    PublishedIsFree(s.store, s.store.published + locked);
    UnpublishedExact(seen, seen.nextOutbox);
  }

  // ----- reaper ----------------------------------------------------------------------

  function ReapActs(r: int, n: nat): seq<Action> {
    if n == 0 then [] else ReapActs(r, n - 1) + [TryRequeue(r), TryDeadLetter(r)]
  }

  /** Nothing but the store, the reaper's list and the history differs. */
  predicate OnlyReaped(s: System, t: System, r: int) {
    && t.topic == s.topic && t.dispatchers == s.dispatchers && t.workers == s.workers && t.clock == s.clock
    && t.reapers == s.reapers[r := t.R(r)]
  }

  lemma ReapPair(s: System, r: int)
    requires s.R(r).pending != [] && !s.R(r).refused
    ensures var t := Apply(Apply(s, TryRequeue(r)), TryDeadLetter(r));
      && t.store == ReapOne(s.store, s.R(r).pending[0].jobId, s.clock)
      && t.R(r) == Reaper(s.R(r).pending[1..], false)
      && OnlyReaped(s, t, r)
  {
    if CanRequeue(s.store, s.R(r).pending[0].jobId) {
      Requeues(s, r);
    } else {
      Refuses(s, r);
    }
  }

  lemma Requeues(s: System, r: int)
    requires s.R(r).pending != [] && !s.R(r).refused && CanRequeue(s.store, s.R(r).pending[0].jobId)
    ensures var t := DoRequeue(s, r);
      && t.store == ReapOne(s.store, s.R(r).pending[0].jobId, s.clock)
      && t.R(r) == Reaper(s.R(r).pending[1..], false)
      && OnlyReaped(s, t, r) && DoDeadLetter(t, r) == t
  {
  }

  lemma Refuses(s: System, r: int)
    requires s.R(r).pending != [] && !s.R(r).refused && !CanRequeue(s.store, s.R(r).pending[0].jobId)
    ensures var t := DoDeadLetter(DoRequeue(s, r), r);
      && t.store == ReapOne(s.store, s.R(r).pending[0].jobId, s.clock)
      && t.R(r) == Reaper(s.R(r).pending[1..], false)
      && OnlyReaped(s, t, r)
  {
  }

  lemma {:induction false} ReapRun(s: System, r: int, n: nat)
    requires !s.R(r).refused && n <= |s.R(r).pending|
    ensures var t := Exec(s, ReapActs(r, n));
      && t.store == ReapUpTo(s.store, s.R(r).pending, Steady(s.clock), n)
      && t.R(r) == Reaper(s.R(r).pending[n..], false)
      && (n == 0 ==> t == s) && (n > 0 ==> OnlyReaped(s, t, r))
    decreases n
  {
    if n > 0 {
      ReapRun(s, r, n - 1);
      ExecPair(s, ReapActs(r, n - 1), TryRequeue(r), TryDeadLetter(r));
      ReapPair(Exec(s, ReapActs(r, n - 1)), r);
    }
  }

  /** `reap_once`, uninterrupted. */
  lemma ReapIsARun(s: System, r: int)
    requires s.R(r).pending == []
    ensures var stuck := FindStuck(s.store, s.clock);
      Exec(s, [Sweep(r)] + ReapActs(r, |stuck|)).store == ReapUpTo(s.store, stuck, Steady(s.clock), |stuck|)
  {
    var stuck := FindStuck(s.store, s.clock);
    ExecFirst(s, Sweep(r), ReapActs(r, |stuck|));
    ReapRun(Apply(s, Sweep(r)), r, |stuck|);
  }

  // ----- dispatcher --------------------------------------------------------------------

  function DispatchActs(d: int, n: nat): seq<Action> {
    if n == 0 then [] else DispatchActs(d, n - 1) + [Publish(d), Mark(d)]
  }

  lemma {:induction false} DispatchActsKinds(d: int, n: nat)
    ensures forall i :: 0 <= i < |DispatchActs(d, n)| ==> DispatchActs(d, n)[i].Publish? || DispatchActs(d, n)[i].Mark?
    decreases n
  {
    if n > 0 {
      DispatchActsKinds(d, n - 1);
    }
  }

  function Fresh(rows: seq<OutboxMessage>): seq<Message> {
    seq(|rows|, k requires 0 <= k < |rows| => Message(rows[k].payload, false, false))
  }

  predicate OnlyDispatched(s: System, t: System, d: int) {
    && t.reapers == s.reapers && t.workers == s.workers && t.clock == s.clock && t.history == s.history
    && t.dispatchers == s.dispatchers[d := t.D(d)]
  }

  lemma DispatchPair(s: System, d: int)
    requires s.D(d).batch != [] && !s.D(d).open
    ensures var t := DoMark(DoPublish(s, d), d);
      var row := s.D(d).batch[0];
      && t.store == MarkDispatched(s.store, row.id, row.jobId, s.clock)
      && t.topic == s.topic + [Message(row.payload, false, false)]
      && t.D(d) == Dispatcher(s.D(d).batch[1..], false)
      && OnlyDispatched(s, t, d)
  {
  }

  /** `t` is `s` with the first `n` rows of dispatcher `d`'s batch published and marked. */
  ghost predicate BatchDone(s: System, t: System, d: int, n: nat)
    requires n <= |s.D(d).batch|
  {
    var rows := s.D(d).batch;
    && t.store == MarkUpTo(s.store, rows, Steady(s.clock), n)
    && t.topic == s.topic + Fresh(rows[..n])
    && t.D(d) == Dispatcher(rows[n..], false)
    && t.reapers == s.reapers && t.workers == s.workers && t.clock == s.clock && t.history == s.history
    && (n == 0 ==> t == s) && (n > 0 ==> OnlyDispatched(s, t, d))
  }

  lemma DispatchExtend(s: System, t: System, u: System, d: int, n: nat)
    requires n < |s.D(d).batch| && BatchDone(s, t, d, n)
    requires var row := s.D(d).batch[n];
      && u.store == MarkDispatched(t.store, row.id, row.jobId, t.clock)
      && u.topic == t.topic + [Message(row.payload, false, false)]
      && u.D(d) == Dispatcher(t.D(d).batch[1..], false)
      && OnlyDispatched(t, u, d)
    ensures BatchDone(s, u, d, n + 1)
  {
  }

  /** The first `n` rows of dispatcher `d`'s batch published and marked, one after the other. */
  function Dispatched(s: System, d: int, n: nat): System {
    if n == 0 then s else DoMark(DoPublish(Dispatched(s, d, n - 1), d), d)
  }

  lemma {:induction false} ExecDispatch(s: System, d: int, n: nat)
    ensures Exec(s, DispatchActs(d, n)) == Dispatched(s, d, n)
    decreases n
  {
    if n > 0 {
      ExecDispatch(s, d, n - 1);
      ExecPair(s, DispatchActs(d, n - 1), Publish(d), Mark(d));
      ApplyDispatch(Dispatched(s, d, n - 1), d);
    }
  }

  lemma ApplyDispatch(s: System, d: int)
    ensures Apply(Apply(s, Publish(d)), Mark(d)) == DoMark(DoPublish(s, d), d)
  {
  }

  lemma {:induction false} DispatchedDone(s: System, d: int, n: nat)
    requires !s.D(d).open && n <= |s.D(d).batch|
    ensures BatchDone(s, Dispatched(s, d, n), d, n)
    decreases n
  {
    if n == 0 {
      assert s.topic + Fresh(s.D(d).batch[..0]) == s.topic;
    } else {
      DispatchedDone(s, d, n - 1);
      DispatchOneMore(s, Dispatched(s, d, n - 1), d, n);
    }
  }

  lemma DispatchRun(s: System, d: int, n: nat)
    requires !s.D(d).open && n <= |s.D(d).batch|
    ensures BatchDone(s, Exec(s, DispatchActs(d, n)), d, n)
  {
    ExecDispatch(s, d, n);
    DispatchedDone(s, d, n);
  }

  lemma DispatchOneMore(s: System, t: System, d: int, n: nat)
    requires 0 < n <= |s.D(d).batch|
    ensures BatchDone(s, t, d, n - 1) ==> BatchDone(s, DoMark(DoPublish(t, d), d), d, n)
  {
    if BatchDone(s, t, d, n - 1) {
      DispatchPair(t, d);
      DispatchExtend(s, t, DoMark(DoPublish(t, d), d), d, n - 1);
    }
  }

  /** `dispatch_once`, uninterrupted. */
  lemma DispatchIsARun(s: System, d: int, limit: int)
    requires s.D(d).batch == []
    ensures var rows := FetchUnpublished(s.store, limit);
      var t := Exec(s, [Fetch(d, limit, {})] + DispatchActs(d, |rows|));
      && t.store == Dispatch(s.store, limit, Steady(s.clock)).0
      && t.topic == s.topic + Fresh(rows)
      && t.D(d) == Dispatcher([], false)
      && OnlyDispatched(s, t, d)
  {
    var rows := FetchUnpublished(s.store, limit);
    assert s.store.(published := s.store.published + {}) == s.store;
    ExecFirst(s, Fetch(d, limit, {}), DispatchActs(d, |rows|));
    DispatchRun(Apply(s, Fetch(d, limit, {})), d, |rows|);
    assert rows[..|rows|] == rows;
  }

  /** One batch that takes the whole outbox. */
  lemma DrainOutbox(s: System, d: int) returns (acts: seq<Action>)
    requires s.D(d) == Dispatcher([], false) && Consistent(s.store)
    ensures var t := Exec(s, acts);
      var rows := Unpublished(s.store);
      && (forall i :: 0 <= i < |acts| ==> acts[i].Fetch? || acts[i].Publish? || acts[i].Mark?)
      && RowsOk(s.store, rows) && t.topic == s.topic + Fresh(rows)
      && OnlyDispatched(s, t, d) && t.D(d) == Dispatcher([], false)
      && Alike(t.store, AfterMarks(s.store, RowIds(rows))) && Unpublished(t.store) == []
  {
    var rows := Unpublished(s.store);
    WholeBatch(s.store, s.clock);
    acts := [Fetch(d, |rows|, {})] + DispatchActs(d, |rows|);
    DispatchActsKinds(d, |rows|);
    DispatchIsARun(s, d, |rows|);
  }

  lemma WholeBatch(s: Store, now: int)
    requires Consistent(s)
    ensures var rows := Unpublished(s);
      && FetchUnpublished(s, |rows|) == rows && RowsOk(s, rows)
      && var t := Dispatch(s, |rows|, Steady(now)).0;
      Alike(t, AfterMarks(s, RowIds(rows))) && Unpublished(t) == []
  {
    DispatchExact(s, |Unpublished(s)|, Steady(now));
    BatchIsPrefix(s, |Unpublished(s)|);
  }

  // ----- worker ------------------------------------------------------------------------

  function ClaimActs(w: int): seq<Action> {
    [TryClaim(w), Resolve(w)]
  }

  function HandlerActs(w: int, found: bool, ok: bool): seq<Action> {
    [Enter(w, found), Leave(w, ok)]
  }

  function EndActs(w: int): seq<Action> {
    [End(w), Commit(w)]
  }

  /** Process and commit the polled message; steps that the outcome makes moot do nothing. */
  function ResumeActs(w: int, found: bool, ok: bool): seq<Action> {
    ClaimActs(w) + HandlerActs(w, found, ok) + EndActs(w)
  }

  function ProcessActs(w: int, k: int, found: bool, ok: bool): seq<Action> {
    [Poll(w, k)] + ResumeActs(w, found, ok)
  }

  /** Nothing but the store, the topic, worker `w` and the history differs. */
  ghost predicate SameOthers(s: System, t: System, w: int) {
    && t.reapers == s.reapers && t.dispatchers == s.dispatchers && t.clock == s.clock
    && forall v :: v != w ==> t.W(v) == s.W(v)
  }

  /** From message `k`, just polled, to the resolved payload. */
  ghost predicate AfterClaim(s: System, t: System, w: int, k: int)
    requires 0 <= k < |s.topic|
  {
    var e := s.topic[k].env;
    var (s1, won) := Claim(s.store, e.jobId, s.clock);
    var (s2, p) := ResolvePayload(s1, e.jobId, e.jobType, s.clock);
    && t.store == (if won then s2 else s1)
    && (!won ==> t.W(w) == Acking(k))
    && (won && p.None? ==> t.W(w) == Ending(k, CurrentRun(s.store, e.jobId), false))
    && (won && p.Some? ==> t.W(w) == Resolved(k, CurrentRun(s.store, e.jobId), p.value))
    && t.topic == s.topic[k := s.topic[k].(offered := true)]
    && SameOthers(s, t, w)
  }

  /** Through the handler, if one is entered. */
  ghost predicate AfterHandler(s: System, t: System, w: int, found: bool, ok: bool) {
    && t.W(w) == (if s.W(w).Resolved? then Ending(s.W(w).k, s.W(w).t, found && ok) else s.W(w))
    && t.store == s.store && t.topic == s.topic
    && SameOthers(s, t, w)
  }

  /** Through `complete` or `fail` to the commit. */
  ghost predicate AfterEnd(s: System, t: System, w: int)
    requires s.W(w).Acking? || s.W(w).Ending?
  {
    var k := s.W(w).k;
    && 0 <= k < |s.topic|
    && t.store == (if s.W(w).Acking? then s.store else Finish(s.store, s.W(w).t.job, s.W(w).ok, s.clock).0)
    && t.topic == s.topic[k := s.topic[k].(committed := true)]
    && t.W(w).Waiting? && SameOthers(s, t, w)
  }

  lemma ExecClaim(s: System, w: int)
    ensures Exec(s, ClaimActs(w)) == DoResolve(DoClaim(s, w), w)
  {
    ExecTwo(s, TryClaim(w), Resolve(w));
  }

  lemma ExecHandler(s: System, w: int, found: bool, ok: bool)
    ensures Exec(s, HandlerActs(w, found, ok)) == DoLeave(DoEnter(s, w, found), w, ok)
  {
    ExecTwo(s, Enter(w, found), Leave(w, ok));
  }

  lemma ExecEnd(s: System, w: int)
    ensures Exec(s, EndActs(w)) == DoCommit(DoEnd(s, w), w)
  {
    ExecTwo(s, End(w), Commit(w));
  }

  lemma ExecTwo(s: System, a: Action, b: Action)
    ensures Exec(s, [a, b]) == Apply(Apply(s, a), b)
  {
    ExecPair(s, [], a, b);
    assert [] + [a, b] == [a, b];
  }

  lemma ClaimSegment(s: System, w: int)
    requires s.W(w).Polled? && 0 <= s.W(w).k < |s.topic|
    ensures AfterClaim(s, Exec(s, ClaimActs(w)), w, s.W(w).k)
  {
    ExecClaim(s, w);
    ClaimSteps(s, w);
  }

  lemma ClaimSteps(s: System, w: int)
    requires s.W(w).Polled? && 0 <= s.W(w).k < |s.topic|
    ensures AfterClaim(s, DoResolve(DoClaim(s, w), w), w, s.W(w).k)
  {
  }

  lemma HandlerSegment(s: System, w: int, found: bool, ok: bool)
    requires s.W(w).Acking? || s.W(w).Ending? || s.W(w).Resolved?
    ensures AfterHandler(s, Exec(s, HandlerActs(w, found, ok)), w, found, ok)
  {
    ExecHandler(s, w, found, ok);
    HandlerSteps(s, w, found, ok);
  }

  lemma HandlerSteps(s: System, w: int, found: bool, ok: bool)
    requires s.W(w).Acking? || s.W(w).Ending? || s.W(w).Resolved?
    ensures AfterHandler(s, DoLeave(DoEnter(s, w, found), w, ok), w, found, ok)
  {
  }

  lemma EndSegment(s: System, w: int)
    requires (s.W(w).Acking? || s.W(w).Ending?) && 0 <= s.W(w).k < |s.topic|
    ensures AfterEnd(s, Exec(s, EndActs(w)), w)
  {
    ExecEnd(s, w);
    EndSteps(s, w);
  }

  lemma EndSteps(s: System, w: int)
    requires (s.W(w).Acking? || s.W(w).Ending?) && 0 <= s.W(w).k < |s.topic|
    ensures AfterEnd(s, DoCommit(DoEnd(s, w), w), w)
  {
  }

  /** The handler outcomes that a lookup dictates for an envelope. */
  predicate Found(lookup: Lookup, e: Envelope) {
    lookup(e.jobType).Some?
  }

  predicate Succeeds(s: Store, lookup: Lookup, e: Envelope) {
    && e.jobId in s.jobs && s.jobs[e.jobId].jobType in s.config
    && Accepts(lookup, e.jobType, EffectivePayload(s, e.jobId))
  }

  ghost predicate Processed(s: System, t: System, w: int, k: int, lookup: Lookup)
    requires 0 <= k < |s.topic|
  {
    && t.store == Process(s.store, lookup, s.topic[k].env, s.clock, s.clock, s.clock).0
    && t.topic == s.topic[k := s.topic[k].(offered := true, committed := true)]
    && t.W(w).Waiting? && SameOthers(s, t, w)
  }

  lemma SegmentsMakeProcess(s: System, s1: System, s2: System, s3: System, w: int, k: int, lookup: Lookup)
    requires 0 <= k < |s.topic| && AfterClaim(s, s1, w, k)
    requires AfterHandler(s1, s2, w, Found(lookup, s.topic[k].env), Succeeds(s.store, lookup, s.topic[k].env))
    requires (s2.W(w).Acking? || s2.W(w).Ending?) && AfterEnd(s2, s3, w)
    ensures Processed(s, s3, w, k, lookup)
  {
  }

  /** `process` and `commit` of a message already polled, uninterrupted. */
  lemma ResumeIsARun(s: System, w: int, lookup: Lookup)
    requires s.W(w).Polled? && 0 <= s.W(w).k < |s.topic|
    ensures var e := s.topic[s.W(w).k].env;
      Processed(s, Exec(s, ResumeActs(w, Found(lookup, e), Succeeds(s.store, lookup, e))), w, s.W(w).k, lookup)
  {
    var k := s.W(w).k;
    var e := s.topic[k].env;
    var found, ok := Found(lookup, e), Succeeds(s.store, lookup, e);
    var s1 := Exec(s, ClaimActs(w));
    var s2 := Exec(s1, HandlerActs(w, found, ok));
    ExecConcat(s, ClaimActs(w), HandlerActs(w, found, ok));
    ExecConcat(s, ClaimActs(w) + HandlerActs(w, found, ok), EndActs(w));
    ClaimSegment(s, w);
    HandlerSegment(s1, w, found, ok);
    EndSegment(s2, w);
    SegmentsMakeProcess(s, s1, s2, Exec(s2, EndActs(w)), w, k, lookup);
  }

  lemma ExecProcess(s: System, w: int, k: int, found: bool, ok: bool)
    ensures Exec(s, ProcessActs(w, k, found, ok)) == Exec(DoPoll(s, w, k), ResumeActs(w, found, ok))
  {
    ExecFirst(s, Poll(w, k), ResumeActs(w, found, ok));
  }

  /** `poll`, `process`, `commit`, uninterrupted. */
  lemma ProcessIsARun(s: System, w: int, k: int, lookup: Lookup)
    requires s.W(w).Waiting? && 0 <= k < |s.topic|
    ensures var e := s.topic[k].env;
      Processed(s, Exec(s, ProcessActs(w, k, Found(lookup, e), Succeeds(s.store, lookup, e))), w, k, lookup)
  {
    var e := s.topic[k].env;
    var s1 := DoPoll(s, w, k);
    ExecProcess(s, w, k, Found(lookup, e), Succeeds(s.store, lookup, e));
    ResumeIsARun(s1, w, lookup);
    PollIsNothing(s, Exec(s1, ResumeActs(w, Found(lookup, e), Succeeds(s.store, lookup, e))), w, k, lookup);
  }

  /** Polling changes only what the worker has in hand. */
  lemma PollIsNothing(s: System, t: System, w: int, k: int, lookup: Lookup)
    requires s.W(w).Waiting? && 0 <= k < |s.topic| && Processed(DoPoll(s, w, k), t, w, k, lookup)
    ensures Processed(s, t, w, k, lookup)
  {
  }
}
