/** How often a job's row is published. Publication is at least once: every requeue asks for one more,
    and every crash between a publication and its mark repeats one. With any number of dispatchers
    nothing else does, as long as no fetch takes a row that another dispatcher still has in hand; and
    such a fetch can always lead to a publication that nothing asked for. */
module Publications {
  import opened Models
  import opened StoreSpec
  import opened Protocol
  import opened NoLostJob
  import opened Sequential
  import opened Embedding
  import opened Stranding

  /** How many messages of job `j` are on the topic. */
  function Messages(topic: seq<Message>, j: int): nat {
    if topic == [] then 0
    else Messages(topic[..|topic| - 1], j) + if topic[|topic| - 1].env.jobId == j then 1 else 0
  }

  /** A dispatcher crashes between the publication of `j` and its mark. */
  predicate CrashInWindow(s: System, a: Action, j: int) {
    a.CrashDispatcher? && OpenOn(s, a.d, j)
  }

  /** How many such crashes the run has. */
  ghost function CrashesInWindow(s: System, acts: seq<Action>, j: int): nat
    decreases |acts|
  {
    if acts == [] then 0
    else
      var init, last := acts[..|acts| - 1], acts[|acts| - 1];
      CrashesInWindow(s, init, j) + if CrashInWindow(Exec(s, init), last, j) then 1 else 0
  }

  /** The row of `j` has still to be published. */
  ghost predicate Due(s: System, j: int) {
    j in s.store.jobs && j !in s.store.published && !Window(s, j)
  }

  /** Dispatcher `d` has the row with this id in hand. */
  predicate Has(s: System, d: int, id: int) {
    exists i :: 0 <= i < |s.D(d).batch| && s.D(d).batch[i].id == id
  }

  /** The rows that `fetch_unpublished` returns when some are locked elsewhere. */
  function Fetched(s: Store, limit: int, locked: set<int>): seq<OutboxMessage> {
    FetchUnpublished(s.(published := s.published + locked), limit)
  }

  /** The action fetches a row that dispatcher `e` still has in hand. */
  ghost predicate Takes(s: System, a: Action, e: int, id: int) {
    && a.Fetch? && s.D(a.d).batch == [] && Has(s, e, id)
    && exists i :: 0 <= i < |Fetched(s.store, a.limit, a.locked)| && Fetched(s.store, a.limit, a.locked)[i].id == id
  }

  ghost predicate Overlaps(s: System, a: Action) {
    exists e, id :: Takes(s, a, e, id)
  }

  ghost predicate NoOverlap(s: System, acts: seq<Action>) {
    forall i :: 0 <= i < |acts| ==> !Overlaps(Exec(s, acts[..i]), acts[i])
  }

  // ----- the topic ---------------------------------------------------------------------------

  lemma {:induction false} SameMessages(p: seq<Message>, q: seq<Message>, j: int)
    requires |p| == |q| && forall k :: 0 <= k < |p| ==> p[k].env == q[k].env
    ensures Messages(p, j) == Messages(q, j)
    decreases |p|
  {
    if p != [] {
      SameMessages(p[..|p| - 1], q[..|q| - 1], j);
    }
  }

  /** The action publishes the row of `j`. */
  predicate Publishes(s: System, a: Action, j: int) {
    a.Publish? && s.D(a.d).batch != [] && !s.D(a.d).open && s.D(a.d).batch[0].payload.jobId == j
  }

  lemma TopicLength(s: System, a: Action)
    ensures !a.Publish? ==> |Apply(s, a).topic| == |s.topic|
  {
  }

  lemma MessagesStep(s: System, a: Action, j: int)
    ensures Messages(Apply(s, a).topic, j) == Messages(s.topic, j) + if Publishes(s, a, j) then 1 else 0
  {
    TopicStep(s, a);
    TopicLength(s, a);
    if a.Publish? {
      PublishMessages(s, a.d, j);
    } else {
      SameMessages(s.topic, Apply(s, a).topic, j);
    }
  }

  lemma PublishMessages(s: System, d: int, j: int)
    ensures Messages(DoPublish(s, d).topic, j) == Messages(s.topic, j) + if Publishes(s, Publish(d), j) then 1 else 0
  {
  }

  // ----- the batches -------------------------------------------------------------------------

  /** The rows of a batch are distinct and not yet marked. */
  ghost predicate BatchOk(s: System, d: int) {
    && Ascending(s.D(d).batch)
    && (forall i :: 0 <= i < |s.D(d).batch| ==> s.D(d).batch[i].id !in s.store.published)
  }

  /** No row is in the hands of two dispatchers. */
  ghost predicate Disjoint(s: System) {
    forall d, e, id :: Has(s, d, id) && Has(s, e, id) ==> d == e
  }

  ghost predicate BatchesOk(s: System) {
    Disjoint(s) && forall d :: BatchOk(s, d)
  }

  /** Nothing but a mark publishes a row. */
  lemma MarkedStep(s: Store, op: Op, now: int, i: int)
    requires i in ApplyOp(s, op, now).published && i !in s.published
    ensures op.OpMark? && op.outboxId == i
  {
  }

  /** Nothing but a requeue of its job takes a row back. */
  lemma RearmedStep(s: Store, op: Op, now: int, j: int)
    requires Consistent(s) && j in s.jobs && j in s.published && j !in ApplyOp(s, op, now).published
    ensures op == OpRequeue(j) && j in ApplyOp(s, op, now).jobs && ApplyOp(s, op, now).jobs[j].attempts == s.jobs[j].attempts + 1
  {
  }

  /** What becomes of a dispatcher's batch. */
  lemma BatchMoves(s: System, a: Action, d: int)
    ensures var (x, y) := (s.D(d), Apply(s, a).D(d));
      || (y.batch == x.batch && !(a == Mark(d) && x.batch != [] && x.open))
      || (a.Fetch? && a.d == d && x.batch == [] && y.batch == Fetched(s.store, a.limit, a.locked))
      || y.batch == []
      || (a == Mark(d) && x.batch != [] && x.open && y.batch == x.batch[1..])
  {
  }

  lemma FetchedBatch(s: Store, limit: int, locked: set<int>)
    requires Consistent(s)
    ensures var rows := Fetched(s, limit, locked);
      Ascending(rows) && forall i :: 0 <= i < |rows| ==> rows[i].id !in s.published
  {
    var st := s.(published := s.published + locked);
    PublishedIsFree(s, s.published + locked);
    UnpublishedExact(st, st.nextOutbox);
  }

  /** Rows come into a dispatcher's hands only by its own fetch. */
  lemma HasBefore(s: System, a: Action, d: int, id: int)
    requires Has(Apply(s, a), d, id)
    ensures Has(s, d, id) || (a.Fetch? && a.d == d && s.D(d).batch == []
                              && exists i :: 0 <= i < |Fetched(s.store, a.limit, a.locked)| && Fetched(s.store, a.limit, a.locked)[i].id == id)
  {
    BatchMoves(s, a, d);
    var y := Apply(s, a).D(d);
    var i :| 0 <= i < |y.batch| && y.batch[i].id == id;
    if a == Mark(d) && s.D(d).batch != [] && y.batch == s.D(d).batch[1..] {
      assert s.D(d).batch[i + 1].id == id;
    }
  }

  lemma DisjointStep(s: System, a: Action)
    requires Disjoint(s) && !Overlaps(s, a)
    ensures Disjoint(Apply(s, a))
  {
    forall d, e, id | Has(Apply(s, a), d, id) && Has(Apply(s, a), e, id)
      ensures d == e
    {
      HasBefore(s, a, d, id);
      HasBefore(s, a, e, id);
      assert !Takes(s, a, d, id) && !Takes(s, a, e, id);
    }
  }

  /** A mark publishes the first row of its own batch, which nobody else has. */
  lemma UnmarkedStep(s: System, a: Action, d: int, i: int)
    requires Base(s) && BatchesOk(s) && 0 <= i < |Apply(s, a).D(d).batch|
    requires Apply(s, a).D(d).batch[i].id !in s.store.published && Has(s, d, Apply(s, a).D(d).batch[i].id)
    ensures Apply(s, a).D(d).batch[i].id !in Apply(s, a).store.published
  {
    var id := Apply(s, a).D(d).batch[i].id;
    StoreStep(s, a);
    if OpOf(s, a).OpMark? {
      var head := s.D(a.d).batch[0].id;
      assert Has(s, a.d, head) && BatchOk(s, d);
      BatchMoves(s, a, d);
      assert id != head;
    }
    if id in Apply(s, a).store.published {
      MarkedStep(s.store, OpOf(s, a), s.clock, id);
    }
  }

  lemma BatchStep(s: System, a: Action, d: int)
    requires Base(s) && BatchesOk(s) && !Overlaps(s, a)
    ensures BatchOk(Apply(s, a), d)
  {
    var y := Apply(s, a).D(d);
    assert BatchOk(s, d);
    BatchMoves(s, a, d);
    if a.Fetch? && a.d == d && s.D(d).batch == [] {
      FetchedBatch(s.store, a.limit, a.locked);
    } else {
      forall i | 0 <= i < |y.batch|
        ensures y.batch[i].id !in Apply(s, a).store.published
      {
        assert s.D(d).batch[if y.batch == s.D(d).batch then i else i + 1] == y.batch[i];
        UnmarkedStep(s, a, d, i);
      }
    }
  }

  // ----- the bound ---------------------------------------------------------------------------

  /** An open window's row is in hand, first in the batch. */
  lemma OpenRow(s: System, d: int, j: int)
    requires Base(s) && OpenOn(s, d, j)
    ensures s.D(d).batch[0].id == j && Has(s, d, j)
  {
    assert RowsOk(s.store, s.D(d).batch) && RowOk(s.store, s.D(d).batch[0].id);
  }

  /** A publication uses up what was due. */
  lemma PublishWasDue(s: System, a: Action, j: int)
    requires Base(s) && BatchesOk(s) && Publishes(s, a, j)
    ensures Due(s, j) && !Due(Apply(s, a), j)
  {
    assert RowsOk(s.store, s.D(a.d).batch) && RowOk(s.store, s.D(a.d).batch[0].id);
    assert BatchOk(s, a.d) && s.D(a.d).batch[0].id == j && Has(s, a.d, j);
    assert OpenOn(Apply(s, a), a.d, j);
    if e :| OpenOn(s, e, j) {
      OpenRow(s, e, j);
    }
  }

  /** A window closes by a mark, which publishes the row, or by a crash. */
  lemma WindowCloses(s: System, a: Action, d: int, j: int)
    requires Base(s) && OpenOn(s, d, j) && !OpenOn(Apply(s, a), d, j)
    ensures CrashInWindow(s, a, j) || j in Apply(s, a).store.published
  {
    WindowMoves(s, a, d, j);
    OpenRow(s, d, j);
    if a == Mark(d) {
      assert Apply(s, a).store == MarkDispatched(s.store, s.D(d).batch[0].id, s.D(d).batch[0].jobId, s.clock);
    }
  }

  lemma WindowMoves(s: System, a: Action, d: int, j: int)
    requires OpenOn(s, d, j) && !OpenOn(Apply(s, a), d, j)
    ensures a == Mark(d) || a == CrashDispatcher(d)
  {
  }

  /** Why a publication becomes due: a new job, a requeue, or a crash inside a window. */
  lemma BecomesDue(s: System, a: Action, j: int)
    requires Base(s) && Due(Apply(s, a), j) && !Due(s, j) && j in s.store.jobs
    ensures CrashInWindow(s, a, j) || Apply(s, a).store.jobs[j].attempts == s.store.jobs[j].attempts + 1
  {
    if j in s.store.published {
      StoreStep(s, a);
      RearmedStep(s.store, OpOf(s, a), s.clock, j);
    } else {
      var d :| OpenOn(s, d, j);
      assert !OpenOn(Apply(s, a), d, j);
      WindowCloses(s, a, d, j);
    }
  }

  /** What has been published of `j` and what is due, against its requeues and `c` crashes. */
  ghost predicate Bounded(s: System, j: int, c: int) {
    Messages(s.topic, j) + (if Due(s, j) then 1 else 0) <= c + if j in s.store.jobs then s.store.jobs[j].attempts + 1 else 0
  }

  lemma BoundedStep(s: System, a: Action, j: int, c: int)
    requires Base(s) && BatchesOk(s) && Bounded(s, j, c)
    ensures Bounded(Apply(s, a), j, c + if CrashInWindow(s, a, j) then 1 else 0)
  {
    MessagesStep(s, a, j);
    StoreEvolves(s, a);
    if Publishes(s, a, j) {
      PublishWasDue(s, a, j);
    } else if j in s.store.jobs && Due(Apply(s, a), j) && !Due(s, j) {
      BecomesDue(s, a, j);
    }
    if j in Apply(s, a).store.jobs {
      assert JobOk(Apply(s, a).store, j);
    }
  }

  lemma {:induction false} BatchesAlways(config: map<string, TypeConfig>, t0: int, acts: seq<Action>)
    requires NoOverlap(Init(config, t0), acts)
    ensures BatchesOk(Exec(Init(config, t0), acts))
    decreases |acts|
  {
    if acts != [] {
      var init, last := acts[..|acts| - 1], acts[|acts| - 1];
      var s := Exec(Init(config, t0), init);
      NoOverlapInit(Init(config, t0), acts);
      BatchesAlways(config, t0, init);
      BaseAlways(config, t0, init);
      DisjointStep(s, last);
      forall d ensures BatchOk(Apply(s, last), d) {
        BatchStep(s, last, d);
      }
    }
  }

  lemma NoOverlapInit(s: System, acts: seq<Action>)
    requires NoOverlap(s, acts) && acts != []
    ensures NoOverlap(s, acts[..|acts| - 1]) && !Overlaps(Exec(s, acts[..|acts| - 1]), acts[|acts| - 1])
  {
    var init := acts[..|acts| - 1];
    forall i | 0 <= i < |init|
      ensures !Overlaps(Exec(s, init[..i]), init[i])
    {
      assert init[..i] == acts[..i];
    }
  }

  lemma {:induction false} BoundedAlways(config: map<string, TypeConfig>, t0: int, acts: seq<Action>, j: int)
    requires NoOverlap(Init(config, t0), acts)
    ensures Bounded(Exec(Init(config, t0), acts), j, CrashesInWindow(Init(config, t0), acts, j))
    decreases |acts|
  {
    if acts != [] {
      var init, last := acts[..|acts| - 1], acts[|acts| - 1];
      NoOverlapInit(Init(config, t0), acts);
      BoundedAlways(config, t0, init, j);
      BatchesAlways(config, t0, init);
      BaseAlways(config, t0, init);
      BoundedStep(Exec(Init(config, t0), init), last, j, CrashesInWindow(Init(config, t0), init, j));
    }
  }

  /** With any number of dispatchers and no overlapping fetch, a job's messages number at most its
      requeues plus one, plus one for each crash between a publication of the job and its mark; and
      as long as its row is still due, one less. */
  lemma PublicationBound(config: map<string, TypeConfig>, t0: int, acts: seq<Action>, j: int)
    requires NoOverlap(Init(config, t0), acts)
    requires j in Exec(Init(config, t0), acts).store.jobs
    ensures var s := Exec(Init(config, t0), acts);
      Messages(s.topic, j) + (if Due(s, j) then 1 else 0)
        <= s.store.jobs[j].attempts + 1 + CrashesInWindow(Init(config, t0), acts, j)
  {
    BoundedAlways(config, t0, acts, j);
  }

  // ----- a single dispatcher never overlaps ------------------------------------------------------

  /** Only dispatcher 0 takes part. */
  predicate SingleDispatcher(a: Action) {
    a.Fetch? || a.Publish? || a.Mark? || a.CrashDispatcher? ==> a.d == 0
  }

  lemma {:induction false} OthersIdle(config: map<string, TypeConfig>, t0: int, acts: seq<Action>, d: int)
    requires d != 0 && forall i :: 0 <= i < |acts| ==> SingleDispatcher(acts[i])
    ensures Exec(Init(config, t0), acts).D(d).batch == []
    decreases |acts|
  {
    if acts != [] {
      OthersIdle(config, t0, acts[..|acts| - 1], d);
      BatchMoves(Exec(Init(config, t0), acts[..|acts| - 1]), acts[|acts| - 1], d);
    }
  }

  lemma SingleNeverOverlaps(config: map<string, TypeConfig>, t0: int, acts: seq<Action>)
    requires forall i :: 0 <= i < |acts| ==> SingleDispatcher(acts[i])
    ensures NoOverlap(Init(config, t0), acts)
  {
    forall i | 0 <= i < |acts|
      ensures !Overlaps(Exec(Init(config, t0), acts[..i]), acts[i])
    {
      var s := Exec(Init(config, t0), acts[..i]);
      forall e, id
        ensures !Takes(s, acts[i], e, id)
      {
        if e != 0 {
          OthersIdle(config, t0, acts[..i], e);
        }
      }
    }
  }

  lemma SingleDispatcherBound(config: map<string, TypeConfig>, t0: int, acts: seq<Action>, j: int)
    requires forall i :: 0 <= i < |acts| ==> SingleDispatcher(acts[i])
    requires j in Exec(Init(config, t0), acts).store.jobs
    ensures var s := Exec(Init(config, t0), acts);
      Messages(s.topic, j) + (if Due(s, j) then 1 else 0)
        <= s.store.jobs[j].attempts + 1 + CrashesInWindow(Init(config, t0), acts, j)
  {
    SingleNeverOverlaps(config, t0, acts);
    PublicationBound(config, t0, acts, j);
  }

  // ----- an overlapping fetch can always repeat a publication --------------------------------------

  /** Along `more`, which only publishes and marks, some row is published that is not due. */
  ghost predicate Repeats(s: System, more: seq<Action>, j: int) {
    && |more| > 0 && (forall i :: 0 <= i < |more| ==> more[i].Publish? || more[i].Mark?)
    && var t := Exec(s, more[..|more| - 1]);
    Publishes(t, more[|more| - 1], j) && j in t.store.jobs && !Due(t, j)
  }

  /** Dispatcher `e` works off its batch, the row of `j` included. */
  lemma MarkHeld(s: System, e: int, j: int) returns (acts: seq<Action>)
    requires Base(s) && Has(s, e, j)
    ensures var t := Exec(s, acts);
      && (forall i :: 0 <= i < |acts| ==> acts[i].Publish? || acts[i].Mark?)
      && j in t.store.published && (forall d :: d != e ==> t.D(d) == s.D(d))
  {
    var i :| 0 <= i < |s.D(e).batch| && s.D(e).batch[i].id == j;
    var s1 := Apply(s, Mark(e));
    ExecSnoc(s, [], Mark(e));
    if s.D(e).open && i == 0 {
      acts := [Mark(e)];
    } else {
      var m := |s1.D(e).batch|;
      acts := [Mark(e)] + DispatchActs(e, m);
      DispatchActsKinds(e, m);
      ExecConcat(s, [Mark(e)], DispatchActs(e, m));
      BaseStep(s, Mark(e));
      MarkBatch(s1, e, m, if s.D(e).open then i - 1 else i);
    }
  }

  lemma MarkBatch(s: System, e: int, m: nat, i: nat)
    requires Base(s) && !s.D(e).open && m == |s.D(e).batch| && i < m
    ensures var t := Exec(s, DispatchActs(e, m));
      s.D(e).batch[i].id in t.store.published && forall d :: d != e ==> t.D(d) == s.D(d)
  {
    var rows := s.D(e).batch;
    DispatchRun(s, e, m);
    assert RowsOk(s.store, rows);
    MarkAllExact(s.store, rows, Steady(s.clock), m);
    assert rows[..m] == rows && rows[i].id in RowIds(rows);
  }

  /** Dispatcher `d` works off its batch up to row `i` and publishes that row. */
  lemma PublishHeld(s: System, d: int, i: nat) returns (acts: seq<Action>)
    requires Base(s) && !s.D(d).open && i < |s.D(d).batch| && s.D(d).batch[i].id in s.store.published
    ensures Repeats(s, acts, s.D(d).batch[i].id)
  {
    var rows := s.D(d).batch;
    var j := rows[i].id;
    var init := DispatchActs(d, i);
    DispatchActsKinds(d, i);
    DispatchRun(s, d, i);
    assert RowsOk(s.store, rows) && RowOk(s.store, j);
    MarkAllExact(s.store, rows, Steady(s.clock), i);
    acts := init + [Publish(d)];
    assert acts[..|acts| - 1] == init;
    assert j in Exec(s, init).store.published;
  }

  lemma RepeatsLater(s: System, a: seq<Action>, b: seq<Action>, j: int)
    requires Repeats(Exec(s, a), b, j) && forall i :: 0 <= i < |a| ==> a[i].Publish? || a[i].Mark?
    ensures Repeats(s, a + b, j)
  {
    assert (a + b)[..|a + b| - 1] == a + b[..|b| - 1];
    ExecConcat(s, a, b[..|b| - 1]);
  }

  /** The condition is exact: an overlapping fetch has a continuation without crash, requeue or
      further fetch that publishes a row which is not due. */
  lemma OverlapRepeats(s: System, a: Action)
    requires Base(s) && Overlaps(s, a)
    ensures exists more, j :: Repeats(Apply(s, a), more, j)
  {
    var e, j :| Takes(s, a, e, j);
    var t := Apply(s, a);
    BaseStep(s, a);
    assert a.d != e && t.D(e) == s.D(e) && t.D(a.d) == Dispatcher(Fetched(s.store, a.limit, a.locked), false);
    assert Has(t, e, j);
    var first := MarkHeld(t, e, j);
    var u := Exec(t, first);
    assert u.D(a.d) == t.D(a.d);
    var i :| 0 <= i < |u.D(a.d).batch| && u.D(a.d).batch[i].id == j;
    BaseRun(t, first);
    var second := PublishHeld(u, a.d, i);
    RepeatsLater(t, first, second, j);
  }
}
