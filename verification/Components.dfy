/** The components' code as it is written: loops and branches over a store object
    (dispatcher/service.py, worker/service.py, reaper/service.py). */
module Components {
  import opened Models
  import opened StoreSpec
  import opened InMemoryStore
  import opened Sequential

  /** One published record; the key is the job id, whose text form partitions the topic. */
  datatype Record = Record(topic: string, key: int, message: Envelope)

  function Records(topic: string, rows: seq<OutboxMessage>): seq<Record> {
    seq(|rows|, k requires 0 <= k < |rows| => Record(topic, rows[k].jobId, rows[k].payload))
  }

  /** What a batch puts on the topic: for each row a record with the job's id as its key, carrying that
      job's id and true type. */
  ghost predicate Announces(s: Store, topic: string, rows: seq<OutboxMessage>, records: seq<Record>) {
    && |records| == |rows|
    && forall k :: 0 <= k < |rows| ==>
         && rows[k].jobId in s.jobs
         && records[k] == Record(topic, rows[k].jobId, Envelope(rows[k].jobId, s.jobs[rows[k].jobId].jobType))
  }

  lemma BatchAnnounces(s: Store, topic: string, limit: int, m: nat)
    requires Consistent(s) && m <= |FetchUnpublished(s, limit)|
    ensures var rows := FetchUnpublished(s, limit)[..m]; Announces(s, topic, rows, Records(topic, rows))
  {
    var rows := FetchUnpublished(s, limit);
    UnpublishedExact(s, s.nextOutbox);
    forall k | 0 <= k < |rows|
      ensures rows[k].jobId in s.jobs && rows[k].payload == Envelope(rows[k].jobId, s.jobs[rows[k].jobId].jobType)
    {
      assert rows[k] == UnpublishedBelow(s, s.nextOutbox)[k];
      assert RowOk(s, rows[k].id);
    }
  }

  lemma RecordsSnoc(topic: string, rows: seq<OutboxMessage>, i: nat)
    requires i < |rows|
    ensures Records(topic, rows[..i + 1]) == Records(topic, rows[..i]) + [Record(topic, rows[i].jobId, rows[i].payload)]
  {
  }

  lemma RecordsConcat(log: seq<Record>, topic: string, p: seq<OutboxMessage>, q: seq<OutboxMessage>)
    ensures (log + Records(topic, p)) + Records(topic, q) == log + Records(topic, p + q)
  {
  }

  class InMemoryProducer {
    var published: seq<Record>

    constructor ()
      ensures published == []
    {
      published := [];
    }

    /** `up`: the producer accepts the record; otherwise it raises and nothing is published. */
    method Publish(topic: string, key: int, message: Envelope, up: bool) returns (ok: bool)
      modifies this
      ensures ok == up
      ensures published == old(published) + if up then [Record(topic, key, message)] else []
    {
      if up {
        published := published + [Record(topic, key, message)];
      }
      ok := up;
    }
  }

  /** How many of the first `n` publications come before the first one that raises. */
  function Leading(up: int -> bool, n: nat): (m: nat)
    ensures m <= n && (forall k :: 0 <= k < m ==> up(k)) && (m < n ==> !up(m))
  {
    if n == 0 then 0
    else
      var m := Leading(up, n - 1);
      if m == n - 1 && up(m) then n else m
  }

  /** Publish, then mark, each row of one batch. If the producer raises, the rows before that one are
      published and marked, and that row and all later ones are still unpublished, to be fetched
      first next time. Without a failure the number of rows is returned. */
  method DispatchOnce(store: InMemoryStore, producer: InMemoryProducer, topic: string, batchSize: int,
                      up: int -> bool, clk: int -> int)
    returns (sent: Option<int>)
    requires store.Valid()
    modifies store, producer
    ensures store.Valid()
    ensures var rows := FetchUnpublished(old(store.State()), batchSize);
      var m := Leading(up, |rows|);
      && sent == (if m == |rows| then Some(|rows|) else None)
      && producer.published == old(producer.published) + Records(topic, rows[..m])
      && store.State() == MarkUpTo(old(store.State()), rows, clk, m)
      && rows[..m] + Unpublished(store.State()) == Unpublished(old(store.State()))
      && Announces(old(store.State()), topic, rows[..m], producer.published[|old(producer.published)|..])
  {
    ghost var s0, log := store.State(), producer.published;
    var messages := store.FetchRows(batchSize);
    var m := SendRows(store, producer, topic, messages, up, clk);
    MarkedPrefix(s0, batchSize, clk, m);
    BatchAnnounces(s0, topic, batchSize, m);
    assert producer.published[|log|..] == Records(topic, messages[..m]);
    sent := if m == |messages| then Some(|messages|) else None;
  }

  /** One row: publish, and mark only what has been published. */
  method SendRow(store: InMemoryStore, producer: InMemoryProducer, topic: string, row: OutboxMessage, up: bool, now: int)
    returns (ok: bool)
    requires store.Valid()
    modifies store, producer
    ensures store.Valid() && ok == up
    ensures !up ==> store.State() == old(store.State()) && producer.published == old(producer.published)
    ensures up ==>
      && store.State() == MarkDispatched(old(store.State()), row.id, row.jobId, now)
      && producer.published == old(producer.published) + [Record(topic, row.jobId, row.payload)]
  {
    ok := producer.Publish(topic, row.jobId, row.payload, up);
    if ok {
      store.MarkRowDispatched(row.id, row.jobId, now);
    }
  }

  /** The loop over a batch, up to its end or to the publication that raises. */
  method SendRows(store: InMemoryStore, producer: InMemoryProducer, topic: string, messages: seq<OutboxMessage>,
                  up: int -> bool, clk: int -> int)
    returns (m: nat)
    requires store.Valid()
    modifies store, producer
    ensures store.Valid() && m == Leading(up, |messages|)
    ensures producer.published == old(producer.published) + Records(topic, messages[..m])
    ensures store.State() == MarkUpTo(old(store.State()), messages, clk, m)
  {
    for i := 0 to |messages|
      invariant store.Valid() && i <= Leading(up, |messages|)
      invariant producer.published == old(producer.published) + Records(topic, messages[..i])
      invariant store.State() == MarkUpTo(old(store.State()), messages, clk, i)
    {
      var ok := SendRow(store, producer, topic, messages[i], up(i), clk(i));
      if !ok {
        return i;
      }
      RecordsSnoc(topic, messages, i);
    }
    m := |messages|;
  }

  /** After the marks of the first `m` rows of a batch, exactly the other rows are unpublished. */
  lemma MarkedPrefix(s: Store, limit: int, clk: int -> int, m: nat)
    requires Consistent(s) && m <= |FetchUnpublished(s, limit)|
    ensures var rows := FetchUnpublished(s, limit);
      rows[..m] + Unpublished(MarkUpTo(s, rows, clk, m)) == Unpublished(s)
  {
    var rows := FetchUnpublished(s, limit);
    UnpublishedExact(s, s.nextOutbox);
    MarkAllExact(s, rows, clk, m);
    assert rows[..m] == Unpublished(s)[..m];
    RestUnpublished(s, MarkUpTo(s, rows, clk, m), rows[..m]);
  }

  /** A batch during which the producer does not raise. */
  method DispatchAll(store: InMemoryStore, producer: InMemoryProducer, topic: string, batchSize: int, clk: int -> int)
    returns (sent: int)
    requires store.Valid()
    modifies store, producer
    ensures store.Valid()
    ensures var rows := FetchUnpublished(old(store.State()), batchSize);
      && sent == |rows|
      && producer.published == old(producer.published) + Records(topic, rows)
      && store.State() == MarkUpTo(old(store.State()), rows, clk, |rows|)
  {
    var result := DispatchOnce(store, producer, topic, batchSize, (i: int) => true, clk);
    sent := result.value;
    ghost var rows := FetchUnpublished(old(store.State()), batchSize);
    assert rows[..|rows|] == rows;
  }

  /** The dispatcher's service loop up to its first empty poll, when nothing else runs: every
      unpublished row is published once, in ascending outbox id, and none is left. */
  method DrainOutbox(store: InMemoryStore, producer: InMemoryProducer, topic: string, batchSize: int, clk: int -> int)
    requires store.Valid() && 1 <= batchSize
    modifies store, producer
    ensures store.Valid()
    ensures producer.published == old(producer.published) + Records(topic, Unpublished(old(store.State())))
    ensures Alike(store.State(), AfterMarks(old(store.State()), RowIds(Unpublished(old(store.State())))))
    ensures Unpublished(store.State()) == []
  {
    ghost var s0, log := store.State(), producer.published;
    ghost var done: seq<OutboxMessage> := [];
    var polls, sent := 0, 1;
    assert AfterMarks(s0, RowIds(done)) == s0;
    while sent != 0
      invariant store.Valid() && 0 <= sent
      invariant producer.published == log + Records(topic, done)
      invariant Drained(s0, store.State(), done)
      invariant sent == 0 ==> Left(store.State()) == 0
      decreases Left(store.State()), sent
    {
      ghost var s := store.State();
      var base := polls;
      var clk' := (i: int) => clk(base + i);
      sent := DispatchAll(store, producer, topic, batchSize, clk');
      polls := polls + sent;
      ghost var rows := FetchUnpublished(s, batchSize);
      DrainStep(s0, s, store.State(), done, rows, batchSize, clk');
      RecordsConcat(log, topic, done, rows);
      done := done + rows;
    }
    AllDrained(s0, store.State(), done);
  }

  lemma AllDrained(s0: Store, s: Store, done: seq<OutboxMessage>)
    requires Drained(s0, s, done) && Left(s) == 0
    ensures done == Unpublished(s0) && Unpublished(s) == []
    ensures Alike(s, AfterMarks(s0, RowIds(Unpublished(s0))))
  {
  }

  function Left(s: Store): nat {
    |Unpublished(s)|
  }

  /** From `s0`, exactly the rows `done` have been published so far. */
  ghost predicate Drained(s0: Store, s: Store, done: seq<OutboxMessage>) {
    done + Unpublished(s) == Unpublished(s0) && Alike(s, AfterMarks(s0, RowIds(done)))
  }

  /** One poll moves a batch from the unpublished rows to the published ones. */
  lemma DrainStep(s0: Store, s: Store, t: Store, done: seq<OutboxMessage>, rows: seq<OutboxMessage>, limit: int, clk: int -> int)
    requires Consistent(s) && 1 <= limit && Drained(s0, s, done)
    requires rows == FetchUnpublished(s, limit) && t == MarkUpTo(s, rows, clk, |rows|)
    ensures Drained(s0, t, done + rows)
    ensures |rows| + Left(t) == Left(s) && (rows == [] ==> Left(s) == 0)
  {
    DispatchExact(s, limit, clk);
    MarkedSoFar(s0, s, t, done, rows);
  }

  lemma MarkedSoFar(s0: Store, s: Store, t: Store, done: seq<OutboxMessage>, rows: seq<OutboxMessage>)
    requires Drained(s0, s, done) && rows + Unpublished(t) == Unpublished(s) && Alike(t, AfterMarks(s, RowIds(rows)))
    ensures Drained(s0, t, done + rows)
  {
    IdsOfConcat(done, rows);
    MarksCompose(s0, s, RowIds(done), RowIds(rows));
    AlikeTwice(t, AfterMarks(s, RowIds(rows)), AfterMarks(s0, RowIds(done + rows)));
    assert done + (rows + Unpublished(t)) == (done + rows) + Unpublished(t);
  }

  lemma AlikeTwice(a: Store, b: Store, c: Store)
    requires Alike(a, b) && Alike(b, c)
    ensures Alike(a, c)
  {
  }

  /** Claim, resolve, run and record one message. */
  method ProcessMessage(store: InMemoryStore, lookup: Lookup, e: Envelope, t0: int, t1: int, t2: int)
    returns (outcome: Outcome)
    requires store.Valid()
    modifies store
    ensures store.Valid()
    ensures (store.State(), outcome) == Process(old(store.State()), lookup, e, t0, t1, t2)
    ensures ProcessedAs(old(store.State()), lookup, e, t2, store.State(), outcome)
  {
    ProcessMeans(store.State(), lookup, e, t0, t1, t2);
    var won := store.ClaimJob(e.jobId, t0);
    if !won {
      return Skipped;
    }
    var payload := store.Resolve(e.jobId, e.jobType, t1);
    if payload.None? {
      var _ := store.Fail(e.jobId, t2);
      return NoConfig;
    }
    var handler := lookup(e.jobType);
    if handler.None? {
      var _ := store.Fail(e.jobId, t2);
      return RunFailed;
    }
    var returned := handler.value(payload.value);
    if !returned {
      var _ := store.Fail(e.jobId, t2);
      return RunFailed;
    }
    var _ := store.Complete(e.jobId, t2);
    outcome := RunCompleted;
  }

  /** A worker that receives `es` one after the other, when nothing else runs: exactly the
      claimable jobs among them have run, once each, whatever the order and the duplicates. */
  method ProcessStream(store: InMemoryStore, lookup: Lookup, es: seq<Envelope>, clk: int -> int)
    requires store.Valid()
    requires forall k :: 0 <= k < |es| ==> Genuine(store.State(), es[k])
    modifies store
    ensures store.Valid()
    ensures Alike(store.State(), AfterRuns(old(store.State()), lookup, JobIds(es)))
  {
    ghost var s0 := store.State();
    assert AfterRuns(s0, lookup, JobIds(es[..0])) == s0;
    for i := 0 to |es|
      invariant store.Valid()
      invariant Alike(store.State(), AfterRuns(s0, lookup, JobIds(es[..i])))
    {
      OneMoreRun(s0, lookup, store.State(), es, i, clk(3 * i), clk(3 * i + 1), clk(3 * i + 2));
      var _ := ProcessMessage(store, lookup, es[i], clk(3 * i), clk(3 * i + 1), clk(3 * i + 2));
    }
    assert es[..|es|] == es;
  }

  /** One sweep: requeue each stuck run, or dead-letter it where the requeue is refused. */
  method ReapOnce(store: InMemoryStore, now: int, clk: int -> int) returns (stats: ReapStats)
    requires store.Valid()
    modifies store
    ensures store.Valid()
    ensures var all := AllStuck(old(store.State()), now);
      && Alike(store.State(), AfterReaps(old(store.State()), all))
      && stats == ReapStats(|UnderCap(old(store.State()), all)|, |all| - |UnderCap(old(store.State()), all)|)
    ensures FindStuck(store.State(), now) == []
  {
    ghost var s0 := store.State();
    stats := ReapStats(0, 0);
    var stuck := store.FindStuckRuns(now);
    for i := 0 to |stuck|
      invariant store.Valid()
      invariant store.State() == ReapUpTo(s0, stuck, clk, i)
      invariant stats == StatsUpTo(s0, stuck, clk, i)
    {
      stats := ReapEntry(store, stuck[i].jobId, clk(i), stats);
    }
    SweepDone(s0, now, clk);
  }

  /** The body of the sweep's loop: `dead_letter` is called only after a refused requeue. */
  method ReapEntry(store: InMemoryStore, id: int, now: int, stats: ReapStats) returns (stats': ReapStats)
    requires store.Valid()
    modifies store
    ensures store.Valid() && store.State() == ReapOne(old(store.State()), id, now)
    ensures stats' == Tally(stats, old(store.State()), id, now)
  {
    stats' := stats;
    var requeued := store.RequeueStuck(id, now);
    if requeued {
      stats' := stats'.(requeued := stats'.requeued + 1);
    } else {
      var dead := store.DeadLetter(id, now);
      if dead {
        stats' := stats'.(deadLettered := stats'.deadLettered + 1);
      }
    }
  }

  lemma SweepDone(s: Store, now: int, clk: int -> int)
    requires Consistent(s)
    ensures var (stuck, all) := (FindStuck(s, now), AllStuck(s, now));
      && Alike(ReapUpTo(s, stuck, clk, |stuck|), AfterReaps(s, all))
      && StatsUpTo(s, stuck, clk, |stuck|) == ReapStats(|UnderCap(s, all)|, |all| - |UnderCap(s, all)|)
      && FindStuck(ReapUpTo(s, stuck, clk, |stuck|), now) == []
  {
    SweepExact(s, now, clk);
    SweepClears(s, now, clk);
  }
}
