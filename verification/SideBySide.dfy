/** Observational equivalence of the two stores: a client that drives both with the same store
    operations, in any order, naming jobs and outbox rows only by the ids each store handed out,
    cannot tell them apart. */
module SideBySide {
  import opened Models
  import opened StoreSpec
  import opened InMemoryStore
  import opened PostgresStore

  /** What a client may ask: job `k` is the k-th one that was accepted, row `i` the i-th one that was
      fetched, by any of its fetches. */
  datatype Command =
    | Enqueue(ty: string, input: Option<Payload>, creator: Option<Creator>)
    | FetchBatch(limit: nat)
    | MarkNth(i: nat, k: nat)
    | ClaimNth(k: nat)
    | ResolveNth(k: nat)
    | FinishNth(k: nat, ok: bool)
    | RequeueNth(k: nat)
    | ListStuck
    | ReadNth(k: nat)

  /** `Fetched`: the job and the type of each row. `Stuck`: for each job in turn, the type and
      `attempts` it is listed with, if it is listed. `Row`: all fields of the job, with its number for
      its id, and with three absent fields for an absent creator. */
  datatype Reply =
    | Done(ok: bool)
    | Payload(p: Option<Models.Payload>)
    | Fetched(rows: seq<(int, string)>)
    | Stuck(listed: seq<set<(string, int)>>)
    | Row(job: Option<Job>)

  // ----- what a client sees, as a function of the in-memory state ------------------------------

  /** The in-memory store, and every row fetched from it so far. */
  datatype Client = Client(store: Store, rows: seq<OutboxMessage>) {
    /** The id of job `k`; 0, which names no row, when there is none. */
    function JobNo(k: nat): int {
      if k + 1 < store.nextJob then k + 1 else 0
    }

    function RowNo(i: nat): int {
      if i < |rows| then rows[i].id else 0
    }
  }

  /** The row of job `k` as a client sees it. */
  function Shown(job: Job, k: nat): Job {
    job.(id := k, createdBy := Some(if job.createdBy.Some? then job.createdBy.value else Creator(None, None, None)))
  }

  /** The job that a row belongs to, by its number, and the type in its envelope. */
  function Seen(rows: seq<OutboxMessage>): seq<(int, string)> {
    seq(|rows|, k requires 0 <= k < |rows| => (rows[k].jobId - 1, rows[k].payload.jobType))
  }

  function ListedAs(s: Store, i: int, now: int): set<(string, int)> {
    if StoreSpec.Stuck(s, i, now) then {(s.jobs[i].jobType, s.jobs[i].attempts)} else {}
  }

  function AllListed(s: Store, now: int): seq<set<(string, int)>> {
    seq(Max(0, s.nextJob - 1), k => ListedAs(s, k + 1, now))
  }

  ghost function Respond(c: Client, cmd: Command, now: int): (Client, Reply) {
    match cmd
    case Enqueue(ty, input, creator) =>
      var (t, r) := StoreSpec.Enqueue(c.store, ty, input, creator, now);
      (c.(store := t), Done(r.Some?))
    case FetchBatch(limit) =>
      var rows := FetchUnpublished(c.store, limit);
      (c.(rows := c.rows + rows), Fetched(Seen(rows)))
    case MarkNth(i, k) => (c.(store := MarkDispatched(c.store, c.RowNo(i), c.JobNo(k), now)), Done(true))
    case ClaimNth(k) =>
      var (t, won) := Claim(c.store, c.JobNo(k), now);
      (c.(store := t), Done(won))
    case ResolveNth(k) =>
      var (t, p) := ResolvePayload(c.store, c.JobNo(k), "", now);
      (c.(store := t), Payload(p))
    case FinishNth(k, ok) =>
      var (t, done) := Finish(c.store, c.JobNo(k), ok, now);
      (c.(store := t), Done(done))
    case RequeueNth(k) =>
      var (t, done) := Requeue(c.store, c.JobNo(k), now);
      (c.(store := t), Done(done))
    case ListStuck => (c, Stuck(AllListed(c.store, now)))
    case ReadNth(k) =>
      (c, Row(if c.JobNo(k) in c.store.jobs then Some(Shown(c.store.jobs[c.JobNo(k)], k)) else None))
  }

  /** The reference client and all replies after the first `n` commands. */
  ghost function ReplayUpTo(config: map<string, TypeConfig>, commands: seq<Command>, clk: int -> int, n: nat)
    : (Client, seq<Reply>)
    requires n <= |commands|
  {
    if n == 0 then (Client(Empty(config), []), [])
    else
      var (c, replies) := ReplayUpTo(config, commands, clk, n - 1);
      var (c', reply) := Respond(c, commands[n - 1], clk(n - 1));
      (c', replies + [reply])
  }

  // ----- the two stores, driven side by side -----------------------------------------------------

  /** What the client notes down: the ids that the database handed out for jobs 0, 1, ..., their
      types, and the rows it fetched from each store. */
  datatype Ledger = Ledger(ids: seq<int>, types: seq<string>, rows: seq<OutboxMessage>, memRows: seq<OutboxMessage>) {
    function Id(k: nat): int {
      if k < |ids| then ids[k] else 0
    }

    function MemId(k: nat): int {
      if k < |ids| then k + 1 else 0
    }

    function Type(k: nat): string {
      if k < |types| then types[k] else ""
    }

    function Row(i: nat): int {
      if i < |rows| then rows[i].id else 0
    }

    function MemRow(i: nat): int {
      if i < |memRows| then memRows[i].id else 0
    }
  }

  ghost predicate LedgerOk(l: Ledger, n: Numbering, r: Numbering, m: Store) {
    && |l.ids| == |l.types| == m.nextJob - 1
    && (forall k :: 0 <= k < |l.ids| ==> l.ids[k] in n.num && n.num[l.ids[k]] == k + 1)
    && (forall k :: 0 <= k < |l.types| ==> HasType(m, k + 1, l.types[k]))
    && SameRows(l.rows, l.memRows, n, r)
  }

  predicate HasType(m: Store, i: int, ty: string) {
    i in m.jobs && m.jobs[i].jobType == ty
  }

  /** The ids of one job, and of one row, correspond. */
  lemma JobNames(l: Ledger, t: Tables, n: Numbering, r: Numbering, m: Store, k: nat)
    requires Rel(t, n, r, m) && LedgerOk(l, n, r, m)
    ensures n.Of(l.Id(k)) == l.MemId(k) == Client(m, l.memRows).JobNo(k)
    ensures l.Id(k) in t.jobs ==> l.Type(k) == t.jobs[l.Id(k)].jobType
  {
    KnownIds(t, n, r, m, l.Id(k));
    if k < |l.ids| {
      assert l.ids[k] in n.num.Keys && HasType(m, k + 1, l.types[k]);
    }
  }

  lemma RowNames(l: Ledger, t: Tables, n: Numbering, r: Numbering, m: Store, i: nat)
    requires Rel(t, n, r, m) && LedgerOk(l, n, r, m)
    ensures r.Of(l.Row(i)) == l.MemRow(i) == Client(m, l.memRows).RowNo(i)
  {
    if i < |l.rows| {
      assert SameRow(l.rows[i], l.memRows[i], n, r);
    }
  }

  /** Row operations keep the ledger: they neither add jobs nor change their types. */
  lemma LedgerKept(l: Ledger, n: Numbering, r: Numbering, m: Store, m': Store)
    requires LedgerOk(l, n, r, m) && Evolves(m, m') && m'.nextJob == m.nextJob
    ensures LedgerOk(l, n, r, m')
  {
  }

  ghost predicate Linked(pg: PostgresStore, mem: InMemoryStore, l: Ledger)
    reads pg, mem
  {
    pg.Valid() && mem.Valid() && pg.model == mem.State() && LedgerOk(l, pg.jobNum, pg.rowNum, pg.model)
  }

  ghost function ClientOf(mem: InMemoryStore, l: Ledger): Client
    reads mem
  {
    Client(mem.State(), l.memRows)
  }

  // ----- enqueue -----------------------------------------------------------------------------------

  method EnqueueBoth(pg: PostgresStore, mem: InMemoryStore, l: Ledger, ty: string, input: Option<Payload>,
                     creator: Option<Creator>, now: int, skip: nat, skipRow: nat)
    returns (a: Reply, b: Reply, l': Ledger)
    requires Linked(pg, mem, l)
    modifies pg, mem
    ensures Linked(pg, mem, l') && a == b
    ensures (ClientOf(mem, l'), b) == Respond(old(ClientOf(mem, l)), Enqueue(ty, input, creator), now)
  {
    ghost var m, n, r := pg.model, pg.jobNum, pg.rowNum;
    var p := pg.EnqueueJob(ty, input, creator, now, skip, skipRow);
    var q := mem.EnqueueJob(ty, input, creator, now);
    a, b := Done(p.Some?), Done(q.Some?);
    l' := l;
    if p.Some? {
      l' := l.(ids := l.ids + [p.value], types := l.types + [ty]);
      LedgerGrown(l, n, r, m, pg.jobNum, pg.rowNum, pg.model, p.value, ty);
    }
  }

  lemma LedgerGrown(l: Ledger, n: Numbering, r: Numbering, m: Store, n': Numbering, r': Numbering, m': Store, id: int, ty: string)
    requires LedgerOk(l, n, r, m) && Evolves(m, m') && m'.nextJob == m.nextJob + 1 && HasType(m', m.nextJob, ty)
    requires n' == n.Add(id, m.nextJob) && id !in n.num
    requires forall i :: i in r.num ==> i in r'.num && r'.num[i] == r.num[i]
    ensures LedgerOk(l.(ids := l.ids + [id], types := l.types + [ty]), n', r', m')
  {
    RowsKept(l.rows, l.memRows, n, r, n', r');
  }

  lemma RowsKept(a: seq<OutboxMessage>, b: seq<OutboxMessage>, n: Numbering, r: Numbering, n': Numbering, r': Numbering)
    requires SameRows(a, b, n, r)
    requires forall i :: i in n.num ==> i in n'.num && n'.num[i] == n.num[i]
    requires forall i :: i in r.num ==> i in r'.num && r'.num[i] == r.num[i]
    ensures SameRows(a, b, n', r')
  {
    forall k | 0 <= k < |a|
      ensures SameRow(a[k], b[k], n', r')
    {
      assert SameRow(a[k], b[k], n, r);
    }
  }

  // ----- fetch and mark ------------------------------------------------------------------------------

  /** The number of the job that the database knows by this id. */
  function Position(ids: seq<int>, id: int): int {
    if ids == [] then -1
    else if ids[|ids| - 1] == id then |ids| - 1
    else Position(ids[..|ids| - 1], id)
  }

  lemma {:induction false} PositionExact(ids: seq<int>, k: nat)
    requires k < |ids| && forall i, j :: 0 <= i < j < |ids| ==> ids[i] != ids[j]
    ensures Position(ids, ids[k]) == k
    decreases |ids|
  {
    if k < |ids| - 1 {
      PositionExact(ids[..|ids| - 1], k);
    }
  }

  /** Both stores name the same job in a fetched row. */
  lemma SameNumber(l: Ledger, t: Tables, n: Numbering, r: Numbering, m: Store, p: OutboxMessage, q: OutboxMessage)
    requires Rel(t, n, r, m) && LedgerOk(l, n, r, m) && SameRow(p, q, n, r)
    ensures Position(l.ids, p.jobId) == q.jobId - 1 && p.payload.jobType == q.payload.jobType
  {
    var k := q.jobId - 1;
    JobRow(t, n, m, p.jobId);
    assert l.ids[k] in n.num && n.num[l.ids[k]] == k + 1 && n.ids[n.num[l.ids[k]]] == l.ids[k];
    assert n.ids[n.num[p.jobId]] == p.jobId;
    PositionExact(l.ids, k);
  }

  method SeeBoth(pg: PostgresStore, mem: InMemoryStore, l: Ledger, ps: seq<OutboxMessage>, qs: seq<OutboxMessage>)
    returns (seenP: seq<(int, string)>, seenQ: seq<(int, string)>)
    requires Linked(pg, mem, l) && SameRows(ps, qs, pg.jobNum, pg.rowNum)
    ensures seenP == seenQ == Seen(qs)
  {
    seenP, seenQ := [], [];
    for i := 0 to |ps|
      invariant seenP == seenQ == Seen(qs[..i])
    {
      SameNumber(l, pg.db, pg.jobNum, pg.rowNum, pg.model, ps[i], qs[i]);
      SeenSnoc(qs, i);
      seenP := seenP + [(Position(l.ids, ps[i].jobId), ps[i].payload.jobType)];
      seenQ := seenQ + [(qs[i].jobId - 1, qs[i].payload.jobType)];
    }
    assert qs[..|qs|] == qs;
  }

  method FetchBoth(pg: PostgresStore, mem: InMemoryStore, l: Ledger, limit: nat) returns (a: Reply, b: Reply, l': Ledger)
    requires Linked(pg, mem, l)
    ensures Linked(pg, mem, l') && a == b
    ensures (ClientOf(mem, l'), b) == Respond(ClientOf(mem, l), FetchBatch(limit), 0)
  {
    var ps := pg.FetchRows(limit, {});
    var qs := mem.FetchRows(limit);
    assert pg.model.(published := pg.model.published + pg.rowNum.All({})) == pg.model;
    var seenP, seenQ := SeeBoth(pg, mem, l, ps, qs);
    a, b := Fetched(seenP), Fetched(seenQ);
    l' := l.(rows := l.rows + ps, memRows := l.memRows + qs);
    RowsJoined(l.rows, l.memRows, ps, qs, pg.jobNum, pg.rowNum);
  }

  lemma SeenSnoc(rows: seq<OutboxMessage>, i: nat)
    requires i < |rows|
    ensures Seen(rows[..i + 1]) == Seen(rows[..i]) + [(rows[i].jobId - 1, rows[i].payload.jobType)]
  {
  }

  lemma RowsJoined(a: seq<OutboxMessage>, b: seq<OutboxMessage>, p: seq<OutboxMessage>, q: seq<OutboxMessage>,
                   n: Numbering, r: Numbering)
    requires SameRows(a, b, n, r) && SameRows(p, q, n, r)
    ensures SameRows(a + p, b + q, n, r)
  {
  }

  method MarkBoth(pg: PostgresStore, mem: InMemoryStore, l: Ledger, i: nat, k: nat, now: int) returns (a: Reply, b: Reply)
    requires Linked(pg, mem, l)
    modifies pg, mem
    ensures Linked(pg, mem, l) && a == b
    ensures (ClientOf(mem, l), b) == Respond(old(ClientOf(mem, l)), MarkNth(i, k), now)
  {
    ghost var m := pg.model;
    JobNames(l, pg.db, pg.jobNum, pg.rowNum, m, k);
    RowNames(l, pg.db, pg.jobNum, pg.rowNum, m, i);
    MarkKeeps(m, l.MemRow(i), l.MemId(k), now);
    pg.MarkRowDispatched(l.Row(i), l.Id(k), now);
    mem.MarkRowDispatched(l.MemRow(i), l.MemId(k), now);
    LedgerKept(l, pg.jobNum, pg.rowNum, m, pg.model);
    a, b := Done(true), Done(true);
  }

  // ----- claim, resolve, finish, requeue ---------------------------------------------------------------

  method ClaimBoth(pg: PostgresStore, mem: InMemoryStore, l: Ledger, k: nat, now: int) returns (a: Reply, b: Reply)
    requires Linked(pg, mem, l)
    modifies pg, mem
    ensures Linked(pg, mem, l) && a == b
    ensures (ClientOf(mem, l), b) == Respond(old(ClientOf(mem, l)), ClaimNth(k), now)
  {
    ghost var m := pg.model;
    JobNames(l, pg.db, pg.jobNum, pg.rowNum, m, k);
    ClaimKeeps(m, l.MemId(k), now);
    var p := pg.ClaimJob(l.Id(k), now);
    var q := mem.ClaimJob(l.MemId(k), now);
    LedgerKept(l, pg.jobNum, pg.rowNum, m, pg.model);
    a, b := Done(p), Done(q);
  }

  method ResolveBoth(pg: PostgresStore, mem: InMemoryStore, l: Ledger, k: nat, now: int) returns (a: Reply, b: Reply)
    requires Linked(pg, mem, l)
    modifies pg, mem
    ensures Linked(pg, mem, l) && a == b
    ensures (ClientOf(mem, l), b) == Respond(old(ClientOf(mem, l)), ResolveNth(k), now)
  {
    ghost var m := pg.model;
    JobNames(l, pg.db, pg.jobNum, pg.rowNum, m, k);
    ResolveKeeps(m, l.MemId(k), l.Type(k), now);
    var p := pg.Resolve(l.Id(k), l.Type(k), now);
    var q := mem.Resolve(l.MemId(k), l.Type(k), now);
    LedgerKept(l, pg.jobNum, pg.rowNum, m, pg.model);
    a, b := Payload(p), Payload(q);
  }

  method FinishBoth(pg: PostgresStore, mem: InMemoryStore, l: Ledger, k: nat, ok: bool, now: int) returns (a: Reply, b: Reply)
    requires Linked(pg, mem, l)
    modifies pg, mem
    ensures Linked(pg, mem, l) && a == b
    ensures (ClientOf(mem, l), b) == Respond(old(ClientOf(mem, l)), FinishNth(k, ok), now)
  {
    ghost var m := pg.model;
    JobNames(l, pg.db, pg.jobNum, pg.rowNum, m, k);
    FinishKeeps(m, l.MemId(k), ok, now);
    var p := pg.Finish(l.Id(k), ok, now);
    var status := if ok then Completed else Failed;
    var q := mem.End(l.MemId(k), status, now);
    LedgerKept(l, pg.jobNum, pg.rowNum, m, pg.model);
    a, b := Done(p), Done(q);
  }

  method RequeueBoth(pg: PostgresStore, mem: InMemoryStore, l: Ledger, k: nat, now: int) returns (a: Reply, b: Reply)
    requires Linked(pg, mem, l)
    modifies pg, mem
    ensures Linked(pg, mem, l) && a == b
    ensures (ClientOf(mem, l), b) == Respond(old(ClientOf(mem, l)), RequeueNth(k), now)
  {
    ghost var m := pg.model;
    JobNames(l, pg.db, pg.jobNum, pg.rowNum, m, k);
    RequeueKeeps(m, l.MemId(k), now);
    var p := pg.RequeueStuck(l.Id(k), now);
    var q := mem.RequeueStuck(l.MemId(k), now);
    LedgerKept(l, pg.jobNum, pg.rowNum, m, pg.model);
    a, b := Done(p), Done(q);
  }

  // ----- list stuck runs ---------------------------------------------------------------------------------

  /** Both listings, read job by job; the database lists in no particular order. */
  method ListBoth(pg: PostgresStore, mem: InMemoryStore, l: Ledger, now: int) returns (a: Reply, b: Reply)
    requires Linked(pg, mem, l)
    ensures a == b && b == Stuck(AllListed(mem.State(), now))
  {
    var ps := pg.FindStuckRuns(now);
    var qs := mem.FindStuckRuns(now);
    var all := set k | 0 <= k < |qs| :: qs[k];
    var listedP, listedQ := [], [];
    for k := 0 to |l.ids|
      invariant listedP == listedQ == AllListed(mem.State(), now)[..k]
    {
      ListedInTable(pg.db, pg.jobNum, pg.rowNum, pg.model, ps, l, k, now);
      ListedInMemory(mem.State(), qs, k + 1, now);
      listedP := listedP + [EntriesFor(ps, l.ids[k])];
      listedQ := listedQ + [EntriesFor(all, k + 1)];
    }
    a, b := Stuck(listedP), Stuck(listedQ);
  }

  function EntriesFor(stuck: set<StuckJob>, id: int): set<(string, int)> {
    set e | e in stuck && e.jobId == id :: (e.jobType, e.attempts)
  }

  lemma ListedInMemory(s: Store, stuck: seq<StuckJob>, i: int, now: int)
    requires Consistent(s) && stuck == FindStuck(s, now) && i in s.jobs
    ensures EntriesFor(set k | 0 <= k < |stuck| :: stuck[k], i) == ListedAs(s, i, now)
  {
    StuckExact(s, now, s.nextJob);
    assert stuck == StuckBelow(s, now, s.nextJob);
    EntriesExact(set k | 0 <= k < |stuck| :: stuck[k], i, s, i, now);
  }

  /** When the only possible entry for `id` is the one of in-memory job `i`. */
  lemma EntriesExact(stuck: set<StuckJob>, id: int, s: Store, i: int, now: int)
    requires i in s.jobs
    requires forall e :: e in stuck && e.jobId == id ==> StuckEntry(s, e.(jobId := i), now)
    requires StoreSpec.Stuck(s, i, now) ==> StuckJob(id, s.jobs[i].jobType, s.jobs[i].attempts) in stuck
    ensures EntriesFor(stuck, id) == ListedAs(s, i, now)
  {
  }

  lemma ListedInTable(t: Tables, n: Numbering, r: Numbering, m: Store, stuck: set<StuckJob>, l: Ledger, k: nat, now: int)
    requires Rel(t, n, r, m) && LedgerOk(l, n, r, m) && k < |l.ids|
    requires forall e :: e in stuck ==> e.jobId in n.num && StuckEntry(m, e.(jobId := n.num[e.jobId]), now)
    requires forall i :: StoreSpec.Stuck(m, i, now) ==>
      i in n.ids && StuckJob(n.ids[i], m.jobs[i].jobType, m.jobs[i].attempts) in stuck
    ensures EntriesFor(stuck, l.ids[k]) == ListedAs(m, k + 1, now)
  {
  }

  // ----- read one job ------------------------------------------------------------------------------------

  method ReadBoth(pg: PostgresStore, mem: InMemoryStore, l: Ledger, k: nat) returns (a: Reply, b: Reply)
    requires Linked(pg, mem, l)
    ensures a == b
    ensures (ClientOf(mem, l), b) == Respond(ClientOf(mem, l), ReadNth(k), 0)
  {
    JobNames(l, pg.db, pg.jobNum, pg.rowNum, pg.model, k);
    var p := pg.GetJob(l.Id(k));
    var q := mem.GetJob(l.MemId(k));
    a := Row(if p.Some? then Some(p.value.(id := k)) else None);
    b := Row(if q.Some? then Some(Shown(q.value, k)) else None);
  }

  // ----- any sequence of commands ----------------------------------------------------------------------

  /** One command, put to both stores. */
  method BothRespond(pg: PostgresStore, mem: InMemoryStore, l: Ledger, c: Command, now: int, skip: nat, skipRow: nat)
    returns (a: Reply, b: Reply, l': Ledger)
    requires Linked(pg, mem, l)
    modifies pg, mem
    ensures Linked(pg, mem, l') && a == b
    ensures (ClientOf(mem, l'), b) == Respond(old(ClientOf(mem, l)), c, now)
  {
    l' := l;
    match c {
      case Enqueue(ty, input, creator) => a, b, l' := EnqueueBoth(pg, mem, l, ty, input, creator, now, skip, skipRow);
      case FetchBatch(limit) => a, b, l' := FetchBoth(pg, mem, l, limit);
      case MarkNth(i, k) => a, b := MarkBoth(pg, mem, l, i, k, now);
      case ClaimNth(k) => a, b := ClaimBoth(pg, mem, l, k, now);
      case ResolveNth(k) => a, b := ResolveBoth(pg, mem, l, k, now);
      case FinishNth(k, ok) => a, b := FinishBoth(pg, mem, l, k, ok, now);
      case RequeueNth(k) => a, b := RequeueBoth(pg, mem, l, k, now);
      case ListStuck => a, b := ListBoth(pg, mem, l, now);
      case ReadNth(k) => a, b := ReadBoth(pg, mem, l, k);
    }
  }

  lemma ReplayStep(config: map<string, TypeConfig>, commands: seq<Command>, clk: int -> int, n: nat,
                   c: Client, replies: seq<Reply>, c': Client, reply: Reply)
    requires n < |commands| && (c, replies) == ReplayUpTo(config, commands, clk, n)
    requires (c', reply) == Respond(c, commands[n], clk(n))
    ensures (c', replies + [reply]) == ReplayUpTo(config, commands, clk, n + 1)
  {
  }

  /** Whatever the sequence of store operations, the clock and the gaps in the identity columns, both
      stores give the same replies, those of the reference client, and the tables keep standing for
      the in-memory state. */
  method Replay(config: map<string, TypeConfig>, commands: seq<Command>, clk: int -> int, skips: int -> nat)
    returns (pg: PostgresStore, mem: InMemoryStore, fromPg: seq<Reply>, fromMem: seq<Reply>)
    ensures pg.Valid() && mem.Valid() && pg.model == mem.State()
    ensures fromPg == fromMem
    ensures var (c, replies) := ReplayUpTo(config, commands, clk, |commands|);
      mem.State() == c.store && fromMem == replies
  {
    pg := new PostgresStore(config);
    mem := new InMemoryStore(config);
    fromPg, fromMem := [], [];
    var l := Ledger([], [], [], []);
    for i := 0 to |commands|
      invariant fresh(pg) && fresh(mem) && Linked(pg, mem, l)
      invariant fromPg == fromMem
      invariant (ClientOf(mem, l), fromMem) == ReplayUpTo(config, commands, clk, i)
    {
      ghost var c := ClientOf(mem, l);
      var a, b, l' := BothRespond(pg, mem, l, commands[i], clk(i), skips(2 * i), skips(2 * i + 1));
      ReplayStep(config, commands, clk, i, c, fromMem, ClientOf(mem, l'), b);
      fromPg, fromMem, l := fromPg + [a], fromMem + [b], l';
    }
  }

  /** The two base configurations differ at most in keys that the input overrides. */
  ghost predicate AgreeOutside(p: Models.Payload, q: Models.Payload, input: Models.Payload) {
    forall k :: k !in input ==> (k in p <==> k in q) && (k in p && k in q ==> p[k] == q[k])
  }

  lemma OverlayEqualIff(p: Models.Payload, q: Models.Payload, input: Models.Payload)
    ensures Overlay(p, input) == Overlay(q, input) <==> AgreeOutside(p, q, input)
  {
  }

  /** The database resolves a payload by the message's type, the in-memory store by the row's type.
      On a running job they agree exactly when neither type is configured, or both are and their
      base payloads agree outside the job's input; for a genuine envelope the types are the same. */
  lemma ResolveByTypeIff(s: Store, id: int, ty: string, now: int)
    requires s.Is(id, Running)
    ensures var job := s.jobs[id];
      var byMessage := if ty in s.config then Some(Overlay(s.config[ty].payload, job.inputPayload)) else None;
      (ResolvePayload(s, id, ty, now).1 == byMessage) <==>
        (if ty in s.config && job.jobType in s.config
         then AgreeOutside(s.config[ty].payload, s.config[job.jobType].payload, job.inputPayload)
         else ty !in s.config && job.jobType !in s.config)
  {
    var job := s.jobs[id];
    if ty in s.config && job.jobType in s.config {
      OverlayEqualIff(s.config[ty].payload, s.config[job.jobType].payload, job.inputPayload);
    }
  }
}
