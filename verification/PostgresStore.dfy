/** The database-backed store (common/db.py and its migrations) as a refinement of the in-memory
    one: a partial unique index replaces the linear scan, guarded updates replace read-then-write,
    and identity columns hand out ids that increase but may skip. The ghost field `model` is the
    in-memory store that the tables stand for; every operation changes it exactly as the in-memory
    operation would. */
module PostgresStore {
  import opened Models
  import opened StoreSpec
  import opened Effects
  import opened InMemoryStore

  datatype OutboxRow = OutboxRow(jobId: int, payload: Envelope, publishedAt: Option<int>)

  const BLANK_CREATOR := Creator(None, None, None)

  function OrBlank(c: Option<Creator>): Creator {
    if c.Some? then c.value else BLANK_CREATOR
  }

  // ----- the refinement relation -------------------------------------------------------------

  /** The tables, with the partial unique index on active types. */
  datatype Tables = Tables(
    jobs: map<int, Job>,
    outbox: map<int, OutboxRow>,
    active: map<string, int>,
    nextJob: int,
    nextOutbox: int)

  /** An order-preserving correspondence between table ids and in-memory ids. */
  datatype Numbering = Numbering(num: map<int, int>, ids: map<int, int>) {
    ghost predicate Ok(next: int) {
      && 1 <= next
      && (forall i :: i in num ==> 1 <= i < next && num[i] in ids && ids[num[i]] == i)
      && (forall m :: m in ids ==> ids[m] in num && num[ids[m]] == m)
      && (forall i, k :: i in num && k in num && i < k ==> num[i] < num[k])
    }

    /** The in-memory id; ids that name no row correspond to the unused id 0. */
    function Of(id: int): int {
      if id in num then num[id] else 0
    }

    function All(ids: set<int>): set<int> {
      set i | i in ids && i in num :: num[i]
    }

    function Add(id: int, m: int): Numbering {
      Numbering(num[id := m], ids[m := id])
    }
  }

  lemma AddKeeps(n: Numbering, next: int, id: int, m: int)
    requires n.Ok(next) && next <= id
    ensures forall i :: i in n.num ==> i in n.Add(id, m).num && n.Add(id, m).num[i] == n.num[i]
  {
  }

  lemma AddOk(n: Numbering, next: int, id: int, m: int)
    requires n.Ok(next) && next <= id && m !in n.ids && forall k :: k in n.ids ==> k < m
    ensures n.Add(id, m).Ok(id + 1)
  {
  }

  /** The same row but for its id, and with an absent creator stored as three NULLs. */
  predicate RowRel(row: Job, job: Job) {
    row == job.(id := row.id, createdBy := Some(OrBlank(job.createdBy)))
  }

  ghost predicate JobsRel(t: Tables, n: Numbering, m: Store) {
    && n.Ok(t.nextJob) && n.num.Keys == t.jobs.Keys && n.ids.Keys == m.jobs.Keys
    && (forall i :: i in t.jobs ==> t.jobs[i].id == i && RowRel(t.jobs[i], m.jobs[n.num[i]]))
  }

  predicate OutboxRel(row: OutboxRow, n: Numbering, msg: OutboxMessage, published: bool) {
    && row.jobId in n.num && n.num[row.jobId] == msg.jobId
    && row.payload == Envelope(row.jobId, msg.payload.jobType)
    && (row.publishedAt.Some? <==> published)
  }

  ghost predicate RowsRel(t: Tables, n: Numbering, r: Numbering, m: Store) {
    && r.Ok(t.nextOutbox) && r.num.Keys == t.outbox.Keys && r.ids.Keys == m.outbox.Keys
    && (forall i :: i in t.outbox ==> OutboxRel(t.outbox[i], n, m.outbox[r.num[i]], r.num[i] in m.published))
  }

  /** The index maps each type with an active row to that row, and nothing else. */
  ghost predicate IndexOk(t: Tables) {
    && (forall ty :: ty in t.active ==> IndexEntryOk(t, ty))
    && (forall i :: i in t.jobs && t.jobs[i].status.Active() ==> t.jobs[i].jobType in t.active && t.active[t.jobs[i].jobType] == i)
  }

  predicate IndexEntryOk(t: Tables, ty: string)
    requires ty in t.active
  {
    t.active[ty] in t.jobs && t.jobs[t.active[ty]].jobType == ty && t.jobs[t.active[ty]].status.Active()
  }

  /** The in-memory published set never runs ahead of the rows. */
  ghost predicate PublishedKnown(m: Store) {
    forall p :: p in m.published ==> p < m.nextOutbox
  }

  ghost predicate Rel(t: Tables, n: Numbering, r: Numbering, m: Store) {
    Consistent(m) && PublishedKnown(m) && JobsRel(t, n, m) && RowsRel(t, n, r, m) && IndexOk(t)
  }

  lemma JobRow(t: Tables, n: Numbering, m: Store, i: int)
    requires JobsRel(t, n, m) && i in n.num
    ensures i in t.jobs && n.num[i] in m.jobs && RowRel(t.jobs[i], m.jobs[n.num[i]])
  {
  }

  /** The index answers exactly what the scan `_active` answers. */
  lemma IndexIsActive(t: Tables, n: Numbering, m: Store, ty: string)
    requires JobsRel(t, n, m) && IndexOk(t)
    ensures ty in t.active <==> m.HasActive(ty)
  {
    if ty in t.active {
      assert IndexEntryOk(t, ty);
      JobRow(t, n, m, t.active[ty]);
      ActiveBy(m, ty, n.num[t.active[ty]]);
    } else if m.HasActive(ty) {
      var i :| i in m.jobs && m.jobs[i].jobType == ty && m.jobs[i].status.Active();
      assert i in n.ids;
      JobRow(t, n, m, n.ids[i]);
    }
  }

  lemma ActiveBy(m: Store, ty: string, i: int)
    requires i in m.jobs && m.jobs[i].jobType == ty && m.jobs[i].status.Active()
    ensures m.HasActive(ty)
  {
  }

  // ----- each statement, as a step of the relation ----------------------------------------------

  /** The index after row `i` becomes `row`: an entry is dropped when its row stops being active. */
  function Reindex(t: Tables, i: int, row: Job): map<string, int> {
    if row.status.Active() then t.active else t.active - {row.jobType}
  }

  function UpdateJob(t: Tables, i: int, row: Job): Tables {
    t.(jobs := t.jobs[i := row], active := Reindex(t, i, row))
  }

  lemma UpdateKeepsIndex(t: Tables, i: int, row: Job)
    requires IndexOk(t) && i in t.jobs && t.jobs[i].status.Active() && row.jobType == t.jobs[i].jobType
    ensures IndexOk(UpdateJob(t, i, row))
  {
  }

  /** A guarded update of one active row, matched by the same change of the in-memory row. */
  lemma UpdateRel(t: Tables, n: Numbering, r: Numbering, m: Store, i: int, row: Job, job: Job, m': Store)
    requires Rel(t, n, r, m) && Consistent(m') && i in t.jobs && t.jobs[i].status.Active()
    requires row.id == i && row.jobType == t.jobs[i].jobType && RowRel(row, job)
    requires m' == m.Put(n.num[i], job)
    ensures Rel(UpdateJob(t, i, row), n, r, m')
  {
    UpdateKeepsIndex(t, i, row);
    UpdateJobsRel(t, n, m, i, row, job);
  }

  lemma UpdateJobsRel(t: Tables, n: Numbering, m: Store, i: int, row: Job, job: Job)
    requires JobsRel(t, n, m) && i in t.jobs && row.id == i && RowRel(row, job)
    ensures JobsRel(UpdateJob(t, i, row), n, m.Put(n.num[i], job))
  {
  }

  /** Ids unknown to the table are unknown in memory, and conversely. */
  lemma KnownIds(t: Tables, n: Numbering, r: Numbering, m: Store, id: int)
    requires Rel(t, n, r, m)
    ensures n.Of(id) in m.jobs <==> id in t.jobs
    ensures id in t.jobs ==> RowRel(t.jobs[id], m.jobs[n.Of(id)])
  {
  }

  /** A consumed identity value leaves everything else alone. */
  lemma BumpRel(t: Tables, n: Numbering, r: Numbering, m: Store, next: int)
    requires Rel(t, n, r, m) && t.nextJob <= next
    ensures Rel(t.(nextJob := next), n, r, m)
  {
  }

  function Insert(t: Tables, id: int, row: int, ty: string, job: Job): Tables {
    Tables(t.jobs[id := job], t.outbox[row := OutboxRow(id, Envelope(id, ty), None)], t.active[ty := id], id + 1, row + 1)
  }

  lemma InsertJobsRel(t: Tables, n: Numbering, m: Store, m': Store, id: int, row: int, ty: string, job: Job, added: Job)
    requires Consistent(m) && JobsRel(t, n, m) && t.nextJob <= id && job.id == id && RowRel(job, added)
    requires m'.jobs == m.jobs[m.nextJob := added]
    ensures JobsRel(Insert(t, id, row, ty, job), n.Add(id, m.nextJob), m')
  {
    AddOk(n, t.nextJob, id, m.nextJob);
    var u, n' := Insert(t, id, row, ty, job), n.Add(id, m.nextJob);
    assert n'.ids.Keys == m'.jobs.Keys && n'.num.Keys == u.jobs.Keys;
    forall i | i in u.jobs
      ensures u.jobs[i].id == i && RowRel(u.jobs[i], m'.jobs[n'.num[i]])
    {
      if i != id {
        JobRow(t, n, m, i);
      }
    }
  }

  lemma InsertRowsRel(t: Tables, n: Numbering, r: Numbering, m: Store, m': Store, id: int, row: int, ty: string, job: Job)
    requires Consistent(m) && JobsRel(t, n, m) && RowsRel(t, n, r, m) && t.nextJob <= id && t.nextOutbox <= row
    requires m.nextOutbox !in m.published && m'.published == m.published
    requires m'.outbox == m.outbox[m.nextOutbox := OutboxMessage(m.nextOutbox, m.nextJob, Envelope(m.nextJob, ty))]
    ensures RowsRel(Insert(t, id, row, ty, job), n.Add(id, m.nextJob), r.Add(row, m.nextOutbox), m')
  {
    AddOk(r, t.nextOutbox, row, m.nextOutbox);
    var u, n', r' := Insert(t, id, row, ty, job), n.Add(id, m.nextJob), r.Add(row, m.nextOutbox);
    assert r'.ids.Keys == m'.outbox.Keys && r'.num.Keys == u.outbox.Keys;
    forall i | i in u.outbox
      ensures OutboxRel(u.outbox[i], n', m'.outbox[r'.num[i]], r'.num[i] in m'.published)
    {
      if i != row {
        OutboxOf(t, n, r, m, i);
      }
    }
  }

  lemma OutboxOf(t: Tables, n: Numbering, r: Numbering, m: Store, i: int)
    requires RowsRel(t, n, r, m) && i in r.num
    ensures i in t.outbox && r.num[i] in m.outbox
    ensures OutboxRel(t.outbox[i], n, m.outbox[r.num[i]], r.num[i] in m.published)
  {
  }

  lemma InsertIndexOk(t: Tables, id: int, row: int, ty: string, job: Job)
    requires IndexOk(t) && ty !in t.active && id !in t.jobs && job.jobType == ty && job.status.Active()
    ensures IndexOk(Insert(t, id, row, ty, job))
  {
  }

  /** Both inserts of `enqueue`, matched by the in-memory insertion. */
  lemma InsertRel(t: Tables, n: Numbering, r: Numbering, m: Store, id: int, row: int, ty: string,
                  input: Option<Payload>, creator: Option<Creator>, now: int)
    requires Rel(t, n, r, m) && ty !in t.active && t.nextJob <= id && t.nextOutbox <= row
    ensures var job := NewJob(id, ty, Some(OrEmpty(input)), Some(OrBlank(creator)), now);
      && Enqueue(m, ty, input, creator, now).1 == Some(m.nextJob)
      && Enqueue(m, ty, input, creator, now).0.config == m.config
      && Rel(Insert(t, id, row, ty, job), n.Add(id, m.nextJob), r.Add(row, m.nextOutbox),
             Enqueue(m, ty, input, creator, now).0)
  {
    var job := NewJob(id, ty, Some(OrEmpty(input)), Some(OrBlank(creator)), now);
    var m' := Enqueue(m, ty, input, creator, now).0;
    IndexIsActive(t, n, m, ty);
    EnqueueKeeps(m, ty, input, creator, now);
    assert id !in n.num.Keys;
    InsertJobsRel(t, n, m, m', id, row, ty, job, NewJob(m.nextJob, ty, input, creator, now));
    InsertRowsRel(t, n, r, m, m', id, row, ty, job);
    InsertIndexOk(t, id, row, ty, job);
  }

  /** `UPDATE outbox SET published_at = now() WHERE id = ...`. */
  function MarkRow(t: Tables, i: int, now: int): Tables {
    if i in t.outbox then t.(outbox := t.outbox[i := t.outbox[i].(publishedAt := Some(now))]) else t
  }

  lemma MarkRowRel(t: Tables, n: Numbering, r: Numbering, m: Store, i: int, now: int)
    requires Rel(t, n, r, m)
    ensures Rel(MarkRow(t, i, now), n, r, m.(published := m.published + {r.Of(i)}))
  {
    var u, m' := MarkRow(t, i, now), m.(published := m.published + {r.Of(i)});
    PublishedIsFree(m, m'.published);
    MarkRowsRel(t, n, r, m, i, now);
    SameJobs(t, u, n, m, m');
    assert r.Of(i) < m.nextOutbox by {
      if i in r.num {
        OutboxOf(t, n, r, m, i);
      }
    }
  }

  lemma MarkRowsRel(t: Tables, n: Numbering, r: Numbering, m: Store, i: int, now: int)
    requires RowsRel(t, n, r, m) && 0 !in m.outbox
    ensures RowsRel(MarkRow(t, i, now), n, r, m.(published := m.published + {r.Of(i)}))
  {
  }

  /** Neither the outbox nor the published set matters to the job rows and the index. */
  lemma SameJobs(t: Tables, u: Tables, n: Numbering, m: Store, m': Store)
    requires JobsRel(t, n, m) && IndexOk(t) && u.jobs == t.jobs && u.active == t.active && u.nextJob == t.nextJob
    requires m'.jobs == m.jobs
    ensures JobsRel(u, n, m') && IndexOk(u)
  {
  }

  function Rearm(t: Tables, id: int): Tables {
    t.(outbox := map k | k in t.outbox ::
         if t.outbox[k].jobId == id then t.outbox[k].(publishedAt := None) else t.outbox[k])
  }

  /** `UPDATE outbox SET published_at = NULL WHERE job_id = ...`. */
  lemma RearmRel(t: Tables, n: Numbering, r: Numbering, m: Store, id: int)
    requires Rel(t, n, r, m) && id in t.jobs
    ensures Rel(Rearm(t, id), n, r, m.(published := m.published - RowsOf(m, n.Of(id))))
  {
    var u, m' := Rearm(t, id), m.(published := m.published - RowsOf(m, n.Of(id)));
    PublishedIsFree(m, m'.published);
    assert u.outbox.Keys == t.outbox.Keys;
    assert id in n.num.Keys;
    forall k | k in u.outbox
      ensures OutboxRel(u.outbox[k], n, m'.outbox[r.num[k]], r.num[k] in m'.published)
    {
      assert k in r.num.Keys;
      OutboxOf(t, n, r, m, k);
      assert n.ids[n.num[t.outbox[k].jobId]] == t.outbox[k].jobId && n.ids[n.num[id]] == id;
    }
    SameJobs(t, u, n, m, m');
  }

  function Requeued(job: Job, now: int): Job {
    job.(status := Queued, attempts := job.attempts + 1, updatedAt := now)
  }

  /** The database's guard is the in-memory one. */
  lemma RequeueGuard(t: Tables, n: Numbering, r: Numbering, m: Store, id: int)
    requires Rel(t, n, r, m)
    ensures CanRequeue(m, n.Of(id)) <==>
      id in t.jobs && t.jobs[id].status.Running? && t.jobs[id].attempts < m.MaxAttempts(t.jobs[id].jobType)
  {
    KnownIds(t, n, r, m, id);
  }

  /** Both statements of a requeue that found its guard true. */
  lemma RequeueRel(t: Tables, n: Numbering, r: Numbering, m: Store, id: int, now: int)
    requires Rel(t, n, r, m) && id in t.jobs && CanRequeue(m, n.Of(id))
    ensures Rel(UpdateJob(Rearm(t, id), id, Requeued(t.jobs[id], now)), n, r, Requeue(m, n.Of(id), now).0)
  {
    KnownIds(t, n, r, m, id);
    RearmRel(t, n, r, m, id);
    RequeueKeeps(m, n.Of(id), now);
    UpdateRel(Rearm(t, id), n, r, m.(published := m.published - RowsOf(m, n.Of(id))), id,
              Requeued(t.jobs[id], now), Requeued(m.jobs[n.Of(id)], now), Requeue(m, n.Of(id), now).0);
  }

  /** The tables as a reader sees them that skips locked rows: those do not show as unpublished. */
  function SkipLocked(t: Tables, locked: set<int>): Tables {
    t.(outbox := map k | k in t.outbox ::
         if k in locked then t.outbox[k].(publishedAt := Some(0)) else t.outbox[k])
  }

  lemma SkipLockedRel(t: Tables, n: Numbering, r: Numbering, m: Store, locked: set<int>)
    requires Rel(t, n, r, m)
    ensures Rel(SkipLocked(t, locked), n, r, m.(published := m.published + r.All(locked)))
  {
    var u, m' := SkipLocked(t, locked), m.(published := m.published + r.All(locked));
    PublishedIsFree(m, m'.published);
    SkipLockedRows(t, n, r, m, locked);
    SameJobs(t, u, n, m, m');
    forall i | i in locked && i in r.num
      ensures r.num[i] < m.nextOutbox
    {
      OutboxOf(t, n, r, m, i);
    }
  }

  lemma SkipLockedRows(t: Tables, n: Numbering, r: Numbering, m: Store, locked: set<int>)
    requires RowsRel(t, n, r, m)
    ensures RowsRel(SkipLocked(t, locked), n, r, m.(published := m.published + r.All(locked)))
  {
    var u, m' := SkipLocked(t, locked), m.(published := m.published + r.All(locked));
    assert u.outbox.Keys == t.outbox.Keys;
    forall k | k in u.outbox
      ensures OutboxRel(u.outbox[k], n, m'.outbox[r.num[k]], r.num[k] in m'.published)
    {
      assert k in r.num.Keys;
      OutboxOf(t, n, r, m, k);
      assert r.ids[r.num[k]] == k;
    }
  }

  /** The inserted row in the caller's terms: an absent input is stored as an empty one, an absent
      creator as three NULLs. */
  lemma StoredRow(id: int, ty: string, input: Option<Payload>, creator: Option<Creator>, now: int)
    ensures NewRow(NewJob(id, ty, Some(OrEmpty(input)), Some(OrBlank(creator)), now), id, ty, input,
      Some(if creator.Some? then creator.value else Creator(None, None, None)), now)
  {
  }

  // ----- the store --------------------------------------------------------------------------------

  class PostgresStore {
    var db: Tables
    var config: map<string, TypeConfig>

    ghost var model: Store
    ghost var jobNum: Numbering
    ghost var rowNum: Numbering

    ghost predicate Valid()
      reads this
    {
      Rel(db, jobNum, rowNum, model) && config == model.config
    }

    constructor (config: map<string, TypeConfig>)
      ensures Valid() && model == Empty(config)
    {
      this.config := config;
      db := Tables(map[], map[], map[], 1, 1);
      model, jobNum, rowNum := Empty(config), Numbering(map[], map[]), Numbering(map[], map[]);
    }

    /** `INSERT ... ON CONFLICT DO NOTHING RETURNING id`, then the outbox row, in one transaction.
        A conflicting insert consumes an identity value too; `skip` values were consumed elsewhere. */
    method EnqueueJob(ty: string, input: Option<Payload>, creator: Option<Creator>, now: int, skip: nat, skipRow: nat)
      returns (r: Option<int>)
      requires Valid()
      modifies this
      ensures Valid()
      ensures model == Enqueue(old(model), ty, input, creator, now).0
      ensures r.None? <==> Enqueue(old(model), ty, input, creator, now).1.None?
      ensures r.None? ==> jobNum == old(jobNum) && rowNum == old(rowNum)
      ensures r.Some? ==> old(db.nextJob) <= r.value < db.nextJob
      ensures r.Some? ==> r.value in db.jobs && NewRow(db.jobs[r.value], r.value, ty, input,
        Some(if creator.Some? then creator.value else Creator(None, None, None)), now)
      ensures forall i :: i in old(rowNum).num ==> i in rowNum.num && rowNum.num[i] == old(rowNum).num[i]
      ensures r.Some? ==> jobNum == old(jobNum).Add(r.value, Enqueue(old(model), ty, input, creator, now).1.value)
    {
      IndexIsActive(db, jobNum, model, ty);
      var id, row := db.nextJob + skip, db.nextOutbox + skipRow;
      if ty in db.active {
        BumpRel(db, jobNum, rowNum, model, id + 1);
        db := db.(nextJob := id + 1);
        return None;
      }
      InsertRows(id, row, ty, input, creator, now);
      r := Some(id);
    }

    /** Both inserts, for a type without an index entry. */
    method InsertRows(id: int, row: int, ty: string, input: Option<Payload>, creator: Option<Creator>, now: int)
      requires Valid() && ty !in db.active && db.nextJob <= id && db.nextOutbox <= row
      modifies this
      ensures Valid() && db.nextJob == id + 1
      ensures id in db.jobs && NewRow(db.jobs[id], id, ty, input,
        Some(if creator.Some? then creator.value else Creator(None, None, None)), now)
      ensures Enqueue(old(model), ty, input, creator, now) == (model, Some(old(model).nextJob))
      ensures jobNum == old(jobNum).Add(id, old(model).nextJob)
      ensures forall i :: i in old(rowNum).num ==> i in rowNum.num && rowNum.num[i] == old(rowNum).num[i]
    {
      ghost var m' := Enqueue(model, ty, input, creator, now).0;
      AddKeeps(rowNum, db.nextOutbox, row, model.nextOutbox);
      InsertRel(db, jobNum, rowNum, model, id, row, ty, input, creator, now);
      StoredRow(id, ty, input, creator, now);
      db := Insert(db, id, row, ty, NewJob(id, ty, Some(OrEmpty(input)), Some(OrBlank(creator)), now));
      jobNum, rowNum := jobNum.Add(id, model.nextJob), rowNum.Add(row, model.nextOutbox);
      model := m';
    }

    /** One `UPDATE jobs ... WHERE id = ...` that found its guard true, and the in-memory change it
        stands for. */
    method UpdateRow(id: int, row: Job, ghost job: Job, ghost m': Store)
      requires Valid() && id in db.jobs && db.jobs[id].status.Active()
      requires row.id == id && row.jobType == db.jobs[id].jobType && RowRel(row, job)
      requires Consistent(m') && m' == model.Put(jobNum.Of(id), job)
      modifies `db, `model
      ensures Valid() && model == m' && db == UpdateJob(old(db), id, row)
    {
      UpdateRel(db, jobNum, rowNum, model, id, row, job, m');
      db := UpdateJob(db, id, row);
      model := m';
    }

    method MarkRowDispatched(outboxId: int, jobId: int, now: int)
      requires Valid()
      modifies `db, `model
      ensures Valid()
      ensures model == MarkDispatched(old(model), rowNum.Of(outboxId), jobNum.Of(jobId), now)
    {
      MarkRowRel(db, jobNum, rowNum, model, outboxId, now);
      ghost var m := jobNum.Of(jobId);
      ghost var m' := MarkDispatched(model, rowNum.Of(outboxId), m, now);
      MarkKeeps(model, rowNum.Of(outboxId), m, now);
      db := MarkRow(db, outboxId, now);
      model := model.(published := model.published + {rowNum.Of(outboxId)});
      KnownIds(db, jobNum, rowNum, model, jobId);
      if jobId in db.jobs && db.jobs[jobId].status.Queued? {
        UpdateRow(jobId, db.jobs[jobId].(status := Dispatched, updatedAt := now),
                  model.jobs[m].(status := Dispatched, updatedAt := now), m');
      }
    }

    method ClaimJob(id: int, now: int) returns (won: bool)
      requires Valid()
      modifies `db, `model
      ensures Valid()
      ensures (model, won) == Claim(old(model), jobNum.Of(id), now)
    {
      KnownIds(db, jobNum, rowNum, model, id);
      ClaimKeeps(model, jobNum.Of(id), now);
      won := id in db.jobs && (db.jobs[id].status.Queued? || db.jobs[id].status.Dispatched?);
      if won {
        UpdateRow(id, db.jobs[id].(status := Running, updatedAt := now),
                  model.jobs[jobNum.Of(id)].(status := Running, updatedAt := now), Claim(model, jobNum.Of(id), now).0);
      }
    }

    /** The configuration row is joined on the type in the message, not on the row's own type. */
    method Resolve(id: int, ty: string, now: int) returns (r: Option<Payload>)
      requires Valid()
      modifies `db, `model
      ensures Valid()
      ensures r == if id in old(db.jobs) && old(db.jobs)[id].status.Running? && ty in config
                   then Some(Overlay(config[ty].payload, old(db.jobs)[id].inputPayload)) else None
      ensures (id in old(db.jobs) ==> ty == old(db.jobs)[id].jobType) ==>
        (model, r) == ResolvePayload(old(model), jobNum.Of(id), ty, now)
      ensures r.None? ==> db == old(db)
      ensures r.Some? ==> id in db.jobs && db.jobs[id] == old(db.jobs)[id].(payload := r.value, updatedAt := now)
    {
      KnownIds(db, jobNum, rowNum, model, id);
      if id !in db.jobs || !db.jobs[id].status.Running? || ty !in config {
        return None;
      }
      ghost var m := jobNum.Of(id);
      var p := Overlay(config[ty].payload, db.jobs[id].inputPayload);
      ghost var job := model.jobs[m].(payload := p, updatedAt := now);
      assert JobOk(model, m);
      PutKeeps(model, m, job, model.published);
      UpdateRow(id, db.jobs[id].(payload := p, updatedAt := now), job, model.Put(m, job));
      r := Some(p);
    }

    /** `complete`, `fail` and `dead_letter`. */
    method Finish(id: int, ok: bool, now: int) returns (done: bool)
      requires Valid()
      modifies `db, `model
      ensures Valid()
      ensures (model, done) == StoreSpec.Finish(old(model), jobNum.Of(id), ok, now)
    {
      KnownIds(db, jobNum, rowNum, model, id);
      ghost var m := jobNum.Of(id);
      FinishKeeps(model, m, ok, now);
      done := id in db.jobs && db.jobs[id].status.Running?;
      if done {
        var row := db.jobs[id].(status := if ok then Completed else Failed, updatedAt := now);
        UpdateRow(id, row, model.jobs[m].(status := row.status, updatedAt := now), StoreSpec.Finish(model, m, ok, now).0);
      }
    }

    /** `COALESCE((SELECT max_attempts FROM job_type_config ...), default)`. */
    function MaxAttempts(ty: string): int
      reads `config
    {
      if ty in config then config[ty].maxAttempts else DEFAULT_MAX_ATTEMPTS
    }

    /** The guarded requeue and the re-arming of the outbox, in one transaction. */
    method RequeueStuck(id: int, now: int) returns (requeued: bool)
      requires Valid()
      modifies `db, `model
      ensures Valid()
      ensures (model, requeued) == Requeue(old(model), jobNum.Of(id), now)
      ensures requeued <==>
        && id in old(db.jobs) && old(db.jobs)[id].status == Running
        && var ty := old(db.jobs)[id].jobType;
        old(db.jobs)[id].attempts < if ty in config then config[ty].maxAttempts else 3
    {
      ghost var m := jobNum.Of(id);
      RequeueGuard(db, jobNum, rowNum, model, id);
      requeued := id in db.jobs && db.jobs[id].status.Running? && db.jobs[id].attempts < MaxAttempts(db.jobs[id].jobType);
      if requeued {
        RequeueRel(db, jobNum, rowNum, model, id, now);
        model := Requeue(model, m, now).0;
        db := UpdateJob(Rearm(db, id), id, Requeued(db.jobs[id], now));
      }
    }

    /** `get_job`: the row as the table has it. */
    method GetJob(id: int) returns (r: Option<Job>)
      requires Valid()
      ensures r.Some? <==> jobNum.Of(id) in model.jobs
      ensures r.Some? ==>
        var job := model.jobs[jobNum.Of(id)];
        r.value == job.(id := id, createdBy := Some(if job.createdBy.Some? then job.createdBy.value else Creator(None, None, None)))
    {
      KnownIds(db, jobNum, rowNum, model, id);
      r := if id in db.jobs then Some(db.jobs[id]) else None;
    }

    /** `SELECT ... WHERE published_at IS NULL ORDER BY id FOR UPDATE SKIP LOCKED LIMIT ...`: the
        in-memory batch of the rows that are not locked elsewhere, row by row. */
    method FetchRows(limit: nat, locked: set<int>) returns (rows: seq<OutboxMessage>)
      requires Valid()
      ensures var seen := model.(published := model.published + rowNum.All(locked));
        SameRows(rows, FetchUnpublished(seen, limit), jobNum, rowNum)
    {
      rows := [];
      ghost var c := 1;
      ghost var t, m := SkipLocked(db, locked), model.(published := model.published + rowNum.All(locked));
      SkipLockedRel(db, jobNum, rowNum, model, locked);
      for i := 1 to db.nextOutbox
        invariant 1 <= c <= m.nextOutbox && Below(rowNum, i, c)
        invariant SameRows(rows, UnpublishedBelow(m, c), jobNum, rowNum)
      {
        Scan(t, jobNum, rowNum, m, i, c, rows);
        if i in db.outbox {
          if db.outbox[i].publishedAt.None? && i !in locked {
            rows := rows + [OutboxMessage(i, db.outbox[i].jobId, db.outbox[i].payload)];
          }
          c := c + 1;
        }
      }
      ScanEnds(t, jobNum, rowNum, m, c);
      SameSlices(rows, UnpublishedBelow(m, c), jobNum, rowNum, limit);
      rows := Slice(rows, limit);
    }

    /** The stuck runs, in no particular order; missing configuration falls back to the defaults. */
    method FindStuckRuns(now: int) returns (stuck: set<StuckJob>)
      requires Valid()
      ensures forall e :: e in stuck ==>
        e.jobId in jobNum.num && StuckEntry(model, e.(jobId := jobNum.num[e.jobId]), now)
      ensures forall i :: Stuck(model, i, now) ==>
        i in jobNum.ids && StuckJob(jobNum.ids[i], model.jobs[i].jobType, model.jobs[i].attempts) in stuck
      ensures forall e: StuckJob :: e in stuck <==>
        && e.jobId in db.jobs && db.jobs[e.jobId].status == Running
        && now - db.jobs[e.jobId].updatedAt > (if e.jobType in config then config[e.jobType].runTimeout else 900)
        && e.jobType == db.jobs[e.jobId].jobType && e.attempts == db.jobs[e.jobId].attempts
    {
      var jobs := db.jobs;
      stuck := set id | id in jobs && jobs[id].status.Running?
                        && jobs[id].updatedAt < now - (if jobs[id].jobType in config then config[jobs[id].jobType].runTimeout
                                                       else DEFAULT_RUN_TIMEOUT)
                 :: StuckJob(id, jobs[id].jobType, jobs[id].attempts);
      forall i | Stuck(model, i, now)
        ensures i in jobNum.ids && StuckJob(jobNum.ids[i], model.jobs[i].jobType, model.jobs[i].attempts) in stuck
      {
        assert i in jobNum.ids.Keys;
        JobRow(db, jobNum, model, jobNum.ids[i]);
      }
      forall e | e in stuck
        ensures e.jobId in jobNum.num && StuckEntry(model, e.(jobId := jobNum.num[e.jobId]), now)
      {
        assert e.jobId in jobNum.num.Keys;
        JobRow(db, jobNum, model, e.jobId);
      }
    }
  }

  // ----- listing queries ------------------------------------------------------------------------------

  predicate SameRow(a: OutboxMessage, b: OutboxMessage, n: Numbering, r: Numbering) {
    && a.id in r.num && r.num[a.id] == b.id
    && a.jobId in n.num && n.num[a.jobId] == b.jobId
    && a.payload == Envelope(a.jobId, b.payload.jobType)
  }

  ghost predicate SameRows(a: seq<OutboxMessage>, b: seq<OutboxMessage>, n: Numbering, r: Numbering) {
    |a| == |b| && forall k :: 0 <= k < |a| ==> SameRow(a[k], b[k], n, r)
  }

  lemma SameSlices(a: seq<OutboxMessage>, b: seq<OutboxMessage>, n: Numbering, r: Numbering, limit: nat)
    requires SameRows(a, b, n, r)
    ensures SameRows(Slice(a, limit), Slice(b, limit), n, r)
  {
  }

  /** The table rows below `i` are the in-memory rows below `c`. */
  ghost predicate Below(r: Numbering, i: int, c: int) {
    (forall k :: k in r.num && k < i ==> r.num[k] < c) && (forall k :: k in r.num && i <= k ==> c <= r.num[k])
  }

  lemma NextRow(r: Numbering, next: int, i: int, c: int)
    requires r.Ok(next) && Below(r, i, c)
    requires forall m :: m in r.ids && c <= m ==> c in r.ids
    ensures i in r.num ==> r.num[i] == c && Below(r, i + 1, c + 1)
    ensures i !in r.num ==> Below(r, i + 1, c)
  {
    if i in r.num {
      assert r.num[i] in r.ids && c <= r.num[i];
      var k := r.ids[c];
      assert k in r.num && r.num[k] == c;
      assert !(k < i) && !(i < k);
    }
  }

  /** One step of the scan: nothing at `i`, or the next in-memory row. */
  lemma Scan(t: Tables, n: Numbering, r: Numbering, m: Store, i: int, c: int, rows: seq<OutboxMessage>)
    requires Rel(t, n, r, m) && Below(r, i, c) && 1 <= c <= m.nextOutbox
    requires SameRows(rows, UnpublishedBelow(m, c), n, r)
    ensures i !in t.outbox ==> Below(r, i + 1, c)
    ensures i in t.outbox ==> c < m.nextOutbox && Below(r, i + 1, c + 1)
    ensures i in t.outbox && t.outbox[i].publishedAt.None? ==>
      SameRows(rows + [OutboxMessage(i, t.outbox[i].jobId, t.outbox[i].payload)], UnpublishedBelow(m, c + 1), n, r)
    ensures i in t.outbox && t.outbox[i].publishedAt.Some? ==> SameRows(rows, UnpublishedBelow(m, c + 1), n, r)
  {
    assert i in t.outbox <==> i in r.num.Keys;
    forall k | k in r.ids && c <= k
      ensures c in r.ids
    {
      assert k in m.outbox.Keys;
      assert c in m.outbox.Keys;
    }
    NextRow(r, t.nextOutbox, i, c);
    if i in t.outbox {
      ScanRow(t, n, r, m, i, c, rows);
    }
  }

  lemma ScanEnds(t: Tables, n: Numbering, r: Numbering, m: Store, c: int)
    requires Rel(t, n, r, m) && Below(r, t.nextOutbox, c) && 1 <= c <= m.nextOutbox
    ensures c == m.nextOutbox
  {
    LastRow(r, t.nextOutbox, c);
    assert c !in m.outbox.Keys;
  }

  /** Scanning table row `i`, which is in-memory row `c`, extends both listings alike. */
  lemma ScanRow(t: Tables, n: Numbering, r: Numbering, m: Store, i: int, c: int, rows: seq<OutboxMessage>)
    requires Rel(t, n, r, m) && i in t.outbox && i in r.num && r.num[i] == c && 1 <= c
    requires SameRows(rows, UnpublishedBelow(m, c), n, r)
    ensures c < m.nextOutbox
    ensures var row := OutboxMessage(i, t.outbox[i].jobId, t.outbox[i].payload);
      SameRows(if t.outbox[i].publishedAt.None? then rows + [row] else rows, UnpublishedBelow(m, c + 1), n, r)
  {
  }

  lemma LastRow(r: Numbering, next: int, c: int)
    requires r.Ok(next) && Below(r, next, c)
    ensures c !in r.ids.Keys && forall m :: m in r.ids ==> m < c
  {
    forall m | m in r.ids
      ensures m < c
    {
      var k := r.ids[m];
      assert k in r.num && k < next && r.num[k] == m;
    }
  }
}
