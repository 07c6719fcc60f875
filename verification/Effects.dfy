/** What the store operations do to the tables, row by row, told without the operations: which row an
    operation writes, what it writes there, what it does to the outbox and what it answers
    (common/store.py). Every guard is spelled out down to the configuration row and the defaults for
    a type without one. */
module Effects {
  import opened Models
  import opened StoreSpec

  /** Every job of the type is completed or failed. */
  ghost predicate NoneActive(s: Store, ty: string) {
    forall i :: i in s.jobs && s.jobs[i].jobType == ty ==> s.jobs[i].status == Completed || s.jobs[i].status == Failed
  }

  /** The operation writes row `j`. */
  ghost predicate Writes(s: Store, op: Op, j: int) {
    match op
    case OpNone => false
    case OpEnqueue(ty, input, creator) => j == s.nextJob && NoneActive(s, ty)
    case OpMark(outboxId, jobId) => j == jobId && s.Is(j, Queued)
    case OpClaim(id) => j == id && (s.Is(j, Queued) || s.Is(j, Dispatched))
    case OpResolve(id, envType) => j == id && s.Is(j, Running) && s.jobs[j].jobType in s.config
    case OpFinish(id, ok) => j == id && s.Is(j, Running)
    case OpRequeue(id) =>
      && j == id && s.Is(j, Running)
      && s.jobs[j].attempts < if s.jobs[j].jobType in s.config then s.config[s.jobs[j].jobType].maxAttempts else 3
  }

  /** What a producer's call leaves in the new row. */
  predicate Born(row: Job, ty: string, input: Option<Payload>, creator: Option<Creator>, now: int) {
    && row.jobType == ty && row.createdBy == creator && row.createdAt == now
    && (input.Some? ==> row.inputPayload == input.value)
    && (input.None? ==> row.inputPayload == map[])
  }

  /** Field by field, the row of a job that has just been accepted. */
  predicate NewRow(row: Job, id: int, ty: string, input: Option<Payload>, creator: Option<Creator>, now: int) {
    && Born(row, ty, input, creator, now)
    && row.id == id && row.status == Queued && row.payload == map[] && row.attempts == 0 && row.updatedAt == now
  }

  /** Key by key: the input's value where the input has the key, the base value elsewhere. */
  ghost predicate KeyByKey(p: Payload, base: Payload, input: Payload) {
    && (forall k :: k in p <==> k in base || k in input)
    && (forall k :: k in input ==> k in p && p[k] == input[k])
    && (forall k :: k in base && k !in input ==> k in p && p[k] == base[k])
  }

  /** What the operation leaves in a row that it writes; everything not named stays as it was. */
  ghost predicate Leaves(s: Store, op: Op, now: int, j: int, row: Job)
    requires Writes(s, op, j)
  {
    match op
    case OpNone => false
    case OpEnqueue(ty, input, creator) => NewRow(row, j, ty, input, creator, now)
    case OpMark(outboxId, jobId) => row == s.jobs[j].(status := Dispatched, updatedAt := now)
    case OpClaim(id) => row == s.jobs[j].(status := Running, updatedAt := now)
    case OpResolve(id, envType) =>
      && row == s.jobs[j].(payload := row.payload, updatedAt := now)
      && KeyByKey(row.payload, s.config[s.jobs[j].jobType].payload, s.jobs[j].inputPayload)
    case OpFinish(id, ok) =>
      && (ok ==> row == s.jobs[j].(status := Completed, updatedAt := now))
      && (!ok ==> row == s.jobs[j].(status := Failed, updatedAt := now))
    case OpRequeue(id) => row == s.jobs[j].(status := Queued, attempts := s.jobs[j].attempts + 1, updatedAt := now)
  }

  lemma AcceptedRow(s: Store, ty: string, input: Option<Payload>, creator: Option<Creator>, now: int)
    ensures var (t, r) := Enqueue(s, ty, input, creator, now);
      r.Some? ==> r.value in t.jobs && NewRow(t.jobs[r.value], r.value, ty, input, creator, now)
  {
  }

  /** Every operation, every row: the row is what the operation leaves there if it writes it, and
      otherwise what it was. A row that is written always gets a new `updated_at`. */
  lemma RowTable(s: Store, op: Op, now: int, j: int)
    requires Consistent(s)
    ensures var t := ApplyOp(s, op, now);
      && (j in t.jobs <==> j in s.jobs || (op.OpEnqueue? && Writes(s, op, j)))
      && (Writes(s, op, j) ==> j in t.jobs && Leaves(s, op, now, j, t.jobs[j]) && t.jobs[j].updatedAt == now)
      && (!Writes(s, op, j) && j in s.jobs ==> t.jobs[j] == s.jobs[j])
  {
    match op
    case OpNone =>
    case OpEnqueue(ty, input, creator) => ActiveOrNone(s, ty);
    case OpMark(outboxId, jobId) =>
    case OpClaim(id) =>
    case OpResolve(id, envType) =>
    case OpFinish(id, ok) =>
    case OpRequeue(id) =>
  }

  lemma ActiveOrNone(s: Store, ty: string)
    ensures s.HasActive(ty) <==> !NoneActive(s, ty)
  {
  }

  /** The outbox: an accepted job comes with one unpublished row that carries its envelope, a mark
      publishes the row it names, a requeue publishes the job's own row again, and nothing else
      touches the outbox. */
  lemma OutboxTable(s: Store, op: Op, now: int, m: int)
    requires Consistent(s) && s.nextOutbox !in s.published
    ensures var t := ApplyOp(s, op, now);
      && (m in s.outbox ==> m in t.outbox && t.outbox[m] == s.outbox[m])
      && (m !in s.outbox && m in t.outbox <==> op.OpEnqueue? && Writes(s, op, m))
      && (op.OpEnqueue? && Writes(s, op, m) ==>
            t.outbox[m] == OutboxMessage(m, m, Envelope(m, op.ty)) && m !in t.published)
      && (m in t.published <==>
            (m in s.published || (op.OpMark? && m == op.outboxId)) && !(op.OpRequeue? && Writes(s, op, m)))
  {
    if op.OpEnqueue? {
      ActiveOrNone(s, op.ty);
    } else if op.OpRequeue? && CanRequeue(s, op.id) {
      RowsOfJob(s, op.id);
    }
  }

  /** What the caller is told: yes, or an id, or a payload, exactly when the operation wrote its row. */
  lemma AnswersTell(s: Store, id: int, ty: string, input: Option<Payload>, creator: Option<Creator>, ok: bool, now: int)
    ensures Enqueue(s, ty, input, creator, now).1 ==
      if Writes(s, OpEnqueue(ty, input, creator), s.nextJob) then Some(s.nextJob) else None
    ensures Claim(s, id, now).1 <==> Writes(s, OpClaim(id), id)
    ensures Finish(s, id, ok, now).1 <==> Writes(s, OpFinish(id, ok), id)
    ensures Requeue(s, id, now).1 <==> Writes(s, OpRequeue(id), id)
    ensures ResolvePayload(s, id, ty, now).1.Some? <==> Writes(s, OpResolve(id, ty), id)
    ensures ResolvePayload(s, id, ty, now).1.Some? ==>
      ResolvePayload(s, id, ty, now).1.value == ResolvePayload(s, id, ty, now).0.jobs[id].payload
  {
    ActiveOrNone(s, ty);
  }
}
