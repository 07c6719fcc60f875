/** The job domain: statuses, rows, per-type configuration and the message envelope
    that every component shares (common/models.py, common/store.py). */
module Models {

  datatype Option<+T> = None | Some(value: T)

  /** A JSON value. Payload merging is shallow, so values are never looked into. */
  datatype Json =
    | Null
    | Bool(b: bool)
    | Num(n: real)
    | Str(s: string)
    | List(items: seq<Json>)
    | Object(members: map<string, Json>)

  type Payload = map<string, Json>

  datatype Status = Queued | Dispatched | Running | Completed | Failed {
    predicate Active() { Queued? || Dispatched? || Running? }

    predicate Terminal() { Completed? || Failed? }

    /** The statuses that `claim` accepts. */
    predicate Claimable() { Queued? || Dispatched? }
  }

  datatype Creator = Creator(sub: Option<string>, kind: Option<string>, clientId: Option<string>)

  datatype Job = Job(
    id: int,
    jobType: string,
    status: Status,
    inputPayload: Payload,
    payload: Payload,
    attempts: int,
    createdAt: int,
    updatedAt: int,
    createdBy: Option<Creator>)

  /** The Kafka message: which job, and its type. */
  datatype Envelope = Envelope(jobId: int, jobType: string)

  datatype OutboxMessage = OutboxMessage(id: int, jobId: int, payload: Envelope)

  datatype StuckJob = StuckJob(jobId: int, jobType: string, attempts: int)

  datatype TypeConfig = TypeConfig(runTimeout: int, maxAttempts: int, payload: Payload)

  /** Fifteen minutes, in seconds. */
  const DEFAULT_RUN_TIMEOUT := 900

  const DEFAULT_MAX_ATTEMPTS := 3

  /** `input_payload or {}`. */
  function OrEmpty(p: Option<Payload>): Payload {
    if p.Some? then p.value else map[]
  }

  function Max(a: int, b: int): int {
    if a < b then b else a
  }

  /** Python's `rows[:limit]`, negative limits included. */
  function Slice<T>(rows: seq<T>, limit: int): (r: seq<T>)
    ensures r <= rows
    ensures 0 <= limit <= |rows| ==> |r| == limit
    ensures |rows| <= limit ==> r == rows
    ensures limit < 0 ==> |r| == Max(0, |rows| + limit)
  {
    if |rows| <= limit then rows
    else if 0 <= limit then rows[..limit]
    else rows[..Max(0, |rows| + limit)]
  }

  /** Effective payload: the base configuration overlaid, key by key, with the input. */
  function Overlay(base: Payload, input: Payload): (r: Payload)
    ensures r.Keys == base.Keys + input.Keys
    ensures forall k :: k in r ==> r[k] == if k in input then input[k] else base[k]
  {
    base + input
  }
}
