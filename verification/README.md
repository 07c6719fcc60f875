# Job orchestration: a verified model of the job protocol

A *job* is a row that moves `queued -> dispatched -> running -> completed | failed`. Four kinds of
component change it, only through guarded operations on a shared store:

- producers *enqueue* a job together with its outbox row, at most one active job per type;
- dispatchers *publish* unpublished outbox rows to a Kafka topic and then *mark* them;
- workers *claim* a delivered job, *resolve* its payload, run a handler and *record* the outcome;
- the reaper *requeues* a run that is stuck past its type's timeout, or *dead-letters* it once the
  type's churn cap is reached.

Kafka delivers at least once: it may duplicate, reorder and redeliver, and every component may crash
between any two steps. The project models this at the grain of single store and transport operations
and proves what every interleaving keeps.

## Layers

| file | content |
|---|---|
| `Models.dfy`, `StoreSpec.dfy` | the domain, and the store as a value: one function per store operation, the store invariant, durable history |
| `InMemoryStore.dfy`, `Components.dfy` | the in-memory store and the three units of work as imperative code, proved against functions of the old state |
| `Sequential.dfy` | those functions and their laws when nothing else runs: confluence, batched drain, sweep exactness |
| `Protocol.dfy` | the interleaved system: store, topic, dispatchers, workers, reapers, clock and a history that no component reads; a run is any sequence of actions, and an action that is not enabled does nothing |
| `Embedding.dfy`, `Spare.dfy` | uninterrupted units of work are runs of the interleaved system, and there is always a process to spare for one |
| `Effects.dfy` | the operations told row by row, without the operations: guards, contents, answers |
| `Claims.dfy`, `Exclusive.dfy`, `Stealing.dfy`, `Payloads.dfy`, `Provenance.dfy`, `ReaperSafety.dfy`, `NoLostJob.dfy`, `Stranding.dfy`, `Recoverability.dfy`, `Publications.dfy` | theorems over all runs |
| `Scenarios.dfy` | concrete runs that show which hypotheses are needed |
| `PostgresStore.dfy`, `SideBySide.dfy` | the database store as a refinement of the in-memory one, and observational equivalence of the two |
| `ConsumerGroup.dfy` | when Kafka may forget a message, from the poll / process / commit loop |
| `JwksCache.dfy` | the signing-key cache of the HTTP API |

`dafny verify dfyconfig.toml` checks everything.

## Main results

**No lost job.** In every run a queued job's outbox row is unpublished and a dispatched job has a
message that has not been offered to `claim`, provided no requeue of that job is *hazardous*: inside
an open publish/mark window of the job, with all its messages already offered. The condition is
exact (`RequeueSafeIff`): such a requeue always breaks the promise, any other keeps it. A concrete
run reaches the hazard (`RequeueInWindowLosesJob`).

**Recoverability, exactly.** A job is *stranded* when it is dispatched and nothing can offer it to
`claim` any more: its messages are all committed, no worker has polled one, and no dispatcher has
still to publish its row. Whatever the handlers do, a reachable state has a continuation to a state
where every job is terminal and every type can be enqueued, if and only if no job is stranded
(`RecoverableIff`); the continuation never goes behind a committed offset and makes no hazardous
requeue. A stranded job blocks its type for good (`StrandedForever`). Runs without a hazardous requeue
strand no job (`Recoverability`).

**Exact claim accounting.** Successful claims of a job number its `attempts`, plus one if it is
running or terminal; its handler is entered at most `max(0, max_attempts) + 1` times, and its status
changes at most `3 * (max(0, max_attempts) + 1)` times, with the cap of its type's configuration row,
or 3 without one.

**Provenance.** In every run the jobs are the accepted calls of producers, in order; each row keeps
the type, input, creator and time of its call, and the payload of a completed run, like the payload a
handler gets, is the type's base overlaid key by key with the input of that call (`Provenance`,
`CompletedFromCall`, `HandlerFromCall`). `updated_at` is always the time of the latest write
(`UpdatedAtExact`).

**Exclusive execution.** Two workers are busy with one job type only if the reaper ended the earlier
run, or requeued a still earlier run of the same job whose worker, still alive, then recorded the
outcome of the run in between: `complete` and `fail` carry no owner token. The sharp statement, that
the reaper ended the earlier worker's own run, is false (`StaleWorkerFinishesLaterRun`). What breaks
it is a *steal*: a worker records an outcome on a running row whose `attempts` has moved since its
claim, while another worker still holds the current run. A step takes a run from a busy worker exactly
when it steals (`StealStep`, `NeverStolenIff`); without steals the sharp statement holds
(`SharpExclusion`), and after any steal some continuation without a further steal breaks it
(`SharpIff`).

**Reaper safety.** With any number of reapers, one that acts on an entry whose `attempts` is still the
row's requeues or dead-letters a run only more than its type's timeout after the job's latest claim,
requeues only below the cap and dead-letters only at it, although neither operation rechecks the
timeout and `dead_letter` does not recheck the cap (`TimelyReaping`). The entries
of a single reaper always are of that kind (`ReaperSafety`); those of a second one need not be
(`SecondReaperReapsFreshRun`).

**Publications.** With any number of dispatchers, a job's messages number at most its requeues plus
one, plus one for each crash between a publication of the job and its mark, as long as no fetch takes
a row that another dispatcher still has in hand. After such a fetch, publishing and marking alone can
publish a row that is not due (`OverlapRepeats`); `TwoDispatchersPublishTwice` is such a run.

**Store refinement.** The database store, with an index in place of the scan and ids that may skip,
answers every sequence of store operations as the in-memory store does (`Replay`).

## Where code and documentation disagree

The model follows the code in each case.

- `docs/design.md` section 7 rechecks the cap when dead-lettering; `dead_letter` checks only the
  status. `TimelyReaping` shows when the cap holds anyway: for every
  entry whose `attempts` is still the row's.
- `docs/design.md` section 7 finds stuck runs by an inner join on the configuration; both stores also
  find runs of unconfigured types, with the default timeout.
- `docs/design.md` section 8 says that two dispatchers never publish a row twice, because of row
  locks; the locks end with the fetch, before the publication. `TwoDispatchersPublishTwice` is a run
  in which they do.
- `common/store.py` says that the database store mirrors the in-memory one exactly. Two differences
  are kept in the model: an absent creator is stored as three NULLs (`RowRel`), and the payload is
  resolved by the type in the message instead of the row's type. `ResolveByTypeIff` gives the exact
  condition under which the two resolutions agree; `GenuineMessages` shows that every delivered
  message meets it.

## Conventions

Times are integers read from a clock that each operation takes as a parameter; it never runs
backwards inside the interleaved system. Handlers are an arbitrary function from type and payload to
success or failure. `Alike` is equality of stores up to `updated_at`. In the in-memory store both id
counters advance together, so a job's outbox row has the job's own id; this is part of the store
invariant.

## Model

| member | source | states |
|---|---|---|
| `Models.Overlay` | common/store.py:194-195 | the keys of base and input together; the input's value where it has the key, the base value elsewhere |
| `Models.Slice` | common/store.py:165-166 | a batch is a prefix of the unpublished rows: all of them when the limit covers them, exactly `limit` of them otherwise, and all but the last `-limit` for a negative limit |
| `StoreSpec.OneActivePerType` | common/models.py:29-30 | in a consistent store, two active jobs of one type are the same job |
| `StoreSpec.RowsOfJob` | common/store.py:233-236 | the loop that re-arms a job's messages touches exactly one outbox row, the job's own |
| `StoreSpec.ConsistentMeans` | common/store.py:134-161 | the invariant in the reader's terms: one active job per type, `attempts` within the type's configured cap (3 without a configuration row, no requeue for a cap of zero or less), one outbox row per job carrying that job's envelope |
| `StoreSpec.EvolvesTransitive` | docs/design.md:130-139 | durable history composes over any number of operations |
| `StoreSpec.EnqueueKeeps` | common/store.py:141-161 | `enqueue` keeps the invariant and only adds rows |
| `StoreSpec.MarkKeeps` | common/store.py:168-173 | `mark_dispatched`, for any pair of ids, keeps the invariant and the durable history |
| `StoreSpec.ClaimKeeps` | common/store.py:176-185 | `claim` keeps the invariant and the durable history |
| `StoreSpec.ResolveKeeps` | common/store.py:187-197 | `resolve_payload` keeps the invariant and the durable history |
| `StoreSpec.FinishKeeps` | common/store.py:199-211 | `complete`, `fail` and `dead_letter` keep the invariant and the durable history |
| `StoreSpec.RequeueKeeps` | common/store.py:224-237 | the back edge into `queued` keeps one active job per type and `attempts` within the cap |
| `StoreSpec.OpKeeps` | common/store.py:141-245 | every store operation keeps the invariant; rows are never removed, identity, type, input and creator never change, `attempts` never falls, a terminal row is frozen |
| `StoreSpec.RunsStep` | common/store.py:176-237 | the number of started runs of a job (`attempts`, plus one unless claimable) rises by one at a successful claim of that job and at no other operation |
| `StoreSpec.MeasureStep` | common/store.py:168-245 | `3 * (cap - attempts) + phase` drops at every status change, requeue included, and is constant otherwise |
| `StoreSpec.UnpublishedExact` | common/store.py:164-166 | the listing holds exactly the unpublished rows, each as stored, in strictly ascending id |
| `StoreSpec.StuckExact` | common/store.py:214-222 | the listing holds exactly the jobs that have been running for more than their type's configured timeout, or more than 900 seconds without a configuration row, each once, with their type and `attempts` |
| `Effects.RowTable` | common/store.py:141-245 | every operation and every row, told without the operations: the guard under which the row is written, down to the configured cap and its default, and what is left in it; every other row is untouched; a written row always gets a new `updated_at`, also from `resolve_payload` |
| `Effects.OutboxTable` | common/store.py:147-237 | an accepted job brings one unpublished row with its envelope, a mark publishes the row it names, a requeue un-publishes exactly the job's row, nothing else touches the outbox |
| `Effects.AnswersTell` | common/store.py:141-245 | each operation answers yes exactly when it wrote its row, so `requeue_stuck` exactly when the job is running with `attempts` below its type's configured cap, 3 by default; the payload returned is the one stored |
| `InMemoryStore.InMemoryStore.Active` | common/store.py:134-138 | the scan answers whether an active job of the type exists |
| `InMemoryStore.InMemoryStore.EnqueueJob` | common/store.py:141-161 | new state and result are those of the specification; refused exactly when an active job of the type existed; field by field, the new row carries the caller's type, input and creator, an empty input where none was given, and the time of the call |
| `InMemoryStore.InMemoryStore.FetchRows` | common/store.py:164-166 | the loop computes the specified prefix of the unpublished rows and changes nothing |
| `InMemoryStore.InMemoryStore.MarkRowDispatched` | common/store.py:168-173 | marks the row for any ids; moves the job only from `queued` |
| `InMemoryStore.InMemoryStore.ClaimJob` | common/store.py:176-185 | compare-and-set from `queued` or `dispatched`; wins exactly then |
| `InMemoryStore.InMemoryStore.Resolve` | common/store.py:187-197 | for a running job of a configured type, whatever the type argument: stores and returns the base of the row's own type overlaid key by key with the row's input, and renews `updated_at`; otherwise nothing changes |
| `InMemoryStore.InMemoryStore.End` | common/store.py:205-211 | running to the given terminal status, and only from running |
| `InMemoryStore.InMemoryStore.Complete` | common/store.py:199-200 | `complete` is the terminal step to `completed` |
| `InMemoryStore.InMemoryStore.Fail` | common/store.py:202-203 | `fail` is the terminal step to `failed` |
| `InMemoryStore.InMemoryStore.FindStuckRuns` | common/store.py:214-222 | the loop computes the specified listing: an entry is in it exactly when its job has been running for more than its type's configured timeout, 900 seconds by default |
| `InMemoryStore.InMemoryStore.RequeueStuck` | common/store.py:224-237 | requeued exactly when running with `attempts` below the type's configured cap, 3 by default; the job's rows are un-published |
| `InMemoryStore.InMemoryStore.Rearm` | common/store.py:233-236 | the loop un-publishes exactly the rows of the job |
| `InMemoryStore.InMemoryStore.GetJob` | common/store.py:248-249 | the row of the id, if there is one |
| `InMemoryStore.InMemoryStore.DeadLetter` | common/store.py:239-245 | running to failed, and only from running |
| `Components.DispatchOnce` | dispatcher/service.py:9-20 | for each fetched row in order a record keyed by the job id with the job's true type, then the mark; if a publication raises, exactly the rows before it are published and marked and all others are still unpublished; otherwise the number of rows is returned |
| `Components.SendRow` | dispatcher/service.py:18-19 | a row is marked only after its publication, and left alone when the publication raises |
| `Components.DrainOutbox` | dispatcher/__main__.py:20-23 | for every batch size from 1 on, the loop publishes each unpublished row once, in ascending outbox id, leaves none, and leaves the store that marking all of them gives |
| `Components.ProcessMessage` | worker/service.py:13-48 | claim, resolve, run, record: new store and answer on every path, spelled out: `skipped` without a change, `no_config` exactly without a configuration row of the job's type, `completed` exactly when a handler of the message's type returns on the overlay, `failed` otherwise |
| `Components.ProcessStream` | worker/__main__.py:26-31 | after any stream of genuine messages exactly the claimable jobs among them have run, once each |
| `Components.ReapEntry` | reaper/service.py:25-28 | requeue first; dead-letter only after a refusal; exactly the count of what took effect rises |
| `Components.ReapOnce` | reaper/service.py:16-29 | requeues exactly the stuck jobs under their cap, fails exactly those at it, counts both, and leaves nothing stuck at that clock value |
| `Sequential.ProcessExact` | worker/service.py:25-48 | skipped exactly when the job is not claimable, and then nothing changes; otherwise `no_config` exactly for an unconfigured type, `completed` exactly when the handler accepts the stored payload, the answer matches the row's new status, and no other row changes |
| `Sequential.ProcessMeans` | worker/service.py:13-48 | for every store and every message, genuine or not: answer, status, payload key by key and end time of the run, branch by branch, and nothing else changes |
| `Sequential.ProcessAllExact` | worker/service.py:13-48 | any sequence of genuine envelopes equals running the set of claimable jobs it names |
| `Sequential.DeliveryConfluence` | worker/service.py:13-48 | two deliveries of the same envelopes, in any order, with any duplication, at any times, end in the same store up to `updated_at` |
| `Sequential.MarkAllExact` | dispatcher/service.py:17-19 | a batch's marks, one after the other, equal marking the set of its rows at once |
| `Sequential.UnpublishedAfter` | common/store.py:164-173 | publishing the first `a` unpublished rows leaves exactly the later ones, in order |
| `Sequential.DispatchExact` | dispatcher/service.py:16-20 | a batch followed by what is still unpublished is what was unpublished before |
| `Sequential.BatchedDrain` | dispatcher/service.py:16-20 | `dispatch_once(a)` then `dispatch_once(b)` publishes the same log and leaves the same store, up to `updated_at`, as `dispatch_once(a + b)` |
| `Sequential.ReapAllExact` | reaper/service.py:24-28 | handling any prefix of distinct running entries equals reaping that set at once |
| `Sequential.StatsExact` | reaper/service.py:23-29 | the counts are the number of those entries under their cap and the number at it |
| `Sequential.StuckListed` | common/store.py:214-222 | the listing's ids are the set of stuck jobs, without repetition |
| `Sequential.SweepExact` | reaper/service.py:16-29 | a sweep alone reaps exactly the stuck jobs, keeps the invariant and returns the sizes of the two groups |
| `Sequential.SweepClears` | reaper/service.py:16-29 | after a sweep alone, `find_stuck` at the same clock value is empty |
| `Protocol.StoreStep` | common/store.py:29-85 | every action changes the store by exactly one store operation, or not at all |
| `Protocol.StoreEvolves` | docs/design.md:130-139 | every action of every component keeps the store invariant and the durable history |
| `Protocol.TopicStep` | common/messaging.py:44-68 | messages are never removed or altered, and the clock never runs backwards |
| `Protocol.BaseAlways` | common/store.py:141-245 | in every reachable state the store is consistent, every message is genuine, every row a dispatcher holds is an outbox row, every worker's run belongs to its message's job |
| `Embedding.CrashesLoseHands` | dispatcher/service.py:12-14 | a crash loses what a process has in hand, wherever it stands, and changes nothing else |
| `Embedding.FetchTakes` | common/db.py:86-98 | a fetch takes the rows that are neither published nor locked, in ascending id, up to the limit |
| `Embedding.ReapIsARun` | reaper/service.py:16-29 | an uninterrupted sweep of the interleaved system is the sequential `reap_once` |
| `Embedding.DispatchIsARun` | dispatcher/service.py:9-20 | an uninterrupted batch is the sequential `dispatch_once`, and puts exactly its rows on the topic |
| `Embedding.DrainOutbox` | dispatcher/service.py:9-20 | one batch as large as the outbox puts every unpublished row on the topic and leaves none |
| `Embedding.ResumeIsARun` | worker/service.py:25-48 | claim, resolve, handler, outcome and commit of a message already polled, uninterrupted, are the sequential `process` |
| `Embedding.ProcessIsARun` | worker/__main__.py:27-31 | the same from the poll on, and the message ends offered and committed |
| `Spare.IdleBound` | worker/__main__.py:20-31 | in every reachable state all but finitely many dispatchers and workers have nothing in hand |
| `Claims.DurableHistory` | docs/design.md:130-139 | between any two points of any run the store only moves along its durable history |
| `Claims.ReachableStores` | common/store.py:134-161 | in every reachable state: one active job per type, `attempts` within the type's configured cap (3 by default), jobs and outbox rows in bijection, configuration unchanged |
| `Claims.Dedup` | common/store.py:141-161 | in every reachable state `enqueue` is refused exactly when a queued, dispatched or running job of the type exists; otherwise one larger id, one row in each table, nothing else altered, the new job is the only active one of its type, and its row carries the caller's type, input, creator and time |
| `Claims.GenuineMessages` | common/models.py:85-93 | every message ever on the topic points at an existing job and names its true type |
| `Claims.BoundedStatusChanges` | docs/design.md:216-218 | a job makes at most `3 * (max(0, max_attempts) + 1)` status changes in any run, with the cap configured for its type, 3 by default |
| `Claims.TicketsAlways` | common/store.py:176-185 | in every reachable state each held run was won by a claim, no two workers hold the same run, and a run not yet entered has no handler entry |
| `Claims.ExactClaimAccounting` | common/store.py:176-185 | successful claims of a job are `attempts`, plus one if it is running or terminal; no run is won twice |
| `Claims.CountBound` | worker/service.py:28-29 | distinct runs of a job with `attempts` below n number at most n |
| `Claims.BoundedInvocations` | worker/service.py:28-48 | a handler is entered at most once per claim, and a job is claimed at most `max(0, max_attempts) + 1` times, with the cap configured for its type, 3 by default |
| `Exclusive.EndsAlways` | common/store.py:199-245 | the ended runs of a job are those before its `attempts`, all requeued, and its last one exactly when it is terminal |
| `Exclusive.CurrentIffNotEnded` | worker/service.py:28-48 | a busy worker's run is the job's current run exactly as long as nothing has ended it |
| `Exclusive.ExclusiveExecution` | common/store.py:134-149 | two workers busy with one type hold different runs, and the earlier one was ended by the reaper, or by a stale worker of a run the reaper had requeued |
| `Exclusive.OwnFinishesIff` | common/store.py:199-211 | every finished run was finished by its own worker exactly when no outcome was recorded on a running row whose `attempts` had moved since the worker's claim |
| `Exclusive.StealStep` | common/store.py:205-211 | if no busy worker's run has been finished by another worker, then none has after the step exactly when the step is not a steal |
| `Exclusive.NeverStolenIff` | common/store.py:205-211 | along every run, no busy worker's run is ever finished by another worker exactly when the run has no steal |
| `Exclusive.SharpExclusion` | common/store.py:199-245 | in every run without a steal, the reaper requeued or dead-lettered the earlier worker's own run wherever two workers are busy with one type |
| `Stealing.SharpIff` | common/store.py:199-245 | the sharp statement holds at every point of a run and in every continuation without a further steal, if and only if the run has no steal |
| `Exclusive.ExclusiveUnlessReaped` | worker/service.py:28-47 | with no run of a type ended by the reaper, at most one worker is busy with that type |
| `Payloads.SnapshotStep` | common/store.py:187-197 | a snapshot once taken is never altered by any operation |
| `Payloads.PayloadsAlways` | worker/service.py:31-48 | in every reachable state a worker past `resolve_payload` carries the job's effective payload, and completed jobs have it stored |
| `Payloads.EffectivePayloads` | common/store.py:187-211 | every completed job's type is configured and its `payload` is the base overlaid key by key with its input; a handler in progress was given exactly that map |
| `Payloads.ConfigFixed` | common/store.py:126-132 | no action alters the configuration |
| `Provenance.CallsAreKept` | common/store.py:141-161 | whenever a producer's call is accepted, the n-th accepted call of the run, row n carries its type, input, creator and time from then on, however the run goes on |
| `Provenance.Provenance` | common/store.py:141-161 | the ids in the table are 1 up to the number of accepted calls, and every row was made by the call of its number |
| `Provenance.CompletedFromCall` | common/store.py:187-211 | the payload of a completed job is the base configuration of the call's type overlaid key by key with the input of the call that made the job |
| `Provenance.HandlerFromCall` | worker/service.py:31-48 | and so is the payload that a handler of the job is given |
| `Provenance.UpdatedAtExact` | common/store.py:168-245 | in every run `updated_at` is the time of the latest write of the row: acceptance, mark, claim, payload snapshot, outcome or requeue |
| `Provenance.UnconfiguredNeverRuns` | worker/service.py:31-34 | a job whose type has no configuration row never enters a handler and never completes |
| `ReaperSafety.ReapersAlways` | reaper/service.py:24-28 | in every reachable state, whatever the number of reapers and however long their sweeps last, a listed entry whose `attempts` is still the row's names a run claimed longer ago than the configured timeout of its type, 900 seconds by default |
| `ReaperSafety.TimelyReaping` | reaper/service.py:24-28 | any number of reapers: acting on such an entry, a run is reaped only later than the configured timeout (900 by default) after the latest claim; it is requeued exactly when `attempts` is below the configured cap (3 by default) and dead-lettered exactly when it is not |
| `ReaperSafety.SingleAlways` | reaper/__init__.py:1-8 | all entries of a single reaper are of that kind, and of distinct jobs |
| `ReaperSafety.ReaperSafety` | reaper/__init__.py:1-8 | so a single reaper always reaps in time, requeues below the cap and dead-letters only at it |
| `NoLostJob.NotLostStep` | dispatcher/service.py:16-19 | every action that is not a hazardous requeue of the job keeps the no-lost-job promise |
| `NoLostJob.NoLostJob` | dispatcher/service.py:16-19 | in every run without a hazardous requeue of it, a queued job's row is unpublished and a dispatched job has a message not yet offered |
| `NoLostJob.QuiescentMeansDone` | reaper/__init__.py:1-8 | in every run without hazardous requeues, a drained outbox, no unoffered message and no running job imply that every job is terminal |
| `NoLostJob.RequeueSafeIff` | common/store.py:224-237 | a requeue keeps the promise exactly when the job has no open window or still has an unoffered message |
| `NoLostJob.HazardLosesJob` | dispatcher/service.py:18-19 | after a hazardous requeue the pending mark leaves the job dispatched and published with no unoffered message |
| `Stranding.OfferedAlways` | worker/__main__.py:30-31 | in every reachable state a committed message has been offered to `claim` |
| `Stranding.SoundAlways` | common/store.py:168-173 | in every reachable state a queued job's row is unpublished and a dispatched job's row is published |
| `Stranding.DeliverableBefore` | common/store.py:164-185 | no step that stays behind the committed offsets makes a published job deliverable again |
| `Stranding.StrandedForever` | common/store.py:147-148 | a stranded job stays dispatched in every continuation that does not go behind committed offsets, and every later enqueue of its type is refused |
| `Recoverability.DrainAll` | dispatcher/service.py:9-20 | a spare dispatcher can leave no job queued while every dispatched job stays deliverable |
| `Recoverability.FlushAll` | dispatcher/service.py:17-19 | with nothing queued, all dispatchers can work off what they hold without losing a delivery |
| `Recoverability.ReapAll` | reaper/service.py:16-29 | with no batch in hand, the reaper can finish its list and, after the longest timeout, leave no job running |
| `Recoverability.DeliverAll` | worker/__main__.py:26-31 | workers that have polled go on, and a spare worker receives each uncommitted message once; then every job is terminal, whatever the handlers do |
| `Recoverability.RecoverableIff` | docs/design.md:187-221 | a reachable state has a continuation that obeys the handlers, polls no committed message and makes no hazardous requeue, to a state where all jobs are terminal and every type can be enqueued, if and only if no job is stranded |
| `Recoverability.Recoverability` | reaper/__init__.py:1-8 | runs without hazardous requeues strand no job, so they have such a continuation |
| `Publications.DisjointStep` | common/db.py:86-98 | as long as fetches do not overlap, no row is in the hands of two dispatchers |
| `Publications.BatchStep` | dispatcher/service.py:16-19 | and the rows in hand stay distinct and unmarked, whatever other components do |
| `Publications.BecomesDue` | common/store.py:168-237 | a publication of an existing job becomes due only by its requeue or by a crash inside its publish/mark window |
| `Publications.PublicationBound` | dispatcher/service.py:12-19 | with any number of dispatchers and no overlapping fetch, messages of a job, plus one while its row is due, are at most `attempts + 1` plus the crashes inside its window |
| `Publications.SingleDispatcherBound` | dispatcher/service.py:12-19 | the same for a single dispatcher, whose fetches never overlap |
| `Publications.OverlapRepeats` | common/db.py:86-98 | an overlapping fetch has a continuation without crash, requeue or further fetch that publishes a row which is not due |
| `Scenarios.TwoDispatchersPublishTwice` | docs/design.md:232 | a concrete run with two dispatchers, no crash and no requeue that puts two messages of one job on the topic |
| `Scenarios.RequeueInWindowLosesJob` | dispatcher/service.py:18-19 | a concrete run with a hazardous requeue that ends with a stranded job |
| `Scenarios.SecondReaperReapsFreshRun` | reaper/__init__.py:1-8 | a concrete run with two reapers in which a run is requeued at the moment of its claim, by an entry whose `attempts` is no longer the row's |
| `Scenarios.StaleWorkerFinishesLaterRun` | common/store.py:205-211 | a concrete run with two workers in handlers of one type in which the earlier run was ended by neither requeue nor dead letter |
| `PostgresStore.IndexIsActive` | migrations/001_init.sql:15-17 | the index has an entry for a type exactly when the scan `_active` finds one |
| `PostgresStore.UpdateRel` | common/db.py:157-160 | a guarded update of one active row, with the index maintained, is the in-memory update of the corresponding row |
| `PostgresStore.InsertRel` | common/db.py:59-82 | both inserts of `enqueue`, with any skipped ids, are the in-memory insertion |
| `PostgresStore.MarkRowRel` | common/db.py:103-105 | setting `published_at` is adding the row to the published set, also for an id that names no row |
| `PostgresStore.RearmRel` | common/db.py:194-197 | clearing `published_at` is removing the job's rows from the published set |
| `PostgresStore.RequeueRel` | common/db.py:177-198 | both statements of a requeue together are the in-memory requeue |
| `PostgresStore.SkipLockedRel` | common/db.py:89-95 | skipping locked rows is reading the in-memory store with those rows published |
| `PostgresStore.PostgresStore.EnqueueJob` | common/db.py:50-83 | changes the represented store as the in-memory operation does, refuses in the same cases, hands out a new larger id that may skip, and stores the caller's type, input and creator field by field, an absent creator as three NULLs |
| `PostgresStore.PostgresStore.FetchRows` | common/db.py:86-98 | whatever rows are locked elsewhere, the in-memory batch of the others, in the same order, under the id correspondence |
| `PostgresStore.PostgresStore.MarkRowDispatched` | common/db.py:100-112 | the in-memory `mark_dispatched` |
| `PostgresStore.PostgresStore.ClaimJob` | common/db.py:115-123 | the in-memory `claim`, with the same answer |
| `PostgresStore.PostgresStore.Resolve` | common/db.py:125-141 | the overlay on the configuration of the message's type, stored with a new `updated_at`; the in-memory operation whenever that is the row's type |
| `PostgresStore.PostgresStore.Finish` | common/db.py:143-160 | the in-memory `complete`, `fail` and `dead_letter`, with the same answer |
| `PostgresStore.PostgresStore.RequeueStuck` | common/db.py:177-198 | the in-memory `requeue_stuck`, with the same answer: yes exactly when running with `attempts` below the configured cap, 3 by default |
| `PostgresStore.PostgresStore.FindStuckRuns` | common/db.py:163-175 | exactly the in-memory stuck runs, in no particular order: those running for more than the configured timeout, 900 seconds by default |
| `PostgresStore.PostgresStore.GetJob` | common/db.py:207-232 | the in-memory row in every field, under its own id, with three absent fields for an absent creator |
| `SideBySide.FetchBoth` | common/db.py:86-98 | a fetch from both stores names the same jobs and types, and later marks may name its rows |
| `SideBySide.BothRespond` | common/store.py:29-85 | one store operation on both stores: the same reply, that of the reference client, and the correspondence is kept |
| `SideBySide.Replay` | common/store.py:3-7 | for every sequence of store operations, with fetches and marks apart and whole rows read at any time, every clock and all id gaps, both stores give the same replies, those of the reference client on the in-memory state |
| `SideBySide.OverlayEqualIff` | common/db.py:133-137 | two bases give the same overlay exactly when they agree outside the input's keys |
| `SideBySide.ResolveByTypeIff` | common/db.py:133-137 | resolving by message type and by row type agree exactly when both types are unconfigured, or both are configured with bases that agree outside the input |
| `ConsumerGroup.OkAlways` | worker/__main__.py:26-31 | in every run of a consumer group, all before the owner's position has been offered except what it holds |
| `ConsumerGroup.CommittedWereOffered` | worker/__main__.py:30-31 | every message below the committed offset has been offered to `claim`, whoever crashes or loses the partition |
| `ConsumerGroup.RestartDeliversAll` | common/messaging.py:48-66 | from every reachable state a restarted owner offers every message |
| `JwksCache.ByIdExact` | handlerAPI/auth.py:65 | the map holds exactly the key ids of the set, each with its last key |
| `JwksCache.JwksCache.RefreshKeys` | handlerAPI/auth.py:61-66 | replaces keys and time on success, each id with its last key; on an error keeps both |
| `JwksCache.LookupExact` | handlerAPI/auth.py:68-80 | for every cache, time-to-live, clock and origin: answered from the cache exactly when the id is cached and the last fetch no more than `ttl` old; else one request, and a second exactly after a set without the id; failed exactly when a request it had to make was answered by an error, found exactly when the last set it had to fetch has the id; new cache content and log |
| `JwksCache.JwksCache.GetKey` | handlerAPI/auth.py:68-80 | new cache and answer are those of the specified lookup, spelled out as in `LookupExact` |
| `JwksCache.LookupKeeps` | handlerAPI/auth.py:68-80 | the cached keys stay those of the latest fetch; at most two requests, and none exactly when the id is cached and the last fetch no more than `ttl` old |
| `JwksCache.LookupAnswers` | handlerAPI/auth.py:68-80 | a key found is the latest fetch's key for that id and fresh; a rejection follows two fetches that both lacked the id; and exactly when a lookup finds the key, and exactly when it fails on the origin |
| `JwksCache.CacheFreshness` | handlerAPI/auth.py:50-80 | all of this for every lookup of every sequence of lookups against an arbitrarily rotating origin |

## Left out

- Kafka and Postgres clients, the connection pool and connection retries: the topic is a log, each
  database method is one atomic step, and row locks appear as rows that a fetch skips.
- Isolation inside a transaction: two-statement transactions are single steps, as a serializable
  database makes them.
- `set_type_config` during a run: the configuration is fixed, as the payload theorems need.
- Aliasing: rows and payloads are values, so a handler that writes into the dictionary that
  `resolve_payload` returns, or a caller that changes the `Job` that `get_job` returns, is not captured.
- A publication that returns is taken to be on the topic. The client flushes without a delivery
  callback (`common/messaging.py:32-38`), so a failed delivery is still followed by `mark_dispatched`,
  and the job is then lost without any requeue.
- Null payloads from JSON columns and 32-bit overflow of `attempts`: numbers are unbounded.
- `KeyboardInterrupt` in a handler: a worker that dies in a handler is the crash action; any ordinary
  exception is a failed run.
- Malformed envelopes: every message on the topic is genuine (`GenuineMessages`), so a missing
  `job_id` is not modelled.
- PostgresStore.PostgresStore.FetchRows: takes no negative limit, which the database rejects.
- ConsumerGroup.RestartDeliversAll: one partition; partitions are independent and the protocol lets
  messages be delivered in any order anyway.
- How long recovery takes: a continuation exists; nothing is said about a scheduler that follows it.
- FastAPI applications, routes, error mapping and settings of both HTTP APIs, token verification,
  scopes, circuit breaker and rate limiter: plumbing around libraries that are not part of this model.
- HTTP transport of the key set: a request answers with a key set or an error, and an unusable key
  set counts as an error.
- Handler registry, demo handlers, migrations runner, command lines and deployment files.
