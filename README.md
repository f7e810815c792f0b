# delayed_job in Dafny

A model of the core of PNixx/delayed_job, a PHP job queue backed by Redis.

Producers enqueue job records with `Job::later`. Each record goes into a
Redis sorted set `job:<queue>:queue`, scored by the time it is due. A worker
process (`Worker::run`) repeatedly claims the earliest due record with
`DelayedJob::getJob` and forks a child for it. It keeps no more than
`max_processes` children alive at once. The child does four things:
- it files the record in the `processing` hash;
- it runs the job's `setup`, `perform` and `completed` hooks;
- it records the outcome: a success goes to `success` when saving is on; a
  failure is requeued with `attempt + 1`, or goes to `failed` once the class's
  `$attempt` limit is reached;
- it always removes the record from `processing`.

The parent keeps track of its children in two places: `jobs_pid` holds the
pids it has registered, and `signal_queue` holds the exits it reaped before
it registered the pid.

The model has these modules:

- `JobRecords` (records.dfy): the job record. A record is a value with the
  fields `id`, `class`, `attempt`, `created_at`, `planning_at`, `running_at`,
  `moved_at` and `data`.
- `SortedSets` (sorted_sets.dfy): a Redis sorted set as a map from member to
  score. It holds the "earliest due" and rank-window semantics, and the
  invariant of the claim loop (`ClaimedEarliestFirst`).
- `DelayedJob` (delayed_job.dfy): the store.
  - `StoreState` and `Apply` are the pure specification of every write.
  - The class `Store` keeps its collections in fields that its methods
    update in place. Each method is proved against `Apply`.
- `Jobs` (job.dfy): `later` and `now`. A job's hooks are given as outcomes
  (returns or throws).
- `ChildBook` (children.dfy): the worker's bookkeeping of its children, as
  pure functions: reaping, registering, and reconciling an early exit.
- `Routing` (routing.dfy): the sequence of store writes a forked child
  issues, and where the record ends up.
- `Workers` (worker.dfy): the class `Worker` with these members:
  - `ChildHandler`, the SIGCHLD handler;
  - `RunJob`, the parent side of `runJob`, and `RunChild`, its child side;
  - `ChildSignal` and `Quit`, the signal handler's cases;
  - `Claim` and `ClaimLoop`, one step and the whole of `run`'s inner claim
    loop, and `Pass`, one turn of its outer loop;
  - `Drain`, the shutdown drain;
  - `Handle`, one event of a schedule, and `Run`, a finite schedule of
    ticks, child exits and shutdown signals.
- `Scenarios` (scenarios.dfy): end-to-end walks, after test/DelayedJobTest.php
  and test/WorkerTest.php:
  - a delayed job is not claimable before it is due;
  - a class with a limit of 1 dead-letters on its first failure;
  - three pushes of records with distinct ids queue three records;
  - with a ceiling of `n` and `n + 1` due records, one pass leaves exactly
    one record queued.

The model takes these things as parameters, because the source gets them
from the outside world:
- the clock (`now`);
- the generated id (`freshId`, the result of `md5(uniqid())`);
- the result of each fork;
- the children each wait reaps;
- the outcome of each hook;
- the retry time.

Some details of the code that the model keeps:
- A failed job's record gets no error message. The code only logs it.
- The retry time is `sqrt(attempt + 1) * 60` seconds after the failure,
  `attempt` being the count before it (src/Worker.php:352). The model
  leaves the time as a parameter.
- An id of `"0"` counts as no id, because PHP's `empty()` treats it that way.
- An unknown class is dead-lettered with its record unchanged apart from
  `moved_at`.
- `getQueued` returns ranks `offset` through `limit - 1`, as the code asks
  Redis for (`DelayedJob.Store.GetQueued`). The page that `getQueued`'s
  `$offset` and `$limit` parameters (default 20) suggest is the separate
  `DelayedJob.Store.GetQueuedPage` (see Findings).

## Model

| member | source | states |
|---|---|---|
| DelayedJob.KeyInjective | src/DelayedJob.php:33-35 | two queues whose keys of the same type are equal are the same queue |
| DelayedJob.KeyTypesDisjoint | src/DelayedJob.php:12-15 | keys of the four collection types never collide, whatever the queue names |
| DelayedJob.KeyAmbiguousForOtherTypes | src/DelayedJob.php:33-35 | with a type name outside the four, two different (queue, type) pairs share a key |
| DelayedJob.PushTime | src/DelayedJob.php:45-47 | the score is the current time exactly when no timestamp (null or 0) is given or the given one equals it, and the given timestamp otherwise |
| DelayedJob.Stamp | src/DelayedJob.php:49-62 | an id is generated only when the record has none; `planning_at` is set for the queue and `moved_at` for success/failed, to the push time; every other field is kept |
| DelayedJob.ApplyKeepsWellFormed | src/DelayedJob.php:43-81 | every write keeps every stored record's id non-empty and every processing entry keyed by its record's id |
| DelayedJob.PushInserts | src/DelayedJob.php:43-66 | push adds the stamped record scored by the push time, keeps every other member and its score, and touches no other collection |
| DelayedJob.PushCount | src/DelayedJob.php:65 | a push grows the collection's count by one for a new member and by zero for one already present |
| DelayedJob.PushIdempotent | src/DelayedJob.php:43-66 | pushing the same record that has an id twice at the same time leaves the store as one push does, whatever ids the generator yields |
| DelayedJob.PushTwiceWithoutId | src/DelayedJob.php:49-51 | a record without an id pushed twice gets two different ids and is stored as two members, growing the collection by two when neither was there |
| DelayedJob.PushProcessFiles | src/DelayedJob.php:74-81 | without an id nothing changes; otherwise the record, with `running_at` set, is filed under its id and every other entry is kept |
| DelayedJob.RemoveProcessDeletesOnlyId | src/DelayedJob.php:144-146 | removeProcess deletes exactly that id from processing and nothing else |
| DelayedJob.ClearEmpties | src/DelayedJob.php:108-110 | after clear the collection's count is 0 and every other collection is unchanged |
| DelayedJob.Store.constructor | src/DelayedJob.php:23-26 | a new client sees whatever well-formed contents the server already holds |
| DelayedJob.Store.Push | src/DelayedJob.php:43-66 | the new state is the push applied to the old one |
| DelayedJob.Store.PushProcess | src/DelayedJob.php:74-81 | throws exactly when the id is empty; otherwise files the record and returns 1 for a new entry and 0 for a replaced one |
| DelayedJob.Store.ListDescending | src/DelayedJob.php:91 | lists every member of the collection exactly once, highest score first |
| DelayedJob.Store.GetQueued | src/DelayedJob.php:90-93 | as written: ranks `offset` to `limit - 1` of the collection listed highest score first, so at most `limit` records, and none once `0 < limit <= offset` |
| DelayedJob.Store.GetQueuedPage | src/DelayedJob.php:90-93 | corrected: at most `limit` records from rank `offset` of the collection listed highest score first, and a non-empty page whenever `offset` is a rank of the collection |
| DelayedJob.Store.GetProcessing | src/DelayedJob.php:99-101 | returns the processing hash, every entry keyed by its record's non-empty id |
| DelayedJob.Store.Clear | src/DelayedJob.php:108-110 | the new state is the old one with that collection emptied |
| DelayedJob.Store.GetJob | src/DelayedJob.php:116-127 | null exactly when nothing is due (and nothing changes); otherwise the earliest due record, removed from the queue |
| DelayedJob.Store.Remove | src/DelayedJob.php:135-137 | removes the member and returns 1 if it was present, else 0 |
| DelayedJob.Store.RemoveProcess | src/DelayedJob.php:144-146 | removes the id from processing and returns 1 if it was present, else 0 |
| DelayedJob.Store.Count | src/DelayedJob.php:153-160 | the hash size for processing, the sorted-set size for the other types |
| SortedSets.EarliestDueExists | src/DelayedJob.php:119-121 | when some member is due, a due member with the lowest score exists |
| SortedSets.DescendingViewLength | src/DelayedJob.php:91-92 | a listing highest score first has exactly as many entries as the collection has members |
| SortedSets.RankWindow | src/DelayedJob.php:92 | Redis rank ranges (negative ranks count from the end) give a window inside the collection no wider than the requested ranks |
| SortedSets.PageWindow | src/DelayedJob.php:90-93 | the corrected page: at most `limit` ranks, and exactly ranks `offset` to `offset + limit - 1` (clipped) when `offset` is in range |
| SortedSets.QueuedWindowAsWritten | src/DelayedJob.php:92 | the window as written never reaches past rank `limit - 1` |
| SortedSets.LaterPagesEmptyAsWritten | src/DelayedJob.php:92 | when `0 < limit <= offset < len` the window as written is empty while the corrected page is not |
| SortedSets.SecondPageOfForty | src/DelayedJob.php:92 | the second page of 20 over 40 records: empty as written, ranks 20..39 corrected |
| SortedSets.ClaimNext | src/Worker.php:281-286 | claiming the earliest due member of what is left keeps the claims distinct, due, earliest first and exactly what left the queue |
| SortedSets.DrainedClaimsAllDue | src/Worker.php:269-286 | once getJob finds nothing, every record that was due has been claimed |
| SortedSets.DrainedClaimsAll | src/Worker.php:269-286 | when every queued record was due, a claim loop that drains the queue claimed as many records as were queued |
| Jobs.Later | src/Job.php:37-44 | pushes a fresh record of the class (attempt 0, created now, with the args) to the queue at `run_at` |
| Jobs.LaterEnqueues | src/Job.php:37-44 | the queued record has the fresh id, attempt 0 and the args, scored by `run_at` or by now when none is given |
| Jobs.Now | src/Job.php:49-54 | setup, perform and completed run in order, each only if the previous returned; the exception that escapes is the first one thrown |
| ChildBook.RemoveFirst | src/Worker.php:248 | removing a registered pid takes out exactly one occurrence of it and keeps every other pid with its multiplicity |
| ChildBook.RemoveFirstAppended | src/Worker.php:315 | removing a pid just appended and not otherwise present restores the list |
| ChildBook.ReapAllShrinks | src/Worker.php:234-259 | reaping never grows the registered pids |
| ChildBook.ReapAllOthers | src/Worker.php:242-256 | reaping other children neither registers nor stashes a given pid |
| ChildBook.RegisterGrowsByAtMostOne | src/Worker.php:315-321 | registering a fork adds at most one pid |
| ChildBook.ExitBeforeRegister | src/Worker.php:317-321 | a child reaped before registration is stashed and then reconciled: its pid ends in neither container, and with no other exits the bookkeeping is as before the fork |
| ChildBook.ExitAfterRegister | src/Worker.php:243-248 | a child reaped after registration is forgotten and the bookkeeping is as before the fork |
| Routing.ApplyAllAppend | src/Worker.php:329-368 | applying writes then one more is applying that write to the result |
| Routing.ProcessingBracketsTheRun | src/Worker.php:334-368 | for a known class with an id, the first write files it in processing, the last removes its id, and only pushes lie between |
| Routing.UnknownClassOps | src/Worker.php:329-333 | an unknown class causes exactly one write, a push to failed |
| Routing.FailureOps | src/Worker.php:351-364 | a failure pushes the attempt+1 record, to the queue exactly when the limit is 0 or not reached, else to failed |
| Routing.KeysDistinct | src/DelayedJob.php:12-15 | a queue's queue, failed and success keys are pairwise different |
| Routing.UnknownClassDeadLetters | src/Worker.php:329-333 | an unknown class lands in failed with its attempt unchanged; queue, success and processing are untouched |
| Routing.KnownClassRun | src/Worker.php:334-368 | after the run processing is as before minus the id, and the sorted sets are those after the single outcome write |
| Routing.SuccessRouting | src/Worker.php:341-350 | a success is recorded in success only when saving is on; queue and failed are untouched and the id leaves processing |
| Routing.FailureRouting | src/Worker.php:351-368 | a failure requeues attempt+1 with the same id at the retry time when the limit allows, else dead-letters it; success is untouched and the id leaves processing |
| Routing.UnlimitedNeverDeadLetters | src/Job.php:6-11 | with the default limit 0 a failure is always requeued and failed is untouched |
| Workers.Worker.constructor | src/Worker.php:30-51 | a new worker has no children, nothing stashed and stop unset, as the field declarations give; queue, ceiling and save are the constructor's arguments |
| Workers.Worker.Quit | src/Worker.php:200-212 | a shutdown signal sets stop, changes no bookkeeping and is recorded as handled |
| Workers.Worker.ChildSignal | src/Worker.php:223-224 | a SIGCHLD reaps the given exits as `childHandler` does and is recorded as handled |
| Workers.Worker.ChildHandler | src/Worker.php:234-259 | the bookkeeping becomes the reaping of the exits in order until a non-positive pid, and no pid is added |
| Workers.Worker.RunJob | src/Worker.php:303-321 | a failed fork records nothing; otherwise the pid is registered and, if already reaped, reconciled |
| Workers.CleanDispatchAll | src/Worker.php:315-321 | forks whose children were not reaped early each register one pid and leave the stash as it was |
| Workers.Worker.RunChild | src/Worker.php:322-373 | the store after the child is the child's writes applied in order; an exception escapes exactly for a known class without an id |
| Workers.Worker.Claim | src/Worker.php:281-285 | one getJob below the ceiling: nothing due and nothing changes, or the earliest due record leaves the queue and the bookkeeping is that of `runJob` with its fork, whatever the fork's outcome |
| Workers.Worker.ClaimLoop | src/Worker.php:269-286 | claims distinct due records earliest first, exactly those leave the queue, no getJob is made at the ceiling, it ends drained only with nothing due, and the bookkeeping is each claim's fork applied in order |
| Workers.Worker.Pass | src/Worker.php:265-290 | with stop set nothing happens; otherwise the claim loop runs, and each clean fork registers one child; the pass is recorded as handled |
| Workers.Handled | src/Worker.php:265-279 | the events a running worker handles run up to and including the first shutdown signal |
| Workers.Worker.Drain | src/Worker.php:293-295 | the shutdown waits on every registered pid in order |
| Workers.Worker.Handle | src/Worker.php:200-290 | with stop unset: a tick is one pass (claims earliest first, ends for one of its reasons), a SIGCHLD reaps, a shutdown signal sets stop; the bookkeeping moves by `Step`, records only leave the queue, and nothing else in the store changes |
| Workers.ReplaysNext | src/Worker.php:265-290 | a replay of the handled events extends by the next event handled as its own step |
| Workers.ReplaysAt | src/Worker.php:265-290 | in a replay, the j-th handled event moved the bookkeeping by `Step` and the queue as one handling of it does |
| Workers.Worker.HandleNext | src/Worker.php:265-290 | one turn of `run`'s loop keeps stop, the trace, the replay of the handled events and the store frame in step with the events handled so far |
| Workers.Worker.Run | src/Worker.php:264-297 | every event up to the first shutdown signal is handled, in order, and replayed: the j-th moved the bookkeeping and the queue as handling it alone does, so a pass whose getJob threw does not end the run; the final bookkeeping and queue are those of the last event; records only leave the queue and nothing else in the store changes; stop ends set exactly when it was set or a shutdown signal came, and only then are the children waited on |
| Scenarios.FutureJobNotClaimable | src/DelayedJob.php:116-127 | a job due one second from now is not returned now and is returned, as enqueued, a second later |
| Scenarios.RetryLimitOne | src/Worker.php:351-368 | a class with limit 1 that fails leaves nothing queued, one failed and nothing in processing |
| Scenarios.ThreeDue | src/DelayedJob.php:43-66 | three pushes of records with distinct ids give a queue of three due records |
| Scenarios.CeilingScenario | src/Worker.php:269-286 | for any ceiling `n` of at least 1, a queue of `n + 1` due records and forks without early exits, one pass claims `n`, ends at the ceiling and leaves 1 queued |

## Left out

- Redis, the network client and JSON. Sorted-set members are the records themselves, so two records are the same member exactly when all their fields are equal. PHP array key order and `json_encode` details are not modelled.
- Id generation (`md5(uniqid())`) is a `freshId` parameter that is assumed non-empty. Each call takes a single clock reading, `now`, for all its timestamps.
- The retry-time formula (`strtotime` of `sqrt(attempt + 1) * 60` seconds, floating point) is not modelled. The retry time is a parameter.
- Processes and signals. Forking, `waitpid`, `posix_setsid`, `exit` and sleeping are not modelled. Fork results and reaped exits are inputs. A shutdown signal is only its effect on the scheduler, `stop := true`.
- Workers.Worker.Quit: does not model SIGTERM/SIGINT killing the children and exiting immediately. Only the stop flag they also set is modelled.
- Workers.Worker.Run: a pass at the ceiling ends rather than busy-waiting. The wait in the source ends when a child exit arrives, so the model continues with the next event.
- Workers.Worker.RunChild: when `pushProcess` throws in the child, the exception reaches `run`'s catch in the child process. The child then goes on as a second worker. The model only reports that the exception escaped.
- Several workers racing on one queue are not modelled. Each model call is atomic.
- The Worker constructor's command-line parsing, pid file, restart, quiet mode, include file and error/exception handler closures are not modelled. `Logger` and `Cli` are not part of this model.
- `DelayedJob::resetConnection` and the constructor's connection setup are not modelled. The scenarios start from an empty store, as a freshly cleared server.
- Workers.Worker.Pass: stop is checked once, before the claim loop, rather than before each getJob. In the model stop only changes when a signal is handled, between passes, so the two checks agree.
- `getQueued` and `clear` on the processing hash (a Redis type error) are not modelled. The model treats every type other than processing as a sorted set.
- Jobs.Now: PHP `\Error` throwables, which the child's `catch (\Exception)` does not catch, are not modelled. A hook either returns or throws an exception.

## Findings

| source | as written | input that shows it | evidently intended | confidence | as-written member | corrected member |
|---|---|---|---|---|---|---|
| src/DelayedJob.php:92 | `getQueued` asks for ranks `offset` to `limit - 1`, so `limit` acts as an end rank | 40 queued records, offset 20, limit 20: the range 20..19 is empty | a page of `limit` records from `offset`: ranks `offset` to `offset + limit - 1` | medium, not executed | DelayedJob.Store.GetQueued | DelayedJob.Store.GetQueuedPage |
