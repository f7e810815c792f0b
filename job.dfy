/**
 * The job unit (abstract class Job): how a job record is first built and
 * enqueued (`later`), and the order in which a job's hooks run (`now`).
 */
module Jobs {
  import opened Wrappers
  import opened JobRecords
  import opened DelayedJob

  /** The attempt limit of a job class that does not set one: 0, retry until success. */
  const DefaultAttempt: int := 0

  /** The record `later` enqueues, before `push` stamps it. */
  function InitialRecord(className: string, args: Json, now: int): Record {
    Record(NoId, className, 0, now, None, None, None, args)
  }

  /**
   * `later`: enqueue a new record of the job class into the queue
   * collection, due at `runAt` (or now, through `push`'s defaulting).
   */
  method Later(store: Store, queue: string, className: string, args: Json, runAt: Option<int>, now: int, freshId: string)
    requires store.Valid() && !IsEmptyId(freshId)
    modifies store
    ensures store.Valid()
    ensures store.State() == Apply(old(store.State()), queue, Push(InitialRecord(className, args, now), TypeQueue, runAt), now, freshId)
  {
    store.Push(queue, InitialRecord(className, args, now), TypeQueue, runAt, now, freshId);
  }

  /**
   * What `later` enqueues: a fresh record of the class, attempt 0, created
   * now, carrying the arguments, with a new id, planned for and scored by its
   * due time, which is `runAt` or, when that is null or 0, now.
   */
  lemma LaterEnqueues(st: StoreState, queue: string, className: string, args: Json, runAt: Option<int>, now: int, freshId: string)
    requires !IsEmptyId(freshId)
    ensures
      var due := if runAt.None? || runAt.value == 0 then now else runAt.value;
      var r := Record(freshId, className, 0, now, Some(due), None, None, args);
      var q := SetAt(Apply(st, queue, Push(InitialRecord(className, args, now), TypeQueue, runAt), now, freshId), Key(queue));
      r in q && q[r] == due
  {
  }

  /** One of the three hooks a job runs. */
  datatype Hook = Setup | Perform(args: Json) | Completed

  /** What a hook does when called: returns, or throws with a message. */
  datatype HookOutcome = Returns | Throws(message: string)

  /** How the hooks of one job instance behave. */
  datatype Hooks = Hooks(setup: HookOutcome, perform: HookOutcome, completed: HookOutcome)

  /** The exception `now` lets escape: that of the first hook that throws. */
  function FirstThrow(h: Hooks): Option<string> {
    if h.setup.Throws? then Some(h.setup.message)
    else if h.perform.Throws? then Some(h.perform.message)
    else if h.completed.Throws? then Some(h.completed.message)
    else None
  }

  /**
   * `now`: run `setup`, `perform(args)` and `completed` on a fresh instance,
   * in that order, with no catch. Returns the hooks called and the escaping
   * exception, if any.
   */
  method Now(args: Json, h: Hooks) returns (called: seq<Hook>, thrown: Option<string>)
    ensures called <= [Setup, Perform(args), Completed] && called != []
    ensures Completed in called <==> h.setup.Returns? && h.perform.Returns?
    ensures Perform(args) in called <==> h.setup.Returns?
    ensures thrown == FirstThrow(h)
    ensures thrown.None? <==> h.setup.Returns? && h.perform.Returns? && h.completed.Returns?
  {
    called := [Setup];
    if h.setup.Throws? {
      return called, Some(h.setup.message);
    }
    called := called + [Perform(args)];
    if h.perform.Throws? {
      return called, Some(h.perform.message);
    }
    called := called + [Completed];
    if h.completed.Throws? {
      return called, Some(h.completed.message);
    }
    thrown := None;
  }
}
