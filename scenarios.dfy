/**
 * Whole-system walks through the store, the job API and the worker: a
 * delayed job is claimable only once due, a job class with a retry limit of
 * one dead-letters on its first failure, and one pass of a worker whose
 * queue holds one more due record than its ceiling leaves that one queued.
 */
module Scenarios {
  import opened Wrappers
  import opened JobRecords
  import opened SortedSets
  import opened DelayedJob
  import opened Jobs
  import opened ChildBook
  import opened Routing
  import opened Workers

  /**
   * A job enqueued with `later` for one second from now is not claimable
   * now, and is claimable, as the record `later` built, a second later.
   */
  method FutureJobNotClaimable(queue: string, className: string, args: Json, now: int, freshId: string)
    returns (early: Option<Record>, due: Option<Record>)
    requires now >= 0 && !IsEmptyId(freshId)
    ensures early.None?
    ensures due == Some(Record(freshId, className, 0, now, Some(now + 1), None, None, args))
  {
    var store := new Store(EmptyStore);
    Later(store, queue, className, args, Some(now + 1), now, freshId);
    var r := Record(freshId, className, 0, now, Some(now + 1), None, None, args);
    assert SetAt(store.State(), Key(queue)) == map[r := now + 1];
    early := store.GetJob(queue, now);
    assert SetAt(store.State(), Key(queue)) == map[r := now + 1];
    assert Due(SetAt(store.State(), Key(queue)), r, now + 1);
    due := store.GetJob(queue, now + 1);
  }

  /**
   * A claimed record of a class whose limit is 1 that throws in `perform`
   * is dead-lettered on its first failure: nothing queued, one failed,
   * nothing in processing.
   */
  method RetryLimitOne(queue: string, data: Record, message: string, retryAt: int, now: int, freshId: string)
    returns (queued: nat, failed: nat, processing: nat)
    requires !IsEmptyId(data.id) && data.attempt == 0 && !IsEmptyId(freshId)
    ensures queued == 0 && failed == 1 && processing == 0
  {
    var store := new Store(EmptyStore);
    var worker := new Worker(store, queue, DefaultMaxProcess, true);
    var registry := map[data.className := 1];
    var escaped := worker.RunChild(data, registry, Hooks(Returns, Throws(message), Returns), retryAt, now, freshId);
    FailureRouting(EmptyStore, queue, data, registry, message, true, retryAt, now, freshId);
    KeysDistinct(queue);
    queued := store.Count(queue, TypeQueue);
    failed := store.Count(queue, TypeFailed);
    processing := store.Count(queue, TypeProcessing);
    var ops := ChildOps(data, registry, Some(message), true, retryAt);
    KnownClassRun(EmptyStore, queue, data, registry, Some(message), true, retryAt, now, freshId);
  }

  /** A fresh store whose queue holds three distinct records, all scored `now`. */
  method ThreeDue(queue: string, a: Record, b: Record, c: Record, now: int, freshId: string) returns (store: Store)
    requires !IsEmptyId(freshId)
    requires !IsEmptyId(a.id) && !IsEmptyId(b.id) && !IsEmptyId(c.id)
    requires a.id != b.id && b.id != c.id && a.id != c.id
    ensures fresh(store) && store.Valid()
    ensures |QueueOf(store.State(), queue)| == 3
    ensures forall m :: m in QueueOf(store.State(), queue) ==> QueueOf(store.State(), queue)[m] == now
  {
    store := new Store(EmptyStore);
    store.Push(queue, a, TypeQueue, None, now, freshId);
    store.Push(queue, b, TypeQueue, None, now, freshId);
    store.Push(queue, c, TypeQueue, None, now, freshId);
    var ra, rb, rc := Stamp(a, TypeQueue, now, freshId), Stamp(b, TypeQueue, now, freshId), Stamp(c, TypeQueue, now, freshId);
    ghost var q0 := QueueOf(store.State(), queue);
    assert q0 == map[ra := now, rb := now, rc := now];
    assert q0.Keys == {ra, rb, rc};
  }

  /**
   * A fresh worker with a ceiling of `n`, a queue holding `n + 1` due
   * records and forks that all succeed without an early exit: one pass
   * claims `n`, stops at the ceiling, and leaves one record queued.
   */
  method CeilingScenario(store: Store, queue: string, n: nat, now: int)
    returns (claimed: seq<Record>, end: PassEnd, left: nat)
    requires store.Valid() && n >= 1
    requires |QueueOf(store.State(), queue)| == n + 1
    requires forall m :: m in QueueOf(store.State(), queue) ==> Due(QueueOf(store.State(), queue), m, now)
    modifies store
    ensures |claimed| == n && end == AtCeiling && left == 1
  {
    ghost var q0 := QueueOf(store.State(), queue);
    var worker := new Worker(store, queue, n, true);
    var fork := (i: nat) => Forked(i + 1, [], []);
    assert forall i: nat :: CleanFork(fork(i), map[]);
    claimed, end := worker.Pass(now, fork, None);
    ghost var q := QueueOf(store.State(), queue);
    if end == Drained {
      DrainedClaimsAll(q0, claimed, q, now);
      assert false;
    }
    left := store.Count(queue, TypeQueue);
  }
}
