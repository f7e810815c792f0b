/**
 * The child branch of `runJob`: the store writes a forked child issues for
 * one claimed record, and what they leave in each collection.
 */
module Routing {
  import opened Wrappers
  import opened JobRecords
  import opened SortedSets
  import opened DelayedJob
  import opened Jobs

  /** The loaded job classes, each with its static `$attempt` limit. */
  type Registry = map<string, int>

  /** The retry rule: a limit of 0 retries forever, otherwise while the attempt is below it. */
  predicate Retries(limit: int, attempt: int) {
    limit == 0 || attempt < limit
  }

  /**
   * The writes, in order, for record `data` whose hooks ended with `thrown`
   * (none when the job succeeded); `retryAt` is the time a retry is planned
   * for.
   */
  function ChildOps(data: Record, registry: Registry, thrown: Option<string>, save: bool, retryAt: int): seq<Op> {
    if data.className !in registry then
      [Push(data, TypeFailed, None)]
    else if IsEmptyId(data.id) then
      // pushProcess throws before the job runs
      []
    else
      var outcome :=
        if thrown.None? then
          (if save then [Push(data, TypeSuccess, None)] else [])
        else
          var next := data.(attempt := data.attempt + 1);
          if Retries(registry[data.className], next.attempt) then [Push(next, TypeQueue, Some(retryAt))]
          else [Push(next, TypeFailed, None)];
      [PushProcess(data)] + outcome + [RemoveProcess(data.id)]
  }

  /** The store after a sequence of writes, in order. */
  function ApplyAll(st: StoreState, queue: string, ops: seq<Op>, now: int, freshId: string): StoreState
    decreases |ops|
  {
    if ops == [] then st else ApplyAll(Apply(st, queue, ops[0], now, freshId), queue, ops[1..], now, freshId)
  }

  lemma {:induction false} ApplyAllAppend(st: StoreState, queue: string, ops: seq<Op>, op: Op, now: int, freshId: string)
    ensures ApplyAll(st, queue, ops + [op], now, freshId) == Apply(ApplyAll(st, queue, ops, now, freshId), queue, op, now, freshId)
    decreases |ops|
  {
    if ops != [] {
      assert (ops + [op])[1..] == ops[1..] + [op];
      ApplyAllAppend(Apply(st, queue, ops[0], now, freshId), queue, ops[1..], op, now, freshId);
    }
  }

  /**
   * Whatever the outcome, a record that entered processing leaves it as the
   * last write: the only processing writes are filing it first and removing
   * its id last.
   */
  lemma ProcessingBracketsTheRun(data: Record, registry: Registry, thrown: Option<string>, save: bool, retryAt: int)
    requires data.className in registry && !IsEmptyId(data.id)
    ensures var ops := ChildOps(data, registry, thrown, save, retryAt);
      && |ops| >= 2
      && ops[0] == PushProcess(data)
      && ops[|ops| - 1] == RemoveProcess(data.id)
      && (forall i :: 0 < i < |ops| - 1 ==> ops[i].Push?)
  {
  }

  /** Exactly one terminal write, and never a retry, for a class that does not exist. */
  lemma UnknownClassOps(data: Record, registry: Registry, thrown: Option<string>, save: bool, retryAt: int)
    requires data.className !in registry
    ensures var ops := ChildOps(data, registry, thrown, save, retryAt);
      && (forall op :: op in ops ==> op.Push? && op.t == TypeFailed)
      && |ops| == 1
  {
  }

  /** The failure route: attempt+1, requeued exactly when the class's limit allows, else dead-lettered. */
  lemma FailureOps(data: Record, registry: Registry, message: string, save: bool, retryAt: int)
    requires data.className in registry && !IsEmptyId(data.id)
    ensures var ops := ChildOps(data, registry, Some(message), save, retryAt);
      var next := data.(attempt := data.attempt + 1);
      && |ops| == 3
      && ops[1].Push? && ops[1].data == next
      && (ops[1].t == TypeQueue <==> registry[data.className] == 0 || data.attempt + 1 < registry[data.className])
      && (ops[1].t == TypeQueue || ops[1].t == TypeFailed)
  {
  }

  // Facts about where the writes land, by collection.

  function QueueOf(st: StoreState, queue: string): ZSet { SetAt(st, Key(queue, TypeQueue)) }
  function FailedOf(st: StoreState, queue: string): ZSet { SetAt(st, Key(queue, TypeFailed)) }
  function SuccessOf(st: StoreState, queue: string): ZSet { SetAt(st, Key(queue, TypeSuccess)) }
  function ProcessingOf(st: StoreState, queue: string): map<string, Record> { HashAt(st, Key(queue, TypeProcessing)) }

  lemma KeysDistinct(queue: string)
    ensures Key(queue, TypeQueue) != Key(queue, TypeFailed)
    ensures Key(queue, TypeQueue) != Key(queue, TypeSuccess)
    ensures Key(queue, TypeFailed) != Key(queue, TypeSuccess)
  {
    KeyTypesDisjoint(queue, queue, TypeQueue, TypeFailed);
    KeyTypesDisjoint(queue, queue, TypeQueue, TypeSuccess);
    KeyTypesDisjoint(queue, queue, TypeFailed, TypeSuccess);
  }

  /**
   * An unknown class: the record lands in failed (stamped, attempt
   * unchanged) and the queue, success and processing collections are left
   * as they were.
   */
  lemma UnknownClassDeadLetters(st: StoreState, queue: string, data: Record, registry: Registry,
                                thrown: Option<string>, save: bool, retryAt: int, now: int, freshId: string)
    requires data.className !in registry
    ensures var st' := ApplyAll(st, queue, ChildOps(data, registry, thrown, save, retryAt), now, freshId);
      && Stamp(data, TypeFailed, now, freshId) in FailedOf(st', queue)
      && Stamp(data, TypeFailed, now, freshId).attempt == data.attempt
      && QueueOf(st', queue) == QueueOf(st, queue)
      && SuccessOf(st', queue) == SuccessOf(st, queue)
      && ProcessingOf(st', queue) == ProcessingOf(st, queue)
  {
    KeysDistinct(queue);
    var ops := ChildOps(data, registry, thrown, save, retryAt);
    assert ops[1..] == [];
  }

  /**
   * The state after a run of a known class with an id: processing is as it
   * was minus this id, and the sorted sets are those after the single
   * outcome write (if any).
   */
  lemma KnownClassRun(st: StoreState, queue: string, data: Record, registry: Registry,
                      thrown: Option<string>, save: bool, retryAt: int, now: int, freshId: string)
    requires data.className in registry && !IsEmptyId(data.id)
    ensures var ops := ChildOps(data, registry, thrown, save, retryAt);
      var st' := ApplyAll(st, queue, ops, now, freshId);
      && ProcessingOf(st', queue) == ProcessingOf(st, queue) - {data.id}
      && (|ops| == 2 ==> st'.sets == st.sets)
      && (|ops| == 3 ==> st'.sets == Apply(st, queue, ops[1], now, freshId).sets)
  {
    var ops := ChildOps(data, registry, thrown, save, retryAt);
    var pk := Key(queue, TypeProcessing);
    var st1 := Apply(st, queue, ops[0], now, freshId);
    assert ApplyAll(st, queue, ops[..1], now, freshId) == st1 by {
      assert ops[..1][1..] == [];
    }
    assert ops == ops[..|ops| - 1] + [ops[|ops| - 1]];
    ApplyAllAppend(st, queue, ops[..|ops| - 1], ops[|ops| - 1], now, freshId);
    if |ops| == 3 {
      assert ops[..2] == ops[..1] + [ops[1]];
      ApplyAllAppend(st, queue, ops[..1], ops[1], now, freshId);
    } else {
      assert ops[..1] == ops[..|ops| - 1];
    }
  }

  /** A success is recorded in the success list only when saving is on; the queue and failed lists stay as they were. */
  lemma SuccessRouting(st: StoreState, queue: string, data: Record, registry: Registry,
                       save: bool, retryAt: int, now: int, freshId: string)
    requires data.className in registry && !IsEmptyId(data.id)
    ensures var st' := ApplyAll(st, queue, ChildOps(data, registry, None, save, retryAt), now, freshId);
      && (save ==> Stamp(data, TypeSuccess, now, freshId) in SuccessOf(st', queue))
      && (!save ==> SuccessOf(st', queue) == SuccessOf(st, queue))
      && QueueOf(st', queue) == QueueOf(st, queue)
      && FailedOf(st', queue) == FailedOf(st, queue)
      && data.id !in ProcessingOf(st', queue)
  {
    KeysDistinct(queue);
    KnownClassRun(st, queue, data, registry, None, save, retryAt, now, freshId);
  }

  /**
   * A failure: the record comes back with attempt+1 and the same id, into
   * the queue scored by the retry time when the class's limit allows,
   * otherwise into failed; the other list and success are left alone.
   */
  lemma FailureRouting(st: StoreState, queue: string, data: Record, registry: Registry, message: string,
                       save: bool, retryAt: int, now: int, freshId: string)
    requires data.className in registry && !IsEmptyId(data.id)
    ensures var st' := ApplyAll(st, queue, ChildOps(data, registry, Some(message), save, retryAt), now, freshId);
      var limit := registry[data.className];
      var next := data.(attempt := data.attempt + 1);
      && next.id == data.id
      && (Retries(limit, next.attempt) ==>
            && Stamp(next, TypeQueue, PushTime(Some(retryAt), now), freshId) in QueueOf(st', queue)
            && QueueOf(st', queue)[Stamp(next, TypeQueue, PushTime(Some(retryAt), now), freshId)] == PushTime(Some(retryAt), now)
            && FailedOf(st', queue) == FailedOf(st, queue))
      && (!Retries(limit, next.attempt) ==>
            && Stamp(next, TypeFailed, now, freshId) in FailedOf(st', queue)
            && QueueOf(st', queue) == QueueOf(st, queue))
      && SuccessOf(st', queue) == SuccessOf(st, queue)
      && data.id !in ProcessingOf(st', queue)
  {
    KeysDistinct(queue);
    KnownClassRun(st, queue, data, registry, Some(message), save, retryAt, now, freshId);
  }

  /** With the default limit 0 a failing job is always requeued and never dead-lettered. */
  lemma UnlimitedNeverDeadLetters(st: StoreState, queue: string, data: Record, registry: Registry, message: string,
                                  save: bool, retryAt: int, now: int, freshId: string)
    requires data.className in registry && registry[data.className] == DefaultAttempt && !IsEmptyId(data.id)
    ensures var st' := ApplyAll(st, queue, ChildOps(data, registry, Some(message), save, retryAt), now, freshId);
      && FailedOf(st', queue) == FailedOf(st, queue)
      && Stamp(data.(attempt := data.attempt + 1), TypeQueue, PushTime(Some(retryAt), now), freshId) in QueueOf(st', queue)
  {
    FailureRouting(st, queue, data, registry, message, save, retryAt, now, freshId);
  }
}
