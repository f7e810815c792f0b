/**
 * The queue store (class DelayedJob): four collections per queue, kept in a
 * key-value store under namespaced keys. The queued, success and failed
 * collections are sorted sets scored by time; the processing collection is a
 * hash from job id to record.
 *
 * The store itself is the class `Store`; what each of its operations does is
 * specified by the pure function `Apply` on a `StoreState` value.
 */
module DelayedJob {
  import opened Wrappers
  import opened JobRecords
  import opened SortedSets

  // The four collection types.
  const TypeQueue: string := "queue"
  const TypeFailed: string := "failed"
  const TypeSuccess: string := "success"
  const TypeProcessing: string := "processing"

  predicate IsType(t: string) {
    t == TypeQueue || t == TypeFailed || t == TypeSuccess || t == TypeProcessing
  }

  /** The store key of one collection of a queue; the type defaults to the queue itself. */
  function Key(queue: string, t: string := TypeQueue): string {
    "job:" + queue + ":" + t
  }

  /** Within one collection type, distinct queues never share a key. */
  lemma KeyInjective(q1: string, q2: string, t: string)
    requires Key(q1, t) == Key(q2, t)
    ensures q1 == q2
  {
    var k := Key(q1, t);
    assert |q1| == |q2|;
    assert q1 == k[4..4 + |q1|];
    assert q2 == Key(q2, t)[4..4 + |q2|];
  }

  /**
   * The four type names end in four different characters, so collections of
   * different types never share a key, whatever the queue names are.
   */
  lemma KeyTypesDisjoint(q1: string, q2: string, t1: string, t2: string)
    requires IsType(t1) && IsType(t2) && t1 != t2
    ensures Key(q1, t1) != Key(q2, t2)
  {
    var k1, k2 := Key(q1, t1), Key(q2, t2);
    assert k1[|k1| - 1] == t1[|t1| - 1];
    assert k2[|k2| - 1] == t2[|t2| - 1];
  }

  /** With a type name outside the four, the key scheme is ambiguous. */
  lemma KeyAmbiguousForOtherTypes()
    ensures Key("a", "b:queue") == Key("a:b", TypeQueue)
  {
  }

  /** The whole store: sorted sets and hashes, each under its key. */
  datatype StoreState = StoreState(
    sets: map<string, ZSet>,
    hashes: map<string, map<string, Record>>)

  const EmptyStore := StoreState(map[], map[])

  /** The sorted set under `k`; a missing key reads as the empty set. */
  function SetAt(st: StoreState, k: string): ZSet {
    if k in st.sets then st.sets[k] else map[]
  }

  /** The hash under `k`; a missing key reads as the empty hash. */
  function HashAt(st: StoreState, k: string): map<string, Record> {
    if k in st.hashes then st.hashes[k] else map[]
  }

  /**
   * Every record the store holds has an id, and every processing entry is
   * filed under its own record's id.
   */
  ghost predicate WellFormed(st: StoreState) {
    && (forall k, m :: k in st.sets && m in st.sets[k] ==> !IsEmptyId(m.id))
    && (forall k, f {:trigger f in st.hashes[k]} :: k in st.hashes && f in st.hashes[k] ==> !IsEmptyId(f) && st.hashes[k][f].id == f)
  }

  /** The score `push` uses: its timestamp, or the clock when that is null or 0. */
  function PushTime(at: Option<int>, now: int): (ts: int)
    ensures ts == now <==> at.None? || at.value == 0 || at.value == now
    ensures at.Some? && at.value != 0 ==> ts == at.value
  {
    if at.None? || at.value == 0 then now else at.value
  }

  /**
   * The record `push` encodes: an id is assigned only when the record has
   * none, and exactly one timestamp field, chosen by the collection type, is
   * set to the push time.
   */
  function Stamp(data: Record, t: string, at: int, freshId: string): (r: Record)
    ensures !IsEmptyId(data.id) ==> r.id == data.id
    ensures IsEmptyId(data.id) ==> r.id == freshId
    ensures r.className == data.className && r.attempt == data.attempt
    ensures r.createdAt == data.createdAt && r.runningAt == data.runningAt && r.data == data.data
    ensures r.planningAt == (if t == TypeQueue then Some(at) else data.planningAt)
    ensures r.movedAt == (if t == TypeSuccess || t == TypeFailed then Some(at) else data.movedAt)
  {
    var withId := if IsEmptyId(data.id) then data.(id := freshId) else data;
    if t == TypeSuccess || t == TypeFailed then withId.(movedAt := Some(at))
    else if t == TypeQueue then withId.(planningAt := Some(at))
    else withId
  }

  /** The writes the core issues against the store, each scoped to one queue. */
  datatype Op =
    | Push(data: Record, t: string, at: Option<int>)
    | PushProcess(data: Record)
    | Remove(member: Record, t: string)
    | RemoveProcess(id: string)
    | Clear(t: string)

  /**
   * The state after one write. `now` is the clock and `freshId` the id
   * generator's next value; a `PushProcess` of a record without an id throws
   * and changes nothing.
   */
  function Apply(st: StoreState, queue: string, op: Op, now: int, freshId: string): StoreState {
    match op
    case Push(data, t, at) =>
      var ts := PushTime(at, now);
      var k := Key(queue, t);
      st.(sets := st.sets[k := SetAt(st, k)[Stamp(data, t, ts, freshId) := ts]])
    case PushProcess(data) =>
      if IsEmptyId(data.id) then st
      else
        var k := Key(queue, TypeProcessing);
        st.(hashes := st.hashes[k := HashAt(st, k)[data.id := data.(runningAt := Some(now))]])
    case Remove(member, t) =>
      var k := Key(queue, t);
      st.(sets := st.sets[k := SetAt(st, k) - {member}])
    case RemoveProcess(id) =>
      var k := Key(queue, TypeProcessing);
      st.(hashes := st.hashes[k := HashAt(st, k) - {id}])
    case Clear(t) =>
      st.(sets := st.sets[Key(queue, t) := map[]])
  }

  /** The size `count` reports: the hash for processing, the sorted set otherwise. */
  function CountOf(st: StoreState, queue: string, t: string): nat {
    if t == TypeProcessing then |HashAt(st, Key(queue, t))| else |SetAt(st, Key(queue, t))|
  }

  /** Every write keeps the store well formed, given an id generator that never yields an empty id. */
  lemma ApplyKeepsWellFormed(st: StoreState, queue: string, op: Op, now: int, freshId: string)
    requires WellFormed(st) && !IsEmptyId(freshId)
    ensures WellFormed(Apply(st, queue, op, now, freshId))
  {
  }

  /**
   * `push` stores the stamped record with the push time as its score, keeps
   * every other member and its score, and touches no other collection.
   */
  lemma PushInserts(st: StoreState, queue: string, data: Record, t: string, at: Option<int>, now: int, freshId: string)
    ensures
      var st', k := Apply(st, queue, Push(data, t, at), now, freshId), Key(queue, t);
      var r, ts := Stamp(data, t, PushTime(at, now), freshId), PushTime(at, now);
      && r in SetAt(st', k) && SetAt(st', k)[r] == ts
      && (forall m :: m in SetAt(st', k) && m != r ==> m in SetAt(st, k) && SetAt(st', k)[m] == SetAt(st, k)[m])
      && (forall m :: m in SetAt(st, k) ==> m in SetAt(st', k))
      && (forall k' :: k' != k ==> SetAt(st', k') == SetAt(st, k'))
      && st'.hashes == st.hashes
  {
  }

  /**
   * Re-adding a record already in the collection does not grow it (the set
   * is keyed by the encoded record); a new record grows it by one.
   */
  lemma PushCount(st: StoreState, queue: string, data: Record, t: string, at: Option<int>, now: int, freshId: string)
    requires t != TypeProcessing
    ensures
      var r := Stamp(data, t, PushTime(at, now), freshId);
      CountOf(Apply(st, queue, Push(data, t, at), now, freshId), queue, t)
        == CountOf(st, queue, t) + (if r in SetAt(st, Key(queue, t)) then 0 else 1)
  {
  }

  /**
   * Pushing the same record with an id twice at the same time leaves the
   * store as one push does, whatever ids the generator would have produced.
   */
  lemma PushIdempotent(st: StoreState, queue: string, data: Record, t: string, at: Option<int>, now: int,
                       freshId1: string, freshId2: string)
    requires !IsEmptyId(data.id)
    ensures
      var op := Push(data, t, at);
      Apply(Apply(st, queue, op, now, freshId1), queue, op, now, freshId2) == Apply(st, queue, op, now, freshId1)
  {
    var op := Push(data, t, at);
    var st1 := Apply(st, queue, op, now, freshId1);
    var k := Key(queue, t);
    assert Stamp(data, t, PushTime(at, now), freshId2) == Stamp(data, t, PushTime(at, now), freshId1);
    assert SetAt(Apply(st1, queue, op, now, freshId2), k) == SetAt(st1, k);
  }

  /**
   * A record without an id pushed twice gets a new id each time, so it is
   * stored as two members; the collection grows by two when neither was
   * there before.
   */
  lemma PushTwiceWithoutId(st: StoreState, queue: string, data: Record, t: string, at: Option<int>, now: int,
                           freshId1: string, freshId2: string)
    requires IsEmptyId(data.id) && freshId1 != freshId2 && t != TypeProcessing
    ensures
      var op, k, ts := Push(data, t, at), Key(queue, t), PushTime(at, now);
      var r1, r2 := Stamp(data, t, ts, freshId1), Stamp(data, t, ts, freshId2);
      var st2 := Apply(Apply(st, queue, op, now, freshId1), queue, op, now, freshId2);
      && r1 != r2
      && r1 in SetAt(st2, k) && r2 in SetAt(st2, k)
      && (r1 !in SetAt(st, k) && r2 !in SetAt(st, k) ==> CountOf(st2, queue, t) == CountOf(st, queue, t) + 2)
  {
    var op, k, ts := Push(data, t, at), Key(queue, t), PushTime(at, now);
    var r1, r2 := Stamp(data, t, ts, freshId1), Stamp(data, t, ts, freshId2);
    assert r1.id != r2.id;
    PushCount(st, queue, data, t, at, now, freshId1);
    PushCount(Apply(st, queue, op, now, freshId1), queue, data, t, at, now, freshId2);
  }

  /**
   * `pushProcess` throws on a record without an id and changes nothing;
   * otherwise it files the record, stamped with `running_at`, under its id,
   * replacing what was there, and leaves every other entry alone.
   */
  lemma PushProcessFiles(st: StoreState, queue: string, data: Record, now: int, freshId: string)
    ensures
      var st', k := Apply(st, queue, PushProcess(data), now, freshId), Key(queue, TypeProcessing);
      && (IsEmptyId(data.id) ==> st' == st)
      && (!IsEmptyId(data.id) ==>
            && data.id in HashAt(st', k)
            && HashAt(st', k)[data.id] == data.(runningAt := Some(now))
            && (forall f :: f != data.id ==> (f in HashAt(st', k) <==> f in HashAt(st, k)))
            && (forall f :: f != data.id && f in HashAt(st, k) ==> HashAt(st', k)[f] == HashAt(st, k)[f])
            && st'.sets == st.sets)
  {
  }

  /** `removeProcess` deletes exactly the given id from the processing hash. */
  lemma RemoveProcessDeletesOnlyId(st: StoreState, queue: string, id: string, now: int, freshId: string)
    ensures
      var st', k := Apply(st, queue, RemoveProcess(id), now, freshId), Key(queue, TypeProcessing);
      && id !in HashAt(st', k)
      && (forall f :: f != id ==> (f in HashAt(st', k) <==> f in HashAt(st, k)))
      && (forall f :: f != id && f in HashAt(st, k) ==> HashAt(st', k)[f] == HashAt(st, k)[f])
      && st'.sets == st.sets
      && (forall k' :: k' != k ==> HashAt(st', k') == HashAt(st, k'))
  {
  }

  /** After `clear`, `count` for that sorted-set collection is 0; nothing else changes. */
  lemma ClearEmpties(st: StoreState, queue: string, t: string, now: int, freshId: string)
    requires t != TypeProcessing
    ensures
      var st' := Apply(st, queue, Clear(t), now, freshId);
      && CountOf(st', queue, t) == 0
      && (forall k :: k != Key(queue, t) ==> SetAt(st', k) == SetAt(st, k))
      && st'.hashes == st.hashes
  {
  }

  /** The store, updated in place through its client. */
  class Store {
    var sets: map<string, ZSet>
    var hashes: map<string, map<string, Record>>

    function State(): StoreState
      reads this
    {
      StoreState(sets, hashes)
    }

    ghost predicate Valid()
      reads this
    {
      WellFormed(State())
    }

    /** A client of a server whose collections hold `init`, whatever a previous run left there. */
    constructor (init: StoreState)
      requires WellFormed(init)
      ensures Valid() && State() == init
    {
      sets := init.sets;
      hashes := init.hashes;
    }

    /** `push`: add the stamped record to the collection `t` of `queue`. */
    method Push(queue: string, data: Record, t: string, at: Option<int>, now: int, freshId: string)
      requires Valid() && !IsEmptyId(freshId)
      modifies this
      ensures Valid()
      ensures State() == Apply(old(State()), queue, Op.Push(data, t, at), now, freshId)
    {
      var ts := PushTime(at, now);
      var record := Stamp(data, t, ts, freshId);
      var k := Key(queue, t);
      sets := sets[k := SetAt(State(), k)[record := ts]];
      ApplyKeepsWellFormed(old(State()), queue, Op.Push(data, t, at), now, freshId);
    }

    /**
     * `pushProcess`: file the record under its id in the processing hash.
     * Returns 1 for a new entry and 0 for a replaced one, or throws when the
     * record has no id.
     */
    method PushProcess(queue: string, data: Record, now: int) returns (r: Result<int>)
      requires Valid()
      modifies this
      ensures Valid()
      ensures State() == Apply(old(State()), queue, Op.PushProcess(data), now, "")
      ensures r.Thrown? <==> IsEmptyId(data.id)
      ensures r.Ok? ==> r.value == (if data.id in HashAt(old(State()), Key(queue, TypeProcessing)) then 0 else 1)
    {
      if IsEmptyId(data.id) {
        return Thrown("Id process can't not be blank");
      }
      var k := Key(queue, TypeProcessing);
      var h := HashAt(State(), k);
      r := Ok(if data.id in h then 0 else 1);
      hashes := hashes[k := h[data.id := data.(runningAt := Some(now))]];
    }

    /** The members of `s`, highest score first (ties in any order). */
    static method ListDescending(s: ZSet) returns (v: seq<Record>)
      ensures IsDescendingView(v, s)
    {
      var rest := s.Keys;
      v := [];
      while rest != {}
        invariant rest <= s.Keys
        invariant forall i :: 0 <= i < |v| ==> v[i] in s && v[i] !in rest
        invariant forall m :: m in s ==> m in v || m in rest
        invariant forall i, j :: 0 <= i < j < |v| ==> v[i] != v[j]
        invariant forall i, j :: 0 <= i < j < |v| ==> s[v[i]] >= s[v[j]]
        invariant forall i, m :: 0 <= i < |v| && m in rest ==> s[v[i]] >= s[m]
        decreases rest
      {
        MaxExists(s, rest);
        var m :| m in rest && forall x :: x in rest ==> s[x] <= s[m];
        v := v + [m];
        rest := rest - {m};
      }
    }

    /**
     * `getQueued` as written: the collection listed highest score first,
     * ranks `offset` through `limit - 1` (Redis rank rules), so from the
     * second page on it is empty; see the corrected `GetQueuedPage`.
     */
    method GetQueued(queue: string, t: string, offset: int, limit: int) returns (page: seq<Record>)
      ensures exists v :: IsDescendingView(v, SetAt(State(), Key(queue, t)))
                          && page == v[QueuedWindowAsWritten(|v|, offset, limit).0..QueuedWindowAsWritten(|v|, offset, limit).1]
      ensures 0 <= offset && 0 < limit ==> |page| <= limit
      ensures 0 < limit <= offset ==> page == []
    {
      var v := ListDescending(SetAt(State(), Key(queue, t)));
      var w := QueuedWindowAsWritten(|v|, offset, limit);
      page := v[w.0..w.1];
      if 0 < limit <= offset {
        if offset < |v| {
          LaterPagesEmptyAsWritten(|v|, offset, limit);
        }
      }
    }

    /**
     * The page `getQueued` is evidently meant to return: at most `limit`
     * records of the collection, highest score first, from rank `offset`.
     */
    method GetQueuedPage(queue: string, t: string, offset: int, limit: int) returns (page: seq<Record>)
      ensures exists v :: IsDescendingView(v, SetAt(State(), Key(queue, t)))
                          && page == v[PageWindow(|v|, offset, limit).0..PageWindow(|v|, offset, limit).1]
      ensures |page| <= (if limit < 0 then 0 else limit)
      ensures 0 < limit && 0 <= offset < |SetAt(State(), Key(queue, t))| ==> page != []
    {
      var s := SetAt(State(), Key(queue, t));
      var v := ListDescending(s);
      DescendingViewLength(v, s);
      var w := PageWindow(|v|, offset, limit);
      page := v[w.0..w.1];
    }

    /** `getProcessing`: every in-flight record, keyed by its id. */
    method GetProcessing(queue: string) returns (inFlight: map<string, Record>)
      requires Valid()
      ensures inFlight == HashAt(State(), Key(queue, TypeProcessing))
      ensures forall id :: id in inFlight ==> inFlight[id].id == id && !IsEmptyId(id)
    {
      var k := Key(queue, TypeProcessing);
      inFlight := HashAt(State(), k);
      assert k in hashes ==> inFlight == hashes[k];
    }

    /** `clear`: remove every member of a sorted-set collection. */
    method Clear(queue: string, t: string)
      requires Valid()
      modifies this
      ensures Valid()
      ensures State() == Apply(old(State()), queue, Op.Clear(t), 0, "")
    {
      sets := sets[Key(queue, t) := map[]];
    }

    /**
     * `getJob`: claim the earliest queued record whose due time lies in
     * `[0, now]` and remove exactly that record; with none due, return
     * nothing and change nothing.
     */
    method GetJob(queue: string, now: int) returns (job: Option<Record>)
      requires Valid()
      modifies this
      ensures Valid()
      ensures job.None? ==> !HasDue(old(SetAt(State(), Key(queue))), now) && State() == old(State())
      ensures job.Some? ==>
        && IsEarliestDue(old(SetAt(State(), Key(queue))), job.value, now)
        && !IsEmptyId(job.value.id)
        && State() == Apply(old(State()), queue, Op.Remove(job.value, TypeQueue), now, "")
    {
      var s := SetAt(State(), Key(queue));
      if HasDue(s, now) {
        EarliestDueExists(s, now);
        var m :| m in s && IsEarliestDue(s, m, now);
        var removed := Remove(queue, m, TypeQueue);
        job := Some(m);
      } else {
        job := None;
      }
    }

    /** `remove`: delete one member of a sorted set; returns how many were removed. */
    method Remove(queue: string, member: Record, t: string) returns (removed: int)
      requires Valid()
      modifies this
      ensures Valid()
      ensures State() == Apply(old(State()), queue, Op.Remove(member, t), 0, "")
      ensures removed == (if member in old(SetAt(State(), Key(queue, t))) then 1 else 0)
    {
      var k := Key(queue, t);
      var s := SetAt(State(), k);
      removed := if member in s then 1 else 0;
      sets := sets[k := s - {member}];
    }

    /** `removeProcess`: delete one id from the processing hash; returns how many were removed. */
    method RemoveProcess(queue: string, id: string) returns (removed: int)
      requires Valid()
      modifies this
      ensures Valid()
      ensures State() == Apply(old(State()), queue, Op.RemoveProcess(id), 0, "")
      ensures removed == (if id in old(HashAt(State(), Key(queue, TypeProcessing))) then 1 else 0)
    {
      var k := Key(queue, TypeProcessing);
      var h := HashAt(State(), k);
      removed := if id in h then 1 else 0;
      hashes := hashes[k := h - {id}];
    }

    /** `count`: the size of the hash for processing, of the sorted set otherwise. */
    method Count(queue: string, t: string) returns (n: nat)
      ensures n == CountOf(State(), queue, t)
      ensures t == TypeProcessing ==> n == |HashAt(State(), Key(queue, TypeProcessing))|
      ensures t != TypeProcessing ==> n == |SetAt(State(), Key(queue, t))|
    {
      var k := Key(queue, t);
      if t == TypeProcessing {
        n := |HashAt(State(), k)|;
      } else {
        n := |SetAt(State(), k)|;
      }
    }
  }
}
