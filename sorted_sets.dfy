/**
 * The store's time-ordered sets (Redis sorted sets): a map from member to
 * integer score. Members are job records; the score of a queued record is
 * its due time, that of a success / failed record the time it moved there.
 */
module SortedSets {
  import opened JobRecords

  type ZSet = map<Record, int>

  /** `m` is in `s` with a score in the claim window `[0, now]`. */
  predicate Due(s: ZSet, m: Record, now: int) {
    m in s && 0 <= s[m] <= now
  }

  predicate HasDue(s: ZSet, now: int) {
    exists m | m in s :: Due(s, m, now)
  }

  /** `m` is due and no due member has a lower score. */
  predicate IsEarliestDue(s: ZSet, m: Record, now: int) {
    Due(s, m, now) && forall x | x in s :: Due(s, x, now) ==> s[m] <= s[x]
  }

  /** `v` lists every member of `s` exactly once, highest score first. */
  predicate IsDescendingView(v: seq<Record>, s: ZSet) {
    && (forall i :: 0 <= i < |v| ==> v[i] in s)
    && (forall m :: m in s ==> m in v)
    && (forall i, j :: 0 <= i < j < |v| ==> v[i] != v[j])
    && (forall i, j :: 0 <= i < j < |v| ==> s[v[i]] >= s[v[j]])
  }

  lemma {:induction false} DistinctCard(v: seq<Record>)
    requires forall i, j :: 0 <= i < j < |v| ==> v[i] != v[j]
    ensures |set x | x in v| == |v|
    decreases |v|
  {
    if v != [] {
      var rest := v[1..];
      DistinctCard(rest);
      assert (set x | x in v) == (set x | x in rest) + {v[0]};
      assert v[0] !in rest by {
        forall i | 0 <= i < |rest| ensures rest[i] != v[0] {
          assert rest[i] == v[i + 1];
        }
      }
    }
  }

  /** A descending listing holds every member exactly once. */
  lemma DescendingViewLength(v: seq<Record>, s: ZSet)
    requires IsDescendingView(v, s)
    ensures |v| == |s|
  {
    DistinctCard(v);
    assert (set x | x in v) == s.Keys;
  }

  lemma {:induction false} MinExists(s: ZSet, keys: set<Record>)
    requires keys != {} && keys <= s.Keys
    ensures exists m :: m in keys && forall x :: x in keys ==> s[m] <= s[x]
    decreases keys
  {
    var y :| y in keys;
    if keys != {y} {
      MinExists(s, keys - {y});
      var m :| m in keys - {y} && forall x :: x in keys - {y} ==> s[m] <= s[x];
      if s[y] < s[m] {
        assert forall x :: x in keys ==> s[y] <= s[x];
      } else {
        assert forall x :: x in keys ==> s[m] <= s[x];
      }
    }
  }

  lemma {:induction false} MaxExists(s: ZSet, keys: set<Record>)
    requires keys != {} && keys <= s.Keys
    ensures exists m :: m in keys && forall x :: x in keys ==> s[x] <= s[m]
    decreases keys
  {
    var y :| y in keys;
    if keys != {y} {
      MaxExists(s, keys - {y});
      var m :| m in keys - {y} && forall x :: x in keys - {y} ==> s[x] <= s[m];
      if s[m] < s[y] {
        assert forall x :: x in keys ==> s[x] <= s[y];
      } else {
        assert forall x :: x in keys ==> s[x] <= s[m];
      }
    }
  }

  /** Whenever some member is due, an earliest due member exists. */
  lemma EarliestDueExists(s: ZSet, now: int)
    requires HasDue(s, now)
    ensures exists m :: IsEarliestDue(s, m, now)
  {
    var due := set m | m in s && 0 <= s[m] <= now;
    var w :| w in s && Due(s, w, now);
    assert w in due;
    MinExists(s, due);
    var m :| m in due && forall x :: x in due ==> s[m] <= s[x];
    assert IsEarliestDue(s, m, now);
  }

  /**
   * The half-open index window `[lo, hi)` that a Redis range read by rank
   * (ZRANGE / ZREVRANGE `start stop`) selects from a set of `len` members:
   * negative indices count from the end, the bounds are inclusive and are
   * clipped to the set.
   */
  function RankWindow(len: nat, start: int, stop: int): (w: (nat, nat))
    ensures w.0 <= w.1 <= len
    ensures w.0 < w.1 ==> w.1 - w.0 <= (if stop < 0 then stop + len else stop) - (if start < 0 then start + len else start) + 1
  {
    var s := if start < 0 then start + len else start;
    var e := if stop < 0 then stop + len else stop;
    var s' := if s < 0 then 0 else s;
    if s' > e || s' >= len then (0, 0)
    else (s', if e >= len then len else e + 1)
  }

  /**
   * The window a page of `limit` records starting at rank `offset` should
   * select: the corrected form of the rank window the queue listing uses.
   */
  function PageWindow(len: nat, offset: int, limit: int): (w: (nat, nat))
    ensures w.0 <= w.1 <= len
    ensures w.1 - w.0 <= (if limit < 0 then 0 else limit)
    ensures 0 < limit && 0 <= offset < len ==> w.0 == offset && w.1 == (if offset + limit < len then offset + limit else len)
  {
    if limit <= 0 then (0, 0) else RankWindow(len, offset, offset + limit - 1)
  }

  /**
   * The window the queue listing selects as written: ranks `offset` through
   * `limit - 1`, so `limit` acts as an end rank rather than a page size and
   * no page reaches past rank `limit - 1`.
   */
  function QueuedWindowAsWritten(len: nat, offset: int, limit: int): (w: (nat, nat))
    ensures w.0 <= w.1 <= len
    ensures 0 <= offset && 0 < limit ==> w.1 <= limit
  {
    RankWindow(len, offset, limit - 1)
  }

  /**
   * From the second page on (a non-negative offset at least the page size),
   * the listing as written is empty although records remain at that offset;
   * the corrected window holds them.
   */
  lemma LaterPagesEmptyAsWritten(len: nat, offset: int, limit: int)
    requires 0 < limit <= offset < len
    ensures QueuedWindowAsWritten(len, offset, limit) == (0, 0)
    ensures PageWindow(len, offset, limit).0 == offset < PageWindow(len, offset, limit).1
  {
  }

  /** The second page of twenty over forty records, as written and corrected. */
  lemma SecondPageOfForty()
    ensures QueuedWindowAsWritten(40, 20, 20) == (0, 0)
    ensures PageWindow(40, 20, 20) == (20, 40)
  {
  }

  /**
   * `claimed` lists records taken one by one from `q0`, each the earliest due
   * at `now` among those still there, and `q` is what is left: the claims
   * are distinct due members of `q0`, in non-decreasing score order, no due
   * member left is earlier than any claim, and exactly the claims are gone.
   */
  ghost predicate ClaimedEarliestFirst(q0: ZSet, claimed: seq<Record>, q: ZSet, now: int) {
    && (forall i :: 0 <= i < |claimed| ==> claimed[i] in q0 && 0 <= q0[claimed[i]] <= now)
    && (forall i, j :: 0 <= i < j < |claimed| ==> claimed[i] != claimed[j] && q0[claimed[i]] <= q0[claimed[j]])
    && (forall i, m :: 0 <= i < |claimed| && m in q && 0 <= q[m] <= now ==> q0[claimed[i]] <= q[m])
    && (forall m :: m in q <==> m in q0 && m !in claimed)
    && (forall m :: m in q ==> q[m] == q0[m])
    && |q| == |q0| - |claimed|
  }

  lemma ClaimedNothing(q0: ZSet, now: int)
    ensures ClaimedEarliestFirst(q0, [], q0, now)
  {
  }

  lemma RemoveOneCard(q: ZSet, r: Record)
    requires r in q
    ensures |q - {r}| == |q| - 1
  {
    assert (q - {r}).Keys == q.Keys - {r};
  }

  /** Claiming the earliest due member of what is left extends the claims. */
  lemma ClaimNext(q0: ZSet, claimed: seq<Record>, q: ZSet, now: int, r: Record)
    requires ClaimedEarliestFirst(q0, claimed, q, now)
    requires IsEarliestDue(q, r, now)
    ensures ClaimedEarliestFirst(q0, claimed + [r], q - {r}, now)
  {
    var claimed' := claimed + [r];
    RemoveOneCard(q, r);
    assert r in q0 && r !in claimed && q0[r] == q[r];
    forall i, j | 0 <= i < j < |claimed'|
      ensures claimed'[i] != claimed'[j] && q0[claimed'[i]] <= q0[claimed'[j]]
    {
      if j == |claimed| {
        assert claimed'[i] == claimed[i];
      }
    }
    forall m ensures m in q - {r} <==> m in q0 && m !in claimed' {
      assert m in claimed' <==> m in claimed || m == r;
    }
  }

  /** Once nothing due is left, every record that was due has been claimed. */
  lemma DrainedClaimsAllDue(q0: ZSet, claimed: seq<Record>, q: ZSet, now: int)
    requires ClaimedEarliestFirst(q0, claimed, q, now)
    requires !HasDue(q, now)
    ensures forall m :: Due(q0, m, now) ==> m in claimed
  {
  }

  /** When every member was due to begin with, draining claims them all. */
  lemma DrainedClaimsAll(q0: ZSet, claimed: seq<Record>, q: ZSet, now: int)
    requires ClaimedEarliestFirst(q0, claimed, q, now)
    requires !HasDue(q, now)
    requires forall m :: m in q0 ==> Due(q0, m, now)
    ensures |claimed| == |q0|
  {
    assert forall m :: m in q ==> Due(q, m, now);
    assert q.Keys == {};
  }
}
