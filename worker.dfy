/**
 * The worker (class Worker): the claim loop of `run`, the parent and child
 * sides of `runJob`, the child-exit handler and the shutdown drain.
 *
 * Processes, signals and the clock are not modelled as such: a fork's result,
 * the children reaped by each wait, the shutdown signal and the time of each
 * tick are inputs, and a forked child's work is the separate method
 * `RunChild`.
 */
module Workers {
  import opened Wrappers
  import opened JobRecords
  import opened SortedSets
  import opened DelayedJob
  import opened Jobs
  import opened ChildBook
  import opened Routing

  const DefaultMaxProcess: int := 5

  /**
   * The parent's view of one fork: it failed, or it yielded the child's pid,
   * with the children reaped by the handler before the pid was registered
   * (`early`) and those reaped while reconciling it (`reconcile`).
   */
  datatype Fork = ForkFailed | Forked(pid: Pid, early: seq<Exit>, reconcile: seq<Exit>)

  /** A successful fork whose child is not reaped before it is registered. */
  predicate CleanFork(f: Fork, stash: map<int, int>) {
    f.Forked? && f.early == [] && f.pid !in stash
  }

  /** Why one pass of the claim loop ended. */
  datatype PassEnd =
    | Drained     // getJob found nothing due
    | AtCeiling   // max_processes children are running: the loop waits for one to exit
    | Stopped     // stop is set: the loop is left for good
    | StoreError  // getJob threw: logged, and the next tick tries again

  /** What happens next to a running worker. */
  datatype Event =
    | Tick(now: int, fork: nat -> Fork, failAfter: Option<nat>)  // one pass; `fork(i)` is the i-th claim's fork; getJob throws after `failAfter` claims
    | ChildExits(exits: seq<Exit>)                                // SIGCHLD: the handler reaps these children
    | QuitSignal                                                  // SIGQUIT, SIGTERM or SIGINT

  /** The bookkeeping after the parent side of `runJob` with this fork. */
  function Dispatch(c: Children, f: Fork): Children {
    match f
    case ForkFailed => c
    case Forked(pid, early, reconcile) => Register(ReapAll(c, early), pid, reconcile)
  }

  /** The bookkeeping after the first `n` claims of a pass, `fork(i)` being the i-th claim's fork. */
  function DispatchAll(c: Children, fork: nat -> Fork, n: nat): Children {
    if n == 0 then c else Dispatch(DispatchAll(c, fork, n - 1), fork(n - 1))
  }

  /** Clean forks register one child each and leave the stash alone. */
  lemma {:induction false} CleanDispatchAll(c: Children, fork: nat -> Fork, n: nat)
    requires forall i :: 0 <= i < n ==> CleanFork(fork(i), c.stash)
    ensures |DispatchAll(c, fork, n).jobs| == |c.jobs| + n
    ensures DispatchAll(c, fork, n).stash == c.stash
  {
    if n > 0 {
      CleanDispatchAll(c, fork, n - 1);
      var f := fork(n - 1);
      assert CleanFork(f, c.stash);
      assert ReapAll(DispatchAll(c, fork, n - 1), f.early) == DispatchAll(c, fork, n - 1);
    }
  }

  /** How many events of the schedule a running worker handles: up to and including the first shutdown signal. */
  function Handled(events: seq<Event>): (n: nat)
    ensures n <= |events|
    ensures forall j :: 0 <= j < n - 1 ==> !events[j].QuitSignal?
    ensures n < |events| ==> n > 0 && events[n - 1].QuitSignal?
    ensures (exists j :: 0 <= j < |events| && events[j].QuitSignal?) ==> n > 0 && events[n - 1].QuitSignal?
    decreases |events|
  {
    if events == [] then 0
    else if events[0].QuitSignal? then 1
    else 1 + Handled(events[1..])
  }

  /** The bookkeeping after one handled event, `claimed` being what a tick's pass claimed. */
  function Step(c: Children, e: Event, claimed: seq<Record>): Children {
    match e
    case Tick(_, fork, _) => DispatchAll(c, fork, |claimed|)
    case ChildExits(exits) => ReapAll(c, exits)
    case QuitSignal => c
  }

  /**
   * What handling `e` promises about the queue, from `q0` to `q`, and about
   * the bookkeeping `c` after it: a tick's pass claims due records earliest
   * first and ends for one of its reasons; a signal claims nothing and
   * leaves the queue alone.
   */
  ghost predicate PassOutcome(e: Event, q0: ZSet, claimed: seq<Record>, end: Option<PassEnd>, c: Children, maxProcesses: int, q: ZSet) {
    match e
    case Tick(now, _, failAfter) =>
      && end.Some? && end.value != Stopped
      && ClaimedEarliestFirst(q0, claimed, q, now)
      && (end.value == AtCeiling ==> |c.jobs| >= maxProcesses)
      && (end.value == Drained ==> !HasDue(q, now))
      && (end.value == StoreError ==> failAfter == Some(|claimed|))
    case _ => end.None? && claimed == [] && q == q0
  }

  /** The state before the j-th step, given the initial state and the state after each step. */
  function Before<T>(init: T, after: seq<T>, j: nat): T
    requires j <= |after|
  {
    if j == 0 then init else after[j - 1]
  }

  /**
   * The first `|books|` events of `events` were handled in order from
   * bookkeeping `book0` and queue `q0`: the j-th moved the bookkeeping to
   * `books[j]` and the queue to `queues[j]`, claiming `claims[j]`, its pass
   * (if any) ending for reason `ends[j]`.
   */
  ghost predicate Replays(book0: Children, q0: ZSet, maxProcesses: int, events: seq<Event>,
                          claims: seq<seq<Record>>, ends: seq<Option<PassEnd>>, books: seq<Children>, queues: seq<ZSet>)
    decreases |books|
  {
    && |claims| == |ends| == |books| == |queues| <= |events|
    && (|books| > 0 ==>
          var n := |books| - 1;
          && Replays(book0, q0, maxProcesses, events, claims[..n], ends[..n], books[..n], queues[..n])
          && books[n] == Step(Before(book0, books, n), events[n], claims[n])
          && PassOutcome(events[n], Before(q0, queues, n), claims[n], ends[n], books[n], maxProcesses, queues[n]))
  }

  /** Handling the next event as its own step extends the replay by one. */
  lemma ReplaysNext(book0: Children, q0: ZSet, maxProcesses: int, events: seq<Event>,
                    claims: seq<seq<Record>>, ends: seq<Option<PassEnd>>, books: seq<Children>, queues: seq<ZSet>,
                    claimed: seq<Record>, end: Option<PassEnd>, book: Children, q: ZSet)
    requires Replays(book0, q0, maxProcesses, events, claims, ends, books, queues) && |books| < |events|
    requires book == Step(Before(book0, books, |books|), events[|books|], claimed)
    requires PassOutcome(events[|books|], Before(q0, queues, |queues|), claimed, end, book, maxProcesses, q)
    ensures Replays(book0, q0, maxProcesses, events, claims + [claimed], ends + [end], books + [book], queues + [q])
  {
    assert (claims + [claimed])[..|books|] == claims;
    assert (ends + [end])[..|books|] == ends;
    assert (books + [book])[..|books|] == books;
    assert (queues + [q])[..|books|] == queues;
  }

  /** In a replay, each handled event moved the state as handling it alone does. */
  lemma {:induction false} ReplaysAt(book0: Children, q0: ZSet, maxProcesses: int, events: seq<Event>,
                                     claims: seq<seq<Record>>, ends: seq<Option<PassEnd>>, books: seq<Children>, queues: seq<ZSet>, j: nat)
    requires Replays(book0, q0, maxProcesses, events, claims, ends, books, queues) && j < |books|
    ensures books[j] == Step(Before(book0, books, j), events[j], claims[j])
    ensures PassOutcome(events[j], Before(q0, queues, j), claims[j], ends[j], books[j], maxProcesses, queues[j])
    decreases |books|
  {
    var n := |books| - 1;
    if j < n {
      ReplaysAt(book0, q0, maxProcesses, events, claims[..n], ends[..n], books[..n], queues[..n], j);
      assert Before(book0, books[..n], j) == Before(book0, books, j);
      assert Before(q0, queues[..n], j) == Before(q0, queues, j);
    }
  }

  class Worker {
    const store: Store
    const queue: string
    const maxProcesses: int
    const save: bool
    var jobsPid: seq<int>
    var signalQueue: map<int, int>
    var stop: bool
    /** The number of registered children at each getJob call, in order. */
    ghost var probes: seq<int>
    /** The passes run and the signals handled, in order. */
    ghost var trace: seq<Event>

    function Book(): Children
      reads this
    {
      Children(jobsPid, signalQueue)
    }

    /**
     * The store is well formed, no more than `max_processes` children are
     * registered, and every getJob call was made below that ceiling.
     */
    ghost predicate Valid()
      reads this, store
    {
      && store.Valid()
      && |jobsPid| <= (if maxProcesses < 0 then 0 else maxProcesses)
      && (forall i :: 0 <= i < |probes| ==> probes[i] < maxProcesses)
    }

    constructor (store: Store, queue: string, maxProcesses: int, save: bool)
      requires store.Valid()
      ensures Valid()
      ensures this.store == store && this.queue == queue && this.maxProcesses == maxProcesses && this.save == save
      ensures jobsPid == [] && signalQueue == map[] && !stop && probes == [] && trace == []
    {
      this.store := store;
      this.queue := queue;
      this.maxProcesses := maxProcesses;
      this.save := save;
      jobsPid := [];
      signalQueue := map[];
      stop := false;
      probes := [];
      trace := [];
    }

    /** The effect of a shutdown signal on the scheduler: stop is set. */
    method Quit()
      requires Valid()
      modifies this
      ensures Valid()
      ensures stop && Book() == old(Book()) && probes == old(probes)
      ensures trace == old(trace) + [QuitSignal]
    {
      stop := true;
      trace := trace + [QuitSignal];
    }

    /**
     * `childHandler`: for each reaped child, in order, until the wait yields
     * no positive pid: forget it if registered, otherwise stash its status.
     */
    method ChildHandler(exits: seq<Exit>)
      requires Valid()
      modifies this
      ensures Valid()
      ensures Book() == ReapAll(old(Book()), exits)
      ensures |jobsPid| <= old(|jobsPid|)
      ensures stop == old(stop) && probes == old(probes) && trace == old(trace)
    {
      var i := 0;
      while i < |exits| && exits[i].pid > 0
        invariant 0 <= i <= |exits|
        invariant ReapAll(old(Book()), exits) == ReapAll(Book(), exits[i..])
        invariant |jobsPid| <= old(|jobsPid|)
        invariant stop == old(stop) && probes == old(probes) && trace == old(trace)
      {
        var e := exits[i];
        assert exits[i..][1..] == exits[i + 1..];
        if e.pid in jobsPid {
          jobsPid := RemoveFirst(jobsPid, e.pid);
        } else {
          signalQueue := signalQueue[e.pid := e.status];
        }
        i := i + 1;
      }
    }

    /** The SIGCHLD case of the signal handler: `childHandler` reaps these exits. */
    method ChildSignal(exits: seq<Exit>)
      requires Valid()
      modifies this
      ensures Valid()
      ensures Book() == ReapAll(old(Book()), exits)
      ensures stop == old(stop) && probes == old(probes)
      ensures trace == old(trace) + [ChildExits(exits)]
    {
      ChildHandler(exits);
      trace := trace + [ChildExits(exits)];
    }

    /**
     * The parent side of `runJob`: on a failed fork nothing is recorded (the
     * claimed record is then in no collection); otherwise the pid is
     * registered and, if its child was already reaped, reconciled.
     */
    method RunJob(fork: Fork) returns (ok: bool)
      requires Valid() && |jobsPid| < maxProcesses
      modifies this
      ensures Valid()
      ensures ok <==> fork.Forked?
      ensures fork.ForkFailed? ==> Book() == old(Book())
      ensures fork.Forked? ==> Book() == Register(ReapAll(old(Book()), fork.early), fork.pid, fork.reconcile)
      ensures Book() == Dispatch(old(Book()), fork)
      ensures stop == old(stop) && probes == old(probes) && trace == old(trace)
    {
      match fork
      case ForkFailed =>
        return false;
      case Forked(pid, early, reconcile) =>
        ChildHandler(early);
        jobsPid := jobsPid + [pid];
        if pid in signalQueue {
          ChildHandler([Exit(pid, signalQueue[pid])] + reconcile);
          signalQueue := signalQueue - {pid};
        }
        ok := true;
    }

    /**
     * The child side of `runJob` for a claimed record: an unknown class goes
     * to failed; otherwise the record is put in processing, its hooks run,
     * a success is saved when `save` is set, a failure is retried or
     * dead-lettered, and processing is cleared in every case. Returns
     * whether an exception escaped (only `pushProcess` on a record without
     * an id throws past the job's own catch).
     */
    method RunChild(data: Record, registry: Registry, h: Hooks, retryAt: int, now: int, freshId: string)
      returns (escaped: bool)
      requires store.Valid() && !IsEmptyId(freshId)
      modifies store
      ensures store.Valid()
      ensures escaped <==> data.className in registry && IsEmptyId(data.id)
      ensures store.State() == ApplyAll(old(store.State()), queue, ChildOps(data, registry, FirstThrow(h), save, retryAt), now, freshId)
    {
      ghost var st0 := store.State();
      ghost var ops := ChildOps(data, registry, FirstThrow(h), save, retryAt);
      if data.className !in registry {
        store.Push(queue, data, TypeFailed, None, now, freshId);
        assert ops[1..] == [];
        return false;
      }
      var filed := store.PushProcess(queue, data, now);
      if filed.Thrown? {
        return true;
      }
      ghost var st1 := store.State();
      assert st1 == ApplyAll(st0, queue, ops[..1], now, freshId) by {
        assert ops[..1][1..] == [];
      }
      var called, thrown := Now(data.data, h);
      if thrown.None? {
        if save {
          store.Push(queue, data, TypeSuccess, None, now, freshId);
        }
      } else {
        var next := data.(attempt := data.attempt + 1);
        var limit := registry[data.className];
        if limit == 0 || next.attempt < limit {
          store.Push(queue, next, TypeQueue, Some(retryAt), now, freshId);
        } else {
          store.Push(queue, next, TypeFailed, None, now, freshId);
        }
      }
      ghost var st2 := store.State();
      assert st2 == ApplyAll(st0, queue, ops[..|ops| - 1], now, freshId) by {
        if |ops| == 3 {
          assert ops[..2] == ops[..1] + [ops[1]];
          ApplyAllAppend(st0, queue, ops[..1], ops[1], now, freshId);
        } else {
          assert ops[..|ops| - 1] == ops[..1];
        }
      }
      var removed := store.RemoveProcess(queue, data.id);
      assert ops == ops[..|ops| - 1] + [ops[|ops| - 1]];
      ApplyAllAppend(st0, queue, ops[..|ops| - 1], ops[|ops| - 1], now, freshId);
      escaped := false;
    }

    /**
     * One step of the claim loop below the ceiling: getJob, and when it
     * yields a record, the parent side of `runJob` with this fork.
     */
    method Claim(now: int, f: Fork) returns (job: Option<Record>)
      requires Valid() && |jobsPid| < maxProcesses
      modifies this, store
      ensures Valid()
      ensures stop == old(stop) && probes == old(probes) + [old(|jobsPid|)] && trace == old(trace)
      ensures job.None? ==> !HasDue(old(QueueOf(store.State(), queue)), now) && store.State() == old(store.State())
      ensures job.Some? ==>
        && IsEarliestDue(old(QueueOf(store.State(), queue)), job.value, now)
        && QueueOf(store.State(), queue) == old(QueueOf(store.State(), queue)) - {job.value}
      ensures forall k :: k != Key(queue, TypeQueue) ==> SetAt(store.State(), k) == old(SetAt(store.State(), k))
      ensures store.State().hashes == old(store.State().hashes)
      ensures job.None? ==> Book() == old(Book())
      ensures job.Some? ==> Book() == Dispatch(old(Book()), f)
      ensures job.Some? && CleanFork(f, old(signalQueue)) ==>
        jobsPid == old(jobsPid) + [f.pid] && signalQueue == old(signalQueue)
    {
      probes := probes + [|jobsPid|];
      job := store.GetJob(queue, now);
      if job.Some? {
        var ok := RunJob(f);
      }
    }

    /**
     * The inner `do … while` of `run`, entered with stop unset: below the
     * ceiling, claim the earliest due record and fork for it, until getJob
     * finds nothing, the ceiling is reached, or getJob throws.
     */
    method ClaimLoop(now: int, fork: nat -> Fork, failAfter: Option<nat>) returns (claimed: seq<Record>, end: PassEnd)
      requires Valid() && !stop
      modifies this, store
      ensures Valid()
      ensures !stop && trace == old(trace) && end != Stopped
      ensures end == AtCeiling ==> |jobsPid| >= maxProcesses
      ensures end == Drained ==> !HasDue(QueueOf(store.State(), queue), now)
      ensures end == StoreError ==> failAfter == Some(|claimed|)
      // what was claimed: distinct due records, earliest first; exactly those left the queue
      ensures ClaimedEarliestFirst(old(QueueOf(store.State(), queue)), claimed, QueueOf(store.State(), queue), now)
      ensures forall k :: k != Key(queue, TypeQueue) ==> SetAt(store.State(), k) == old(SetAt(store.State(), k))
      ensures store.State().hashes == old(store.State().hashes)
      // one getJob call per claim, plus the one that found nothing
      ensures |probes| == old(|probes|) + |claimed| + (if end == Drained then 1 else 0)
      // the bookkeeping is that of each claim's fork, in order
      ensures Book() == DispatchAll(old(Book()), fork, |claimed|)
    {
      ghost var q0 := QueueOf(store.State(), queue);
      ghost var st0 := store.State();
      ghost var book0 := Book();
      claimed := [];
      ClaimedNothing(q0, now);
      while true
        invariant Valid()
        invariant !stop && trace == old(trace)
        invariant ClaimedEarliestFirst(q0, claimed, QueueOf(store.State(), queue), now)
        invariant forall k :: k != Key(queue, TypeQueue) ==> SetAt(store.State(), k) == SetAt(st0, k)
        invariant store.State().hashes == st0.hashes
        invariant |probes| == old(|probes|) + |claimed|
        invariant Book() == DispatchAll(book0, fork, |claimed|)
        decreases |QueueOf(store.State(), queue)|
      {
        if |jobsPid| >= maxProcesses {
          end := AtCeiling;
          return;
        }
        if failAfter == Some(|claimed|) {
          end := StoreError;
          return;
        }
        ghost var q := QueueOf(store.State(), queue);
        var job := Claim(now, fork(|claimed|));
        if job.None? {
          end := Drained;
          return;
        }
        ClaimNext(q0, claimed, q, now, job.value);
        claimed := claimed + [job.value];
      }
    }

    /**
     * One turn of `run`'s outer loop at time `now`: nothing when stop is
     * set, otherwise the claim loop. `fork(i)` is the i-th claim's fork and
     * getJob throws after `failAfter` claims; a throw is only logged.
     */
    method Pass(now: int, fork: nat -> Fork, failAfter: Option<nat>) returns (claimed: seq<Record>, end: PassEnd)
      requires Valid()
      modifies this, store
      ensures Valid()
      ensures stop == old(stop)
      ensures (end == Stopped) == old(stop)
      ensures old(stop) ==> claimed == [] && probes == old(probes) && store.State() == old(store.State())
      ensures end == AtCeiling ==> |jobsPid| >= maxProcesses
      ensures end == Drained ==> !HasDue(QueueOf(store.State(), queue), now)
      ensures end == StoreError ==> failAfter == Some(|claimed|)
      // what was claimed: distinct due records, earliest first; exactly those left the queue
      ensures ClaimedEarliestFirst(old(QueueOf(store.State(), queue)), claimed, QueueOf(store.State(), queue), now)
      ensures forall k :: k != Key(queue, TypeQueue) ==> SetAt(store.State(), k) == old(SetAt(store.State(), k))
      ensures store.State().hashes == old(store.State().hashes)
      // one getJob call per claim, plus the one that found nothing
      ensures |probes| == old(|probes|) + |claimed| + (if end == Drained then 1 else 0)
      // the bookkeeping is that of each claim's fork, in order; each clean fork registers one child
      ensures Book() == DispatchAll(old(Book()), fork, |claimed|)
      ensures (forall i :: 0 <= i < |claimed| ==> CleanFork(fork(i), old(signalQueue))) ==>
                |jobsPid| == old(|jobsPid|) + |claimed|
      ensures trace == old(trace) + [Tick(now, fork, failAfter)]
    {
      if stop {
        claimed, end := [], Stopped;
        ClaimedNothing(QueueOf(store.State(), queue), now);
      } else {
        claimed, end := ClaimLoop(now, fork, failAfter);
      }
      trace := trace + [Tick(now, fork, failAfter)];
      if forall i :: 0 <= i < |claimed| ==> CleanFork(fork(i), old(signalQueue)) {
        CleanDispatchAll(old(Book()), fork, |claimed|);
      }
    }

    /** The shutdown drain: wait on every registered child, in order. */
    method Drain() returns (waited: seq<int>)
      ensures waited == jobsPid
    {
      waited := [];
      for i := 0 to |jobsPid|
        invariant waited == jobsPid[..i]
      {
        waited := waited + [jobsPid[i]];
      }
    }

    /**
     * One event of the schedule, handled while stop is unset: a tick is one
     * pass, a SIGCHLD reaps, a shutdown signal sets stop.
     */
    method Handle(e: Event) returns (claimed: seq<Record>, end: Option<PassEnd>)
      requires Valid() && !stop
      modifies this, store
      ensures Valid()
      ensures stop <==> e.QuitSignal?
      ensures trace == old(trace) + [e]
      ensures Book() == Step(old(Book()), e, claimed)
      ensures PassOutcome(e, old(QueueOf(store.State(), queue)), claimed, end, Book(), maxProcesses, QueueOf(store.State(), queue))
      ensures forall m :: m in QueueOf(store.State(), queue) ==>
                m in old(QueueOf(store.State(), queue)) && QueueOf(store.State(), queue)[m] == old(QueueOf(store.State(), queue))[m]
      ensures forall k :: k != Key(queue, TypeQueue) ==> SetAt(store.State(), k) == old(SetAt(store.State(), k))
      ensures store.State().hashes == old(store.State().hashes)
    {
      match e {
        case Tick(now, fork, failAfter) =>
          var passEnd;
          claimed, passEnd := Pass(now, fork, failAfter);
          end := Some(passEnd);
        case ChildExits(exits) =>
          ChildSignal(exits);
          claimed, end := [], None;
        case QuitSignal =>
          Quit();
          claimed, end := [], None;
      }
    }

    /**
     * After the first `i` events of `events`, handled from trace `trace0`,
     * bookkeeping `book0`, queue `q0` and store `st0`: stop is set exactly
     * when one of them was a shutdown signal, the handled events are traced
     * and replayed, and of the store only the queue changed, by losing
     * records.
     */
    ghost predicate Progress(events: seq<Event>, i: nat, trace0: seq<Event>, book0: Children, q0: ZSet, st0: StoreState,
                             claims: seq<seq<Record>>, ends: seq<Option<PassEnd>>, books: seq<Children>, queues: seq<ZSet>)
      reads this, store
    {
      && i <= |events|
      && (stop <==> exists j :: 0 <= j < i && events[j].QuitSignal?)
      && trace == trace0 + events[..i]
      && Handled(events) == (if stop then i else i + Handled(events[i..]))
      && |books| == i
      && Replays(book0, q0, maxProcesses, events, claims, ends, books, queues)
      && Book() == Before(book0, books, i)
      && QueueOf(store.State(), queue) == Before(q0, queues, i)
      && (forall m :: m in QueueOf(store.State(), queue) ==> m in q0 && QueueOf(store.State(), queue)[m] == q0[m])
      && (forall k :: k != Key(queue, TypeQueue) ==> SetAt(store.State(), k) == SetAt(st0, k))
      && store.State().hashes == st0.hashes
    }

    /** Handling the next event of the schedule extends the progress by one. */
    method HandleNext(events: seq<Event>, i: nat, ghost trace0: seq<Event>, ghost book0: Children, ghost q0: ZSet, ghost st0: StoreState,
                      claims: seq<seq<Record>>, ends: seq<Option<PassEnd>>, ghost books: seq<Children>, ghost queues: seq<ZSet>)
      returns (claimed: seq<Record>, end: Option<PassEnd>)
      requires Valid() && !stop && i < |events|
      requires Progress(events, i, trace0, book0, q0, st0, claims, ends, books, queues)
      modifies this, store
      ensures Valid()
      ensures Progress(events, i + 1, trace0, book0, q0, st0, claims + [claimed], ends + [end], books + [Book()], queues + [QueueOf(store.State(), queue)])
    {
      assert events[i..][1..] == events[i + 1..];
      claimed, end := Handle(events[i]);
      ReplaysNext(book0, q0, maxProcesses, events, claims, ends, books, queues, claimed, end, Book(), QueueOf(store.State(), queue));
      assert events[..i + 1] == events[..i] + [events[i]];
    }

    /**
     * `run` over a finite schedule of events: passes of the claim loop,
     * child exits and shutdown signals, until stop is set; then the drain.
     * A pass whose getJob threw is only logged: the loop goes on. For the
     * j-th handled event, `claims[j]` is what its pass claimed, `ends[j]` why
     * the pass ended, and `books[j]` and `queues[j]` the bookkeeping and the
     * queue after it.
     */
    method Run(events: seq<Event>)
      returns (waited: seq<int>, claims: seq<seq<Record>>, ends: seq<Option<PassEnd>>, ghost books: seq<Children>, ghost queues: seq<ZSet>)
      requires Valid()
      modifies this, store
      ensures Valid()
      ensures stop <==> old(stop) || exists i :: 0 <= i < |events| && events[i].QuitSignal?
      // every event up to the first shutdown signal is handled, in order
      ensures !old(stop) ==> trace == old(trace) + events[..Handled(events)]
      ensures old(stop) ==> trace == old(trace) && probes == old(probes)
      // each handled event moves the bookkeeping and the queue as handling it alone does
      ensures |books| == (if old(stop) then 0 else Handled(events))
      ensures Replays(old(Book()), old(QueueOf(store.State(), queue)), maxProcesses, events, claims, ends, books, queues)
      ensures Book() == Before(old(Book()), books, |books|)
      ensures QueueOf(store.State(), queue) == Before(old(QueueOf(store.State(), queue)), queues, |queues|)
      // records only leave the queue, and nothing else in the store changes
      ensures forall m :: m in QueueOf(store.State(), queue) ==>
                m in old(QueueOf(store.State(), queue)) && QueueOf(store.State(), queue)[m] == old(QueueOf(store.State(), queue))[m]
      ensures forall k :: k != Key(queue, TypeQueue) ==> SetAt(store.State(), k) == old(SetAt(store.State(), k))
      ensures store.State().hashes == old(store.State().hashes)
      ensures stop ==> waited == jobsPid
      ensures !stop ==> waited == []
    {
      claims, ends, books, queues := [], [], [], [];
      if stop {
        waited := Drain();
        return;
      }
      ghost var book0 := Book();
      ghost var q0 := QueueOf(store.State(), queue);
      ghost var st0 := store.State();
      var i := 0;
      while i < |events| && !stop
        invariant Valid()
        invariant Progress(events, i, old(trace), book0, q0, st0, claims, ends, books, queues)
        decreases |events| - i
      {
        var claimed, end := HandleNext(events, i, old(trace), book0, q0, st0, claims, ends, books, queues);
        claims, ends := claims + [claimed], ends + [end];
        books, queues := books + [Book()], queues + [QueueOf(store.State(), queue)];
        i := i + 1;
      }
      if stop {
        waited := Drain();
      } else {
        waited := [];
      }
    }
  }
}
