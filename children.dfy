/**
 * The worker's bookkeeping of its child processes: the pids it has
 * registered (`jobs_pid`) and the exits it reaped before the pid was
 * registered (`signal_queue`, pid to exit status).
 */
module ChildBook {

  type Pid = x: int | x > 0 witness 1

  /** A reaped child: its pid and exit status. */
  datatype Exit = Exit(pid: int, status: int)

  datatype Children = Children(jobs: seq<int>, stash: map<int, int>)

  /** The sequence without the first occurrence of `x` (PHP's array_search then unset). */
  function RemoveFirst(s: seq<int>, x: int): (r: seq<int>)
    ensures x in s ==> |r| == |s| - 1
    ensures x !in s ==> r == s
    ensures forall y :: y in r ==> y in s
    ensures forall y :: y != x && y in s ==> y in r
    ensures multiset(r) == multiset(s) - multiset{x}
  {
    if s == [] then []
    else if s[0] == x then
      assert s == [x] + s[1..];
      s[1..]
    else
      assert s == [s[0]] + s[1..];
      [s[0]] + RemoveFirst(s[1..], x)
  }

  lemma {:induction false} RemoveFirstAppended(s: seq<int>, x: int)
    requires x !in s
    ensures RemoveFirst(s + [x], x) == s
  {
    if s != [] {
      assert (s + [x])[1..] == s[1..] + [x];
      RemoveFirstAppended(s[1..], x);
    }
  }

  /** One reaped child: forget it if registered, otherwise stash its status. */
  function Reap(c: Children, e: Exit): Children {
    if e.pid in c.jobs then c.(jobs := RemoveFirst(c.jobs, e.pid))
    else c.(stash := c.stash[e.pid := e.status])
  }

  /** `childHandler`'s loop: reap children until the wait yields no positive pid. */
  function ReapAll(c: Children, exits: seq<Exit>): Children
    decreases |exits|
  {
    if exits == [] || exits[0].pid <= 0 then c
    else ReapAll(Reap(c, exits[0]), exits[1..])
  }

  /**
   * The parent side of `runJob` after a fork: register the pid; if the child
   * was already reaped, reconcile it through `childHandler` (which goes on
   * reaping `more`) and clear its stash entry.
   */
  function Register(c: Children, pid: Pid, more: seq<Exit>): Children {
    var c1 := c.(jobs := c.jobs + [pid]);
    if pid in c1.stash then
      var c2 := ReapAll(c1, [Exit(pid, c1.stash[pid])] + more);
      c2.(stash := c2.stash - {pid})
    else c1
  }

  /** Reaping never grows the registered pids. */
  lemma {:induction false} ReapAllShrinks(c: Children, exits: seq<Exit>)
    ensures |ReapAll(c, exits).jobs| <= |c.jobs|
    decreases |exits|
  {
    if exits != [] && exits[0].pid > 0 {
      ReapAllShrinks(Reap(c, exits[0]), exits[1..]);
    }
  }

  /** Registering adds at most one pid. */
  lemma RegisterGrowsByAtMostOne(c: Children, pid: Pid, more: seq<Exit>)
    ensures |Register(c, pid, more).jobs| <= |c.jobs| + 1
  {
    var c1 := c.(jobs := c.jobs + [pid]);
    if pid in c1.stash {
      ReapAllShrinks(c1, [Exit(pid, c1.stash[pid])] + more);
    }
  }

  /** Reaping other children neither registers nor stashes `pid`. */
  lemma {:induction false} ReapAllOthers(c: Children, exits: seq<Exit>, pid: int)
    requires pid !in c.jobs
    requires forall e :: e in exits ==> e.pid != pid
    ensures pid !in ReapAll(c, exits).jobs
    ensures pid in ReapAll(c, exits).stash <==> pid in c.stash
    decreases |exits|
  {
    if exits != [] && exits[0].pid > 0 {
      assert exits[0] in exits;
      ReapAllOthers(Reap(c, exits[0]), exits[1..], pid);
    }
  }

  /**
   * A child reaped before the parent registers it is stashed, then
   * reconciled at registration: afterwards its pid is in neither container,
   * and with no other exits the bookkeeping is exactly as before the fork.
   */
  lemma ExitBeforeRegister(c: Children, pid: Pid, status: int, more: seq<Exit>)
    requires pid !in c.jobs && pid !in c.stash
    requires forall e :: e in more ==> e.pid != pid
    ensures var c' := Register(Reap(c, Exit(pid, status)), pid, more);
      pid !in c'.jobs && pid !in c'.stash && (more == [] ==> c' == c)
  {
    var c0 := Reap(c, Exit(pid, status));
    assert c0 == c.(stash := c.stash[pid := status]);
    var c1 := c0.(jobs := c0.jobs + [pid]);
    var first := Reap(c1, Exit(pid, status));
    RemoveFirstAppended(c.jobs, pid);
    assert first.jobs == c.jobs;
    var es := [Exit(pid, status)] + more;
    assert es[1..] == more;
    assert ReapAll(c1, es) == ReapAll(first, more);
    ReapAllOthers(first, more, pid);
    if more == [] {
      assert first.(stash := first.stash - {pid}) == c;
    }
  }

  /**
   * A child reaped after the parent registered it is simply forgotten: its
   * pid is in neither container and the bookkeeping is as before the fork.
   */
  lemma ExitAfterRegister(c: Children, pid: Pid, status: int, more: seq<Exit>)
    requires pid !in c.jobs && pid !in c.stash
    ensures var c' := Reap(Register(c, pid, more), Exit(pid, status));
      pid !in c'.jobs && pid !in c'.stash && c' == c
  {
    RemoveFirstAppended(c.jobs, pid);
  }
}
