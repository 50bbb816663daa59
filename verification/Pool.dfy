/** The parent loop of the three process pools: round-robin dispatch, reaping, kill-all and the stop
    decision, for any number of children. */
module Pool {

  const DEAD: int := -1

  /** m_sub_process[..].m_pid, m_sub_process_counter and m_stop. */
  datatype Parent = Parent(pids: seq<int>, counter: nat, stop: bool)

  predicate Live(pids: seq<int>, i: int) {
    0 <= i < |pids| && pids[i] != DEAD
  }

  predicate AllDead(pids: seq<int>) {
    forall i :: 0 <= i < |pids| ==> pids[i] == DEAD
  }

  predicate Valid(p: Parent) {
    p.counter < |p.pids|
  }

  // ---- round robin -----------------------------------------------------------------------------

  /** The next index, going round. */
  function Succ(n: nat, i: nat): (j: nat)
    requires i < n
    ensures j < n
  {
    if i + 1 == n then 0 else i + 1
  }

  method NextSlot(n: nat, i: nat) returns (j: nat)
    requires i < n
    ensures j == Succ(n, i)
  {
    j := (i + 1) % n;
  }

  /** How many steps the scan takes from index a to index b. */
  function Dist(n: nat, a: nat, b: nat): (d: nat)
    requires a < n && b < n
    ensures d < n && (d == 0 <==> a == b)
  {
    if b >= a then b - a else b + n - a
  }

  /** The scan of the dispatcher comes to t: t lives and every slot before it, from the counter on, is dead. */
  ghost predicate IsTarget(pids: seq<int>, counter: nat, t: nat)
    requires counter < |pids|
  {
    && Live(pids, t)
    && forall i: nat :: i < |pids| && Dist(|pids|, counter, i) < Dist(|pids|, counter, t) ==> !Live(pids, i)
  }

  function Scan(pids: seq<int>, i: nat, steps: nat): (t: nat)
    requires i < |pids|
    ensures t < |pids|
    decreases steps
  {
    if steps == 0 || pids[i] != DEAD then i else Scan(pids, Succ(|pids|, i), steps - 1)
  }

  /** The slot the scan stops at: the first live one from the counter on, or the counter again. */
  function Target(p: Parent): (t: nat)
    requires Valid(p)
    ensures t < |p.pids|
  {
    Scan(p.pids, p.counter, |p.pids|)
  }

  lemma {:induction false} ScanFinds(pids: seq<int>, counter: nat, i: nat, steps: nat)
    requires counter < |pids| && i < |pids|
    requires steps + Dist(|pids|, counter, i) == |pids|
    requires forall j: nat :: j < |pids| && Dist(|pids|, counter, j) < Dist(|pids|, counter, i) ==> !Live(pids, j)
    requires exists x: nat :: x < |pids| && Live(pids, x)
    ensures IsTarget(pids, counter, Scan(pids, i, steps))
    decreases steps
  {
    if pids[i] == DEAD {
      var n, next := |pids|, Succ(|pids|, i);
      var x: nat :| x < n && Live(pids, x);
      assert Dist(n, counter, x) > Dist(n, counter, i);
      assert Dist(n, counter, next) == Dist(n, counter, i) + 1;
      ScanFinds(pids, counter, next, steps - 1);
    }
  }

  lemma TargetIsFirstLive(p: Parent)
    requires Valid(p) && !AllDead(p.pids)
    ensures IsTarget(p.pids, p.counter, Target(p))
  {
    var x :| 0 <= x < |p.pids| && p.pids[x] != DEAD;
    assert Live(p.pids, x);
    ScanFinds(p.pids, p.counter, p.counter, |p.pids|);
  }

  /** A new connection: one child is notified, or the loop stops because no child is left. */
  function Dispatch(p: Parent): Parent
    requires Valid(p)
  {
    if AllDead(p.pids) then p.(stop := true) else p.(counter := Succ(|p.pids|, Target(p)))
  }

  // ---- signals ---------------------------------------------------------------------------------

  /** The slots holding pid, once waitpid has returned it, become dead. */
  function Reap(p: Parent, pid: int): Parent {
    p.(pids := seq(|p.pids|, i requires 0 <= i < |p.pids| => if p.pids[i] == pid then DEAD else p.pids[i]))
  }

  /** The decision after the waitpid loop. */
  function Decide(p: Parent): Parent {
    p.(stop := AllDead(p.pids))
  }

  /** The processes kill-all signals. */
  function Targets(p: Parent): set<int> {
    set i | 0 <= i < |p.pids| && p.pids[i] != DEAD :: p.pids[i]
  }

  // ---- the loop's own state --------------------------------------------------------------------

  class ParentLoop {
    const m_pid: array<int>
    const pipeOpen: array<bool>
    var m_sub_process_counter: nat
    var m_stop: bool

    predicate Ok()
      reads this
    {
      m_sub_process_counter < m_pid.Length && pipeOpen.Length == m_pid.Length
    }

    function Value(): Parent
      reads this, m_pid
    {
      Parent(m_pid[..], m_sub_process_counter, m_stop)
    }

    /** After the forks: one pid and one open pipe end a slot. */
    constructor (pids: seq<int>)
      requires |pids| > 0
      ensures Ok() && Value() == Parent(pids, 0, false)
      ensures fresh(m_pid) && fresh(pipeOpen)
      ensures forall i :: 0 <= i < |pids| ==> pipeOpen[i]
    {
      m_pid := new int[|pids|](i requires 0 <= i < |pids| => pids[i]);
      pipeOpen := new bool[|pids|](i => true);
      m_sub_process_counter, m_stop := 0, false;
      new;
      assert m_pid[..] == pids;
    }

    /** The do-while loop: from the counter on, round to the first slot that is not dead. */
    method FindChild() returns (i: nat)
      requires Ok()
      ensures i == Target(Value())
      ensures m_pid[i] == DEAD ==> AllDead(m_pid[..])
    {
      var n, start, done := m_pid.Length, m_sub_process_counter, false;
      i := start;
      ghost var steps: nat := n;
      while !done
        invariant i < n && steps <= n
        invariant !done ==> steps > 0 && steps + Dist(n, start, i) == n
        invariant Scan(m_pid[..], start, n) == Scan(m_pid[..], i, steps)
        invariant done ==> Scan(m_pid[..], i, steps) == i
        invariant forall j: nat :: j < n && Dist(n, start, j) < n - steps ==> m_pid[j] == DEAD
        invariant done && m_pid[i] == DEAD ==> steps == 0
        decreases !done, steps
      {
        if m_pid[i] != DEAD {
          done := true;
        } else {
          i := NextSlot(n, i);
          steps := steps - 1;
          done := i == start;
        }
      }
    }

    /** The listen event; the result is the notified slot, -1 for none. */
    method OnConnection() returns (notified: int)
      requires Ok()
      modifies this
      ensures Ok() && Value() == Dispatch(old(Value()))
      ensures notified == if AllDead(m_pid[..]) then -1 else Target(old(Value()))
      ensures !AllDead(m_pid[..]) ==>
                && IsTarget(m_pid[..], old(m_sub_process_counter), notified)
                && m_sub_process_counter == Succ(m_pid.Length, notified) && m_stop == old(m_stop)
      ensures AllDead(m_pid[..]) ==> m_stop && m_sub_process_counter == old(m_sub_process_counter)
    {
      var i := FindChild();
      if m_pid[i] == DEAD {
        m_stop := true;
        return -1;
      }
      assert Value().pids[i] != DEAD;
      TargetIsFirstLive(Value());
      m_sub_process_counter := NextSlot(m_pid.Length, i);
      notified := i;
    }

    /** The inner loop after one successful waitpid. */
    method OnWaited(pid: int)
      requires Ok() && pid != DEAD
      modifies m_pid, pipeOpen
      ensures Value() == Reap(old(Value()), pid)
      ensures forall i :: 0 <= i < m_pid.Length ==> pipeOpen[i] == (old(pipeOpen[i]) && old(m_pid[i]) != pid)
    {
      for i := 0 to m_pid.Length
        invariant forall k :: 0 <= k < i ==> m_pid[k] == if old(m_pid[k]) == pid then DEAD else old(m_pid[k])
        invariant forall k :: i <= k < m_pid.Length ==> m_pid[k] == old(m_pid[k])
        invariant forall k :: 0 <= k < i ==> pipeOpen[k] == (old(pipeOpen[k]) && old(m_pid[k]) != pid)
        invariant forall k :: i <= k < m_pid.Length ==> pipeOpen[k] == old(pipeOpen[k])
      {
        if m_pid[i] == pid {
          pipeOpen[i] := false;
          m_pid[i] := DEAD;
        }
      }
    }

    /** The loop that looks for a slot that is not dead. */
    method DecideStop()
      requires Ok()
      modifies this`m_stop
      ensures Value() == Decide(old(Value()))
    {
      m_stop := true;
      for i := 0 to m_pid.Length
        invariant m_stop
        invariant forall k :: 0 <= k < i ==> m_pid[k] == DEAD
      {
        if m_pid[i] != DEAD {
          m_stop := false;
          assert Value().pids[i] != DEAD;
          return;
        }
      }
    }

    /** SIGTERM and SIGINT: every live slot's process is killed, and nothing else changes. */
    method OnTerminate() returns (killed: set<int>)
      requires Ok()
      ensures killed == Targets(Value())
    {
      killed := {};
      for i := 0 to m_pid.Length
        invariant killed == set k | 0 <= k < i && m_pid[k] != DEAD :: m_pid[k]
      {
        if m_pid[i] != DEAD {
          killed := killed + {m_pid[i]};
        }
      }
    }
  }
}
