/** The parent loop together with its children, the SIGCHLD bit and the signal pipe: safety in every
    reachable state, and a bound on every shutdown. The pipe never overflows, and children are alive when the
    signal handlers are installed. */
module PoolRuns {
  import opened Pool

  datatype Signal = Child | Terminate

  /** running and zombies are process ids; pending is the kernel's one bit for SIGCHLD; reaping says the
      parent is inside the waitpid loop; closes counts close calls on each slot's pipe; doomed are the
      processes kill-all has signalled; notified are the slots that got a connection, oldest first. */
  datatype World = World(
    parent: Parent,
    running: set<int>, zombies: set<int>,
    pending: bool, pipe: seq<Signal>, reaping: bool,
    closes: seq<nat>, doomed: set<int>, killed: bool,
    notified: seq<nat>)

  datatype Step =
    | Connection
    | ChildExits(pid: int)
    | ChildStops
    | TermArrives
    | HandlerRuns
    | ReadSignal
    | WaitReturns(pid: int)
    | WaitReturnsNone

  ghost predicate Initial(w: World) {
    var pids := w.parent.pids;
    && |pids| > 0 && w.parent == Parent(pids, 0, false)
    && (forall i :: 0 <= i < |pids| ==> pids[i] > 0)
    && (forall i, j :: 0 <= i < j < |pids| ==> pids[i] != pids[j])
    && w.running == Targets(w.parent) && w.zombies == {}
    && !w.pending && w.pipe == [] && !w.reaping
    && w.closes == seq(|pids|, i => 0)
    && w.doomed == {} && !w.killed && w.notified == []
  }

  ghost predicate Enabled(w: World, step: Step) {
    match step
    // the loop may still handle the rest of its event batch after m_stop is set
    case Connection => Valid(w.parent) && !w.reaping
    case ChildExits(pid) => pid in w.running
    case ChildStops => w.running != {}
    case TermArrives => true
    case HandlerRuns => w.pending
    case ReadSignal => !w.reaping && w.pipe != []
    case WaitReturns(pid) => w.reaping && pid in w.zombies
    case WaitReturnsNone => w.reaping && w.zombies == {}
  }

  ghost function Next(w: World, step: Step): World
    requires Enabled(w, step)
  {
    match step
    case Connection =>
      w.(parent := Dispatch(w.parent),
         notified := if AllDead(w.parent.pids) then w.notified else w.notified + [Target(w.parent)])
    case ChildExits(pid) => w.(running := w.running - {pid}, zombies := w.zombies + {pid}, pending := true)
    case ChildStops => w.(pending := true)
    case TermArrives => w.(pipe := w.pipe + [Terminate])
    case HandlerRuns => w.(pending := false, pipe := w.pipe + [Child])
    case ReadSignal =>
      if w.pipe[0].Child? then w.(pipe := w.pipe[1..], reaping := true)
      else w.(pipe := w.pipe[1..], doomed := w.doomed + Targets(w.parent), killed := true)
    case WaitReturns(pid) =>
      w.(zombies := w.zombies - {pid}, parent := Reap(w.parent, pid),
         closes := seq(|w.closes|, i requires 0 <= i < |w.closes| =>
                         if i < |w.parent.pids| && w.parent.pids[i] == pid then w.closes[i] + 1 else w.closes[i]))
    case WaitReturnsNone => w.(parent := Decide(w.parent), reaping := false)
  }

  ghost predicate Run(ws: seq<World>, steps: seq<Step>) {
    && |ws| == |steps| + 1
    && forall k :: 0 <= k < |steps| ==> Enabled(ws[k], steps[k]) && ws[k + 1] == Next(ws[k], steps[k])
  }

  // ---- the invariant ---------------------------------------------------------------------------

  /** The live slots hold, each once, exactly the processes that have not been reaped. */
  ghost predicate SlotsOk(w: World) {
    var pids := w.parent.pids;
    && |pids| == |w.closes|
    && (forall i, j :: 0 <= i < j < |pids| && pids[i] != DEAD ==> pids[i] != pids[j])
    && (forall pid :: pid in w.running ==> pid > 0)
    && (forall pid :: pid in w.zombies ==> pid > 0)
    && w.running !! w.zombies
    && Targets(w.parent) == w.running + w.zombies
    && forall i :: 0 <= i < |pids| ==> w.closes[i] == if pids[i] == DEAD then 1 else 0
  }

  /** A dead child that has not been reaped will be noticed. */
  ghost predicate WakeupOk(w: World) {
    w.zombies != {} ==> w.pending || Child in w.pipe || w.reaping
  }

  ghost predicate StopOk(w: World) {
    && (w.parent.stop ==> AllDead(w.parent.pids))
    && (AllDead(w.parent.pids) && !w.parent.stop ==> w.reaping)
  }

  ghost predicate Inv(w: World) {
    && Valid(w.parent) && SlotsOk(w) && WakeupOk(w) && StopOk(w)
    && (if w.killed then w.running <= w.doomed else w.doomed == {})
  }

  lemma ConnectionKeepsInv(w: World)
    requires Inv(w) && Enabled(w, Connection)
    ensures Inv(Next(w, Connection))
    ensures !AllDead(w.parent.pids) ==>
              var t := Target(w.parent);
              Next(w, Connection).notified == w.notified + [t] && Live(w.parent.pids, t) && w.closes[t] == 0
  {
    if !AllDead(w.parent.pids) {
      TargetIsFirstLive(w.parent);
    }
    assert Targets(Dispatch(w.parent)) == Targets(w.parent);
  }

  lemma ReapKeepsInv(w: World, pid: int)
    requires Inv(w) && Enabled(w, WaitReturns(pid))
    ensures Inv(Next(w, WaitReturns(pid)))
  {
    var w' := Next(w, WaitReturns(pid));
    var pids, pids' := w.parent.pids, w'.parent.pids;
    assert pid in Targets(w.parent);
    assert forall i :: 0 <= i < |pids| && pids[i] != DEAD && pids[i] != pid ==> pids'[i] == pids[i];
    assert Targets(w'.parent) == Targets(w.parent) - {pid} by {
      forall x | x in Targets(w.parent) - {pid}
        ensures x in Targets(w'.parent)
      {
        var i :| 0 <= i < |pids| && pids[i] == x && x != DEAD;
        assert pids'[i] == x;
      }
    }
    var i :| 0 <= i < |pids| && pids[i] == pid;
    assert !AllDead(pids);
  }

  lemma ReadKeepsInv(w: World)
    requires Inv(w) && Enabled(w, ReadSignal)
    ensures Inv(Next(w, ReadSignal))
  {
    assert w.pipe == [w.pipe[0]] + w.pipe[1..];
  }

  lemma HandlerKeepsInv(w: World)
    requires Inv(w) && Enabled(w, HandlerRuns)
    ensures Inv(Next(w, HandlerRuns))
  {
    assert Child in w.pipe + [Child];
  }

  lemma TermKeepsInv(w: World)
    requires Inv(w)
    ensures Inv(Next(w, TermArrives))
  {
    assert Child in w.pipe ==> Child in w.pipe + [Terminate];
  }

  lemma DecideKeepsInv(w: World)
    requires Inv(w) && Enabled(w, WaitReturnsNone)
    ensures Inv(Next(w, WaitReturnsNone))
  {
    assert Targets(Decide(w.parent)) == Targets(w.parent);
  }

  lemma StepKeepsInv(w: World, step: Step)
    requires Inv(w) && Enabled(w, step)
    ensures Inv(Next(w, step))
  {
    match step
    case Connection => ConnectionKeepsInv(w);
    case ReadSignal => ReadKeepsInv(w);
    case HandlerRuns => HandlerKeepsInv(w);
    case TermArrives => TermKeepsInv(w);
    case WaitReturns(pid) => ReapKeepsInv(w, pid);
    case WaitReturnsNone => DecideKeepsInv(w);
    case ChildExits(pid) =>
    case ChildStops =>
  }

  lemma InitialInv(w: World)
    requires Initial(w)
    ensures Inv(w)
  {
    assert w.parent.pids[0] != DEAD;
    forall pid | pid in w.running
      ensures pid > 0
    {
      var i :| 0 <= i < |w.parent.pids| && w.parent.pids[i] == pid;
    }
  }

  lemma {:induction false} RunKeepsInv(ws: seq<World>, steps: seq<Step>, k: nat)
    requires Run(ws, steps) && Inv(ws[0]) && k <= |steps|
    ensures Inv(ws[k])
  {
    if k > 0 {
      RunKeepsInv(ws, steps, k - 1);
      StepKeepsInv(ws[k - 1], steps[k - 1]);
    }
  }

  // ---- safety ----------------------------------------------------------------------------------

  lemma StepLasting(w: World, step: Step)
    requires Inv(w) && Enabled(w, step)
    ensures w.parent.stop ==> Next(w, step).parent.stop
    ensures |Next(w, step).parent.pids| == |w.parent.pids|
    ensures forall i :: 0 <= i < |w.parent.pids| ==> Next(w, step).parent.pids[i] in {DEAD, w.parent.pids[i]}
  {
  }

  lemma {:induction false} Lasting(ws: seq<World>, steps: seq<Step>, j: nat, k: nat)
    requires Run(ws, steps) && Inv(ws[0]) && j <= k <= |steps|
    ensures ws[j].parent.stop ==> ws[k].parent.stop
    ensures |ws[k].parent.pids| == |ws[j].parent.pids|
    ensures forall i :: 0 <= i < |ws[j].parent.pids| ==> ws[k].parent.pids[i] in {DEAD, ws[j].parent.pids[i]}
    decreases k
  {
    if j < k {
      Lasting(ws, steps, j, k - 1);
      RunKeepsInv(ws, steps, k - 1);
      StepLasting(ws[k - 1], steps[k - 1]);
    }
  }

  /** In every reachable state: the loop stops only when every slot is dead, and then for good; the counter
      is an index; every slot's pipe has been closed once if the slot is dead and not at all if it lives; and
      a dead child that is not reaped has a SIGCHLD pending, a byte in the pipe or the waitpid loop ahead. */
  lemma PoolSafety(ws: seq<World>, steps: seq<Step>, j: nat, k: nat)
    requires Run(ws, steps) && Initial(ws[0]) && j <= k <= |steps|
    ensures ws[k].parent.stop ==> AllDead(ws[k].parent.pids)
    ensures ws[j].parent.stop ==> ws[k].parent.stop
    ensures ws[k].parent.counter < |ws[k].parent.pids| == |ws[0].parent.pids| == |ws[k].closes|
    ensures forall i :: 0 <= i < |ws[k].closes| ==> ws[k].closes[i] == if Live(ws[k].parent.pids, i) then 0 else 1
    ensures ws[k].zombies != {} ==> ws[k].pending || Child in ws[k].pipe || ws[k].reaping
  {
    InitialInv(ws[0]);
    RunKeepsInv(ws, steps, k);
    Lasting(ws, steps, j, k);
    Lasting(ws, steps, 0, k);
  }

  /** A connection notifies exactly one slot, which lives and whose pipe is open, or no slot at all. */
  lemma NotifiedSlotIsLive(ws: seq<World>, steps: seq<Step>, k: nat)
    requires Run(ws, steps) && Initial(ws[0]) && k < |steps| && steps[k].Connection?
    ensures if AllDead(ws[k].parent.pids)
            then ws[k + 1].notified == ws[k].notified && ws[k + 1].parent.stop
            else exists t :: ws[k + 1].notified == ws[k].notified + [t]
                          && Live(ws[k].parent.pids, t) && t < |ws[k].closes| && ws[k].closes[t] == 0
  {
    InitialInv(ws[0]);
    RunKeepsInv(ws, steps, k);
    ConnectionKeepsInv(ws[k]);
  }

  // ---- shutdown --------------------------------------------------------------------------------

  /** The steps a shutdown needs nobody outside for: signalled children exit, the rest is the parent, which may
      leave its loop without reading what comes after m_stop is set. */
  ghost predicate Internal(w: World, step: Step) {
    Enabled(w, step) &&
    match step
    case ChildExits(pid) => pid in w.doomed
    case HandlerRuns => true
    case ReadSignal => !w.parent.stop
    case WaitReturns(_) => true
    case WaitReturnsNone => true
    case _ => false
  }

  /** Children that still have to exit and to be reaped. */
  ghost function Remaining(w: World): nat {
    2 * |w.running| + |w.zombies|
  }

  ghost function Measure(w: World): nat {
    5 * |w.running| + |w.zombies| + 3 * (if w.pending then 1 else 0) + 2 * |w.pipe| + if w.reaping then 1 else 0
  }

  /** Each exit and each reap brings the end nearer by one, and no other step, of whatever kind, takes it
      further away. */
  lemma RemainingFalls(w: World, step: Step)
    requires Inv(w) && Enabled(w, step)
    ensures Remaining(Next(w, step)) == Remaining(w) - if step.ChildExits? || step.WaitReturns? then 1 else 0
    ensures Remaining(w) == 0 <==> AllDead(w.parent.pids)
  {
    if step.ChildExits? || step.WaitReturns? {
      ChildStepCounts(w, step);
    }
    NobodyLeft(w);
  }

  lemma NobodyLeft(w: World)
    requires Inv(w)
    ensures w.running == {} && w.zombies == {} <==> AllDead(w.parent.pids)
  {
    if w.running == {} && w.zombies == {} {
      var pids := w.parent.pids;
      assert forall i :: 0 <= i < |pids| && pids[i] != DEAD ==> pids[i] in Targets(w.parent);
    } else {
      var pid :| pid in w.running + w.zombies;
      assert pid in Targets(w.parent);
    }
  }

  lemma ChildStepFalls(w: World, step: Step)
    requires w.running !! w.zombies && Enabled(w, step) && (step.ChildExits? || step.WaitReturns?)
    ensures Measure(Next(w, step)) < Measure(w)
  {
    ChildStepCounts(w, step);
  }

  lemma ChildStepCounts(w: World, step: Step)
    requires w.running !! w.zombies && Enabled(w, step) && (step.ChildExits? || step.WaitReturns?)
    ensures var w' := Next(w, step);
            if step.ChildExits? then |w'.running| == |w.running| - 1 && |w'.zombies| == |w.zombies| + 1
            else w'.running == w.running && |w'.zombies| == |w.zombies| - 1
  {
    var w', pid := Next(w, step), step.pid;
    if step.ChildExits? {
      assert w'.running == w.running - {pid} && w'.zombies == w.zombies + {pid};
      assert |w'.running| == |w.running| - 1 && |w'.zombies| == |w.zombies| + 1;
    } else {
      assert w'.running == w.running && w'.zombies == w.zombies - {pid};
      assert |w'.zombies| == |w.zombies| - 1;
    }
  }

  lemma InternalStepFalls(w: World, step: Step)
    requires w.running !! w.zombies && Internal(w, step)
    ensures Measure(Next(w, step)) < Measure(w)
  {
    if step.ChildExits? || step.WaitReturns? {
      ChildStepFalls(w, step);
    } else {
      assert Next(w, step).running == w.running && Next(w, step).zombies == w.zombies;
    }
  }

  /** A termination signal has arrived: its byte is in the pipe, or it has been read. */
  ghost predicate Terminating(w: World) {
    w.killed || Terminate in w.pipe
  }

  /** Reading a termination signal signals every child that still runs. */
  lemma KillAllReachesEveryone(w: World)
    requires Inv(w) && Enabled(w, ReadSignal) && w.pipe[0] == Terminate
    ensures Next(w, ReadSignal).killed && w.running <= Next(w, ReadSignal).doomed
    ensures Next(w, ReadSignal).parent == w.parent
  {
  }

  lemma TerminatingStays(w: World, step: Step)
    requires Inv(w) && Enabled(w, step) && (Terminating(w) || step.TermArrives?)
    ensures Terminating(Next(w, step))
  {
    var w' := Next(w, step);
    if step.ReadSignal? && !w.killed {
      assert w.pipe == [w.pipe[0]] + w.pipe[1..];
      if w.pipe[0] == Terminate {
        KillAllReachesEveryone(w);
      }
    } else if step.TermArrives? {
      assert w'.pipe[|w.pipe|] == Terminate;
    } else if step.HandlerRuns? {
      assert Terminate in w.pipe ==> Terminate in w.pipe + [Child];
    }
  }

  /** Once a termination signal has arrived there is always a next internal step until the loop has stopped. */
  lemma ShutdownProgress(w: World) returns (step: Step)
    requires Inv(w) && Terminating(w) && !w.parent.stop
    ensures Internal(w, step)
  {
    if w.reaping {
      if w.zombies == {} {
        step := WaitReturnsNone;
      } else {
        var pid :| pid in w.zombies;
        step := WaitReturns(pid);
      }
    } else if w.pipe != [] {
      step := ReadSignal;
    } else if w.pending {
      step := HandlerRuns;
    } else {
      NobodyLeft(w);
      var pid :| pid in w.running;
      step := ChildExits(pid);
    }
  }

  ghost predicate InternalRun(ws: seq<World>, steps: seq<Step>) {
    Run(ws, steps) && forall k :: 0 <= k < |steps| ==> Internal(ws[k], steps[k])
  }

  lemma InternalNext(ws: seq<World>, steps: seq<Step>, k: nat)
    requires InternalRun(ws, steps) && Inv(ws[0]) && k < |steps|
    ensures Measure(ws[k + 1]) + 1 <= Measure(ws[k])
    ensures Terminating(ws[k]) ==> Terminating(ws[k + 1])
  {
    RunKeepsInv(ws, steps, k);
    InternalStepFalls(ws[k], steps[k]);
    if Terminating(ws[k]) {
      TerminatingStays(ws[k], steps[k]);
    }
  }

  lemma {:induction false} InternalRunBounded(ws: seq<World>, steps: seq<Step>, k: nat)
    requires InternalRun(ws, steps) && Inv(ws[0]) && k <= |steps|
    ensures Measure(ws[k]) + k <= Measure(ws[0])
    ensures Terminating(ws[0]) ==> Terminating(ws[k])
  {
    if k > 0 {
      InternalRunBounded(ws, steps, k - 1);
      InternalNext(ws, steps, k - 1);
    }
  }

  lemma {:induction false} TermNoticed(ws: seq<World>, steps: seq<Step>, j: nat, k: nat)
    requires Run(ws, steps) && Inv(ws[0]) && j < k <= |steps| && steps[j].TermArrives?
    ensures Terminating(ws[k])
    decreases k
  {
    RunKeepsInv(ws, steps, k - 1);
    if j < k - 1 {
      TermNoticed(ws, steps, j, k - 1);
    }
    TerminatingStays(ws[k - 1], steps[k - 1]);
  }

  /** In internal steps no child exits before kill-all. */
  lemma {:induction false} NobodyExitsUnkilled(ws: seq<World>, steps: seq<Step>, k: nat)
    requires InternalRun(ws, steps) && Inv(ws[0]) && k <= |steps|
    ensures ws[k].killed || ws[k].running == ws[0].running
  {
    if k > 0 {
      NobodyExitsUnkilled(ws, steps, k - 1);
      RunKeepsInv(ws, steps, k - 1);
    }
  }

  /** Shutdown: from any moment after the arrival of a termination signal, whatever happened before, every
      continuation by internal steps is no longer than the measure, and one that cannot be continued has every
      slot dead and m_stop set. The signal has been read by then if a child was still running at that moment;
      the loop may end without reading it when all children have exited on their own. */
  lemma ShutdownTerminates(before: seq<World>, past: seq<Step>, j: nat, ws: seq<World>, steps: seq<Step>)
    requires Run(before, past) && Initial(before[0]) && j < |past| && past[j].TermArrives?
    requires InternalRun(ws, steps) && ws[0] == before[|past|]
    ensures |steps| <= Measure(before[|past|])
    ensures (forall step :: !Internal(ws[|steps|], step))
              ==> var w := ws[|steps|];
                  w.parent.stop && AllDead(w.parent.pids) && (ws[0].running != {} ==> w.killed)
  {
    InitialInv(before[0]);
    RunKeepsInv(before, past, |past|);
    TermNoticed(before, past, j, |past|);
    InternalRunBounded(ws, steps, |steps|);
    RunKeepsInv(ws, steps, |steps|);
    NobodyExitsUnkilled(ws, steps, |steps|);
    if !ws[|steps|].parent.stop {
      var step := ShutdownProgress(ws[|steps|]);
    } else {
      NobodyLeft(ws[|steps|]);
    }
  }
}
