/** The connection counter that the processes of one work server share: P, load, store and V of any number
    of processes interleave, processes may exit anywhere, and the heartbeat thread reads without the lock. */
module Counter {
  import opened CText
  import opened Frames

  /** share_mem_increase and share_mem_reduce. */
  datatype Op = Increase | Reduce

  function Delta(op: Op): int {
    if op == Increase then 1 else -1
  }

  /** Where a process is; a process serves its connections one after the other. */
  datatype Pc =
    | Outside
    | Waiting(op: Op)
    | Holding(op: Op)
    | Loaded(op: Op, register: int)
    | Stored(op: Op)

  /** semadj is what SEM_UNDO gives back when the process exits; open counts the connections of the process
      whose increase is done and whose reduce has not been stored. */
  datatype Proc = Proc(alive: bool, pc: Pc, semadj: int, open: int)

  /** increases and reduces count completed calls; orphaned is what processes that exited have left counted;
      cut is what calls that were cut off between store and V have contributed. */
  datatype State = State(
    shareMem: int, sem: int, procs: seq<Proc>,
    increases: nat, reduces: nat, orphaned: int, cut: int)

  datatype Step =
    | Begin(p: nat, op: Op)
    | Acquire(p: nat)
    | Load(p: nat)
    | Store(p: nat)
    | Release(p: nat)
    | Exit(p: nat)

  ghost predicate Initial(s: State) {
    s.shareMem == 0 && s.sem == 1 && s.increases == 0 && s.reduces == 0 && s.orphaned == 0 && s.cut == 0
    && forall i :: 0 <= i < |s.procs| ==> s.procs[i] == Proc(true, Outside, 0, 0)
  }

  ghost predicate Enabled(s: State, e: Step) {
    e.p < |s.procs| && s.procs[e.p].alive &&
    var q := s.procs[e.p];
    match e
    // a connection can only end after its init has returned
    case Begin(_, op) => q.pc == Outside && (op == Reduce ==> q.open > 0)
    case Acquire(_) => q.pc.Waiting? && s.sem > 0
    case Load(_) => q.pc.Holding?
    case Store(_) => q.pc.Loaded?
    case Release(_) => q.pc.Stored?
    case Exit(_) => true
  }

  function Put(s: State, p: nat, q: Proc): State
    requires p < |s.procs|
  {
    s.(procs := s.procs[p := q])
  }

  ghost function Next(s: State, e: Step): State
    requires Enabled(s, e)
  {
    var q := s.procs[e.p];
    match e
    case Begin(p, op) => Put(s, p, q.(pc := Waiting(op)))
    case Acquire(p) => Put(s, p, q.(pc := Holding(q.pc.op), semadj := q.semadj + 1)).(sem := s.sem - 1)
    case Load(p) => Put(s, p, q.(pc := Loaded(q.pc.op, s.shareMem)))
    case Store(p) =>
      Put(s, p, q.(pc := Stored(q.pc.op), open := q.open + Delta(q.pc.op)))
        .(shareMem := q.pc.register + Delta(q.pc.op))
    case Release(p) =>
      Put(s, p, q.(pc := Outside, semadj := q.semadj - 1))
        .(sem := s.sem + 1,
          increases := s.increases + if q.pc.op == Increase then 1 else 0,
          reduces := s.reduces + if q.pc.op == Reduce then 1 else 0)
    case Exit(p) =>
      Put(s, p, Proc(false, Outside, 0, 0))
        .(sem := s.sem + q.semadj,
          orphaned := s.orphaned + q.open,
          cut := s.cut + if q.pc.Stored? then Delta(q.pc.op) else 0)
  }

  ghost predicate Run(ss: seq<State>, es: seq<Step>) {
    && |ss| == |es| + 1
    && Initial(ss[0])
    && forall i :: 0 <= i < |es| ==> Enabled(ss[i], es[i]) && ss[i + 1] == Next(ss[i], es[i])
  }

  // ---- one call without interference -----------------------------------------------------------

  datatype Cell = Cell(shareMem: int, sem: int)

  class SharedCounter {
    var shareMem: int
    var sem: int

    function Value(): Cell
      reads this
    {
      Cell(shareMem, sem)
    }

    /** semop: op is -1 for P, which waits for a positive semaphore, and 1 for V. */
    method Pv(op: int)
      requires op in {-1, 1} && (op == -1 ==> sem > 0)
      modifies this`sem
      ensures sem == old(sem) + op
    {
      sem := sem + op;
    }

    method Call(op: Op)
      requires sem > 0
      modifies this
      ensures Value() == Cell(old(shareMem) + Delta(op), old(sem))
    {
      Pv(-1);
      var register := shareMem;
      shareMem := register + Delta(op);
      Pv(1);
    }
  }

  /** The five steps of the machine, taken in a row, are such a call. */
  lemma UninterruptedCall(s: State, p: nat, op: Op)
    requires Enabled(s, Begin(p, op)) && s.sem > 0
    ensures var s1 := Next(s, Begin(p, op));
            var s2 := Next(s1, Acquire(p));
            var s3 := Next(s2, Load(p));
            var s4 := Next(s3, Store(p));
            var s5 := Next(s4, Release(p));
            && Cell(s5.shareMem, s5.sem) == Cell(s.shareMem + Delta(op), s.sem)
            && s5.increases - s5.reduces == s.increases - s.reduces + Delta(op)
            && s5.procs == s.procs[p := s.procs[p].(open := s.procs[p].open + Delta(op))]
  {
    var s1 := Next(s, Begin(p, op));
    var s2 := Next(s1, Acquire(p));
    var s3 := Next(s2, Load(p));
    assert Enabled(Next(s3, Store(p)), Release(p));
  }

  // ---- sums over the processes -----------------------------------------------------------------

  predicate Inside(q: Proc) {
    q.pc.Holding? || q.pc.Loaded? || q.pc.Stored?
  }

  /** The processes between P and V. */
  function Holders(procs: seq<Proc>): nat {
    if procs == [] then 0 else (if Inside(procs[0]) then 1 else 0) + Holders(procs[1..])
  }

  function OpenConnections(procs: seq<Proc>): int {
    if procs == [] then 0 else procs[0].open + OpenConnections(procs[1..])
  }

  /** What calls between store and V have already done to the counter. */
  function InFlight(procs: seq<Proc>): int {
    if procs == [] then 0
    else (if procs[0].pc.Stored? then Delta(procs[0].pc.op) else 0) + InFlight(procs[1..])
  }

  lemma {:induction false} SumsMove(procs: seq<Proc>, p: nat, q: Proc)
    requires p < |procs|
    ensures var r := procs[p := q];
            && Holders(r) == Holders(procs) + (if Inside(q) then 1 else 0) - (if Inside(procs[p]) then 1 else 0)
            && OpenConnections(r) == OpenConnections(procs) + q.open - procs[p].open
            && InFlight(r) == InFlight(procs) + (if q.pc.Stored? then Delta(q.pc.op) else 0)
                                              - (if procs[p].pc.Stored? then Delta(procs[p].pc.op) else 0)
  {
    if p > 0 {
      SumsMove(procs[1..], p - 1, q);
      assert procs[p := q][1..] == procs[1..][p - 1 := q];
    } else {
      assert procs[p := q][1..] == procs[1..];
    }
  }

  lemma {:induction false} SumsStart(procs: seq<Proc>)
    requires forall i :: 0 <= i < |procs| ==> procs[i] == Proc(true, Outside, 0, 0)
    ensures Holders(procs) == 0 && OpenConnections(procs) == 0 && InFlight(procs) == 0
  {
    if procs != [] {
      SumsStart(procs[1..]);
    }
  }

  lemma {:induction false} TwoHolders(procs: seq<Proc>, p: nat, r: nat)
    requires p < r < |procs| && Inside(procs[p]) && Inside(procs[r])
    ensures Holders(procs) >= 2
  {
    if p > 0 {
      TwoHolders(procs[1..], p - 1, r - 1);
    } else {
      OneHolder(procs[1..], r - 1);
    }
  }

  lemma {:induction false} OneHolder(procs: seq<Proc>, p: nat)
    requires p < |procs| && Inside(procs[p])
    ensures Holders(procs) >= 1
  {
    if p > 0 {
      OneHolder(procs[1..], p - 1);
    }
  }

  lemma {:induction false} OpenAtLeast(procs: seq<Proc>, p: nat)
    requires p < |procs| && forall i :: 0 <= i < |procs| ==> procs[i].open >= 0
    ensures OpenConnections(procs) >= procs[p].open
  {
    OpenNonNegative(procs[1..]);
    if p > 0 {
      OpenAtLeast(procs[1..], p - 1);
    }
  }

  lemma {:induction false} OpenNonNegative(procs: seq<Proc>)
    requires forall i :: 0 <= i < |procs| ==> procs[i].open >= 0
    ensures OpenConnections(procs) >= 0
  {
    if procs != [] {
      OpenNonNegative(procs[1..]);
    }
  }

  // ---- the invariant ---------------------------------------------------------------------------

  ghost predicate ProcOk(s: State, q: Proc) {
    && q.open >= 0
    && q.semadj == (if Inside(q) then 1 else 0)
    && (q.pc.Loaded? ==> q.pc.register == s.shareMem)
    && (q.pc != Outside && !q.pc.Stored? && q.pc.op == Reduce ==> q.open > 0)
  }

  ghost predicate Inv(s: State) {
    && (forall i :: 0 <= i < |s.procs| ==> ProcOk(s, s.procs[i]))
    && s.sem >= 0 && s.sem + Holders(s.procs) == 1
    && s.orphaned >= 0
    && s.shareMem == OpenConnections(s.procs) + s.orphaned
    && s.shareMem == s.increases - s.reduces + InFlight(s.procs) + s.cut
  }

  lemma AtMostOneInside(s: State, p: nat, r: nat)
    requires Inv(s) && p < |s.procs| && r < |s.procs| && Inside(s.procs[p]) && Inside(s.procs[r])
    ensures p == r
  {
    if p < r {
      TwoHolders(s.procs, p, r);
    } else if r < p {
      TwoHolders(s.procs, r, p);
    }
  }

  lemma ProcsKept(s: State, e: Step)
    requires Inv(s) && Enabled(s, e)
    ensures forall i :: 0 <= i < |s.procs| ==> ProcOk(Next(s, e), Next(s, e).procs[i])
  {
    forall i | 0 <= i < |s.procs|
      ensures ProcOk(Next(s, e), Next(s, e).procs[i])
    {
      assert ProcOk(s, s.procs[i]) && ProcOk(s, s.procs[e.p]);
      if e.Store? && i != e.p && s.procs[i].pc.Loaded? {
        AtMostOneInside(s, i, e.p);
      }
    }
  }

  lemma StepKeepsInv(s: State, e: Step)
    requires Inv(s) && Enabled(s, e)
    ensures Inv(Next(s, e))
  {
    ProcsKept(s, e);
    assert ProcOk(s, s.procs[e.p]);
    SumsMove(s.procs, e.p, Next(s, e).procs[e.p]);
  }

  lemma {:induction false} RunKeepsInv(ss: seq<State>, es: seq<Step>, i: nat)
    requires Run(ss, es) && i <= |es|
    ensures Inv(ss[i])
  {
    if i == 0 {
      SumsStart(ss[0].procs);
    } else {
      RunKeepsInv(ss, es, i - 1);
      StepKeepsInv(ss[i - 1], es[i - 1]);
    }
  }

  lemma {:induction false} NobodyInFlight(procs: seq<Proc>)
    requires Holders(procs) == 0
    ensures InFlight(procs) == 0
  {
    if procs != [] {
      NobodyInFlight(procs[1..]);
    }
  }

  // ---- main results ----------------------------------------------------------------------------

  /** At most one process is between P and V, and the semaphore makes up the difference to one, also after
      processes have exited while holding it. */
  lemma MutualExclusion(ss: seq<State>, es: seq<Step>, i: nat, p: nat, r: nat)
    requires Run(ss, es) && i <= |es| && p < |ss[i].procs| && r < |ss[i].procs|
    ensures ss[i].sem + Holders(ss[i].procs) == 1 && ss[i].sem in {0, 1}
    ensures Inside(ss[i].procs[p]) && Inside(ss[i].procs[r]) ==> p == r
  {
    RunKeepsInv(ss, es, i);
    if Inside(ss[i].procs[p]) && Inside(ss[i].procs[r]) {
      AtMostOneInside(ss[i], p, r);
    }
  }

  ghost predicate NobodyExits(es: seq<Step>) {
    forall i :: 0 <= i < |es| ==> !es[i].Exit?
  }

  lemma {:induction false} NoDriftWithoutExit(ss: seq<State>, es: seq<Step>, i: nat)
    requires Run(ss, es) && i <= |es| && NobodyExits(es)
    ensures ss[i].orphaned == 0 && ss[i].cut == 0
  {
    if i > 0 {
      NoDriftWithoutExit(ss, es, i - 1);
    }
  }

  /** While no process exits, the counter is, whenever nobody holds the semaphore, the number of completed
      increases minus the number of completed reduces, and the number of open connections at all times. */
  lemma CounterExact(ss: seq<State>, es: seq<Step>, i: nat)
    requires Run(ss, es) && i <= |es| && NobodyExits(es)
    ensures Holders(ss[i].procs) == 0 ==> ss[i].shareMem == ss[i].increases - ss[i].reduces
    ensures ss[i].shareMem == OpenConnections(ss[i].procs) >= 0
  {
    RunKeepsInv(ss, es, i);
    NoDriftWithoutExit(ss, es, i);
    OpenNonNegative(ss[i].procs);
    if Holders(ss[i].procs) == 0 {
      NobodyInFlight(ss[i].procs);
    }
  }

  /** With exits the counter is too high by exactly the connections that exited processes left counted: it
      never falls below the connections that are open. */
  lemma CounterDrift(ss: seq<State>, es: seq<Step>, i: nat)
    requires Run(ss, es) && i <= |es|
    ensures ss[i].shareMem == OpenConnections(ss[i].procs) + ss[i].orphaned
    ensures ss[i].orphaned >= 0 && ss[i].shareMem >= OpenConnections(ss[i].procs) >= 0
    ensures i > 0 ==> ss[i].orphaned
                      == ss[i - 1].orphaned + if es[i - 1].Exit? then ss[i - 1].procs[es[i - 1].p].open else 0
  {
    RunKeepsInv(ss, es, i);
    OpenNonNegative(ss[i].procs);
  }

  // ---- the heartbeat ---------------------------------------------------------------------------

  /** report_connect prints the count into six characters and sends it. */
  function Heartbeat(count: int): string {
    FrameOf(REPORT_CONNECT, Some(Decimal(count)))
  }

  /** What the route server takes from a heartbeat frame. */
  function ReportedCount(stale: string, wire: string): int
    requires |stale| == BUFFER_SIZE
  {
    Atoi(ServerDecode(stale, wire).body)
  }

  /** An unlocked read, at any moment of any run, fits the six-character buffer exactly if it is at most 99999;
      then the route server receives that very number, which is no less than the number of open connections at
      that moment and so never -1. */
  lemma HeartbeatDelivered(ss: seq<State>, es: seq<Step>, i: nat, stale: string)
    requires Run(ss, es) && i <= |es| && |stale| == BUFFER_SIZE
    ensures |Decimal(ss[i].shareMem)| + 1 <= 6 <==> ss[i].shareMem <= 99999
    ensures ss[i].shareMem <= 99999 ==>
              && ServerDecode(stale, Heartbeat(ss[i].shareMem)).kind == REPORT_CONNECT
              && ReportedCount(stale, Heartbeat(ss[i].shareMem)) == ss[i].shareMem
    ensures ss[i].shareMem >= OpenConnections(ss[i].procs) >= 0
  {
    var n := ss[i].shareMem;
    CounterDrift(ss, es, i);
    assert Pow10(5) == 100000 by {
      assert Pow10(2) == 100 && Pow10(3) == 10 * Pow10(2) && Pow10(4) == 10 * Pow10(3);
    }
    DigitsFit(n, 5);
    DecimalPlain(n);
    AtoiOfDecimal(n);
    if n <= 99999 {
      FrameRoundTrip(stale, REPORT_CONNECT, Decimal(n));
    }
  }
}
