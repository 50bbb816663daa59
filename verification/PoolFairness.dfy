/** How evenly the round robin serves the children, over whole runs in which children may die. */
module PoolFairness {
  import opened Pool
  import opened PoolRuns

  /** The step hands a connection to slot c. */
  ghost predicate Hands(w: World, step: Step, c: nat)
    requires Valid(w.parent)
  {
    step.Connection? && !AllDead(w.parent.pids) && Target(w.parent) == c
  }

  /** Step k of a run does. */
  ghost predicate DispatchesTo(ws: seq<World>, steps: seq<Step>, k: nat, c: nat)
    requires Run(ws, steps) && k < |steps|
  {
    Valid(ws[k].parent) && Hands(ws[k], steps[k], c)
  }

  /** How many of the steps lo .. hi - 1 hand a connection to d. */
  ghost function Dispatches(ws: seq<World>, steps: seq<Step>, lo: nat, hi: nat, d: nat): nat
    requires Run(ws, steps) && lo <= hi <= |steps|
    decreases hi
  {
    if lo == hi then 0
    else Dispatches(ws, steps, lo, hi - 1, d) + if DispatchesTo(ws, steps, hi - 1, d) then 1 else 0
  }

  /** What one step does to the scan. */
  lemma ScanMoves(w: World, step: Step)
    requires Inv(w) && Enabled(w, step)
    ensures var w' := Next(w, step);
            if step.Connection? && !AllDead(w.parent.pids)
            then IsTarget(w.parent.pids, w.parent.counter, Target(w.parent))
                 && w'.parent.counter == Succ(|w.parent.pids|, Target(w.parent)) && w'.parent.pids == w.parent.pids
            else w'.parent.counter == w.parent.counter
  {
    if step.Connection? && !AllDead(w.parent.pids) {
      TargetIsFirstLive(w.parent);
    }
  }

  // ---- between two turns of one child ----------------------------------------------------------

  /** Distances seen from the slot first. */
  lemma Seen(n: nat, first: nat, a: nat, x: nat)
    requires first < n && a < n && x < n
    ensures var p, o := Dist(n, first, a), Dist(n, first, x);
            Dist(n, a, x) == if o >= p then o - p else o - p + n
    ensures Dist(n, first, x) + 1 < n ==> Dist(n, first, Succ(n, x)) == Dist(n, first, x) + 1
  {
  }

  /** One dispatch that passes over c: the counter moves on without going past c, and d is served exactly
      if the counter passes it now. */
  lemma TurnStep(pids: seq<int>, counter: nat, t: nat, c: nat, d: nat)
    requires counter < |pids| && c < |pids| && d < |pids| && t < |pids|
    requires IsTarget(pids, counter, t) && Live(pids, c) && Live(pids, d) && t != c && d != c
    ensures var n := |pids|; var first := Succ(n, c);
            var p, p', q := Dist(n, first, counter), Dist(n, first, Succ(n, t)), Dist(n, first, d);
            && (q < p ==> q < p' && t != d)
            && (q >= p ==> (q < p' <==> t == d))
  {
    var n := |pids|;
    var first := Succ(n, c);
    assert Dist(n, first, c) == n - 1;
    Seen(n, first, counter, c);
    Seen(n, first, counter, t);
    Seen(n, first, counter, d);
    assert !(Dist(n, counter, c) < Dist(n, counter, t));
    assert !(Dist(n, counter, d) < Dist(n, counter, t));
    SameDistanceIsSame(n, counter, c, t);
    SameDistanceIsSame(n, counter, d, t);
    SameDistanceIsSame(n, first, d, t);
  }

  lemma SameDistanceIsSame(n: nat, a: nat, x: nat, y: nat)
    requires a < n && x < n && y < n
    ensures Dist(n, a, x) == Dist(n, a, y) <==> x == y
  {
  }

  /** Going round from behind c, the scan has passed d. */
  ghost predicate Passed(w: World, c: nat, d: nat) {
    var n := |w.parent.pids|;
    c < n && d < n && w.parent.counter < n
    && Dist(n, Succ(n, c), d) < Dist(n, Succ(n, c), w.parent.counter)
  }

  lemma PassedStart(w: World, step: Step, c: nat, d: nat)
    requires Inv(w) && Enabled(w, step) && Hands(w, step, c)
    ensures !Passed(Next(w, step), c, d)
  {
    ScanMoves(w, step);
  }

  lemma PassedStep(w: World, step: Step, c: nat, d: nat)
    requires Inv(w) && Enabled(w, step) && !Hands(w, step, c)
    requires Live(w.parent.pids, c) && Live(w.parent.pids, d) && c != d
    ensures Passed(Next(w, step), c, d) <==> Passed(w, c, d) || Hands(w, step, d)
    ensures Passed(w, c, d) ==> !Hands(w, step, d)
  {
    ScanMoves(w, step);
    StepLasting(w, step);
    if step.Connection? && !AllDead(w.parent.pids) {
      TurnStep(w.parent.pids, w.parent.counter, Target(w.parent), c, d);
    }
  }

  lemma LiveBefore(ws: seq<World>, steps: seq<Step>, k: nat, b: nat, c: nat)
    requires Run(ws, steps) && Initial(ws[0]) && k <= b < |steps| && DispatchesTo(ws, steps, b, c)
    ensures Live(ws[k].parent.pids, c)
  {
    InitialInv(ws[0]);
    RunKeepsInv(ws, steps, b);
    TargetIsFirstLive(ws[b].parent);
    Lasting(ws, steps, k, b);
  }

  /** Since step a, d has had its turn exactly if the scan has passed it. */
  ghost predicate TurnOk(ws: seq<World>, steps: seq<Step>, a: nat, k: nat, c: nat, d: nat)
    requires Run(ws, steps) && a < k <= |steps|
  {
    Dispatches(ws, steps, a + 1, k, d) == if Passed(ws[k], c, d) then 1 else 0
  }

  lemma TurnStart(ws: seq<World>, steps: seq<Step>, a: nat, c: nat, d: nat)
    requires Run(ws, steps) && a < |steps| && Inv(ws[a]) && DispatchesTo(ws, steps, a, c)
    ensures TurnOk(ws, steps, a, a + 1, c, d)
  {
    PassedStart(ws[a], steps[a], c, d);
  }

  /** Step k is none of c's turns, and both c and d live. */
  ghost predicate Meanwhile(ws: seq<World>, steps: seq<Step>, k: nat, c: nat, d: nat)
    requires Run(ws, steps) && k < |steps|
  {
    Inv(ws[k]) && !DispatchesTo(ws, steps, k, c) && Live(ws[k].parent.pids, c) && Live(ws[k].parent.pids, d)
  }

  lemma TurnNext(ws: seq<World>, steps: seq<Step>, a: nat, k: nat, c: nat, d: nat)
    requires Run(ws, steps) && a + 1 < k <= |steps| && d != c && Meanwhile(ws, steps, k - 1, c, d)
    requires TurnOk(ws, steps, a, k - 1, c, d)
    ensures TurnOk(ws, steps, a, k, c, d)
  {
    PassedStep(ws[k - 1], steps[k - 1], c, d);
  }

  lemma {:induction false} TurnInvariant(ws: seq<World>, steps: seq<Step>, a: nat, k: nat, c: nat, d: nat)
    requires Run(ws, steps) && a < k <= |steps| && d != c
    requires TurnOk(ws, steps, a, a + 1, c, d)
    requires forall j :: a < j < k ==> Meanwhile(ws, steps, j, c, d)
    ensures TurnOk(ws, steps, a, k, c, d)
    decreases k
  {
    if a + 1 < k {
      TurnInvariant(ws, steps, a, k - 1, c, d);
      TurnNext(ws, steps, a, k, c, d);
    }
  }

  lemma BetweenTurns(ws: seq<World>, steps: seq<Step>, k: nat, b: nat, c: nat, d: nat)
    requires Run(ws, steps) && Initial(ws[0]) && k < b < |steps| && DispatchesTo(ws, steps, b, c)
    requires !DispatchesTo(ws, steps, k, c) && Live(ws[k].parent.pids, d)
    ensures Meanwhile(ws, steps, k, c, d)
  {
    InitialInv(ws[0]);
    RunKeepsInv(ws, steps, k);
    LiveBefore(ws, steps, k, b, c);
  }

  /** Between two consecutive connections handed to child c, every other child that lives throughout is
      handed exactly one, whoever else dies in the meantime. */
  lemma OneTurnEach(ws: seq<World>, steps: seq<Step>, a: nat, b: nat, c: nat, d: nat)
    requires Run(ws, steps) && Initial(ws[0]) && a < b < |steps|
    requires DispatchesTo(ws, steps, a, c) && DispatchesTo(ws, steps, b, c)
    requires forall j :: a < j < b ==> !DispatchesTo(ws, steps, j, c)
    requires d != c && forall j :: a <= j <= b ==> Live(ws[j].parent.pids, d)
    ensures Dispatches(ws, steps, a + 1, b, d) == 1
  {
    InitialInv(ws[0]);
    RunKeepsInv(ws, steps, a);
    RunKeepsInv(ws, steps, b);
    forall k | a < k < b
      ensures Meanwhile(ws, steps, k, c, d)
    {
      BetweenTurns(ws, steps, k, b, c, d);
    }
    TurnStart(ws, steps, a, c, d);
    TurnInvariant(ws, steps, a, b, c, d);
    TargetIsFirstLive(ws[b].parent);
    var n, counter := |ws[b].parent.pids|, ws[b].parent.counter;
    var first := Succ(n, c);
    assert Dist(n, first, c) == n - 1;
    Seen(n, first, counter, c);
    Seen(n, first, counter, d);
    assert !(Dist(n, counter, d) < Dist(n, counter, c));
    SameDistanceIsSame(n, first, c, d);
  }

  // ---- a fixed set of live children ------------------------------------------------------------

  function LiveUpTo(pids: seq<int>, k: nat): nat
    requires k <= |pids|
  {
    if k == 0 then 0 else LiveUpTo(pids, k - 1) + if pids[k - 1] != DEAD then 1 else 0
  }

  /** The number of live children. */
  function LiveChildren(pids: seq<int>): nat {
    LiveUpTo(pids, |pids|)
  }

  /** How many of the m slots from i on, going round, live. */
  function LiveFrom(pids: seq<int>, i: nat, m: nat): nat
    requires i < |pids|
    decreases m
  {
    if m == 0 then 0 else (if pids[i] != DEAD then 1 else 0) + LiveFrom(pids, Succ(|pids|, i), m - 1)
  }

  function Advance(n: nat, i: nat, m: nat): (j: nat)
    requires i < n
    ensures j < n
    decreases m
  {
    if m == 0 then i else Advance(n, Succ(n, i), m - 1)
  }

  lemma {:induction false} AdvanceDistance(n: nat, i: nat, j: nat)
    requires i < n && j < n
    ensures Advance(n, i, Dist(n, i, j)) == j
    decreases Dist(n, i, j)
  {
    if i != j {
      assert Dist(n, Succ(n, i), j) == Dist(n, i, j) - 1;
      AdvanceDistance(n, Succ(n, i), j);
    }
  }

  lemma {:induction false} LiveFromSplit(pids: seq<int>, i: nat, a: nat, b: nat)
    requires i < |pids|
    ensures LiveFrom(pids, i, a + b) == LiveFrom(pids, i, a) + LiveFrom(pids, Advance(|pids|, i, a), b)
    decreases a
  {
    if a > 0 {
      LiveFromSplit(pids, Succ(|pids|, i), a - 1, b);
    }
  }

  lemma {:induction false} LiveFromStart(pids: seq<int>, i: nat, m: nat)
    requires i < |pids| && i + m <= |pids|
    ensures LiveUpTo(pids, i) + LiveFrom(pids, i, m) == LiveUpTo(pids, i + m)
    decreases m
  {
    if m > 1 {
      LiveFromStart(pids, i + 1, m - 1);
    } else if m == 1 {
      assert LiveFrom(pids, i, 1) == (if pids[i] != DEAD then 1 else 0) + LiveFrom(pids, Succ(|pids|, i), 0);
    }
  }

  /** A whole round counts every live child once, wherever it starts. */
  lemma {:induction false} WholeRound(pids: seq<int>, i: nat)
    requires i < |pids|
    ensures LiveFrom(pids, i, |pids|) == LiveChildren(pids)
    decreases i
  {
    var n := |pids|;
    if i == 0 {
      LiveFromStart(pids, 0, n);
    } else {
      WholeRound(pids, i - 1);
      assert Succ(n, i - 1) == i;
      assert Dist(n, i, i - 1) == n - 1;
      AdvanceDistance(n, i, i - 1);
      LiveFromSplit(pids, i, n - 1, 1);
      assert LiveFrom(pids, i - 1, 1) == (if pids[i - 1] != DEAD then 1 else 0) + LiveFrom(pids, i, 0);
    }
  }

  /** How many live children are served before d. */
  function Rank(pids: seq<int>, counter: nat, d: nat): nat
    requires counter < |pids| && d < |pids|
  {
    LiveFrom(pids, counter, Dist(|pids|, counter, d))
  }

  lemma RankBelow(pids: seq<int>, counter: nat, d: nat)
    requires counter < |pids| && d < |pids| && Live(pids, d)
    ensures Rank(pids, counter, d) < LiveChildren(pids)
  {
    var n, m := |pids|, Dist(|pids|, counter, d);
    WholeRound(pids, counter);
    AdvanceDistance(n, counter, d);
    LiveFromSplit(pids, counter, m, n - m);
    assert n - m > 0;
  }

  lemma {:induction false} NoneLive(pids: seq<int>, counter: nat, i: nat, m: nat)
    requires counter < |pids| && i < |pids| && Dist(|pids|, counter, i) + m <= |pids|
    requires forall x: nat :: x < |pids| && 0 <= Dist(|pids|, counter, x) - Dist(|pids|, counter, i) < m
               ==> !Live(pids, x)
    ensures LiveFrom(pids, i, m) == 0
    decreases m
  {
    if m > 0 {
      assert !Live(pids, i);
      if m > 1 {
        assert Dist(|pids|, counter, Succ(|pids|, i)) == Dist(|pids|, counter, i) + 1;
        NoneLive(pids, counter, Succ(|pids|, i), m - 1);
      }
    }
  }

  /** Serving t moves every other live child one rank up and t to the last rank. */
  lemma RankMoves(pids: seq<int>, counter: nat, t: nat, d: nat)
    requires counter < |pids| && t < |pids| && d < |pids| && IsTarget(pids, counter, t) && Live(pids, d)
    ensures d == t ==> Rank(pids, counter, d) == 0 && Rank(pids, Succ(|pids|, t), d) == LiveChildren(pids) - 1
    ensures d != t ==> Rank(pids, Succ(|pids|, t), d) == Rank(pids, counter, d) - 1
  {
    var n, j, next := |pids|, Dist(|pids|, counter, t), Succ(|pids|, t);
    NoneLive(pids, counter, counter, j);
    AdvanceDistance(n, counter, t);
    if d == t {
      WholeRound(pids, next);
      assert Dist(n, next, t) == n - 1;
      AdvanceDistance(n, next, t);
      LiveFromSplit(pids, next, n - 1, 1);
      assert LiveFrom(pids, t, 1) == 1 + LiveFrom(pids, next, 0);
    } else {
      assert !(Dist(n, counter, d) < j);
      SameDistanceIsSame(n, counter, d, t);
      var m := Dist(n, counter, d);
      LiveFromSplit(pids, counter, j, m - j);
      assert LiveFrom(pids, t, m - j) == 1 + LiveFrom(pids, next, m - j - 1);
      Seen(n, counter, next, d);
    }
  }

  /** How many of the steps lo .. hi - 1 are connections. */
  ghost function Connections(ws: seq<World>, steps: seq<Step>, lo: nat, hi: nat): nat
    requires Run(ws, steps) && lo <= hi <= |steps|
    decreases hi
  {
    if lo == hi then 0 else Connections(ws, steps, lo, hi - 1) + if steps[hi - 1].Connection? then 1 else 0
  }

  /** How one step that leaves the pids alone moves d's rank. */
  lemma RankStep(w: World, step: Step, d: nat)
    requires Inv(w) && Enabled(w, step) && Next(w, step).parent.pids == w.parent.pids && Live(w.parent.pids, d)
    requires Next(w, step).parent.counter < |w.parent.pids|
    ensures var pids := w.parent.pids;
            var r, r' := Rank(pids, w.parent.counter, d), Rank(pids, Next(w, step).parent.counter, d);
            if Hands(w, step, d) then r == 0 && r' == LiveChildren(pids) - 1
            else if step.Connection? then r' == r - 1
            else r' == r
  {
    ScanMoves(w, step);
    assert !AllDead(w.parent.pids);
    if step.Connection? {
      RankMoves(w.parent.pids, w.parent.counter, Target(w.parent), d);
    }
  }

  lemma AccountStep(q: nat, l: nat, k: nat, r0: nat, r: nat, handed: bool, connection: bool, r': nat)
    requires q * l == k - r0 + r && (handed ==> connection)
    requires if handed then r == 0 && r' == l - 1 else if connection then r' == r - 1 else r' == r
    ensures (q + if handed then 1 else 0) * l == (k + if connection then 1 else 0) - r0 + r'
  {
    assert (q + 1) * l == q * l + l;
  }

  ghost predicate Accounted(ws: seq<World>, steps: seq<Step>, lo: nat, hi: nat, d: nat)
    requires Run(ws, steps) && lo <= hi <= |steps|
  {
    var pids := ws[lo].parent.pids;
    && d < |pids| && ws[lo].parent.counter < |pids| && ws[hi].parent.counter < |pids|
    && Dispatches(ws, steps, lo, hi, d) * LiveChildren(pids)
       == Connections(ws, steps, lo, hi)
          - Rank(pids, ws[lo].parent.counter, d) + Rank(pids, ws[hi].parent.counter, d)
  }

  lemma AccountedNext(ws: seq<World>, steps: seq<Step>, lo: nat, hi: nat, d: nat)
    requires Run(ws, steps) && lo <= hi < |steps| && Inv(ws[hi]) && Inv(ws[hi + 1])
    requires ws[hi + 1].parent.pids == ws[hi].parent.pids == ws[lo].parent.pids && Live(ws[lo].parent.pids, d)
    requires Accounted(ws, steps, lo, hi, d)
    ensures Accounted(ws, steps, lo, hi + 1, d)
  {
    var w, step, pids := ws[hi], steps[hi], ws[lo].parent.pids;
    RankStep(w, step, d);
    AccountStep(Dispatches(ws, steps, lo, hi, d), LiveChildren(pids), Connections(ws, steps, lo, hi),
                Rank(pids, ws[lo].parent.counter, d), Rank(pids, w.parent.counter, d),
                Hands(w, step, d), step.Connection?, Rank(pids, ws[hi + 1].parent.counter, d));
  }

  lemma {:induction false} AlwaysAccounted(ws: seq<World>, steps: seq<Step>, lo: nat, hi: nat, d: nat)
    requires Run(ws, steps) && Initial(ws[0]) && lo <= hi <= |steps|
    requires forall k :: lo <= k <= hi ==> ws[k].parent.pids == ws[lo].parent.pids
    requires Live(ws[lo].parent.pids, d)
    ensures Accounted(ws, steps, lo, hi, d)
    decreases hi
  {
    InitialInv(ws[0]);
    RunKeepsInv(ws, steps, hi);
    if lo < hi {
      AlwaysAccounted(ws, steps, lo, hi - 1, d);
      RunKeepsInv(ws, steps, hi - 1);
      AccountedNext(ws, steps, lo, hi - 1, d);
    }
  }

  /** The exact account of d's share while the live set stays the same. */
  lemma ShareAccount(ws: seq<World>, steps: seq<Step>, lo: nat, hi: nat, d: nat)
    requires Run(ws, steps) && Initial(ws[0]) && lo <= hi <= |steps|
    requires forall k :: lo <= k <= hi ==> ws[k].parent.pids == ws[lo].parent.pids
    requires Live(ws[lo].parent.pids, d)
    ensures ws[lo].parent.counter < |ws[lo].parent.pids| && ws[hi].parent.counter < |ws[lo].parent.pids|
    ensures var pids := ws[lo].parent.pids;
            Dispatches(ws, steps, lo, hi, d) * LiveChildren(pids)
              == Connections(ws, steps, lo, hi)
                 - Rank(pids, ws[lo].parent.counter, d) + Rank(pids, ws[hi].parent.counter, d)
  {
    AlwaysAccounted(ws, steps, lo, hi, d);
  }

  /** q is floor(k / l). */
  predicate IsFloor(q: nat, k: nat, l: nat) {
    q * l <= k < q * l + l
  }

  /** q is ceil(k / l). */
  predicate IsCeiling(q: nat, k: nat, l: nat) {
    k <= q * l < k + l
  }

  /** While the set of live children does not change, any stretch with k connections gives each of the L
      live children floor(k / L) or ceil(k / L) of them. */
  lemma EqualShares(ws: seq<World>, steps: seq<Step>, lo: nat, hi: nat, d: nat)
    requires Run(ws, steps) && Initial(ws[0]) && lo <= hi <= |steps|
    requires forall k :: lo <= k <= hi ==> ws[k].parent.pids == ws[lo].parent.pids
    requires Live(ws[lo].parent.pids, d)
    ensures var share, k := Dispatches(ws, steps, lo, hi, d), Connections(ws, steps, lo, hi);
            var l := LiveChildren(ws[lo].parent.pids);
            IsFloor(share, k, l) || IsCeiling(share, k, l)
  {
    var pids := ws[lo].parent.pids;
    ShareAccount(ws, steps, lo, hi, d);
    RankBelow(pids, ws[lo].parent.counter, d);
    RankBelow(pids, ws[hi].parent.counter, d);
  }
}
