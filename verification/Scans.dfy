/** The scan for the least loaded server while other processes write the shared table. Every mention of a slot in
    the loop body is a read of its own, so a slot can change between its test and its assignment. */
module Scans {
  import opened CText
  import opened Frames
  import opened Requests
  import opened RouteTable
  import opened Routing

  // ---- one read per mention --------------------------------------------------------------------

  /** min and ret of the scan. */
  datatype Found = Found(min: int, ret: Address)

  const NOTHING: Found := Found(-1, NO_SERVER)

  /** A slot is mentioned at most five times in one turn of the loop. */
  const MENTIONS: nat := 5

  /** One turn of the loop; seen are the values the slot has at its mentions, in the order they are evaluated. */
  function Turn(f: Found, seen: seq<Slot>): Found
    requires |seen| == MENTIONS
  {
    if f.min == -1 && seen[0].connections != -1 then Found(seen[1].connections, seen[2].addr)
    else
      var n := if f.min == -1 then 1 else 0;
      if seen[n].connections != -1 && seen[n + 1].connections < f.min
      then Found(seen[n + 2].connections, seen[n + 3].addr)
      else f
  }

  predicate Visits(visits: seq<seq<Slot>>) {
    forall k :: 0 <= k < |visits| ==> |visits[k]| == MENTIONS
  }

  /** min and ret after the first k slots. */
  function After(visits: seq<seq<Slot>>, k: nat): Found
    requires Visits(visits) && k <= |visits|
  {
    if k == 0 then NOTHING else Turn(After(visits, k - 1), visits[k - 1])
  }

  function ScanResult(visits: seq<seq<Slot>>): Address
    requires Visits(visits)
  {
    After(visits, |visits|).ret
  }

  // ---- slots that keep still while they are visited --------------------------------------------

  /** Slot k does not change between its first and its last mention. */
  predicate Still(seen: seq<Slot>) {
    forall j :: 0 <= j < |seen| ==> seen[j] == seen[0]
  }

  /** Slot k is registered at all of its mentions or at none. */
  predicate Steady(seen: seq<Slot>) {
    forall j :: 0 <= j < |seen| ==> (seen[j].connections == UNREGISTERED <==> seen[0].connections == UNREGISTERED)
  }

  function FirstSeen(visits: seq<seq<Slot>>): (slots: seq<Slot>)
    requires Visits(visits)
    ensures |slots| == |visits| && forall k :: 0 <= k < |visits| ==> slots[k] == visits[k][0]
  {
    seq(|visits|, k requires 0 <= k < |visits| => visits[k][0])
  }

  lemma {:induction false} StillScanUpTo(visits: seq<seq<Slot>>, k: nat)
    requires Visits(visits) && k <= |visits| && forall i :: 0 <= i < k ==> Still(visits[i])
    ensures var slots := FirstSeen(visits);
            var b := Best(slots, k);
            After(visits, k) == if b == -1 then NOTHING else Found(slots[b].connections, slots[b].addr)
  {
    if k > 0 {
      StillScanUpTo(visits, k - 1);
      assert Still(visits[k - 1]);
    }
  }

  /** When no slot changes while it is visited, the scan finds the least loaded of the slots as it met them,
      however the table changes otherwise. */
  lemma StillScan(visits: seq<seq<Slot>>)
    requires Visits(visits) && forall k :: 0 <= k < |visits| ==> Still(visits[k])
    ensures ScanResult(visits) == MinAddress(FirstSeen(visits))
  {
    StillScanUpTo(visits, |visits|);
  }

  /** ret comes from slot i, at a mention at which it was registered. */
  ghost predicate From(visits: seq<seq<Slot>>, k: nat, ret: Address) {
    exists i, j :: 0 <= i < k <= |visits| && 0 <= j < |visits[i]|
                   && visits[i][j].connections != UNREGISTERED && ret == visits[i][j].addr
  }

  /** When slots change their counts but none comes or goes while it is visited, the scan still finds a server
      exactly when there is one, and finds one that is registered. */
  lemma {:induction false} SteadyScan(visits: seq<seq<Slot>>, k: nat)
    requires Visits(visits) && k <= |visits| && forall i :: 0 <= i < k ==> Steady(visits[i])
    ensures After(visits, k).min == -1 <==> forall i :: 0 <= i < k ==> visits[i][0].connections == UNREGISTERED
    ensures if After(visits, k).min == -1 then After(visits, k) == NOTHING else From(visits, k, After(visits, k).ret)
  {
    if k > 0 {
      SteadyScan(visits, k - 1);
      var f, f', seen := After(visits, k - 1), After(visits, k), visits[k - 1];
      if f' == f && f.min != -1 {
        var i, j :| 0 <= i < k - 1 && 0 <= j < |visits[i]|
                    && visits[i][j].connections != UNREGISTERED && f.ret == visits[i][j].addr;
      } else if f' != f {
        var j := if f.min == -1 then 2 else 3;
        assert f'.ret == seen[j].addr;
      }
    }
  }

  /** In every scan, a slot that goes right after its first mention is taken although nothing is there any more,
      however many connections it had, and leaves the scan as if nothing had been found. A slot that comes right
      after its first mention, while nothing is found yet, is missed. */
  lemma ComingAndGoing(visits: seq<seq<Slot>>, k: nat)
    requires Visits(visits) && k < |visits|
    ensures var f, f', seen := After(visits, k), After(visits, k + 1), visits[k];
            && (f.min >= 0 && seen[0].connections >= 0 && (forall j :: 1 <= j < MENTIONS ==> seen[j].connections == -1)
                ==> f' == Found(-1, seen[3].addr))
            && (f.min == -1 && seen[0].connections >= 0 && (forall j :: 1 <= j < MENTIONS ==> seen[j].connections == -1)
                ==> f' == Found(-1, seen[2].addr))
            && (f.min == -1 && seen[0].connections == -1 && (forall j :: 1 <= j < MENTIONS ==> seen[j].connections >= 0)
                ==> f' == f)
  {
    var seen := visits[k];
    assert (forall j :: 1 <= j < MENTIONS ==> seen[j].connections == -1)
        ==> seen[1].connections == seen[2].connections == -1;
    assert (forall j :: 1 <= j < MENTIONS ==> seen[j].connections >= 0) ==> seen[2].connections >= 0;
  }

  // ---- scans in a run of the route server ------------------------------------------------------

  ghost predicate Sees(ss: seq<State>, moment: nat, k: nat, slot: Slot) {
    moment < |ss| && k < |ss[moment].slots| && slot == ss[moment].slots[k]
  }

  /** What a scan sees in a run: mention j of slot k is at moment at[k][j]. */
  ghost predicate ScanSees(ss: seq<State>, at: seq<seq<nat>>, visits: seq<seq<Slot>>) {
    && Visits(visits) && |at| == |visits| == MAX_WORK_SERVER
    && (forall k :: 0 <= k < |at| ==> |at[k]| == MENTIONS)
    && forall k, j :: 0 <= k < |at| && 0 <= j < MENTIONS ==> Sees(ss, at[k][j], k, visits[k][j])
  }

  /** The moments of a scan: slot after slot, mention after mention. */
  ghost predicate InOrder(at: seq<seq<nat>>) {
    forall k, j, k', j' :: 0 <= k <= k' < |at| && 0 <= j < |at[k]| && 0 <= j' < |at[k']| && (k < k' || j <= j')
      ==> at[k][j] <= at[k'][j']
  }

  function FirstMoments(at: seq<seq<nat>>): (first: seq<nat>)
    requires forall k :: 0 <= k < |at| ==> |at[k]| == MENTIONS
    ensures |first| == |at| && forall k :: 0 <= k < |at| ==> first[k] == at[k][0]
  {
    seq(|at|, k requires 0 <= k < |at| => at[k][0])
  }

  /** Other processes write the table during the scan, but no slot changes between its test and its assignment:
      the client gets an address exactly if some connection had reported when its slot was visited, and then the
      peer address of one that was open and whose last report was the smallest of all, at the moments of the
      visits. */
  lemma RoutedWhileTableChanges(ss: seq<State>, es: seq<Event>, at: seq<seq<nat>>, visits: seq<seq<Slot>>,
                                stale: string)
    requires Run(ss, es) && ScanSees(ss, at, visits) && |stale| == BUFFER_SIZE
    requires forall k :: 0 <= k < |visits| ==> Still(visits[k])
    ensures forall k :: 0 <= k < |at| ==> |at[k]| == MENTIONS
    ensures var m, first := ClientDecode(stale, AnswerOf(ScanResult(visits))), FirstMoments(at);
            var r := RouteOf(m);
            && ReplyInKind(m)
            && (r.NoServer? <==> forall c: nat, fd: nat, n :: !ReportedAt(ss, first, c, fd, n))
            && (r.To? ==> exists c: nat, fd: nat, n ::
                  && ReportedAt(ss, first, c, fd, n) && ss[first[fd]].children[c][fd].peer == r.addr
                  && forall d: nat, fd': nat, n' :: ReportedAt(ss, first, d, fd', n') ==> n <= n')
  {
    var first, slots := FirstMoments(at), FirstSeen(visits);
    StillScan(visits);
    forall k | 0 <= k < |slots|
      ensures first[k] < |ss| && k < |ss[first[k]].slots| && slots[k] == ss[first[k]].slots[k]
    {
      assert Sees(ss, at[k][0], k, visits[k][0]);
    }
    NullBodyReadsEmpty(stale, OBTAIN_SERVER_ADDR);
    RoutedSlotBySlot(ss, es, first, slots, stale, stale);
  }

  // ---- a slot that goes while it is visited ----------------------------------------------------

  predicate Unseen(seen: seq<Slot>) {
    forall j :: 0 <= j < |seen| ==> seen[j].connections == UNREGISTERED
  }

  lemma {:induction false} UnseenSkipped(visits: seq<seq<Slot>>, a: nat, b: nat)
    requires Visits(visits) && a <= b <= |visits| && forall k :: a <= k < b ==> Unseen(visits[k])
    ensures After(visits, b) == After(visits, a)
    decreases b
  {
    if a < b {
      UnseenSkipped(visits, a, b - 1);
    }
  }

  /** What the example scan sees of slot k: slots 3, 4 and 5 have 5, 2 and 100 connections, and the server of
      slot 4 leaves between the test of its count and the assignment. */
  function SeenInExample(p: Peer, q: Peer, r: Peer, k: nat): (seen: seq<Slot>)
    ensures |seen| == MENTIONS
  {
    if k == 3 then seq(MENTIONS, j => Slot(p, 5))
    else if k == 4 then seq(MENTIONS, j => Slot(q, if j < 2 then 2 else UNREGISTERED))
    else if k == 5 then seq(MENTIONS, j => Slot(r, 100))
    else seq(MENTIONS, j => Slot(NO_SERVER, UNREGISTERED))
  }

  function EmptyTable(): (slots: seq<Slot>)
    ensures |slots| == MAX_WORK_SERVER
    ensures forall k :: 0 <= k < |slots| ==> slots[k] == Slot(NO_SERVER, UNREGISTERED)
  {
    seq(MAX_WORK_SERVER, k => Slot(NO_SERVER, UNREGISTERED))
  }

  function Report(fd: nat, count: int): Event {
    Deliver(1, fd, Message(REPORT_CONNECT, Decimal(count)))
  }

  lemma RunExtended(ss: seq<State>, es: seq<Event>, e: Event)
    requires Run(ss, es) && Enabled(ss[|es|], e) && !Spoils(ss[|es|], e)
    ensures Run(ss + [Next(ss[|es|], e)], es + [e])
  {
    var rs, fs := ss + [Next(ss[|es|], e)], es + [e];
    forall i | 0 <= i < |fs|
      ensures Enabled(rs[i], fs[i]) && !Spoils(rs[i], fs[i]) && rs[i + 1] == Next(rs[i], fs[i])
    {
      if i < |es| {
        assert rs[i] == ss[i] && rs[i + 1] == ss[i + 1] && fs[i] == es[i];
      }
    }
  }

  /** A connection of process 1 opens and reports. */
  lemma ServerJoins(before: seq<State>, past: seq<Event>, fd: nat, peer: Peer, count: nat)
    returns (ss: seq<State>, es: seq<Event>)
    requires Run(before, past) && |before[|past|].slots| == MAX_WORK_SERVER && fd < MAX_WORK_SERVER
    requires var s := before[|past|];
             |s.children| == 2 && s.children[0] == map[] && fd !in s.children[1] && !Registered(s.slots, fd)
    ensures Run(ss, es) && |es| == |past| + 2
    ensures var s := before[|past|];
            ss[|es|] == State(s.slots[fd := Slot(peer, count)], [map[], s.children[1][fd := Link(peer, Some(count))]])
  {
    var s := before[|past|];
    var s1 := Next(s, Accept(1, fd, peer));
    AtoiOfDecimal(count);
    RunExtended(before, past, Accept(1, fd, peer));
    RunExtended(before + [s1], past + [Accept(1, fd, peer)], Report(fd, count));
    var s2 := Next(s1, Report(fd, count));
    assert s2.children[1] == s.children[1][fd := Link(peer, Some(count))];
    assert s2.children == [map[], s2.children[1]];
    ss, es := before + [s1] + [Next(s1, Report(fd, count))], past + [Accept(1, fd, peer)] + [Report(fd, count)];
  }

  /** Three servers have joined, and the second of them leaves. */
  lemma ExampleRun(p: Peer, q: Peer, r: Peer) returns (ss: seq<State>, es: seq<Event>)
    ensures Run(ss, es) && |es| == 7
    ensures ss[6].slots == EmptyTable()[3 := Slot(p, 5)][4 := Slot(q, 2)][5 := Slot(r, 100)]
    ensures ss[7].slots == ss[6].slots[4 := Slot(q, UNREGISTERED)]
  {
    ss, es := [State(EmptyTable(), [map[], map[]])], [];
    ss, es := ServerJoins(ss, es, 3, p, 5);
    ss, es := ServerJoins(ss, es, 4, q, 2);
    ss, es := ServerJoins(ss, es, 5, r, 100);
    RunExtended(ss, es, Close(1, 4));
    ss, es := ss + [Next(ss[6], Close(1, 4))], es + [Close(1, 4)];
  }

  function ExampleVisits(p: Peer, q: Peer, r: Peer): (visits: seq<seq<Slot>>)
    ensures Visits(visits) && |visits| == MAX_WORK_SERVER
    ensures forall k :: 0 <= k < |visits| ==> visits[k] == SeenInExample(p, q, r, k)
  {
    seq(MAX_WORK_SERVER, k requires 0 <= k < MAX_WORK_SERVER => SeenInExample(p, q, r, k))
  }

  lemma ExampleResult(p: Peer, q: Peer, r: Peer, visits: seq<seq<Slot>>)
    requires visits == ExampleVisits(p, q, r)
    ensures ScanResult(visits) == r
  {
    UnseenSkipped(visits, 0, 3);
    assert After(visits, 3) == NOTHING;
    assert After(visits, 4) == Turn(NOTHING, SeenInExample(p, q, r, 3)) == Found(5, p);
    assert After(visits, 5) == Turn(Found(5, p), SeenInExample(p, q, r, 4)) == Found(-1, q);
    assert After(visits, 6) == Turn(Found(-1, q), SeenInExample(p, q, r, 5)) == Found(100, r);
    UnseenSkipped(visits, 6, |visits|);
  }

  /** Slots up to the second mention of slot 4 are read before its server leaves, the others afterwards. */
  function MomentInExample(k: nat, j: nat): nat {
    if k < 4 || (k == 4 && j < 2) then 6 else 7
  }

  function ExampleMoments(): (at: seq<seq<nat>>)
    ensures |at| == MAX_WORK_SERVER
    ensures forall k :: 0 <= k < |at| ==> |at[k]| == MENTIONS
    ensures forall k, j :: 0 <= k < |at| && 0 <= j < MENTIONS ==> at[k][j] == MomentInExample(k, j)
  {
    seq(MAX_WORK_SERVER, k requires 0 <= k => seq(MENTIONS, j requires 0 <= j => MomentInExample(k, j)))
  }

  lemma ExampleSeen(ss: seq<State>, p: Peer, q: Peer, r: Peer, k: nat, j: nat)
    requires |ss| == 8 && ss[6].slots == EmptyTable()[3 := Slot(p, 5)][4 := Slot(q, 2)][5 := Slot(r, 100)]
    requires ss[7].slots == ss[6].slots[4 := Slot(q, UNREGISTERED)]
    requires k < MAX_WORK_SERVER && j < MENTIONS
    ensures Sees(ss, MomentInExample(k, j), k, SeenInExample(p, q, r, k)[j])
    ensures var slots := ss[MomentInExample(k, j)].slots;
            |slots| > 5 && slots[3] == Slot(p, 5) && slots[5] == Slot(r, 100)
  {
  }

  lemma ExampleInOrder(at: seq<seq<nat>>)
    requires at == ExampleMoments()
    ensures InOrder(at)
  {
    forall k, j, k', j' | 0 <= k <= k' < |at| && 0 <= j < |at[k]| && 0 <= j' < |at[k']| && (k < k' || j <= j')
      ensures at[k][j] <= at[k'][j']
    {
      assert at[k][j] == MomentInExample(k, j) && at[k'][j'] == MomentInExample(k', j');
    }
  }

  /** The stillness is needed: the server of slot 4 leaves between the test of its count and the assignment, min
      becomes -1, which means "nothing found yet", and the scan ends with the server that has 100 connections
      although one with 5 was there all the time. */
  lemma LeavingServerMisleadsScan(p: Peer, q: Peer, r: Peer)
    returns (ss: seq<State>, es: seq<Event>, at: seq<seq<nat>>, visits: seq<seq<Slot>>)
    requires p != r
    ensures Run(ss, es) && ScanSees(ss, at, visits) && InOrder(at)
    ensures forall k, j :: 0 <= k < |at| && 0 <= j < |at[k]| ==>
              var slots := ss[at[k][j]].slots; |slots| > 5 && slots[3] == Slot(p, 5) && slots[5] == Slot(r, 100)
    ensures ScanResult(visits) == r
  {
    ss, es := ExampleRun(p, q, r);
    visits, at := ExampleVisits(p, q, r), ExampleMoments();
    ExampleResult(p, q, r, visits);
    ExampleInOrder(at);
    forall k, j | 0 <= k < |at| && 0 <= j < MENTIONS
      ensures Sees(ss, at[k][j], k, visits[k][j])
      ensures var slots := ss[at[k][j]].slots; |slots| > 5 && slots[3] == Slot(p, 5) && slots[5] == Slot(r, 100)
    {
      ExampleSeen(ss, p, q, r, k, j);
    }
  }
}
