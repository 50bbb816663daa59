/** The route server's table of work servers: an array indexed by the descriptor of the reporting
    connection, with -1 connections for "not registered", and the scan for the least loaded server. */
module RouteTable {
  import opened CText
  import opened Requests

  const MAX_WORK_SERVER: nat := 65536
  const UNREGISTERED: int := -1

  datatype Slot = Slot(addr: Address, connections: int)

  // ---- the operations on values ----------------------------------------------------------------

  function SetConnections(slots: seq<Slot>, fd: nat, peer: Peer, count: int): seq<Slot>
    requires fd < |slots|
  {
    slots[fd := Slot(if slots[fd].connections == UNREGISTERED then peer else slots[fd].addr, count)]
  }

  function RemoveServer(slots: seq<Slot>, fd: nat): seq<Slot>
    requires fd < |slots|
  {
    slots[fd := slots[fd].(connections := UNREGISTERED)]
  }

  predicate Registered(slots: seq<Slot>, i: int) {
    0 <= i < |slots| && slots[i].connections != UNREGISTERED
  }

  /** Among the first k slots, i is the lowest registered one with the fewest connections. */
  ghost predicate LeastAmong(slots: seq<Slot>, k: nat, i: int) {
    && Registered(slots, i) && i < k
    && (forall j :: Registered(slots, j) && j < k ==> slots[i].connections <= slots[j].connections)
    && (forall j :: Registered(slots, j) && j < i ==> slots[i].connections < slots[j].connections)
  }

  ghost predicate IsLeastLoaded(slots: seq<Slot>, i: int) {
    LeastAmong(slots, |slots|, i)
  }

  lemma LeastLoadedUnique(slots: seq<Slot>, i: int, j: int)
    requires IsLeastLoaded(slots, i) && IsLeastLoaded(slots, j)
    ensures i == j
  {
  }

  /** The least loaded of the first k slots, -1 when none is registered. */
  function Best(slots: seq<Slot>, k: nat): (b: int)
    requires k <= |slots|
    ensures b == -1 ==> forall j :: 0 <= j < k ==> !Registered(slots, j)
    ensures b != -1 ==> LeastAmong(slots, k, b)
  {
    if k == 0 then -1
    else
      var b := Best(slots, k - 1);
      if Registered(slots, k - 1) && (b == -1 || slots[k - 1].connections < slots[b].connections) then k - 1 else b
  }

  const NO_SERVER: Address := Address("", -1)

  /** The address the scan answers with. */
  function MinAddress(slots: seq<Slot>): Address {
    var b := Best(slots, |slots|);
    if b == -1 then NO_SERVER else slots[b].addr
  }

  // ---- the shared memory and the operations on it ----------------------------------------------

  class Table {
    const share_mem: array<Slot>

    predicate Ok() {
      share_mem.Length == MAX_WORK_SERVER
    }

    /** The pool's constructor: the memory holds anything until every slot is marked. */
    constructor (memory: seq<Slot>)
      requires |memory| == MAX_WORK_SERVER
      ensures Ok() && fresh(share_mem)
      ensures forall i :: 0 <= i < MAX_WORK_SERVER ==> share_mem[i] == memory[i].(connections := UNREGISTERED)
    {
      share_mem := new Slot[MAX_WORK_SERVER](i requires 0 <= i < MAX_WORK_SERVER => memory[i]);
      new;
      for i := 0 to MAX_WORK_SERVER
        invariant forall k :: 0 <= k < i ==> share_mem[k] == memory[k].(connections := UNREGISTERED)
        invariant forall k :: i <= k < MAX_WORK_SERVER ==> share_mem[k] == memory[k]
      {
        share_mem[i] := share_mem[i].(connections := UNREGISTERED);
      }
    }

    method SetServerConnections(fd: nat, peer: Peer, count: int)
      requires Ok() && fd < MAX_WORK_SERVER
      modifies share_mem
      ensures share_mem[..] == SetConnections(old(share_mem[..]), fd, peer, count)
    {
      if share_mem[fd].connections == UNREGISTERED {
        share_mem[fd] := share_mem[fd].(addr := peer);
      }
      share_mem[fd] := share_mem[fd].(connections := count);
    }

    method RemoveServerAddr(fd: nat)
      requires Ok() && fd < MAX_WORK_SERVER
      modifies share_mem
      ensures share_mem[..] == RemoveServer(old(share_mem[..]), fd)
    {
      if share_mem[fd].connections != UNREGISTERED {
        share_mem[fd] := share_mem[fd].(connections := UNREGISTERED);
      }
    }

    /** The scan with its own -1 sentinel for "no minimum yet". */
    method GetMinConnectionsServer() returns (ret: Address)
      requires Ok()
      ensures ret == MinAddress(share_mem[..])
      ensures (exists i :: IsLeastLoaded(share_mem[..], i) && ret == share_mem[i].addr)
           || (ret == NO_SERVER && forall i :: 0 <= i < MAX_WORK_SERVER ==> !Registered(share_mem[..], i))
    {
      ret := NO_SERVER;
      var min := -1;
      ghost var slots := share_mem[..];
      for i := 0 to MAX_WORK_SERVER
        invariant min == -1 <==> Best(slots, i) == -1
        invariant min == -1 ==> ret == NO_SERVER
        invariant min != -1 ==> min == slots[Best(slots, i)].connections && ret == slots[Best(slots, i)].addr
      {
        var cnt := share_mem[i];
        assert cnt == slots[i];
        if min == -1 && cnt.connections != -1 {
          min, ret := cnt.connections, cnt.addr;
        } else if cnt.connections != -1 && cnt.connections < min {
          min, ret := cnt.connections, cnt.addr;
        }
      }
      assert min != -1 ==> IsLeastLoaded(slots, Best(slots, MAX_WORK_SERVER));
    }
  }
}
