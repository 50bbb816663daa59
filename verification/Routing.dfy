/** The route server's connections over the shared table: what the table says about them, and what a client
    that asks for a work server gets. */
module Routing {
  import opened CText
  import opened Frames
  import opened Requests
  import opened RouteTable
  import Counter

  // ---- one connection --------------------------------------------------------------------------

  const NO_SERVER_TEXT: string := "now there none work server~"

  function TableAfter(slots: seq<Slot>, fd: nat, peer: Peer, m: Message): seq<Slot>
    requires fd < |slots|
  {
    if m.kind == REPORT_CONNECT then SetConnections(slots, fd, peer, Atoi(m.body)) else slots
  }

  /** The answer to a request, from the result of the scan. */
  function AnswerOf(a: Address): string {
    if a.port == -1 then FrameOf(ERROR, Some(NO_SERVER_TEXT)) else FrameOf(OBTAIN_SERVER_ADDR, Some(AddressText(a)))
  }

  function ReplyTo(slots: seq<Slot>, m: Message): Option<string> {
    if m.kind != OBTAIN_SERVER_ADDR then None else Some(AnswerOf(MinAddress(slots)))
  }

  class RouteServer {
    const table: Table
    const m_sockfd: nat
    const m_address: Peer
    const m_buf: array<char>

    predicate Ok() {
      table.Ok() && m_sockfd < MAX_WORK_SERVER && m_buf.Length == BUFFER_SIZE
    }

    /** init; the connection gets its descriptor from accept. */
    constructor (table: Table, sockfd: nat, address: Peer)
      requires table.Ok() && sockfd < MAX_WORK_SERVER
      ensures Ok() && this.table == table && m_sockfd == sockfd && m_address == address && fresh(m_buf)
    {
      this.table, m_sockfd, m_address := table, sockfd, address;
      m_buf := new char[BUFFER_SIZE](i => NUL);
    }

    /** One turn of the receive loop for a whole frame. */
    method Process(wire: string) returns (answer: Option<string>)
      requires Ok()
      modifies m_buf, table.share_mem
      ensures var m := ServerDecode(old(m_buf[..]), wire);
              && table.share_mem[..] == TableAfter(old(table.share_mem[..]), m_sockfd, m_address, m)
              && answer == ReplyTo(old(table.share_mem[..]), m)
    {
      ghost var slots := table.share_mem[..];
      var msg := ServerRecv(m_buf, wire);
      answer := None;
      if msg.kind == OBTAIN_SERVER_ADDR {
        assert table.share_mem[..] == slots;
        var min_connections_server := table.GetMinConnectionsServer();
        if min_connections_server.port == -1 {
          answer := Some(FrameOf(ERROR, Some(NO_SERVER_TEXT)));
        } else {
          answer := Some(FrameOf(msg.kind, Some(AddressText(min_connections_server))));
        }
      } else if msg.kind == REPORT_CONNECT {
        assert table.share_mem[..] == slots;
        table.SetServerConnections(m_sockfd, m_address, Atoi(msg.body));
      } else {
        assert table.share_mem[..] == slots;
      }
    }

    /** The two branches of process for a closed or broken connection. */
    method CloseConnection()
      requires Ok()
      modifies table.share_mem
      ensures table.share_mem[..] == RemoveServer(old(table.share_mem[..]), m_sockfd)
    {
      table.RemoveServerAddr(m_sockfd);
    }
  }

  // ---- all connections of all route server processes -------------------------------------------

  /** An open connection and, once it has reported, its last report. */
  datatype Link = Link(peer: Peer, last: Option<int>)

  /** Every child process numbers its own descriptors; the table is shared. */
  datatype State = State(slots: seq<Slot>, children: seq<map<nat, Link>>)

  datatype Event =
    | Accept(child: nat, fd: nat, peer: Peer)
    | Deliver(child: nat, fd: nat, m: Message)
    | Close(child: nat, fd: nat)

  ghost predicate Initial(s: State) {
    && |s.slots| == MAX_WORK_SERVER
    && (forall i :: 0 <= i < |s.slots| ==> s.slots[i].connections == UNREGISTERED)
    && (forall c :: 0 <= c < |s.children| ==> s.children[c] == map[])
  }

  ghost predicate Enabled(s: State, e: Event) {
    e.child < |s.children| && e.fd < |s.slots| && (e.Accept? <==> e.fd !in s.children[e.child])
  }

  function Open(links: map<nat, Link>, fd: nat, l: Link): map<nat, Link> {
    links[fd := l]
  }

  ghost function Next(s: State, e: Event): State
    requires Enabled(s, e)
  {
    match e
    case Accept(c, fd, peer) => s.(children := s.children[c := Open(s.children[c], fd, Link(peer, None))])
    case Deliver(c, fd, m) =>
      var l := s.children[c][fd];
      var l' := if m.kind == REPORT_CONNECT then l.(last := Some(Atoi(m.body))) else l;
      State(TableAfter(s.slots, fd, l.peer, m), s.children[c := Open(s.children[c], fd, l')])
    case Close(c, fd) => State(RemoveServer(s.slots, fd), s.children[c := s.children[c] - {fd}])
  }

  /** Process c has an open connection with descriptor fd. */
  ghost predicate IsOpen(s: State, c: nat, fd: nat) {
    c < |s.children| && fd in s.children[c]
  }

  /** Two processes have a connection with the same descriptor number. */
  ghost predicate Collision(s: State, a: nat, b: nat, fd: nat) {
    a != b && IsOpen(s, a, fd) && IsOpen(s, b, fd)
  }

  ghost predicate IsReport(e: Event) {
    e.Deliver? && e.m.kind == REPORT_CONNECT
  }

  /** A step on a descriptor number that another process has open too, and that the other one's slot does not
      survive: an accept or a close while the slot is registered, or a report that changes its count. */
  ghost predicate Spoils(s: State, e: Event)
    requires Enabled(s, e)
  {
    && (exists b: nat :: b != e.child && IsOpen(s, b, e.fd))
    && var count := s.slots[e.fd].connections;
       if e.Deliver? then e.m.kind == REPORT_CONNECT && Atoi(e.m.body) != count else count != UNREGISTERED
  }

  /** A run of any number of processes. */
  ghost predicate AnyRun(ss: seq<State>, es: seq<Event>) {
    && |ss| == |es| + 1
    && Initial(ss[0])
    && forall i :: 0 <= i < |es| ==> Enabled(ss[i], es[i]) && ss[i + 1] == Next(ss[i], es[i])
  }

  /** A run in which no process spoils a slot of another. Processes may share descriptor numbers in it. */
  ghost predicate Run(ss: seq<State>, es: seq<Event>) {
    AnyRun(ss, es) && forall i :: 0 <= i < |es| ==> !Spoils(ss[i], es[i])
  }

  // ---- the table as a map of live reporting connections ----------------------------------------

  /** A connection counts as a work server from its first report on, unless it has reported the -1 itself. */
  predicate Reports(l: Link) {
    l.last.Some? && l.last.value != UNREGISTERED
  }

  ghost predicate SlotShows(slot: Slot, l: Link) {
    if Reports(l) then slot == Slot(l.peer, l.last.value) else slot.connections == UNREGISTERED
  }

  ghost predicate Closed(s: State, fd: nat) {
    forall c: nat :: !IsOpen(s, c, fd)
  }

  /** Every slot tells the truth about the connections with its number. */
  ghost predicate Agrees(s: State) {
    && |s.slots| == MAX_WORK_SERVER
    && (forall c: nat, fd: nat :: IsOpen(s, c, fd)
          ==> fd < |s.slots| && SlotShows(s.slots[fd], s.children[c][fd]))
    && (forall fd: nat :: fd < |s.slots| && Closed(s, fd) ==> s.slots[fd].connections == UNREGISTERED)
  }

  /** Connections of other processes keep their slots unless the step spoils one. */
  lemma LinkKept(s: State, e: Event, c: nat, fd: nat)
    requires Agrees(s) && Enabled(s, e) && !Spoils(s, e) && IsOpen(Next(s, e), c, fd)
    ensures fd < |s.slots| && SlotShows(Next(s, e).slots[fd], Next(s, e).children[c][fd])
  {
    if c == e.child && fd == e.fd {
      assert e.Accept? ==> Closed(s, fd) || s.slots[fd].connections == UNREGISTERED;
      assert !e.Accept? ==> IsOpen(s, c, fd);
    } else {
      assert IsOpen(s, c, fd);
    }
  }

  lemma StepKeepsAgreement(s: State, e: Event)
    requires Agrees(s) && Enabled(s, e) && !Spoils(s, e)
    ensures Agrees(Next(s, e))
  {
    var s' := Next(s, e);
    forall c: nat, fd: nat | IsOpen(s', c, fd)
      ensures fd < |s'.slots| && SlotShows(s'.slots[fd], s'.children[c][fd])
    {
      LinkKept(s, e, c, fd);
    }
    forall fd: nat | fd < |s'.slots| && Closed(s', fd)
      ensures s'.slots[fd].connections == UNREGISTERED
    {
      if !(e.Close? && fd == e.fd) {
        assert forall c: nat :: IsOpen(s, c, fd) ==> IsOpen(s', c, fd);
        assert Closed(s, fd);
        assert !IsOpen(s', e.child, fd);
      }
    }
  }

  lemma SpoilingMisleads(s: State, e: Event)
    requires Agrees(s) && Enabled(s, e) && Spoils(s, e)
    ensures !Agrees(Next(s, e))
  {
    var s' := Next(s, e);
    var b: nat :| b != e.child && IsOpen(s, b, e.fd);
    assert SlotShows(s.slots[e.fd], s.children[b][e.fd]);
    assert IsOpen(s', b, e.fd) && s'.children[b][e.fd] == s.children[b][e.fd];
    if e.Accept? {
      assert IsOpen(s', e.child, e.fd) && !SlotShows(s'.slots[e.fd], s'.children[e.child][e.fd]);
    } else {
      assert !SlotShows(s'.slots[e.fd], s'.children[b][e.fd]);
    }
  }

  /** From a table that describes the connections truly, every step leads to such a table exactly when it does
      not spoil a slot of another process. */
  lemma AgreementKeptExactly(s: State, e: Event)
    requires Agrees(s) && Enabled(s, e)
    ensures Agrees(Next(s, e)) <==> !Spoils(s, e)
  {
    if Spoils(s, e) {
      SpoilingMisleads(s, e);
    } else {
      StepKeepsAgreement(s, e);
    }
  }

  lemma {:induction false} AgreesUntilSpoilt(ss: seq<State>, es: seq<Event>, i: nat)
    requires AnyRun(ss, es) && i <= |es|
    requires forall k :: 0 <= k < i ==> !Spoils(ss[k], es[k])
    ensures Agrees(ss[i])
  {
    if i > 0 {
      AgreesUntilSpoilt(ss, es, i - 1);
      StepKeepsAgreement(ss[i - 1], es[i - 1]);
    }
  }

  /** The table of a whole run of any number of processes is true exactly when no step of it spoils a slot. */
  lemma TruthfulExactly(ss: seq<State>, es: seq<Event>)
    requires AnyRun(ss, es)
    ensures (forall i :: 0 <= i <= |es| ==> Agrees(ss[i])) <==> (forall i :: 0 <= i < |es| ==> !Spoils(ss[i], es[i]))
  {
    if forall i :: 0 <= i <= |es| ==> Agrees(ss[i]) {
      forall i | 0 <= i < |es|
        ensures !Spoils(ss[i], es[i])
      {
        assert Agrees(ss[i]) && Agrees(ss[i + 1]);
        AgreementKeptExactly(ss[i], es[i]);
      }
    } else {
      var i :| 0 <= i <= |es| && !Agrees(ss[i]);
      if forall k :: 0 <= k < |es| ==> !Spoils(ss[k], es[k]) {
        AgreesUntilSpoilt(ss, es, i);
      }
    }
  }

  /** In every run without a spoilt slot, a slot shows the peer and the last report of an open connection with its
      number, and shows -1 exactly when no such connection counts as a work server. */
  lemma TableRefinesConnections(ss: seq<State>, es: seq<Event>, i: nat, fd: nat)
    requires Run(ss, es) && i <= |es| && fd < MAX_WORK_SERVER
    ensures var s := ss[i];
            && |s.slots| == MAX_WORK_SERVER
            && (s.slots[fd].connections != UNREGISTERED
                <==> exists c: nat :: IsOpen(s, c, fd) && Reports(s.children[c][fd]))
            && (forall c: nat :: IsOpen(s, c, fd) ==> SlotShows(s.slots[fd], s.children[c][fd]))
  {
    AgreesUntilSpoilt(ss, es, i);
    var s := ss[i];
    if s.slots[fd].connections != UNREGISTERED {
      assert !Closed(s, fd);
      var c: nat :| IsOpen(s, c, fd);
      assert SlotShows(s.slots[fd], s.children[c][fd]);
    }
  }

  /** A descriptor number that is used again starts unregistered, whatever its last connection reported. */
  lemma ReusedDescriptorStartsUnregistered(ss: seq<State>, es: seq<Event>, i: nat)
    requires Run(ss, es) && i < |es| && es[i].Accept?
    ensures ss[i + 1].slots[es[i].fd].connections == UNREGISTERED
  {
    AgreesUntilSpoilt(ss, es, i + 1);
    assert IsOpen(ss[i + 1], es[i].child, es[i].fd);
  }

  /** Also when slots are spoilt: a registered slot keeps its address for as long as it stays registered, whoever
      reports on it, and every report changes its count. */
  lemma FirstReporterNamesSlot(s: State, e: Event, fd: nat)
    requires Enabled(s, e) && Registered(s.slots, fd) && Registered(Next(s, e).slots, fd)
    ensures Next(s, e).slots[fd].addr == s.slots[fd].addr
    ensures IsReport(e) && e.fd == fd ==> Next(s, e).slots[fd].connections == Atoi(e.m.body)
    ensures !(IsReport(e) && e.fd == fd) ==> Next(s, e).slots[fd] == s.slots[fd]
  {
  }

  // ---- when nothing is spoilt ------------------------------------------------------------------

  lemma {:induction false} RegisteredWasReported(ss: seq<State>, es: seq<Event>, i: nat, fd: nat)
    requires AnyRun(ss, es) && i <= |es|
    ensures |ss[i].slots| == MAX_WORK_SERVER && |ss[i].children| == |ss[0].children|
    ensures Registered(ss[i].slots, fd) ==> exists j :: 0 <= j < i && IsReport(es[j]) && es[j].fd == fd
  {
    if i > 0 {
      RegisteredWasReported(ss, es, i - 1, fd);
      if Registered(ss[i].slots, fd) && !Registered(ss[i - 1].slots, fd) {
        assert IsReport(es[i - 1]) && es[i - 1].fd == fd;
      }
    }
  }

  /** No number on which some connection reports is ever open in two processes at once. */
  ghost predicate ReportsPrivate(ss: seq<State>, es: seq<Event>) {
    forall i, j, a: nat, b: nat ::
      0 <= i < |ss| && 0 <= j < |es| && IsReport(es[j]) ==> !Collision(ss[i], a, b, es[j].fd)
  }

  /** It is enough that the numbers of work servers are not shared; clients may share theirs. */
  lemma PrivateReportsSuffice(ss: seq<State>, es: seq<Event>)
    requires AnyRun(ss, es) && ReportsPrivate(ss, es)
    ensures Run(ss, es)
  {
    forall i | 0 <= i < |es|
      ensures !Spoils(ss[i], es[i])
    {
      if Spoils(ss[i], es[i]) {
        var b: nat :| b != es[i].child && IsOpen(ss[i], b, es[i].fd);
        RegisteredWasReported(ss, es, i, es[i].fd);
        assert IsOpen(ss[i + 1], b, es[i].fd);
        assert Collision(if es[i].Accept? then ss[i + 1] else ss[i], es[i].child, b, es[i].fd);
      }
    }
  }

  /** One process, without any condition: a slot is registered exactly if the connection with its number is open
      and counts as a work server, and then it holds that peer and that count. */
  lemma OneProcessRefines(ss: seq<State>, es: seq<Event>, i: nat, fd: nat)
    requires AnyRun(ss, es) && |ss[0].children| == 1 && i <= |es| && fd < MAX_WORK_SERVER
    ensures Run(ss, es)
    ensures |ss[i].slots| == MAX_WORK_SERVER && |ss[i].children| == 1
    ensures var slot, links := ss[i].slots[fd], ss[i].children[0];
            && (slot.connections != UNREGISTERED <==> fd in links && Reports(links[fd]))
            && (slot.connections != UNREGISTERED ==> slot == Slot(links[fd].peer, links[fd].last.value))
  {
    forall k, a: nat, b: nat, n: nat | 0 <= k < |ss|
      ensures !Collision(ss[k], a, b, n)
    {
      RegisteredWasReported(ss, es, k, n);
    }
    PrivateReportsSuffice(ss, es);
    RegisteredWasReported(ss, es, i, fd);
    TableRefinesConnections(ss, es, i, fd);
    assert fd in ss[i].children[0] ==> IsOpen(ss[i], 0, fd);
  }

  /** A shared number can always come to be spoilt: one report on either side makes the slot wrong about the
      other side. */
  lemma CollisionMisleads(s: State, a: nat, b: nat, fd: nat)
    requires Agrees(s) && Collision(s, a, b, fd)
    ensures var count := if s.slots[fd].connections == 0 then 1 else 0;
            var e := Deliver(a, fd, Message(REPORT_CONNECT, Decimal(count)));
            Enabled(s, e) && !Agrees(Next(s, e))
  {
    var count := if s.slots[fd].connections == 0 then 1 else 0;
    AtoiOfDecimal(count);
    SpoilingMisleads(s, Deliver(a, fd, Message(REPORT_CONNECT, Decimal(count))));
  }

  /** Two processes come to share a number, each with its first connection, and the first report spoils the slot:
      it no longer says that the other connection has not reported. */
  lemma SpoiltReachable(p: Peer, q: Peer, slots: seq<Slot>) returns (ss: seq<State>, es: seq<Event>)
    requires |slots| == MAX_WORK_SERVER && p != q
    requires forall i :: 0 <= i < |slots| ==> slots[i].connections == UNREGISTERED
    ensures AnyRun(ss, es) && |es| == 3 && Collision(ss[2], 0, 1, 7)
    ensures Agrees(ss[2]) && Spoils(ss[2], es[2]) && !Agrees(ss[3])
  {
    var s0 := State(slots, [map[], map[]]);
    var s1 := Next(s0, Accept(0, 7, p));
    var s2 := Next(s1, Accept(1, 7, q));
    var e := Deliver(0, 7, Message(REPORT_CONNECT, Decimal(0)));
    AtoiOfDecimal(0);
    assert IsOpen(s2, 0, 7) && IsOpen(s2, 1, 7);
    es := [Accept(0, 7, p), Accept(1, 7, q), e];
    ss := [s0, s1, s2, Next(s2, e)];
    SpoilingMisleads(s2, e);
  }

  // ---- routing a client ------------------------------------------------------------------------

  /** init_work_sockfd after its recv: the error branch, an address, or no colon in the text, where strchr gives a
      null pointer and the source is undefined. */
  datatype Route = NoServer | Undefined | To(addr: Address)

  function RouteOf(m: Message): Route {
    if m.kind == ERROR then NoServer
    else
      match ParseAddress(m.body)
      case None => Undefined
      case Some(a) => To(a)
  }

  /** The client looks at the type ERROR only: under it no text counts, under any other type every address does, and
      a text without a colon is where the source is undefined. */
  lemma TypeThenText(kind: nat, a: Peer, text: string)
    ensures RouteOf(Message(ERROR, text)) == NoServer
    ensures kind != ERROR ==> RouteOf(Message(kind, AddressText(a))) == To(a)
    ensures kind != ERROR && ':' !in text ==> RouteOf(Message(kind, text)) == Undefined
  {
    AddressRoundTrip(a);
  }

  /** A reply that reached the client as what it is: the error text under its type, or an address under the type
      of the request. */
  predicate ReplyInKind(m: Message) {
    match RouteOf(m)
    case NoServer => m == Message(ERROR, NO_SERVER_TEXT)
    case Undefined => false
    case To(a) => m == Message(OBTAIN_SERVER_ADDR, AddressText(a))
  }

  /** The registered addresses are those of connected peers. */
  ghost predicate RealAddresses(slots: seq<Slot>) {
    forall i :: Registered(slots, i) ==> Real(slots[i].addr)
  }

  /** From request frame to parsed address, over whatever both buffers hold: the request leaves the table alone, the
      client is sent an ERROR exactly when no slot is registered, and otherwise gets ip and port of the one slot that
      has the lowest number among those with the fewest connections. */
  lemma RoutedToLeastLoaded(slots: seq<Slot>, stale1: string, stale2: string)
    requires RealAddresses(slots) && |stale1| == |stale2| == BUFFER_SIZE
    ensures var reply := ReplyTo(slots, ServerDecode(stale1, FrameOf(OBTAIN_SERVER_ADDR, None)));
            && reply.Some?
            && var m := ClientDecode(stale2, reply.value);
               && ReplyInKind(m)
               && (m.kind == ERROR <==> forall i :: 0 <= i < |slots| ==> !Registered(slots, i))
               && (m.kind == OBTAIN_SERVER_ADDR <==> exists i :: IsLeastLoaded(slots, i))
               && (forall i :: IsLeastLoaded(slots, i) ==> RouteOf(m) == To(slots[i].addr))
    ensures forall fd: nat, peer: Peer :: fd < |slots|
              ==> TableAfter(slots, fd, peer, ServerDecode(stale1, FrameOf(OBTAIN_SERVER_ADDR, None))) == slots
  {
    NullBodyReadsEmpty(stale1, OBTAIN_SERVER_ADDR);
    var b := Best(slots, |slots|);
    if b == -1 {
      FrameRoundTrip(stale2, ERROR, NO_SERVER_TEXT);
    } else {
      assert IsLeastLoaded(slots, b) && Registered(slots, b);
      AddressRoundTrip(slots[b].addr);
      FrameRoundTrip(stale2, OBTAIN_SERVER_ADDR, AddressText(slots[b].addr));
      forall i | IsLeastLoaded(slots, i)
        ensures i == b
      {
        LeastLoadedUnique(slots, i, b);
      }
    }
  }

  ghost predicate Reporting(s: State, c: nat, fd: nat) {
    IsOpen(s, c, fd) && Reports(s.children[c][fd])
  }

  lemma ReportingIsRegistered(s: State, c: nat, fd: nat)
    requires Agrees(s) && Reporting(s, c, fd)
    ensures Registered(s.slots, fd) && s.slots[fd] == Slot(s.children[c][fd].peer, s.children[c][fd].last.value)
  {
  }

  lemma RegisteredIsReporting(ss: seq<State>, es: seq<Event>, i: nat, fd: nat) returns (c: nat)
    requires Run(ss, es) && i <= |es| && Registered(ss[i].slots, fd)
    ensures Reporting(ss[i], c, fd)
    ensures ss[i].slots[fd] == Slot(ss[i].children[c][fd].peer, ss[i].children[c][fd].last.value)
  {
    AgreesUntilSpoilt(ss, es, i);
    TableRefinesConnections(ss, es, i, fd);
    c :| IsOpen(ss[i], c, fd) && Reports(ss[i].children[c][fd]);
  }

  /** What a scan reads while other processes write the table: slot k as it was at moment at[k]. */
  ghost predicate ScanReads(ss: seq<State>, at: seq<nat>, slots: seq<Slot>) {
    && |at| == |slots| == MAX_WORK_SERVER
    && forall k :: 0 <= k < |slots| ==> at[k] < |ss| && k < |ss[at[k]].slots| && slots[k] == ss[at[k]].slots[k]
  }

  /** Connection fd of process c was open and had reported n when its slot was read. */
  ghost predicate ReportedAt(ss: seq<State>, at: seq<nat>, c: nat, fd: nat, n: int) {
    fd < |at| && at[fd] < |ss| && Reporting(ss[at[fd]], c, fd) && ss[at[fd]].children[c][fd].last.value == n
  }

  lemma ScanAgrees(ss: seq<State>, es: seq<Event>, at: seq<nat>, slots: seq<Slot>)
    requires Run(ss, es) && ScanReads(ss, at, slots)
    ensures RealAddresses(slots)
    ensures forall fd: nat :: Registered(slots, fd) ==> exists c: nat ::
              ReportedAt(ss, at, c, fd, slots[fd].connections) && slots[fd].addr == ss[at[fd]].children[c][fd].peer
    ensures forall c: nat, fd: nat, n :: ReportedAt(ss, at, c, fd, n)
              ==> Registered(slots, fd) && slots[fd].connections == n
  {
    forall fd: nat | Registered(slots, fd)
      ensures exists c: nat ::
                ReportedAt(ss, at, c, fd, slots[fd].connections) && slots[fd].addr == ss[at[fd]].children[c][fd].peer
    {
      var c := RegisteredIsReporting(ss, es, at[fd], fd);
      assert ReportedAt(ss, at, c, fd, slots[fd].connections);
    }
    forall c: nat, fd: nat, n | ReportedAt(ss, at, c, fd, n)
      ensures Registered(slots, fd) && slots[fd].connections == n
    {
      AgreesUntilSpoilt(ss, es, at[fd]);
      ReportingIsRegistered(ss[at[fd]], c, fd);
    }
  }

  /** Also when the table changes between one slot and the next: the client gets an address exactly if some
      connection had reported when its slot was read, and then the peer address of a connection that was open,
      and whose last report was the smallest of all, at the moments their slots were read. */
  lemma RoutedSlotBySlot(ss: seq<State>, es: seq<Event>, at: seq<nat>, slots: seq<Slot>,
                         stale1: string, stale2: string)
    requires Run(ss, es) && ScanReads(ss, at, slots) && |stale1| == |stale2| == BUFFER_SIZE
    ensures var reply := ReplyTo(slots, ServerDecode(stale1, FrameOf(OBTAIN_SERVER_ADDR, None)));
            && reply.Some?
            && var m := ClientDecode(stale2, reply.value);
               var r := RouteOf(m);
               && ReplyInKind(m)
               && (r.NoServer? <==> forall c: nat, fd: nat, n :: !ReportedAt(ss, at, c, fd, n))
               && (r.To? ==> exists c: nat, fd: nat, n ::
                     && ReportedAt(ss, at, c, fd, n) && ss[at[fd]].children[c][fd].peer == r.addr
                     && forall d: nat, fd': nat, n' :: ReportedAt(ss, at, d, fd', n') ==> n <= n')
  {
    ScanAgrees(ss, es, at, slots);
    RoutedToLeastLoaded(slots, stale1, stale2);
    var reply := ReplyTo(slots, ServerDecode(stale1, FrameOf(OBTAIN_SERVER_ADDR, None)));
    var r := RouteOf(ClientDecode(stale2, reply.value));
    if r.To? {
      var k: nat :| IsLeastLoaded(slots, k);
      var c: nat :| ReportedAt(ss, at, c, k, slots[k].connections) && slots[k].addr == ss[at[k]].children[c][k].peer;
      assert forall d: nat, fd': nat, n' :: ReportedAt(ss, at, d, fd', n') ==> slots[k].connections <= n';
    }
  }

  /** In every reachable state the address a client gets from an undisturbed scan is the peer address of an open
      connection whose last report is the smallest of all open reporting connections; and it gets one exactly
      if there is any. */
  lemma RoutedToLiveServer(ss: seq<State>, es: seq<Event>, i: nat, stale1: string, stale2: string)
    requires Run(ss, es) && i <= |es| && |stale1| == |stale2| == BUFFER_SIZE
    ensures var s := ss[i];
            var reply := ReplyTo(s.slots, ServerDecode(stale1, FrameOf(OBTAIN_SERVER_ADDR, None)));
            && reply.Some?
            && var m := ClientDecode(stale2, reply.value);
               var r := RouteOf(m);
               && ReplyInKind(m)
               && (r.NoServer? <==> forall c: nat, fd: nat :: !Reporting(s, c, fd))
               && (r.To? ==> exists c: nat, fd: nat ::
                     && Reporting(s, c, fd) && s.children[c][fd].peer == r.addr
                     && forall d: nat, fd': nat :: Reporting(s, d, fd')
                          ==> s.children[c][fd].last.value <= s.children[d][fd'].last.value)
  {
    var s := ss[i];
    var at := seq(MAX_WORK_SERVER, k => i);
    AgreesUntilSpoilt(ss, es, i);
    RoutedSlotBySlot(ss, es, at, s.slots, stale1, stale2);
    forall c: nat, fd: nat | Reporting(s, c, fd)
      ensures ReportedAt(ss, at, c, fd, s.children[c][fd].last.value)
    {
      ReportingIsRegistered(s, c, fd);
    }
    assert forall c: nat, fd: nat, n :: ReportedAt(ss, at, c, fd, n) ==> Reporting(s, c, fd);
  }

  /** A heartbeat of a work server, sent at any moment of any run of its counter up to 99999 connections,
      registers the connection it comes on with the very count, never with the -1 of a free slot, and is not
      answered. */
  lemma HeartbeatRegisters(cs: seq<Counter.State>, steps: seq<Counter.Step>, k: nat,
                           slots: seq<Slot>, fd: nat, peer: Peer, stale: string)
    requires Counter.Run(cs, steps) && k <= |steps| && cs[k].shareMem <= 99999
    requires fd < |slots| && |stale| == BUFFER_SIZE
    ensures var m := ServerDecode(stale, Counter.Heartbeat(cs[k].shareMem));
            && Registered(TableAfter(slots, fd, peer, m), fd)
            && TableAfter(slots, fd, peer, m)[fd].connections == cs[k].shareMem >= 0
            && ReplyTo(slots, m) == None
  {
    Counter.HeartbeatDelivered(cs, steps, k, stale);
  }
}
