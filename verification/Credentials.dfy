/** Work servers facing clients that need not follow the menu: well-formed messages of any type, in any order,
    on any number of connections. */
module Credentials {
  import opened CText
  import opened Frames
  import opened Requests
  import opened UserTables
  import opened WorkServers
  import ChatClients

  // ---- well-formed messages --------------------------------------------------------------------

  /** Text that stands for itself in an SQL literal: statements are built without escaping. */
  predicate SqlPlain(s: string) {
    forall c :: c in s ==> ' ' <= c <= '~' && c != '"' && c != '\\'
  }

  /** Two column values: a name that a list row has room for, and a varchar(17) password. */
  predicate FieldsFit(p: Pair) {
    |p.first| <= 16 && |p.second| <= 17
  }

  predicate UidFits(r: Credentials) {
    ChatClients.Int32(r.uid) && |r.password| <= 17
  }

  predicate MemberFits(r: MemberCall) {
    ChatClients.Int32(r.uid) && |r.password| <= 17
  }

  /** A page of at most 20 rows. */
  predicate PageFits(p: Pair) {
    ChatClients.Int32(Atoi(p.first)) && ChatClients.Int32(Atoi(p.second)) && Atoi(p.second) <= 20
  }

  /** The bodies that reach the SQL statements, the C ints and the buffers as what they are. Bodies without
      the separators are among them. */
  predicate WellFormed(m: Message) {
    && SqlPlain(m.body)
    && var pair, uid, member := SplitPair(m.body), ParseUidRequest(m.body), ParseMemberRequest(m.body);
       if m.kind == REGISRERED then pair.Some? ==> FieldsFit(pair.value)
       else if m.kind in {LOGIN, LOGOUT, DELETE_USER} then uid.Some? ==> UidFits(uid.value)
       else if m.kind == USER_LIST then pair.Some? ==> PageFits(pair.value)
       else if m.kind == CREATE_GROUP then member.Some? ==> MemberFits(member.value) && |member.value.last| <= 16
       else if m.kind in {FIND_USER, OBTAIN_CLIENT_ADDR}
       then member.Some? ==> MemberFits(member.value) && ChatClients.Int32(Atoi(member.value.last))
       else true
  }

  lemma DecimalSqlPlain(n: int)
    ensures SqlPlain(Decimal(n))
  {
  }

  lemma UidWellFormed(kind: nat, uid: int, password: string)
    requires kind in {LOGIN, LOGOUT, DELETE_USER} && ChatClients.Int32(uid) && CheckName(password)
    ensures WellFormed(Message(kind, UidRequest(uid, password)))
  {
    DecimalSqlPlain(uid);
    UidRequestRoundTrip(uid, password);
  }

  lemma RegistrationWellFormed(uname: string, password: string)
    requires CheckName(uname) && CheckName(password)
    ensures WellFormed(Message(REGISRERED, TwoFields(uname, password)))
  {
    AlnumPlain(uname);
    SplitPairOf(uname, password);
  }

  /** A quote in a field ends the SQL literal early: the condition of this login would hold of every row. */
  lemma QuotedLoginNotWellFormed()
    ensures !WellFormed(Message(LOGIN, "5:\" or \"1\"=\"1"))
  {
    var body := "5:\" or \"1\"=\"1";
    assert body[2] == '"' && body[2] in body;
    assert !SqlPlain(body);
  }

  // ---- connections, table and events -----------------------------------------------------------

  datatype Link = Link(session: Session, peer: Peer)

  /** registered remembers the password of every registration, also after the account is deleted. */
  datatype State = State(table: Table, links: map<nat, Link>, registered: map<int, string>)

  datatype Event =
    | Accept(id: nat, peer: Peer)
    | Deliver(id: nat, m: Message, now: int, insertOk: bool)
    | GroupStatement(uid: int, password: string, groupNum: int, groups: string, now: int)
    | Close(id: nat, now: int)

  ghost predicate Initial(s: State) {
    s == State(Table(map[], 1), map[], map[])
  }

  ghost predicate Enabled(s: State, e: Event) {
    match e
    case Accept(id, _) => id !in s.links
    // ids of ten digits would not fit the array the reply is printed into
    case Deliver(id, m, _, _) =>
      id in s.links && WellFormed(m) && (m.kind == REGISRERED ==> s.table.nextUid < Pow10(9))
    // the update of some create_group, with whatever password and list
    case GroupStatement(_, _, _, _, _) => true
    case Close(id, _) => id in s.links
  }

  function Remember(registered: map<int, string>, t: Table, m: Message, insertOk: bool): map<int, string> {
    var p := SplitPair(m.body);
    if m.kind == REGISRERED && p.Some? && insertOk then registered[t.nextUid := p.value.second] else registered
  }

  ghost function Next(col: Collation, s: State, e: Event): State
    requires Enabled(s, e)
  {
    match e
    case Accept(id, peer) => s.(links := s.links[id := Link(LOGGED_OUT, peer)])
    case Deliver(id, m, now, insertOk) =>
      var l := s.links[id];
      var h := Handle(col, l.session, s.table, l.peer, m, now, insertOk);
      State(h.table, s.links[id := l.(session := h.session)], Remember(s.registered, s.table, m, insertOk))
    case GroupStatement(uid, password, groupNum, groups, now) =>
      s.(table := UpdateGroups(col, s.table, uid, password, groupNum, groups, now).table)
    case Close(id, now) =>
      s.(table := Disconnect(col, s.links[id].session, s.table, now).table, links := s.links - {id})
  }

  ghost predicate Run(col: Collation, ss: seq<State>, es: seq<Event>) {
    && |ss| == |es| + 1
    && Initial(ss[0])
    && forall i :: 0 <= i < |es| ==> Enabled(ss[i], es[i]) && ss[i + 1] == Next(col, ss[i], es[i])
  }

  ghost predicate Holds(col: Collation, registered: map<int, string>, x: Session) {
    x.uid != 0 ==> x.uid in registered && col.Same(registered[x.uid], x.password)
  }

  ghost predicate HistoryOk(t: Table, registered: map<int, string>) {
    && TableOk(t)
    && (forall uid :: uid in registered ==> 1 <= uid < t.nextUid)
    && (forall uid :: uid in t.rows ==> uid in registered && registered[uid] == t.rows[uid].password)
  }

  ghost predicate Inv(col: Collation, s: State) {
    && HistoryOk(s.table, s.registered)
    && forall id :: id in s.links ==> Holds(col, s.registered, s.links[id].session)
  }

  /** Every update leaves the user ids and passwords of the table alone. */
  lemma UpdateKeepsHistory(col: Collation, x: Session, t: Table, registered: map<int, string>, body: string,
                           addr: string, now: int)
    requires HistoryOk(t, registered) && Holds(col, registered, x) && addr != ""
    ensures var o := Login(col, x, t, body, addr, now);
            HistoryOk(o.table, registered) && Holds(col, registered, o.session)
    ensures var o := Logout(col, x, t, body, now);
            HistoryOk(o.table, registered) && Holds(col, registered, o.session)
  {
  }

  lemma RegisterKeepsHistory(t: Table, registered: map<int, string>, body: string, now: int, ok: bool)
    requires HistoryOk(t, registered)
    ensures HistoryOk(Registered(t, body, now, ok).table, Remember(registered, t, Message(REGISRERED, body), ok))
  {
  }

  lemma DeleteKeepsHistory(col: Collation, t: Table, registered: map<int, string>, body: string)
    requires HistoryOk(t, registered)
    ensures HistoryOk(DeleteUser(col, t, body).table, registered)
  {
  }

  lemma HandleKeepsHistory(col: Collation, x: Session, t: Table, registered: map<int, string>, peer: Peer,
                           m: Message, now: int, insertOk: bool)
    requires HistoryOk(t, registered) && Holds(col, registered, x)
    ensures var h := Handle(col, x, t, peer, m, now, insertOk);
            HistoryOk(h.table, Remember(registered, t, m, insertOk))
    ensures Holds(col, registered, Handle(col, x, t, peer, m, now, insertOk).session)
  {
    if m.kind == REGISRERED {
      RegisterKeepsHistory(t, registered, m.body, now, insertOk);
    } else if m.kind == LOGIN || m.kind == LOGOUT {
      UpdateKeepsHistory(col, x, t, registered, m.body, AddressText(peer), now);
    } else if m.kind == DELETE_USER {
      DeleteKeepsHistory(col, t, registered, m.body);
    }
  }

  lemma HistoryGrows(t: Table, registered: map<int, string>, m: Message, insertOk: bool)
    requires HistoryOk(t, registered)
    ensures var registered' := Remember(registered, t, m, insertOk);
            forall uid :: uid in registered ==> uid in registered' && registered'[uid] == registered[uid]
  {
  }

  lemma StepKeepsInv(col: Collation, s: State, e: Event)
    requires Inv(col, s) && Enabled(s, e)
    ensures Inv(col, Next(col, s, e))
  {
    if e.Deliver? {
      var l := s.links[e.id];
      HandleKeepsHistory(col, l.session, s.table, s.registered, l.peer, e.m, e.now, e.insertOk);
      HistoryGrows(s.table, s.registered, e.m, e.insertOk);
    }
  }

  lemma {:induction false} RunKeepsInv(col: Collation, ss: seq<State>, es: seq<Event>, i: nat)
    requires Run(col, ss, es) && i <= |es|
    ensures Inv(col, ss[i])
  {
    if i > 0 {
      RunKeepsInv(col, ss, es, i - 1);
      StepKeepsInv(col, ss[i - 1], es[i - 1]);
    }
  }

  /** Whatever well-formed messages clients send, is_login accepts only a user id handed out by an earlier
      registration, with a password that SQL takes to be the registered one; and the table keeps online = 1
      with an address. */
  lemma CredentialsSound(col: Collation, ss: seq<State>, es: seq<Event>, i: nat, id: nat, uid: int, password: string)
    requires Run(col, ss, es) && i <= |es| && id in ss[i].links
    ensures IsLogin(ss[i].links[id].session, uid, password)
        ==> uid in ss[i].registered && col.Same(ss[i].registered[uid], password)
    ensures TableOk(ss[i].table)
  {
    RunKeepsInv(col, ss, es, i);
  }

  // ---- who is shown online ---------------------------------------------------------------------

  /** Connection id is logged in as uid from the address on record. */
  ghost predicate BackedBy(s: State, uid: int, id: nat)
    requires uid in s.table.rows
  {
    && id in s.links && s.links[id].session.uid == uid
    && AddressText(s.links[id].peer) == s.table.rows[uid].addr
  }

  ghost predicate RowAgrees(s: State, uid: int)
    requires uid in s.table.rows
  {
    s.table.rows[uid].online == 1 ==> exists id :: BackedBy(s, uid, id)
  }

  /** Whoever is shown online is logged in on a live connection from the address on record. */
  ghost predicate Agreement(s: State) {
    forall uid :: uid in s.table.rows ==> RowAgrees(s, uid)
  }

  /** The update of a LOGIN or LOGOUT of connection id for the user of request r changes a row. */
  predicate Succeeds(col: Collation, t: Table, l: Link, m: Message, r: Credentials, now: int) {
    if m.kind == LOGIN then UpdateOnlineAndAddr(col, t, r.uid, 1, r.password, AddressText(l.peer), now).ok
    else m.kind == LOGOUT && UpdateOnlineAndAddr(col, t, r.uid, 0, r.password, "", now).ok
  }

  /** A message by which a connection leaves its own user behind: a login or logout of somebody else
      succeeds while the connection's user is shown online and no other connection backs that. */
  ghost predicate Leaves(col: Collation, s: State, id: nat, m: Message, now: int)
    requires id in s.links
  {
    var l, r := s.links[id], ParseUidRequest(m.body);
    && l.session.uid in s.table.rows && s.table.rows[l.session.uid].online == 1
    && (forall j :: BackedBy(s, l.session.uid, j) ==> j == id)
    && r.Some? && r.value.uid != l.session.uid && Succeeds(col, s.table, l, m, r.value, now)
  }

  ghost predicate LeavesAt(col: Collation, s: State, e: Event)
    requires Enabled(s, e)
  {
    e.Deliver? && Leaves(col, s, e.id, e.m, e.now)
  }

  /** The credentials of every session open its row, as long as the row exists. */
  ghost predicate SessionsOpen(col: Collation, s: State) {
    forall id :: id in s.links && s.links[id].session.uid in s.table.rows
             ==> Matches(col, s.table, s.links[id].session.uid, s.links[id].session.password)
  }

  /** A row stays backed by a connection that neither closes nor changes its session. */
  lemma StaysBacked(s: State, s': State, uid: int, id: nat)
    requires uid in s.table.rows && uid in s'.table.rows && BackedBy(s, uid, id)
    requires s'.table.rows[uid].addr == s.table.rows[uid].addr
    requires id in s'.links && s'.links[id] == s.links[id]
    ensures RowAgrees(s', uid)
  {
    assert BackedBy(s', uid, id);
  }

  /** Events other than a successful login or logout leave a row agreeing. */
  lemma QuietKeepsRow(col: Collation, s: State, e: Event, uid: int)
    requires TableOk(s.table) && SessionsOpen(col, s) && Enabled(s, e) && Agreement(s)
    requires e.Deliver? ==> Next(col, s, e).links == s.links
    requires e.Deliver? && e.m.kind in {LOGIN, LOGOUT} ==> Next(col, s, e).table == s.table
    requires uid in Next(col, s, e).table.rows
    ensures RowAgrees(Next(col, s, e), uid)
  {
    var s' := Next(col, s, e);
    if s'.table.rows[uid].online == 1 && uid in s.table.rows {
      if e.Close? {
        UidRequestRoundTrip(s.links[e.id].session.uid, s.links[e.id].session.password);
      }
      assert RowAgrees(s, uid) && s'.table.rows[uid].addr == s.table.rows[uid].addr;
      var id :| BackedBy(s, uid, id);
      StaysBacked(s, s', uid, id);
    }
  }

  /** After a successful login or logout every row agrees, except the own one of a connection that leaves it. */
  lemma MoveKeepsRow(col: Collation, s: State, e: Event, r: Credentials, uid: int)
    requires TableOk(s.table) && Agreement(s) && e.Deliver? && Enabled(s, e)
    requires ParseUidRequest(e.m.body) == Some(r) && Succeeds(col, s.table, s.links[e.id], e.m, r, e.now)
    requires uid in Next(col, s, e).table.rows && !(LeavesAt(col, s, e) && uid == s.links[e.id].session.uid)
    ensures RowAgrees(Next(col, s, e), uid)
  {
    var s' := Next(col, s, e);
    if uid == r.uid {
      assert e.m.kind == LOGIN ==> BackedBy(s', uid, e.id);
    } else if s.table.rows[uid].online == 1 {
      assert RowAgrees(s, uid);
      var id: nat :| BackedBy(s, uid, id) && id != e.id;
      StaysBacked(s, s', uid, id);
    }
  }

  /** A row that no connection backs stays so, unchanged, when a connection of another user ends. */
  lemma EndLeavesOthers(col: Collation, s: State, id: nat, end: int, uid: int)
    requires id in s.links && s.links[id].session.uid != uid && uid in s.table.rows && !RowAgrees(s, uid)
    ensures var s' := Next(col, s, Close(id, end));
            uid in s'.table.rows && s'.table.rows[uid] == s.table.rows[uid] && !RowAgrees(s', uid)
  {
    var x, s' := s.links[id].session, Next(col, s, Close(id, end));
    UidRequestRoundTrip(x.uid, x.password);
    assert forall j :: BackedBy(s', uid, j) ==> BackedBy(s, uid, j);
  }

  /** The row left behind keeps its address and loses its only backing; the end of the connection does not
      take it offline any more. */
  lemma LeavingStrandsRow(col: Collation, s: State, id: nat, m: Message, now: int, ok: bool, end: int)
    requires TableOk(s.table) && Enabled(s, Deliver(id, m, now, ok)) && Leaves(col, s, id, m, now)
    ensures var uid, s' := s.links[id].session.uid, Next(col, s, Deliver(id, m, now, ok));
            var s'' := Next(col, s', Close(id, end));
            && uid in s'.table.rows && s'.table.rows[uid] == s.table.rows[uid] && !RowAgrees(s', uid)
            && uid in s''.table.rows && s''.table.rows[uid] == s.table.rows[uid] && !RowAgrees(s'', uid)
  {
    var uid, s' := s.links[id].session.uid, Next(col, s, Deliver(id, m, now, ok));
    assert s'.links[id].session.uid != uid;
    assert forall j :: BackedBy(s', uid, j) ==> j != id && BackedBy(s, uid, j);
    EndLeavesOthers(col, s', id, end, uid);
  }

  lemma OnlineBackingLost(col: Collation, s: State, e: Event)
    requires TableOk(s.table) && Enabled(s, e) && LeavesAt(col, s, e)
    ensures !Agreement(Next(col, s, e))
  {
    LeavingStrandsRow(col, s, e.id, e.m, e.now, e.insertOk, 0);
  }

  /** Every step from an agreeing state ends in one exactly when it is no message of a connection that leaves
      its own user behind. */
  lemma AgreementKeptExactly(col: Collation, s: State, e: Event)
    requires TableOk(s.table) && SessionsOpen(col, s) && Agreement(s) && Enabled(s, e)
    ensures Agreement(Next(col, s, e)) <==> !LeavesAt(col, s, e)
  {
    var s' := Next(col, s, e);
    if LeavesAt(col, s, e) {
      OnlineBackingLost(col, s, e);
    } else {
      forall uid | uid in s'.table.rows
        ensures RowAgrees(s', uid)
      {
        if e.Deliver? && ParseUidRequest(e.m.body).Some?
           && Succeeds(col, s.table, s.links[e.id], e.m, ParseUidRequest(e.m.body).value, e.now) {
          MoveKeepsRow(col, s, e, ParseUidRequest(e.m.body).value, uid);
        } else {
          QuietKeepsRow(col, s, e, uid);
        }
      }
    }
  }

  lemma {:induction false} AgreesUntilLeft(col: Collation, ss: seq<State>, es: seq<Event>, i: nat)
    requires Run(col, ss, es) && i <= |es|
    requires forall k :: 0 <= k < i ==> !LeavesAt(col, ss[k], es[k])
    ensures Agreement(ss[i])
  {
    if i > 0 {
      AgreesUntilLeft(col, ss, es, i - 1);
      RunKeepsInv(col, ss, es, i - 1);
      AgreementKeptExactly(col, ss[i - 1], es[i - 1]);
    }
  }

  /** In a whole run everybody who is shown online is connected, exactly when no connection ever leaves its own
      user behind. */
  lemma OnlineBackedExactly(col: Collation, ss: seq<State>, es: seq<Event>)
    requires Run(col, ss, es)
    ensures (forall i :: 0 <= i <= |es| ==> Agreement(ss[i]))
       <==> (forall i :: 0 <= i < |es| ==> !LeavesAt(col, ss[i], es[i]))
  {
    if forall i :: 0 <= i <= |es| ==> Agreement(ss[i]) {
      forall i | 0 <= i < |es|
        ensures !LeavesAt(col, ss[i], es[i])
      {
        RunKeepsInv(col, ss, es, i);
        AgreementKeptExactly(col, ss[i], es[i]);
        assert Agreement(ss[i]) && Agreement(ss[i + 1]);
      }
    } else {
      var i :| 0 <= i <= |es| && !Agreement(ss[i]);
      if forall k :: 0 <= k < |es| ==> !LeavesAt(col, ss[k], es[k]) {
        AgreesUntilLeft(col, ss, es, i);
      }
    }
  }

  // ---- runs that lose the agreement ------------------------------------------------------------

  lemma RunExtended(col: Collation, ss: seq<State>, es: seq<Event>, e: Event)
    requires Run(col, ss, es) && Enabled(ss[|es|], e)
    ensures Run(col, ss + [Next(col, ss[|es|], e)], es + [e])
  {
    var rs, fs := ss + [Next(col, ss[|es|], e)], es + [e];
    forall i | 0 <= i < |fs|
      ensures Enabled(rs[i], fs[i]) && rs[i + 1] == Next(col, rs[i], fs[i])
    {
      if i < |es| {
        assert rs[i] == ss[i] && rs[i + 1] == ss[i + 1] && fs[i] == es[i];
      }
    }
  }

  function NewRow(uname: string): Row {
    Row(uname, "pw", 0, "", 0, 3, "", 0)
  }

  /** Two users without a session, on one connection. */
  function TwoUsers(peer: Peer): State {
    State(Table(map[1 := NewRow("ann"), 2 := NewRow("bob")], 3), map[0 := Link(LOGGED_OUT, peer)],
          map[1 := "pw", 2 := "pw"])
  }

  function Registration(uname: string): Event {
    Deliver(0, Message(REGISRERED, TwoFields(uname, "pw")), 0, true)
  }

  lemma RegistrationOk(s: State, uname: string)
    requires 0 in s.links && CheckName(uname) && s.table.nextUid < 10
    ensures Enabled(s, Registration(uname))
  {
    RegistrationWellFormed(uname, "pw");
    Pow10Nine();
  }

  function WithUser(s: State, uname: string): State {
    var uid := s.table.nextUid;
    State(Table(s.table.rows[uid := NewRow(uname)], uid + 1), s.links, s.registered[uid := "pw"])
  }

  lemma RegistrationAdds(col: Collation, s: State, uname: string)
    requires Enabled(s, Registration(uname)) && ':' !in uname
    ensures Next(col, s, Registration(uname)) == WithUser(s, uname)
  {
    SplitPairOf(uname, "pw");
    assert s.links[0 := s.links[0]] == s.links;
  }

  /** A run goes on by a registration. */
  lemma RegisteredAfter(col: Collation, before: seq<State>, past: seq<Event>, uname: string)
    returns (ss: seq<State>, es: seq<Event>)
    requires Run(col, before, past) && CheckName(uname)
    requires 0 in before[|past|].links && before[|past|].table.nextUid < 10
    ensures Run(col, ss, es) && |es| == |past| + 1 && ss[|es|] == WithUser(before[|past|], uname)
  {
    var s := before[|past|];
    RegistrationOk(s, uname);
    AlnumPlain(uname);
    RegistrationAdds(col, s, uname);
    RunExtended(col, before, past, Registration(uname));
    ss, es := before + [Next(col, s, Registration(uname))], past + [Registration(uname)];
  }

  lemma Connects(col: Collation, peer: Peer) returns (ss: seq<State>, es: seq<Event>)
    ensures Run(col, ss, es) && |es| == 1
    ensures ss[1] == State(Table(map[], 1), map[0 := Link(LOGGED_OUT, peer)], map[])
  {
    var s0 := State(Table(map[], 1), map[], map[]);
    ss, es := [s0, Next(col, s0, Accept(0, peer))], [Accept(0, peer)];
  }

  lemma TwoUsersReachable(col: Collation, peer: Peer) returns (ss: seq<State>, es: seq<Event>)
    ensures Run(col, ss, es) && |es| == 3 && ss[3] == TwoUsers(peer)
  {
    ss, es := Connects(col, peer);
    ss, es := RegisteredAfter(col, ss, es, "ann");
    ss, es := RegisteredAfter(col, ss, es, "bob");
  }

  lemma UidMessageOk(kind: nat, uid: int)
    requires kind in {LOGIN, LOGOUT} && uid in {1, 2}
    ensures WellFormed(Message(kind, UidRequest(uid, "pw")))
    ensures ParseUidRequest(UidRequest(uid, "pw")) == Some(Credentials(uid, "pw"))
  {
    UidWellFormed(kind, uid, "pw");
    UidRequestRoundTrip(uid, "pw");
  }

  function PwRequest(kind: nat, uid: int, now: int): Event {
    Deliver(0, Message(kind, UidRequest(uid, "pw")), now, true)
  }

  /** The first of the two users has logged in. */
  function AnnOnline(peer: Peer): State {
    var s := TwoUsers(peer);
    s.(table := s.table.(rows := s.table.rows[1 := NewRow("ann").(online := 1, addr := AddressText(peer))]),
       links := map[0 := Link(Session(1, "pw"), peer)])
  }

  lemma AnnLogsIn(col: Collation, peer: Peer)
    ensures Enabled(TwoUsers(peer), PwRequest(LOGIN, 1, 0))
    ensures Next(col, TwoUsers(peer), PwRequest(LOGIN, 1, 0)) == AnnOnline(peer)
  {
    UidMessageOk(LOGIN, 1);
  }

  lemma AnnLeaves(col: Collation, peer: Peer, kind: nat)
    requires kind in {LOGIN, LOGOUT}
    ensures Enabled(AnnOnline(peer), PwRequest(kind, 2, 1))
    ensures LeavesAt(col, AnnOnline(peer), PwRequest(kind, 2, 1)) && Agreement(AnnOnline(peer))
  {
    UidMessageOk(kind, 2);
    assert BackedBy(AnnOnline(peer), 1, 0);
  }

  /** A run goes on by two steps, of which the second leaves a user behind. */
  lemma LeftAfter(col: Collation, before: seq<State>, past: seq<Event>, e: Event, f: Event)
    returns (ss: seq<State>, es: seq<Event>)
    requires Run(col, before, past) && Enabled(before[|past|], e)
    requires var s := Next(col, before[|past|], e); Enabled(s, f) && LeavesAt(col, s, f) && Agreement(s)
    ensures Run(col, ss, es) && es == past + [e, f]
    ensures var s := ss[|past| + 1]; LeavesAt(col, s, f) && Agreement(s) && !Agreement(ss[|past| + 2])
  {
    var s := Next(col, before[|past|], e);
    RunExtended(col, before, past, e);
    RunExtended(col, before + [s], past + [e], f);
    ss, es := before + [s] + [Next(col, s, f)], past + [e] + [f];
    RunKeepsInv(col, ss, es, |past| + 1);
    OnlineBackingLost(col, s, f);
  }

  /** One connection registers two users and logs in as the first; then a login as the second, as well as a
      logout of the second, leaves the first user behind. */
  lemma LeavingReachable(col: Collation, peer: Peer, kind: nat) returns (ss: seq<State>, es: seq<Event>)
    requires kind in {LOGIN, LOGOUT}
    ensures Run(col, ss, es) && |es| == 5 && es[4] == PwRequest(kind, 2, 1)
    ensures LeavesAt(col, ss[4], es[4]) && Agreement(ss[4]) && !Agreement(ss[5])
  {
    ss, es := TwoUsersReachable(col, peer);
    AnnLogsIn(col, peer);
    AnnLeaves(col, peer, kind);
    ss, es := LeftAfter(col, ss, es, PwRequest(LOGIN, 1, 0), PwRequest(kind, 2, 1));
  }
}
