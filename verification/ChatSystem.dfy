/** Any number of clients, each with its connection to some work server, over one user table: who is
    online, and what client and server believe about each other. No work server process exits. */
module ChatSystem {
  import opened CText
  import opened Frames
  import opened Requests
  import opened UserTables
  import opened UserLists
  import opened WorkServers
  import opened ChatClients

  /** A client makes one call at a time: the request is under way, then the reply is. */
  datatype Phase =
    | Idle
    | Sent(choice: Choice, wire: string)
    | Answered(choice: Choice, wire: string)

  datatype Conn = Conn(client: Client, session: Session, peer: Peer, phase: Phase)

  /** logins remembers, for every user id, the peer of the last successful login. */
  datatype State = State(table: Table, conns: map<nat, Conn>, logins: map<int, Peer>)

  datatype Event =
    | Connect(id: nat, peer: Peer)
    | Choose(id: nat, choice: Choice)
    | Serve(id: nat, stale: string, now: int, insertOk: bool)
    | AnswerCreateGroup(id: nat, gid: int)
    | GroupStatement(uid: int, password: string, groupNum: int, groups: string, now: int)
    | Receive(id: nat, stale: string)
    | Close(id: nat, now: int)

  ghost predicate Initial(s: State) {
    s.table.rows == map[] && s.table.nextUid == 1 && s.conns == map[] && s.logins == map[]
  }

  ghost predicate Enabled(s: State, e: Event) {
    match e
    case Connect(id, _) => id !in s.conns
    case Choose(id, choice) => id in s.conns && s.conns[id].phase.Idle? && Offered(s.conns[id].client, choice)
    case Serve(id, stale, _, _) =>
      id in s.conns && s.conns[id].phase.Sent? && !s.conns[id].phase.choice.ChooseCreateGroup? && |stale| == BUFFER_SIZE
    case AnswerCreateGroup(id, _) =>
      id in s.conns && s.conns[id].phase.Sent? && s.conns[id].phase.choice.ChooseCreateGroup?
    // the update statement of some create_group, whose calls may overlap in any way
    case GroupStatement(_, _, _, _, _) => true
    case Receive(id, stale) => id in s.conns && s.conns[id].phase.Answered? && |stale| == BUFFER_SIZE
    // a client may go away at any moment, with a request or a reply still under way
    case Close(id, _) => id in s.conns
  }

  function ServeConn(col: Collation, k: Conn, t: Table, stale: string, now: int, insertOk: bool): Handled
    requires k.phase.Sent? && |stale| == BUFFER_SIZE
  {
    Handle(col, k.session, t, k.peer, ServerDecode(stale, k.phase.wire), now, insertOk)
  }

  function ReplyWire(reply: Option<Message>): string {
    if reply.Some? then WireOf(reply.value) else ""
  }

  ghost function Next(col: Collation, s: State, e: Event): State
    requires Enabled(s, e)
  {
    match e
    case Connect(id, peer) => s.(conns := s.conns[id := Conn(NEW_CLIENT, LOGGED_OUT, peer, Idle)])
    case Choose(id, choice) =>
      var k := s.conns[id];
      s.(conns := s.conns[id := k.(phase := Sent(choice, WireOf(RequestOf(k.client, choice))))])
    case Serve(id, stale, now, insertOk) =>
      var k := s.conns[id];
      var h := ServeConn(col, k, s.table, stale, now, insertOk);
      var logins :=
        if h.session != k.session && h.session.uid != 0 then s.logins[h.session.uid := k.peer] else s.logins;
      State(h.table,
            s.conns[id := k.(session := h.session, phase := Answered(k.phase.choice, ReplyWire(h.reply)))],
            logins)
    case AnswerCreateGroup(id, gid) =>
      var k := s.conns[id];
      s.(conns := s.conns[id := k.(phase := Answered(k.phase.choice, WireOf(Message(CREATE_GROUP, Decimal(gid)))))])
    case GroupStatement(uid, password, groupNum, groups, now) =>
      s.(table := UpdateGroups(col, s.table, uid, password, groupNum, groups, now).table)
    case Receive(id, stale) =>
      var k := s.conns[id];
      var client := AfterReply(k.client, k.phase.choice, ClientDecode(stale, k.phase.wire));
      s.(conns := s.conns[id := k.(client := client, phase := Idle)])
    case Close(id, now) =>
      s.(table := Disconnect(col, s.conns[id].session, s.table, now).table, conns := s.conns - {id})
  }

  ghost predicate Run(col: Collation, ss: seq<State>, es: seq<Event>) {
    && |ss| == |es| + 1
    && Initial(ss[0])
    && forall i :: 0 <= i < |es| ==> Enabled(ss[i], es[i]) && ss[i + 1] == Next(col, ss[i], es[i])
  }

  // ---- the invariant ---------------------------------------------------------------------------

  /** Client and session agree while no login or logout is under way. */
  ghost predicate Agree(k: Conn) {
    && (k.client.ifLogin <==> k.session.uid != 0)
    && (k.client.ifLogin ==> k.session == Session(k.client.uid, k.client.password))
    && ClientOk(k.client)
  }

  ghost predicate InStep(k: Conn) {
    match k.phase
    case Idle => Agree(k)
    case Sent(choice, wire) =>
      Agree(k) && Offered(k.client, choice) && wire == WireOf(RequestOf(k.client, choice))
    case Answered(choice, wire) =>
      match choice
      case ChooseLogin(uid, password) =>
        && !k.client.ifLogin && Int32(uid) && CheckName(password)
        && wire == WireOf(Message(LOGIN, Flag(k.session.uid != 0)))
        && (k.session.uid != 0 ==> k.session == Session(uid, password))
      case ChooseLogout =>
        && k.client.ifLogin && ClientOk(k.client)
        && wire == WireOf(Message(LOGOUT, Flag(k.session.uid == 0)))
        && (k.session.uid != 0 ==> k.session == Session(k.client.uid, k.client.password))
      case _ => Agree(k)
  }

  /** The credentials of a session open its row, as long as the row exists. */
  ghost predicate SessionOk(col: Collation, t: Table, s: Session) {
    s.uid != 0 ==> 1 <= s.uid < t.nextUid && (s.uid in t.rows ==> Matches(col, t, s.uid, s.password))
  }

  ghost predicate BackedBy(s: State, uid: int, id: nat)
    requires uid in s.table.rows
  {
    && id in s.conns && s.conns[id].session.uid == uid
    && AddressText(s.conns[id].peer) == s.table.rows[uid].addr
  }

  /** Some live session is logged in as uid from exactly the recorded address. */
  ghost predicate Backed(s: State, uid: int)
    requires uid in s.table.rows
  {
    exists id :: BackedBy(s, uid, id)
  }

  ghost predicate OnlineRowOk(s: State, uid: int)
    requires uid in s.table.rows
  {
    s.table.rows[uid].online == 1 ==>
      && Backed(s, uid)
      && uid in s.logins && s.table.rows[uid].addr == AddressText(s.logins[uid])
  }

  ghost predicate NamesOk(t: Table) {
    forall uid :: uid in t.rows ==> CheckName(t.rows[uid].uname)
  }

  ghost predicate ConnsOk(col: Collation, s: State) {
    forall id :: id in s.conns ==> InStep(s.conns[id]) && SessionOk(col, s.table, s.conns[id].session)
  }

  ghost predicate Inv(col: Collation, s: State) {
    && TableOk(s.table) && NamesOk(s.table)
    && ConnsOk(col, s)
    && forall uid :: uid in s.table.rows ==> OnlineRowOk(s, uid)
  }

  // ---- one served request ----------------------------------------------------------------------

  datatype Effect = Effect(session: Session, table: Table)

  /** What serving a choice does, told in terms of the choice and not of its text. */
  function ServeEffect(col: Collation, k: Conn, t: Table, choice: Choice, now: int, insertOk: bool): Effect {
    match choice
    case ChooseLogin(uid, password) =>
      var c := UpdateOnlineAndAddr(col, t, uid, 1, password, AddressText(k.peer), now);
      Effect(if c.ok then Session(uid, password) else k.session, c.table)
    case ChooseLogout =>
      var c := UpdateOnlineAndAddr(col, t, k.client.uid, 0, k.client.password, "", now);
      Effect(if c.ok then LOGGED_OUT else k.session, c.table)
    case ChooseRegister(uname, password) => Effect(k.session, Insert(t, uname, password, now, insertOk).table)
    case ChooseDelete(uid, password) => Effect(k.session, DeleteWhereUidPassword(col, t, uid, password).table)
    case _ => Effect(k.session, t)
  }

  /** The calls answered with a success flag. */
  predicate Flagged(choice: Choice) {
    choice.ChooseLogin? || choice.ChooseLogout? || choice.ChooseDelete?
  }

  /** The reply to such a call is the flag of its statement. */
  function ServeFlag(col: Collation, k: Conn, t: Table, choice: Choice, now: int): Option<Message> {
    match choice
    case ChooseLogin(uid, password) =>
      Some(Message(LOGIN, Flag(UpdateOnlineAndAddr(col, t, uid, 1, password, AddressText(k.peer), now).ok)))
    case ChooseLogout =>
      Some(Message(LOGOUT, Flag(UpdateOnlineAndAddr(col, t, k.client.uid, 0, k.client.password, "", now).ok)))
    case ChooseDelete(uid, password) => Some(Message(DELETE_USER, Flag(Matches(col, t, uid, password))))
    case _ => None
  }

  /** Through formatting, frame, stale buffer and parsing, the server does what the client chose. */
  lemma ServeDoesTheChoice(col: Collation, k: Conn, t: Table, stale: string, now: int, insertOk: bool)
    requires InStep(k) && k.phase.Sent? && !k.phase.choice.ChooseCreateGroup? && |stale| == BUFFER_SIZE
    ensures var h := ServeConn(col, k, t, stale, now, insertOk);
            && Effect(h.session, h.table) == ServeEffect(col, k, t, k.phase.choice, now, insertOk)
            && (Flagged(k.phase.choice) ==> h.reply == ServeFlag(col, k, t, k.phase.choice, now))
  {
    RequestDelivered(k.client, k.phase.choice, stale);
    var m := RequestOf(k.client, k.phase.choice);
    assert ServeConn(col, k, t, stale, now, insertOk) == Handle(col, k.session, t, k.peer, m, now, insertOk);
    HandleDoesTheChoice(col, k, t, k.phase.choice, now, insertOk);
  }

  lemma HandleDoesTheChoice(col: Collation, k: Conn, t: Table, choice: Choice, now: int, insertOk: bool)
    requires Offered(k.client, choice)
    ensures var h := Handle(col, k.session, t, k.peer, RequestOf(k.client, choice), now, insertOk);
            && Effect(h.session, h.table) == ServeEffect(col, k, t, choice, now, insertOk)
            && (Flagged(choice) ==> h.reply == ServeFlag(col, k, t, choice, now))
  {
    match choice
    case ChooseRegister(uname, password) =>
      AlnumPlain(uname);
      SplitPairOf(uname, password);
    case ChooseLogin(uid, password) => UidRequestRoundTrip(uid, password);
    case ChooseDelete(uid, password) => UidRequestRoundTrip(uid, password);
    case ChooseLogout => UidRequestRoundTrip(k.client.uid, k.client.password);
    case _ =>
  }

  /** What a served request may do to the connection it came on. */
  lemma ServedStaysInStep(col: Collation, k: Conn, t: Table, stale: string, now: int, insertOk: bool)
    requires InStep(k) && k.phase.Sent? && !k.phase.choice.ChooseCreateGroup? && |stale| == BUFFER_SIZE
    requires IdsOk(t)
    ensures var h := ServeConn(col, k, t, stale, now, insertOk);
            InStep(k.(session := h.session, phase := Answered(k.phase.choice, ReplyWire(h.reply))))
  {
    ServeDoesTheChoice(col, k, t, stale, now, insertOk);
  }

  /** A row other than uid stays backed when only the connection id, logged in as uid or not at all,
      and the row of uid change. */
  lemma OthersStayBacked(s: State, s': State, id: nat, uid: int, v: int)
    requires v in s.table.rows && v in s'.table.rows && s'.table.rows[v].addr == s.table.rows[v].addr
    requires forall j :: j in s.conns && j != id ==> j in s'.conns && s'.conns[j] == s.conns[j]
    requires id in s.conns ==> s.conns[id].session.uid != v
    requires Backed(s, v)
    ensures Backed(s', v)
  {
    var j :| BackedBy(s, v, j);
    assert BackedBy(s', v, j);
  }

  lemma LoginKeepsRows(col: Collation, s: State, id: nat, uid: int, password: string, now: int)
    requires Inv(col, s) && id in s.conns && s.conns[id].session.uid == 0
    requires UpdateOnlineAndAddr(col, s.table, uid, 1, password, AddressText(s.conns[id].peer), now).ok
    ensures var k := s.conns[id];
            var c := UpdateOnlineAndAddr(col, s.table, uid, 1, password, AddressText(k.peer), now);
            forall k': Conn | k'.session == Session(uid, password) && k'.peer == k.peer ::
              var s' := State(c.table, s.conns[id := k'], s.logins[uid := k.peer]);
              forall v :: v in s'.table.rows ==> OnlineRowOk(s', v)
  {
    var k := s.conns[id];
    var c := UpdateOnlineAndAddr(col, s.table, uid, 1, password, AddressText(k.peer), now);
    forall k': Conn, v | k'.session == Session(uid, password) && k'.peer == k.peer && v in c.table.rows
      ensures OnlineRowOk(State(c.table, s.conns[id := k'], s.logins[uid := k.peer]), v)
    {
      var s' := State(c.table, s.conns[id := k'], s.logins[uid := k.peer]);
      if v == uid {
        assert BackedBy(s', uid, id);
      } else if s.table.rows[v].online == 1 {
        OthersStayBacked(s, s', id, uid, v);
      }
    }
  }

  /** A logout or disconnect of session x on connection id takes row x.uid offline and leaves every other
      row backed, whether the update reports success or not. */
  lemma LogoutKeepsRows(col: Collation, s: State, id: nat, now: int, conns: map<nat, Conn>)
    requires Inv(col, s) && id in s.conns
    requires forall j :: j in s.conns && j != id ==> j in conns && conns[j] == s.conns[j]
    ensures var x := s.conns[id].session;
            var s' := State(UpdateOnlineAndAddr(col, s.table, x.uid, 0, x.password, "", now).table, conns, s.logins);
            forall v :: v in s'.table.rows ==> OnlineRowOk(s', v)
  {
    var x := s.conns[id].session;
    var s' := State(UpdateOnlineAndAddr(col, s.table, x.uid, 0, x.password, "", now).table, conns, s.logins);
    forall v | v in s'.table.rows
      ensures OnlineRowOk(s', v)
    {
      if v != x.uid && s.table.rows[v].online == 1 {
        OthersStayBacked(s, s', id, x.uid, v);
      }
    }
  }

  /** Events that touch neither sessions nor the online columns of surviving rows. */
  lemma QuietKeepsRows(col: Collation, s: State, s': State)
    requires Inv(col, s) && s'.logins == s.logins
    requires forall id :: id in s.conns ==> id in s'.conns && s'.conns[id].session == s.conns[id].session
                                            && s'.conns[id].peer == s.conns[id].peer
    requires forall v :: v in s'.table.rows ==>
               if v in s.table.rows
               then s'.table.rows[v].online == s.table.rows[v].online && s'.table.rows[v].addr == s.table.rows[v].addr
               else s'.table.rows[v].online == 0
    ensures forall v :: v in s'.table.rows ==> OnlineRowOk(s', v)
  {
    forall v | v in s'.table.rows && s'.table.rows[v].online == 1
      ensures OnlineRowOk(s', v)
    {
      var id :| BackedBy(s, v, id);
      assert BackedBy(s', v, id);
    }
  }

  lemma EffectKeepsTable(col: Collation, k: Conn, t: Table, choice: Choice, now: int, insertOk: bool)
    requires TableOk(t) && NamesOk(t) && Offered(k.client, choice)
    ensures var t' := ServeEffect(col, k, t, choice, now, insertOk).table;
            TableOk(t') && NamesOk(t')
  {
  }

  lemma EffectKeepsSessions(col: Collation, k: Conn, t: Table, choice: Choice, now: int, insertOk: bool, x: Session)
    requires TableOk(t) && SessionOk(col, t, x)
    ensures SessionOk(col, ServeEffect(col, k, t, choice, now, insertOk).table, x)
  {
  }

  lemma EffectSessionOk(col: Collation, k: Conn, t: Table, choice: Choice, now: int, insertOk: bool)
    requires TableOk(t) && SessionOk(col, t, k.session)
    ensures var f := ServeEffect(col, k, t, choice, now, insertOk); SessionOk(col, f.table, f.session)
  {
  }

  lemma ServeKeepsSessions(col: Collation, s: State, e: Event)
    requires Inv(col, s) && e.Serve? && Enabled(s, e)
    ensures var s' := Next(col, s, e); TableOk(s'.table) && NamesOk(s'.table) && ConnsOk(col, s')
  {
    var k, s' := s.conns[e.id], Next(col, s, e);
    var choice := k.phase.choice;
    ServedStaysInStep(col, k, s.table, e.stale, e.now, e.insertOk);
    ServeDoesTheChoice(col, k, s.table, e.stale, e.now, e.insertOk);
    EffectKeepsTable(col, k, s.table, choice, e.now, e.insertOk);
    EffectSessionOk(col, k, s.table, choice, e.now, e.insertOk);
    forall id | id in s'.conns
      ensures InStep(s'.conns[id]) && SessionOk(col, s'.table, s'.conns[id].session)
    {
      if id != e.id {
        EffectKeepsSessions(col, k, s.table, choice, e.now, e.insertOk, s.conns[id].session);
      }
    }
  }

  /** The served step in terms of its effect; k' is the connection afterwards. */
  lemma ServeNext(col: Collation, s: State, e: Event) returns (f: Effect, k': Conn)
    requires Inv(col, s) && e.Serve? && Enabled(s, e)
    ensures var k := s.conns[e.id];
            && f == ServeEffect(col, k, s.table, k.phase.choice, e.now, e.insertOk)
            && k'.session == f.session && k'.peer == k.peer
            && Next(col, s, e) == State(f.table, s.conns[e.id := k'],
                 if f.session != k.session && f.session.uid != 0 then s.logins[f.session.uid := k.peer] else s.logins)
  {
    var k := s.conns[e.id];
    ServeDoesTheChoice(col, k, s.table, e.stale, e.now, e.insertOk);
    f := ServeEffect(col, k, s.table, k.phase.choice, e.now, e.insertOk);
    k' := Next(col, s, e).conns[e.id];
  }

  lemma LoginServed(col: Collation, s: State, e: Event, f: Effect, k': Conn, s': State)
    requires Inv(col, s) && e.Serve? && Enabled(s, e) && s.conns[e.id].phase.choice.ChooseLogin?
    requires f == ServeEffect(col, s.conns[e.id], s.table, s.conns[e.id].phase.choice, e.now, e.insertOk)
    requires k'.session == f.session && k'.peer == s.conns[e.id].peer
    requires s'.table == f.table && s'.conns == s.conns[e.id := k']
    requires s'.logins == if f.session != s.conns[e.id].session && f.session.uid != 0
                          then s.logins[f.session.uid := k'.peer] else s.logins
    ensures forall v :: v in s'.table.rows ==> OnlineRowOk(s', v)
  {
    var k, choice := s.conns[e.id], s.conns[e.id].phase.choice;
    if UpdateOnlineAndAddr(col, s.table, choice.uid, 1, choice.password, AddressText(k.peer), e.now).ok {
      LoginKeepsRows(col, s, e.id, choice.uid, choice.password, e.now);
      assert s' == State(f.table, s.conns[e.id := k'], s.logins[choice.uid := k.peer]);
    } else {
      assert s'.logins == s.logins;
      QuietKeepsRows(col, s, s');
    }
  }

  lemma QuietServed(col: Collation, s: State, e: Event, f: Effect, k': Conn, s': State)
    requires Inv(col, s) && e.Serve? && Enabled(s, e)
    requires !s.conns[e.id].phase.choice.ChooseLogin? && !s.conns[e.id].phase.choice.ChooseLogout?
    requires f == ServeEffect(col, s.conns[e.id], s.table, s.conns[e.id].phase.choice, e.now, e.insertOk)
    requires k'.session == f.session && k'.peer == s.conns[e.id].peer
    requires s' == State(f.table, s.conns[e.id := k'], s.logins)
    ensures forall v :: v in s'.table.rows ==> OnlineRowOk(s', v)
  {
    QuietKeepsRows(col, s, s');
  }

  lemma ServeKeepsRows(col: Collation, s: State, e: Event)
    requires Inv(col, s) && e.Serve? && Enabled(s, e)
    ensures var s' := Next(col, s, e); forall v :: v in s'.table.rows ==> OnlineRowOk(s', v)
  {
    var f, k' := ServeNext(col, s, e);
    var choice, s' := s.conns[e.id].phase.choice, Next(col, s, e);
    if choice.ChooseLogin? {
      LoginServed(col, s, e, f, k', s');
    } else if choice.ChooseLogout? {
      LogoutKeepsRows(col, s, e.id, e.now, s'.conns);
    } else {
      QuietServed(col, s, e, f, k', s');
    }
  }

  // ---- every step ------------------------------------------------------------------------------

  /** The client reads the flag the server sent. */
  lemma FlagReceived(kind: nat, b: bool, stale: string)
    requires kind < 65536 && kind != ERROR && |stale| == BUFFER_SIZE
    ensures Succeeded(ClientDecode(stale, WireOf(Message(kind, Flag(b))))) <==> b
  {
    FrameRoundTrip(stale, kind, Flag(b));
    AtoiOfDecimal(0);
    AtoiOfDecimal(1);
    assert Decimal(0) == "0" && Decimal(1) == "1";
  }

  lemma ReceiveStaysInStep(k: Conn, stale: string)
    requires InStep(k) && k.phase.Answered? && |stale| == BUFFER_SIZE
    ensures InStep(k.(client := AfterReply(k.client, k.phase.choice, ClientDecode(stale, k.phase.wire)), phase := Idle))
  {
    FlagReceived(LOGIN, k.session.uid != 0, stale);
    FlagReceived(LOGOUT, k.session.uid == 0, stale);
  }

  lemma CloseKeepsInv(col: Collation, s: State, id: nat, now: int)
    requires Inv(col, s) && id in s.conns
    ensures Inv(col, Next(col, s, Close(id, now)))
  {
    var x := s.conns[id].session;
    UidRequestRoundTrip(x.uid, x.password);
    CloseKeepsSessions(col, s, id, now);
    LogoutKeepsRows(col, s, id, now, s.conns - {id});
  }

  lemma CloseKeepsSessions(col: Collation, s: State, id: nat, now: int)
    requires TableOk(s.table) && NamesOk(s.table) && ConnsOk(col, s) && id in s.conns
    ensures var s' := Next(col, s, Close(id, now)); TableOk(s'.table) && NamesOk(s'.table) && ConnsOk(col, s')
  {
    UidRequestRoundTrip(s.conns[id].session.uid, s.conns[id].session.password);
  }

  lemma ConnectKeepsInv(col: Collation, s: State, id: nat, peer: Peer)
    requires Inv(col, s) && id !in s.conns
    ensures Inv(col, Next(col, s, Connect(id, peer)))
  {
    QuietKeepsRows(col, s, Next(col, s, Connect(id, peer)));
  }

  /** Steps that change one connection but not its session, and not the table. */
  lemma OneConnKeepsInv(col: Collation, s: State, id: nat, k': Conn)
    requires Inv(col, s) && id in s.conns && InStep(k')
    requires k'.session == s.conns[id].session && k'.peer == s.conns[id].peer
    ensures Inv(col, s.(conns := s.conns[id := k']))
  {
    QuietKeepsRows(col, s, s.(conns := s.conns[id := k']));
  }

  lemma ClientStepKeepsInv(col: Collation, s: State, e: Event)
    requires Inv(col, s) && Enabled(s, e) && (e.Choose? || e.AnswerCreateGroup? || e.Receive?)
    ensures Inv(col, Next(col, s, e))
  {
    if e.Receive? {
      ReceiveStaysInStep(s.conns[e.id], e.stale);
    }
    OneConnKeepsInv(col, s, e.id, Next(col, s, e).conns[e.id]);
  }

  lemma GroupStatementKeepsInv(col: Collation, s: State, e: Event)
    requires Inv(col, s) && e.GroupStatement?
    ensures Inv(col, Next(col, s, e))
  {
    QuietKeepsRows(col, s, Next(col, s, e));
  }

  lemma StepKeepsInv(col: Collation, s: State, e: Event)
    requires Inv(col, s) && Enabled(s, e)
    ensures Inv(col, Next(col, s, e))
  {
    match e
    case Connect(id, peer) => ConnectKeepsInv(col, s, id, peer);
    case Serve(_, _, _, _) =>
      ServeKeepsSessions(col, s, e);
      ServeKeepsRows(col, s, e);
    case Close(id, now) => CloseKeepsInv(col, s, id, now);
    case GroupStatement(_, _, _, _, _) => GroupStatementKeepsInv(col, s, e);
    case _ => ClientStepKeepsInv(col, s, e);
  }

  lemma {:induction false} RunKeepsInv(col: Collation, ss: seq<State>, es: seq<Event>, i: nat)
    requires Run(col, ss, es) && i <= |es|
    ensures Inv(col, ss[i])
  {
    if i > 0 {
      RunKeepsInv(col, ss, es, i - 1);
      StepKeepsInv(col, ss[i - 1], es[i - 1]);
    }
  }

  // ---- main results ----------------------------------------------------------------------------

  /** Whoever the table shows as online is logged in on a live connection from exactly the address the
      table holds, which is that of the last successful login. */
  lemma OnlineAgreement(col: Collation, ss: seq<State>, es: seq<Event>, i: nat, uid: int)
    requires Run(col, ss, es) && i <= |es|
    requires uid in ss[i].table.rows && ss[i].table.rows[uid].online == 1
    ensures exists id :: id in ss[i].conns && ss[i].conns[id].session.uid == uid
                         && AddressText(ss[i].conns[id].peer) == ss[i].table.rows[uid].addr
    ensures uid in ss[i].logins && ss[i].table.rows[uid].addr == AddressText(ss[i].logins[uid])
  {
    RunKeepsInv(col, ss, es, i);
    var id :| BackedBy(ss[i], uid, id);
  }

  /** Between calls a client thinks it is logged in exactly when its session is, and then both hold the
      same user id and password. */
  lemma ClientAndServerInStep(col: Collation, ss: seq<State>, es: seq<Event>, i: nat, id: nat)
    requires Run(col, ss, es) && i <= |es|
    requires id in ss[i].conns && ss[i].conns[id].phase.Idle?
    ensures var k := ss[i].conns[id];
            && (k.client.ifLogin <==> k.session.uid != 0)
            && (k.client.ifLogin ==> k.session == Session(k.client.uid, k.client.password))
  {
    RunKeepsInv(col, ss, es, i);
  }

  /** One call of a client from request to decoded reply, with no other step in between. */
  function Exchange(col: Collation, k: Conn, t: Table, choice: Choice, now: int, insertOk: bool, stale: string): Handled
    requires |stale| == BUFFER_SIZE
  {
    Handle(col, k.session, t, k.peer, ServerDecode(stale, WireOf(RequestOf(k.client, choice))), now, insertOk)
  }

  lemma ExchangeDoesTheChoice(col: Collation, k: Conn, t: Table, choice: Choice, now: int, insertOk: bool,
                              stale: string)
    requires Offered(k.client, choice) && ClientOk(k.client) && |stale| == BUFFER_SIZE
    ensures var h := Exchange(col, k, t, choice, now, insertOk, stale);
            && Effect(h.session, h.table) == ServeEffect(col, k, t, choice, now, insertOk)
            && (Flagged(choice) ==> h.reply == ServeFlag(col, k, t, choice, now))
  {
    RequestDelivered(k.client, choice, stale);
    HandleDoesTheChoice(col, k, t, choice, now, insertOk);
  }

  /** When a logout succeeds: exactly if the row still exists and the update changes it, that is, if the user is
      shown online or the row was last written in another second. A client whose account has been deleted
      elsewhere cannot log out. */
  lemma LogoutSucceedsExactly(col: Collation, ss: seq<State>, es: seq<Event>, i: nat, id: nat, now: int,
                              stale1: string, stale2: string)
    requires Run(col, ss, es) && i <= |es| && |stale1| == |stale2| == BUFFER_SIZE
    requires id in ss[i].conns && ss[i].conns[id].phase.Idle? && ss[i].conns[id].client.ifLogin
    ensures var k, t := ss[i].conns[id], ss[i].table;
            var h := Exchange(col, k, t, ChooseLogout, now, false, stale1);
            var uid := k.client.uid;
            && h.reply.Some?
            && (Succeeded(ClientDecode(stale2, WireOf(h.reply.value)))
                <==> uid in t.rows && (t.rows[uid].online == 1 || t.rows[uid].time != now))
            && (uid in t.rows ==> uid in h.table.rows && h.table.rows[uid].online == 0)
  {
    var k, t := ss[i].conns[id], ss[i].table;
    RunKeepsInv(col, ss, es, i);
    ExchangeDoesTheChoice(col, k, t, ChooseLogout, now, false, stale1);
    FlagReceived(LOGOUT, UpdateOnlineAndAddr(col, t, k.client.uid, 0, k.client.password, "", now).ok, stale2);
    if k.client.uid in t.rows {
      assert RowOnlineOk(t.rows[k.client.uid]);
    }
  }

  /** When a login succeeds: exactly if the password opens the row and the update changes it, that is, unless
      the row already shows this very address, written in the same second. */
  lemma LoginSucceedsExactly(col: Collation, ss: seq<State>, es: seq<Event>, i: nat, id: nat, uid: int,
                             password: string, now: int, stale1: string, stale2: string)
    requires Run(col, ss, es) && i <= |es| && |stale1| == |stale2| == BUFFER_SIZE
    requires id in ss[i].conns && ss[i].conns[id].phase.Idle?
    requires Offered(ss[i].conns[id].client, ChooseLogin(uid, password))
    ensures var k, t := ss[i].conns[id], ss[i].table;
            var h := Exchange(col, k, t, ChooseLogin(uid, password), now, false, stale1);
            && h.reply.Some?
            && (Succeeded(ClientDecode(stale2, WireOf(h.reply.value)))
                <==> Matches(col, t, uid, password)
                     && !(t.rows[uid].addr == AddressText(k.peer) && t.rows[uid].time == now))
  {
    var k, t := ss[i].conns[id], ss[i].table;
    RunKeepsInv(col, ss, es, i);
    ExchangeDoesTheChoice(col, k, t, ChooseLogin(uid, password), now, false, stale1);
    FlagReceived(LOGIN, UpdateOnlineAndAddr(col, t, uid, 1, password, AddressText(k.peer), now).ok, stale2);
    if uid in t.rows {
      assert RowOnlineOk(t.rows[uid]);
    }
  }

  /** When a deletion succeeds: exactly if the password opens the row; then that row and no other is gone. */
  lemma DeleteSucceedsExactly(col: Collation, ss: seq<State>, es: seq<Event>, i: nat, id: nat, uid: int,
                              password: string, stale1: string, stale2: string)
    requires Run(col, ss, es) && i <= |es| && |stale1| == |stale2| == BUFFER_SIZE
    requires id in ss[i].conns && ss[i].conns[id].phase.Idle?
    requires Offered(ss[i].conns[id].client, ChooseDelete(uid, password))
    ensures var k, t := ss[i].conns[id], ss[i].table;
            var h := Exchange(col, k, t, ChooseDelete(uid, password), 0, false, stale1);
            && h.reply.Some?
            && (Succeeded(ClientDecode(stale2, WireOf(h.reply.value))) <==> Matches(col, t, uid, password))
            && h.table.rows == if Matches(col, t, uid, password) then t.rows - {uid} else t.rows
  {
    var k, t := ss[i].conns[id], ss[i].table;
    RunKeepsInv(col, ss, es, i);
    ExchangeDoesTheChoice(col, k, t, ChooseDelete(uid, password), 0, false, stale1);
    FlagReceived(DELETE_USER, Matches(col, t, uid, password), stale2);
  }

  lemma RegisterAnswered(col: Collation, k: Conn, t: Table, uname: string, password: string, now: int, stale: string)
    requires Agree(k) && Offered(k.client, ChooseRegister(uname, password)) && t.nextUid > 0 && |stale| == BUFFER_SIZE
    ensures Exchange(col, k, t, ChooseRegister(uname, password), now, true, stale).reply
         == Some(Message(REGISRERED, Decimal(t.nextUid)))
  {
    RequestDelivered(k.client, ChooseRegister(uname, password), stale);
    AlnumPlain(uname);
    SplitPairOf(uname, password);
  }

  /** While there are fewer than 10^9 accounts, registering through the menu shows the client a fresh user id,
      and logging in at once with that id and the same password succeeds and puts the client's own address on
      record. */
  lemma RegisterThenLogin(col: Collation, ss: seq<State>, es: seq<Event>, i: nat, id: nat,
                          uname: string, password: string, now1: int, now2: int,
                          stale1: string, stale2: string, stale3: string)
    requires Run(col, ss, es) && i <= |es| && |stale1| == |stale2| == |stale3| == BUFFER_SIZE
    requires id in ss[i].conns && ss[i].conns[id].phase.Idle?
    requires Offered(ss[i].conns[id].client, ChooseRegister(uname, password))
    requires ss[i].table.nextUid < Pow10(9)
    ensures var k, t := ss[i].conns[id], ss[i].table;
            var h := Exchange(col, k, t, ChooseRegister(uname, password), now1, true, stale1);
            && h.reply.Some?
            && var uid := Atoi(ClientDecode(stale2, WireOf(h.reply.value)).body);
               && uid > 0 && uid !in t.rows && uid in h.table.rows
               && var h2 := Exchange(col, k, h.table, ChooseLogin(uid, password), now2, false, stale3);
                  && h2.session == Session(uid, password)
                  && uid in h2.table.rows && h2.table.rows[uid].online == 1
                  && h2.table.rows[uid].addr == AddressText(k.peer) && h2.table.rows[uid].uname == uname
  {
    var k, t := ss[i].conns[id], ss[i].table;
    RunKeepsInv(col, ss, es, i);
    var uid := t.nextUid;
    Pow10Nine();
    RegisterAnswered(col, k, t, uname, password, now1, stale1);
    ExchangeDoesTheChoice(col, k, t, ChooseRegister(uname, password), now1, true, stale1);
    DecimalShort(uid);
    DecimalPlain(uid);
    FrameRoundTrip(stale2, REGISRERED, Decimal(uid));
    AtoiOfDecimal(uid);
    var t' := Insert(t, uname, password, now1, true).table;
    ExchangeDoesTheChoice(col, k, t', ChooseLogin(uid, password), now2, false, stale3);
  }

  /** The server's side of one call of a client, over whatever its buffer holds. */
  function Answer(col: Collation, k: Conn, t: Table, choice: Choice, stale: string): Message
    requires |stale| == BUFFER_SIZE
  {
    var h := Exchange(col, k, t, choice, 0, false, stale);
    if h.reply.Some? then h.reply.value else Message(ERROR, "")
  }

  lemma FindAnswered(col: Collation, k: Conn, t: Table, who: int, stale: string)
    requires Agree(k) && k.client.ifLogin && Int32(who) && |stale| == BUFFER_SIZE
    ensures Answer(col, k, t, ChooseFind(who), stale)
         == Message(FIND_USER, Flag(who in t.rows && t.rows[who].online != 0))
  {
    var m := Message(FIND_USER, MemberRequest(k.session.uid, k.session.password, Decimal(who)));
    RequestDelivered(k.client, ChooseFind(who), stale);
    assert Exchange(col, k, t, ChooseFind(who), 0, false, stale) == Handle(col, k.session, t, k.peer, m, 0, false);
    AlnumPlain(k.client.password);
    MemberRequestsServed(k.session, t, who);
  }

  lemma ObtainAnswered(col: Collation, k: Conn, t: Table, who: int, stale: string)
    requires Agree(k) && k.client.ifLogin && Int32(who) && |stale| == BUFFER_SIZE
    ensures Answer(col, k, t, ChooseObtain(who), stale)
         == Message(OBTAIN_CLIENT_ADDR, if who in t.rows then t.rows[who].addr else "")
  {
    var m := Message(OBTAIN_CLIENT_ADDR, MemberRequest(k.session.uid, k.session.password, Decimal(who)));
    RequestDelivered(k.client, ChooseObtain(who), stale);
    assert Exchange(col, k, t, ChooseObtain(who), 0, false, stale) == Handle(col, k.session, t, k.peer, m, 0, false);
    AlnumPlain(k.client.password);
    MemberRequestsServed(k.session, t, who);
  }

  /** A logged-in client that finds who online and at once asks for the address gets it: the client parses
      exactly the ip and port of the last login of who, which belong to a connection live right now. When
      who is not online the address is empty and the client finds no colon in it. */
  lemma FindThenObtain(col: Collation, ss: seq<State>, es: seq<Event>, i: nat, id: nat, who: int,
                       stale0: string, stale1: string, stale2: string, stale3: string)
    requires Run(col, ss, es) && i <= |es|
    requires id in ss[i].conns && ss[i].conns[id].phase.Idle? && ss[i].conns[id].client.ifLogin && Int32(who)
    requires |stale0| == |stale1| == |stale2| == |stale3| == BUFFER_SIZE
    ensures var s, k := ss[i], ss[i].conns[id];
            var found := Succeeded(ClientDecode(stale0, WireOf(Answer(col, k, s.table, ChooseFind(who), stale1))));
            var reply := ClientDecode(stale3, WireOf(Answer(col, k, s.table, ChooseObtain(who), stale2)));
            && (found ==> who in s.logins && ParseAddress(reply.body) == Some(s.logins[who])
                          && exists j :: j in s.conns && s.conns[j].session.uid == who
                                         && s.conns[j].peer == s.logins[who])
            && (!found ==> ParseAddress(reply.body) == None)
  {
    var s, k := ss[i], ss[i].conns[id];
    RunKeepsInv(col, ss, es, i);
    FindAnswered(col, k, s.table, who, stale1);
    ObtainAnswered(col, k, s.table, who, stale2);
    FlagReceived(FIND_USER, who in s.table.rows && s.table.rows[who].online != 0, stale0);
    if who in s.table.rows && s.table.rows[who].online == 1 {
      AddressRoundTrip(s.logins[who]);
      FrameRoundTrip(stale3, OBTAIN_CLIENT_ADDR, AddressText(s.logins[who]));
      var j :| BackedBy(s, who, j);
      AddressTextInjective(s.conns[j].peer, s.logins[who]);
    } else {
      FrameRoundTrip(stale3, OBTAIN_CLIENT_ADDR, "");
    }
  }

  lemma ListAnswered(col: Collation, k: Conn, t: Table, page: int, stale: string)
    requires Agree(k) && k.client.ifLogin && Int32(page) && |stale| == BUFFER_SIZE
    ensures Answer(col, k, t, ChooseList(page), stale)
         == Message(USER_LIST, UserListReply(Listing(t, t.nextUid), PageRequest(page, 20)))
  {
    RequestDelivered(k.client, ChooseList(page), stale);
  }

  lemma TableListable(t: Table)
    requires TableOk(t) && NamesOk(t) && t.nextUid <= Pow10(9)
    ensures forall e :: e in Listing(t, t.nextUid) ==> Listable(e)
  {
    forall e | e in Listing(t, t.nextUid)
      ensures Listable(e)
    {
      AlnumPlain(e.uname);
    }
  }

  /** With fewer than 10^9 accounts, page after page of the list shown to a logged-in client is the table:
      page p shows rows 20(p - 1) + 1 to 20p in user id order, with their current online flags, and a page below 1
      shows nothing. The number of the row a page starts after has to fit the server's int. */
  lemma ListShown(col: Collation, ss: seq<State>, es: seq<Event>, i: nat, id: nat, page: int,
                  stale1: string, stale2: string)
    requires Run(col, ss, es) && i <= |es| && ss[i].table.nextUid <= Pow10(9)
    requires id in ss[i].conns && ss[i].conns[id].phase.Idle? && ss[i].conns[id].client.ifLogin
    requires Int32(page) && Int32(20 * (page - 1)) && |stale1| == |stale2| == BUFFER_SIZE
    ensures var t := ss[i].table;
            var reply := Answer(col, ss[i].conns[id], t, ChooseList(page), stale1);
            && reply.kind == USER_LIST && |reply.body| <= 1018 && (page < 1 ==> reply.body == "")
            && SplitList(ClientDecode(stale2, WireOf(reply)).body)
               == if page < 1 then [] else CellsOfEntries(PageOf(Listing(t, t.nextUid), page, 20))
  {
    var k, t := ss[i].conns[id], ss[i].table;
    RunKeepsInv(col, ss, es, i);
    ListAnswered(col, k, t, page, stale1);
    TableListable(t);
    EveryPageShown(Listing(t, t.nextUid), page, stale2);
  }
}
