/** One connection of a work server: the session state, what each request does to it and to the user
    table, and what the server does when the connection ends. */
module WorkServers {
  import opened CText
  import opened Frames
  import opened Requests
  import opened UserTables
  import opened UserLists
  import opened GroupSteps

  /** m_uid and m_password; 0 and "" while nobody is logged in. */
  datatype Session = Session(uid: int, password: string)

  const LOGGED_OUT: Session := Session(0, "")

  datatype Outcome = Outcome(session: Session, table: Table, ok: bool)

  // ---- the operations on values ----------------------------------------------------------------

  predicate IsLogin(s: Session, uid: int, password: string) {
    uid != 0 && uid == s.uid && password == s.password
  }

  function Login(col: Collation, s: Session, t: Table, body: string, addr: string, now: int): Outcome {
    match ParseUidRequest(body)
    case None => Outcome(s, t, false)
    case Some(r) =>
      var c := UpdateOnlineAndAddr(col, t, r.uid, 1, r.password, addr, now);
      Outcome(if c.ok then Session(r.uid, r.password) else s, c.table, c.ok)
  }

  function Logout(col: Collation, s: Session, t: Table, body: string, now: int): Outcome {
    match ParseUidRequest(body)
    case None => Outcome(s, t, false)
    case Some(r) =>
      var c := UpdateOnlineAndAddr(col, t, r.uid, 0, r.password, "", now);
      Outcome(if c.ok then LOGGED_OUT else s, c.table, c.ok)
  }

  /** The logout a work server performs itself when the client has gone. */
  function Disconnect(col: Collation, s: Session, t: Table, now: int): Outcome {
    Logout(col, s, t, UidRequest(s.uid, s.password), now)
  }

  function DeleteUser(col: Collation, t: Table, body: string): Changed {
    match ParseUidRequest(body)
    case None => Changed(t, false)
    case Some(r) => DeleteWhereUidPassword(col, t, r.uid, r.password)
  }

  function Registered(t: Table, body: string, now: int, ok: bool): Inserted {
    match SplitPair(body)
    case None => Inserted(t, 0)
    case Some(p) => Insert(t, p.first, p.second, now, ok)
  }

  function CheckUserOnline(s: Session, t: Table, body: string): bool {
    match ParseMemberRequest(body)
    case None => false
    case Some(r) =>
      if IsLogin(s, r.uid, r.password)
      then match SearchWhere(t, Atoi(r.last)) { case None => false case Some(row) => row.online != 0 }
      else false
  }

  /** None is the null pointer. */
  function ObtainClientAddr(s: Session, t: Table, body: string): Option<string> {
    match ParseMemberRequest(body)
    case None => None
    case Some(r) =>
      if IsLogin(s, r.uid, r.password)
      then match SearchWhere(t, Atoi(r.last)) { case None => None case Some(row) => Some(row.addr) }
      else None
  }

  function Flag(b: bool): string {
    if b then "1" else "0"
  }

  datatype Handled = Handled(session: Session, table: Table, reply: Option<Message>)

  /** The switch of process for every message type but CREATE_GROUP, which is no single statement. */
  function Handle(col: Collation, s: Session, t: Table, peer: Peer, m: Message, now: int, insertOk: bool): Handled {
    if m.kind == REGISRERED then
      var r := Registered(t, m.body, now, insertOk);
      Handled(s, r.table, Some(Message(REGISRERED, Decimal(if r.uid > 0 then r.uid else 0))))
    else if m.kind == LOGIN then
      var o := Login(col, s, t, m.body, AddressText(peer), now);
      Handled(o.session, o.table, Some(Message(LOGIN, Flag(o.ok))))
    else if m.kind == LOGOUT then
      var o := Logout(col, s, t, m.body, now);
      Handled(o.session, o.table, Some(Message(LOGOUT, Flag(o.ok))))
    else if m.kind == USER_LIST then
      Handled(s, t, Some(Message(USER_LIST, UserListReply(Listing(t, t.nextUid), m.body))))
    else if m.kind == FIND_USER then
      Handled(s, t, Some(Message(FIND_USER, Flag(CheckUserOnline(s, t, m.body)))))
    else if m.kind == OBTAIN_CLIENT_ADDR then
      var a := ObtainClientAddr(s, t, m.body);
      Handled(s, t, Some(Message(OBTAIN_CLIENT_ADDR, if a.Some? then a.value else "")))
    else if m.kind == DELETE_USER then
      var c := DeleteUser(col, t, m.body);
      Handled(s, c.table, Some(Message(DELETE_USER, Flag(c.ok))))
    else Handled(s, t, None)
  }

  // ---- well-formed requests ------------------------------------------------------------------

  /** The member requests of the session's own user, as formatted by a client. */
  lemma MemberRequestsServed(s: Session, t: Table, who: int)
    requires s.uid != 0 && ':' !in s.password
    ensures CheckUserOnline(s, t, MemberRequest(s.uid, s.password, Decimal(who)))
       <==> who in t.rows && t.rows[who].online != 0
    ensures ObtainClientAddr(s, t, MemberRequest(s.uid, s.password, Decimal(who)))
         == if who in t.rows then Some(t.rows[who].addr) else None
  {
    MemberRequestRoundTrip(s.uid, s.password, Decimal(who));
    AtoiOfDecimal(who);
  }

  // ---- create_group run without interference ---------------------------------------------------

  datatype GroupOutcome = GroupOutcome(table: Table, groups: GroupTable, gid: int)

  /** The call reads res[0] unchecked, so the source defines it only while the caller's row exists. */
  predicate CreateGroupDefined(s: Session, t: Table, body: string) {
    var r := ParseMemberRequest(body);
    r.Some? && IsLogin(s, r.value.uid, r.value.password) ==> r.value.uid in t.rows
  }

  function CreateGroup(col: Collation, s: Session, t: Table, g: GroupTable, body: string, now: int, insertOk: bool)
    : GroupOutcome
    requires CreateGroupDefined(s, t, body)
  {
    match ParseMemberRequest(body)
    case None => GroupOutcome(t, g, 0)
    case Some(r) =>
      if IsLogin(s, r.uid, r.password) then
        var snap := SnapshotOf(t.rows[r.uid]);
        if snap.groupNum < snap.groupNumMax then
          var i := InsertGroup(g, r.uid, r.last, insertOk);
          var c := FinishUpdate(col, t, r.uid, r.password, snap, i.gid, now);
          GroupOutcome(c.table, i.table, if c.ok then i.gid else 0)
        else GroupOutcome(t, g, 0)
      else GroupOutcome(t, g, 0)
  }

  // ---- the connection object -------------------------------------------------------------------

  class GroupStore {
    var groups: map<int, Group>
    var nextGid: int

    function Value(): GroupTable
      reads this
    {
      GroupTable(groups, nextGid)
    }

    constructor ()
      ensures Value() == GroupTable(map[], 1)
    {
      groups, nextGid := map[], 1;
    }

    method ExecuteInsert(creator: int, gname: string, succeeds: bool) returns (gid: int)
      modifies this
      ensures InsertedGroup(Value(), gid) == InsertGroup(old(Value()), creator, gname, succeeds)
    {
      gid := 0;
      if succeeds {
        gid := nextGid;
        groups := groups[gid := Group(gname, creator)];
        nextGid := nextGid + 1;
      }
    }
  }

  class WorkServer {
    const m_address: Peer
    const db: UserTable
    const groupDb: GroupStore
    const m_buf: array<char>
    var m_uid: int
    var m_password: string

    predicate Valid() {
      m_buf.Length == BUFFER_SIZE
    }

    function Value(): Session
      reads this
    {
      Session(m_uid, m_password)
    }

    /** init, without the connection count, which is shared by all processes. */
    constructor (address: Peer, db: UserTable, groupDb: GroupStore)
      ensures Valid() && Value() == LOGGED_OUT
      ensures m_address == address && this.db == db && this.groupDb == groupDb && fresh(m_buf)
    {
      m_address, this.db, this.groupDb := address, db, groupDb;
      m_buf := new char[BUFFER_SIZE](i => NUL);
      m_uid, m_password := 0, "";
    }

    method LoginUser(col: Collation, body: string, addr: string, now: int) returns (ret: bool)
      modifies this, db
      ensures Outcome(Value(), db.Value(), ret) == Login(col, old(Value()), old(db.Value()), body, addr, now)
    {
      var idex := Find(body, ':', 0);
      if idex == |body| {
        return false;
      }
      var uid, password := Atoi(body[..idex]), body[idex + 1..];
      ret := db.ExecuteUpdate(col, uid, 1, password, addr, now);
      if ret {
        m_uid, m_password := uid, password;
      }
    }

    method LogoutUser(col: Collation, body: string, now: int) returns (ret: bool)
      modifies this, db
      ensures Outcome(Value(), db.Value(), ret) == Logout(col, old(Value()), old(db.Value()), body, now)
    {
      var idex := Find(body, ':', 0);
      if idex == |body| {
        return false;
      }
      var uid := Atoi(body[..idex]);
      ret := db.ExecuteUpdate(col, uid, 0, body[idex + 1..], "", now);
      if ret {
        m_uid, m_password := 0, "";
      }
    }

    /** The two branches of process for a closed or broken connection. */
    method CloseConnection(col: Collation, now: int)
      modifies this, db
      ensures var o := Disconnect(col, old(Value()), old(db.Value()), now);
              Value() == o.session && db.Value() == o.table
    {
      var _ := LogoutUser(col, UidRequest(m_uid, m_password), now);
    }

    method CreateGroupForUser(col: Collation, body: string, now: int, insertOk: bool) returns (gid: int)
      requires CreateGroupDefined(Value(), db.Value(), body)
      modifies db, groupDb
      ensures GroupOutcome(db.Value(), groupDb.Value(), gid)
           == CreateGroup(col, Value(), old(db.Value()), old(groupDb.Value()), body, now, insertOk)
    {
      gid := 0;
      var r := ParseMemberRequest(body);
      if r.Some? && IsLogin(Value(), r.value.uid, r.value.password) {
        var uid, password := r.value.uid, r.value.password;
        var row := db.rows[uid];
        if row.groupNum < row.groupNumMax {
          gid := groupDb.ExecuteInsert(uid, r.value.last, insertOk);
          var c_group := row.groups;
          if c_group == "" {
            c_group := Decimal(gid);
          } else {
            c_group := c_group + ":";
            c_group := c_group + Decimal(gid);
          }
          var ok := db.ExecuteGroupUpdate(col, uid, password, row.groupNum + 1, c_group, now);
          gid := if ok then gid else 0;
        }
      }
    }

    /** user_list renders into the connection's buffer and answers from there. */
    method ListUsers(body: string) returns (found: bool)
      requires Valid()
      requires var es := UserList(Listing(db.Value(), db.nextUid), body);
               es.Some? ==> CNames(es.value) && |RenderList(es.value)| < BUFFER_SIZE
                            && forall e :: e in es.value ==> |RenderRow(e)| < 30
      modifies m_buf
      ensures (if found then CString(m_buf[..]) else "") == UserListReply(Listing(db.Value(), db.nextUid), body)
    {
      var ares := UserList(Listing(db.Value(), db.nextUid), body);
      found := ares.Some?;
      if found {
        RenderInto(m_buf, ares.value);
      }
    }

    /** One turn of the receive loop for a whole frame: it is received over the stale buffer, handled, and
        answered with the frame that is returned. The three statements of CREATE_GROUP run without interference
        here; module Groups interleaves them. */
    method Process(col: Collation, wire: string, now: int, insertOk: bool) returns (answer: Option<string>)
      requires Valid()
      requires var m := ServerDecode(m_buf[..], wire);
               && (m.kind == CREATE_GROUP ==> CreateGroupDefined(Value(), db.Value(), m.body))
               && (var es := UserList(Listing(db.Value(), db.nextUid), m.body);
                   m.kind == USER_LIST && es.Some?
                   ==> CNames(es.value) && |RenderList(es.value)| < BUFFER_SIZE
                       && forall e :: e in es.value ==> |RenderRow(e)| < 30)
      modifies this, db, groupDb, m_buf
      ensures var m := ServerDecode(old(m_buf[..]), wire);
              var h := Handle(col, old(Value()), old(db.Value()), m_address, m, now, insertOk);
              m.kind != CREATE_GROUP ==>
                && Value() == h.session && db.Value() == h.table && groupDb.Value() == old(groupDb.Value())
                && answer == match h.reply { case None => None case Some(r) => Some(FrameOf(r.kind, Some(r.body))) }
      ensures var m := ServerDecode(old(m_buf[..]), wire);
              m.kind == CREATE_GROUP ==>
                var o := CreateGroup(col, old(Value()), old(db.Value()), old(groupDb.Value()), m.body, now, insertOk);
                && Value() == old(Value()) && db.Value() == o.table && groupDb.Value() == o.groups
                && answer == Some(FrameOf(CREATE_GROUP, Some(Decimal(o.gid))))
    {
      var msg := ServerRecv(m_buf, wire);
      var kind, body := msg.kind, msg.body;
      var reply: string;
      if kind == REGISRERED {
        var idex, uid := Find(body, ':', 0), 0;
        if idex < |body| {
          uid := db.ExecuteInsert(body[..idex], body[idex + 1..], now, insertOk);
        }
        reply := Decimal(if uid > 0 then uid else 0);
      } else if kind == LOGIN {
        var ok := LoginUser(col, body, AddressText(m_address), now);
        reply := Flag(ok);
      } else if kind == LOGOUT {
        var ok := LogoutUser(col, body, now);
        reply := Flag(ok);
      } else if kind == USER_LIST {
        var found := ListUsers(body);
        reply := if found then CString(m_buf[..]) else "";
      } else if kind == FIND_USER {
        reply := Flag(CheckUserOnline(Value(), db.Value(), body));
      } else if kind == OBTAIN_CLIENT_ADDR {
        var addr := ObtainClientAddr(Value(), db.Value(), body);
        reply := if addr.Some? then addr.value else "";
      } else if kind == DELETE_USER {
        var r, ok := ParseUidRequest(body), false;
        if r.Some? {
          ok := db.ExecuteDelete(col, r.value.uid, r.value.password);
        }
        reply := Flag(ok);
      } else if kind == CREATE_GROUP {
        var gid := CreateGroupForUser(col, body, now, insertOk);
        reply := Decimal(gid);
      } else {
        return None;
      }
      answer := Some(FrameOf(kind, Some(reply)));
    }
  }
}
