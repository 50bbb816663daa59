/** What a work server answers to every request, well formed or not: who is refused, what create_group and the
    lookups tell, and what stays as it was. */
module Answers {
  import opened CText
  import opened Frames
  import opened Requests
  import opened UserTables
  import opened UserLists
  import opened GroupSteps
  import opened WorkServers
  import Credentials

  // ---- requests behind is_login ----------------------------------------------------------------

  /** The request carries the credentials of the session, and somebody is logged in. */
  predicate Own(s: Session, body: string) {
    var r := ParseMemberRequest(body);
    r.Some? && s.uid != 0 && r.value.uid == s.uid && r.value.password == s.password
  }

  /** Of the requests a client formats, exactly the ones with the credentials of the session are its own. */
  lemma OwnExactly(s: Session, uid: int, password: string, last: string)
    requires ':' !in password
    ensures Own(s, MemberRequest(uid, password, last)) <==> uid != 0 && s == Session(uid, password)
  {
    MemberRequestRoundTrip(uid, password, last);
  }

  /** Whoever is not logged in, or sends other credentials or an unreadable request, learns nothing and changes
      nothing: "0" for a find, "" for an address, 0 for a group. */
  lemma StrangersRefused(col: Collation, s: Session, t: Table, g: GroupTable, peer: Peer, body: string,
                         now: int, ok: bool)
    requires !Own(s, body)
    ensures Handle(col, s, t, peer, Message(FIND_USER, body), now, ok)
         == Handled(s, t, Some(Message(FIND_USER, "0")))
    ensures Handle(col, s, t, peer, Message(OBTAIN_CLIENT_ADDR, body), now, ok)
         == Handled(s, t, Some(Message(OBTAIN_CLIENT_ADDR, "")))
    ensures CreateGroupDefined(s, t, body) && CreateGroup(col, s, t, g, body, now, ok) == GroupOutcome(t, g, 0)
  {
  }

  /** The user of the session is told the flag and the address in the table, "0" and "" when there is no row. */
  lemma OwnLookups(col: Collation, s: Session, t: Table, peer: Peer, body: string, now: int, ok: bool)
    requires Own(s, body)
    ensures var who := Atoi(ParseMemberRequest(body).value.last);
            && Handle(col, s, t, peer, Message(FIND_USER, body), now, ok)
               == Handled(s, t, Some(Message(FIND_USER, if who in t.rows && t.rows[who].online != 0 then "1" else "0")))
            && Handle(col, s, t, peer, Message(OBTAIN_CLIENT_ADDR, body), now, ok)
               == Handled(s, t, Some(Message(OBTAIN_CLIENT_ADDR, if who in t.rows then t.rows[who].addr else "")))
  {
  }

  /** A reply that tells something about a user: an online flag or an address. */
  predicate Reveals(m: Message) {
    (m.kind == FIND_USER && m.body != "0") || (m.kind == OBTAIN_CLIENT_ADDR && m.body != "")
  }

  /** In every run of arbitrary clients such a reply, and every effect of create_group, goes to a session that is
      logged in with registered credentials, and answers a request that carries them. */
  lemma OnlyRegisteredAreServed(col: Collation, ss: seq<Credentials.State>, es: seq<Credentials.Event>, i: nat,
                                g: GroupTable)
    requires Credentials.Run(col, ss, es) && i < |es| && es[i].Deliver?
    requires CreateGroupDefined(ss[i].links[es[i].id].session, ss[i].table, es[i].m.body)
    ensures var e, s := es[i], ss[i];
            var x := s.links[e.id].session;
            var reply := Handle(col, x, s.table, s.links[e.id].peer, e.m, e.now, e.insertOk).reply;
            (reply.Some? && Reveals(reply.value))
            || CreateGroup(col, x, s.table, g, e.m.body, e.now, e.insertOk) != GroupOutcome(s.table, g, 0)
            ==> Own(x, e.m.body) && x.uid in s.registered && col.Same(s.registered[x.uid], x.password)
  {
    var e, s := es[i], ss[i];
    var x := s.links[e.id].session;
    if Own(x, e.m.body) {
      Credentials.CredentialsSound(col, ss, es, i, e.id, x.uid, x.password);
    } else {
      StrangersRefused(col, x, s.table, g, s.links[e.id].peer, e.m.body, e.now, e.insertOk);
    }
  }

  // ---- create_group ----------------------------------------------------------------------------

  /** Writing one more id appends it to the list, whatever text was there. */
  lemma AppendParsed(groups: string, gid: int)
    ensures ParseGids(AppendGid(groups, gid)) == ParseGids(groups) + [gid]
  {
    DecimalPlain(gid);
    AtoiOfDecimal(gid);
    if groups == "" {
      CutWithoutColon(Decimal(gid));
    } else {
      LastColon(groups, Decimal(gid));
    }
  }

  /** The user's own request, while there is room: the store gains the group under the next id, and if the
      password still opens the row, that id is appended to the row's list and answered. When the insert fails,
      0 is listed and answered; when the password opens no row, 0 is answered and the row stays. */
  lemma GroupAnswered(col: Collation, s: Session, t: Table, g: GroupTable, body: string, now: int, insertOk: bool)
    requires Own(s, body) && s.uid in t.rows && t.rows[s.uid].groupNum < t.rows[s.uid].groupNumMax
    ensures CreateGroupDefined(s, t, body)
    ensures var o, row := CreateGroup(col, s, t, g, body, now, insertOk), t.rows[s.uid];
            var gid := if insertOk then g.nextGid else 0;
            && o.groups == (if insertOk
                            then GroupTable(g.groups[gid := Group(ParseMemberRequest(body).value.last, s.uid)], gid + 1)
                            else g)
            && o.table.nextUid == t.nextUid
            && (col.Same(row.password, s.password) ==>
                  && s.uid in o.table.rows && o.table.rows == t.rows[s.uid := o.table.rows[s.uid]]
                  && var row' := o.table.rows[s.uid];
                     && ParseGids(row'.groups) == ParseGids(row.groups) + [gid]
                     && row' == row.(groupNum := row.groupNum + 1, groups := row'.groups, time := now)
                     && o.gid == gid)
            && (!col.Same(row.password, s.password) ==> o.table == t && o.gid == 0)
  {
    AppendParsed(t.rows[s.uid].groups, if insertOk then g.nextGid else 0);
  }

  /** Without room nothing happens and the answer is 0. */
  lemma NoRoomForGroup(col: Collation, s: Session, t: Table, g: GroupTable, body: string, now: int, insertOk: bool)
    requires Own(s, body) && s.uid in t.rows && t.rows[s.uid].groupNum >= t.rows[s.uid].groupNumMax
    ensures CreateGroupDefined(s, t, body)
    ensures CreateGroup(col, s, t, g, body, now, insertOk) == GroupOutcome(t, g, 0)
  {
  }

  // ---- requests the server cannot read ---------------------------------------------------------

  /** A body without a colon is refused by every request, and no table changes. */
  lemma UnreadableRefused(col: Collation, s: Session, t: Table, peer: Peer, kind: nat, body: string,
                          now: int, ok: bool)
    requires ':' !in body
    ensures var h := Handle(col, s, t, peer, Message(kind, body), now, ok);
            && h.session == s && h.table == t
            && h.reply == if kind in {REGISRERED, LOGIN, LOGOUT, FIND_USER, DELETE_USER} then Some(Message(kind, "0"))
                          else if kind in {USER_LIST, OBTAIN_CLIENT_ADDR} then Some(Message(kind, ""))
                          else None
  {
    SplitPairExactly(body);
    SplitTripleExactly(body);
    assert Decimal(0) == "0";
    NoSuchPage(Listing(t, t.nextUid), 1, 1, body);
  }

  /** Every answer has the type of its request, and types the server does not know are ignored. */
  lemma AnsweredInKind(col: Collation, s: Session, t: Table, peer: Peer, m: Message, now: int, ok: bool)
    ensures var h := Handle(col, s, t, peer, m, now, ok);
            var known := m.kind in {REGISRERED, LOGIN, LOGOUT, USER_LIST, FIND_USER, OBTAIN_CLIENT_ADDR, DELETE_USER};
            && (h.reply.Some? <==> known)
            && (known ==> h.reply.value.kind == m.kind)
            && (!known ==> h.session == s && h.table == t)
  {
  }

  /** A registration that can be read adds exactly one row, with the fields as sent and the schema's defaults,
      and answers its id; when the insert fails it changes nothing and answers 0. */
  lemma RegistrationAnswered(col: Collation, s: Session, t: Table, peer: Peer, uname: string, password: string,
                             now: int, ok: bool)
    requires IdsOk(t) && ':' !in uname
    ensures var h := Handle(col, s, t, peer, Message(REGISRERED, uname + ":" + password), now, ok);
            && h.session == s && h.reply.Some?
            && Atoi(h.reply.value.body) == (if ok then t.nextUid else 0)
            && h.table == if ok
                          then var row := Row(uname, password, 0, "", 0, 3, "", now);
                               Table(t.rows[t.nextUid := row], t.nextUid + 1)
                          else t
  {
    SplitPairOf(uname, password);
    assert uname + ":" + password == TwoFields(uname, password);
    AtoiOfDecimal(t.nextUid);
    AtoiOfDecimal(0);
  }

  /** Login and logout of any readable request touch the row of that user only, and of it only the online flag,
      the address and the time. They succeed exactly if that changed something, and then the session follows. */
  lemma LoginAndLogoutEffect(col: Collation, s: Session, t: Table, peer: Peer, uid: int, password: string,
                             now: int, ok: bool)
    ensures var own, body := uid in t.rows && col.Same(t.rows[uid].password, password), Decimal(uid) + ":" + password;
            var login := Handle(col, s, t, peer, Message(LOGIN, body), now, ok);
            var logout := Handle(col, s, t, peer, Message(LOGOUT, body), now, ok);
            && (!own ==> login.table == t && logout.table == t)
            && (own ==>
                  var row := t.rows[uid];
                  && login.table == t.(rows := t.rows[uid := row.(online := 1, addr := AddressText(peer), time := now)])
                  && logout.table == t.(rows := t.rows[uid := row.(online := 0, addr := "", time := now)]))
            && (login.table != t ==> login.session == Session(uid, password))
            && (login.table == t ==> login.session == s)
            && (logout.table != t ==> logout.session == Session(0, ""))
            && (logout.table == t ==> logout.session == s)
            && login.reply == Some(Message(LOGIN, if login.table != t then "1" else "0"))
            && logout.reply == Some(Message(LOGOUT, if logout.table != t then "1" else "0"))
  {
    UidRequestRoundTrip(uid, password);
    assert Decimal(uid) + ":" + password == UidRequest(uid, password);
    if Matches(col, t, uid, password) {
      SameRowSameTable(t, uid, t.rows[uid].(online := 1, addr := AddressText(peer), time := now));
      SameRowSameTable(t, uid, t.rows[uid].(online := 0, addr := "", time := now));
    }
  }

  lemma SameRowSameTable(t: Table, uid: int, row: Row)
    requires uid in t.rows
    ensures t.(rows := t.rows[uid := row]) == t <==> row == t.rows[uid]
  {
    assert t.rows[uid := row][uid] == row;
  }

  /** A deletion removes the row the password opens, and nothing else; the session stays. */
  lemma DeleteEffect(col: Collation, s: Session, t: Table, peer: Peer, uid: int, password: string, now: int, ok: bool)
    ensures var own := uid in t.rows && col.Same(t.rows[uid].password, password);
            Handle(col, s, t, peer, Message(DELETE_USER, Decimal(uid) + ":" + password), now, ok)
            == Handled(s, if own then t.(rows := t.rows - {uid}) else t,
                       Some(Message(DELETE_USER, if own then "1" else "0")))
  {
    UidRequestRoundTrip(uid, password);
    assert Decimal(uid) + ":" + password == UidRequest(uid, password);
  }
}
