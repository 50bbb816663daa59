/** What a menu client asks for is what the work server does, and what it is told is what happened: every request
    of the menu, and create_group from the choice to the number the client shows. */
module MenuAnswers {
  import opened CText
  import opened Frames
  import opened Requests
  import opened UserTables
  import opened GroupSteps
  import opened WorkServers
  import opened ChatClients
  import opened ChatSystem
  import Answers

  predicate AsksForPage(body: string, page: int, cap: int) {
    var p := SplitPair(body);
    p.Some? && Atoi(p.value.first) == page && Atoi(p.value.second) == cap
  }

  /** What a request has to say to the server for a choice of client c. */
  predicate Means(m: Message, c: Client, choice: Choice) {
    match choice
    case ChooseRegister(uname, password) => m.kind == REGISRERED && SplitPair(m.body) == Some(Pair(uname, password))
    case ChooseLogin(uid, password) => m.kind == LOGIN && ParseUidRequest(m.body) == Some(Credentials(uid, password))
    case ChooseDelete(uid, password) =>
      m.kind == DELETE_USER && ParseUidRequest(m.body) == Some(Credentials(uid, password))
    case ChooseLogout => m.kind == LOGOUT && ParseUidRequest(m.body) == Some(Credentials(c.uid, c.password))
    case ChooseList(page) => m.kind == USER_LIST && AsksForPage(m.body, page, 20)
    case ChooseFind(who) =>
      m.kind == FIND_USER && ParseMemberRequest(m.body) == Some(MemberCall(c.uid, c.password, Decimal(who)))
    case ChooseObtain(who) =>
      m.kind == OBTAIN_CLIENT_ADDR && ParseMemberRequest(m.body) == Some(MemberCall(c.uid, c.password, Decimal(who)))
    case ChooseCreateGroup(gname) =>
      m.kind == CREATE_GROUP && ParseMemberRequest(m.body) == Some(MemberCall(c.uid, c.password, gname))
  }

  /** Every request of the menu, sent and decoded over any stale buffer, says to the server what the client chose,
      with the client's own credentials where they are asked for. */
  lemma RequestMeansChoice(c: Client, choice: Choice, stale: string)
    requires Offered(c, choice) && ClientOk(c) && |stale| == BUFFER_SIZE
    ensures Means(ServerDecode(stale, WireOf(RequestOf(c, choice))), c, choice)
  {
    RequestDelivered(c, choice, stale);
    if c.ifLogin {
      AlnumPlain(c.password);
    }
    match choice
    case ChooseRegister(uname, password) => AlnumPlain(uname); SplitPairOf(uname, password);
    case ChooseLogin(uid, password) => UidRequestRoundTrip(uid, password);
    case ChooseDelete(uid, password) => UidRequestRoundTrip(uid, password);
    case ChooseLogout => UidRequestRoundTrip(c.uid, c.password);
    case ChooseList(page) => PageMeans(page);
    case ChooseFind(who) => MemberRequestRoundTrip(c.uid, c.password, Decimal(who));
    case ChooseObtain(who) => MemberRequestRoundTrip(c.uid, c.password, Decimal(who));
    case ChooseCreateGroup(gname) => MemberRequestRoundTrip(c.uid, c.password, gname);
  }

  lemma PageMeans(page: int)
    ensures AsksForPage(PageRequest(page, 20), page, 20)
  {
    DecimalPlain(page);
    SplitPairOf(Decimal(page), Decimal(20));
    AtoiOfDecimal(page);
    AtoiOfDecimal(20);
  }

  /** The number a client reads from a reply of type CREATE_GROUP. */
  lemma GidReceived(gid: nat, stale: string)
    requires gid < Pow10(9) && |stale| == BUFFER_SIZE
    ensures ClientDecode(stale, FrameOf(CREATE_GROUP, Some(Decimal(gid)))) == Message(CREATE_GROUP, Decimal(gid))
    ensures Atoi(Decimal(gid)) == gid
  {
    DigitsFit(gid, 9);
    DecimalPlain(gid);
    AtoiOfDecimal(gid);
    FrameRoundTrip(stale, CREATE_GROUP, Decimal(gid));
  }

  /** A logged-in client with a row creates a group, nobody interfering. If its row has room and the insert
      succeeds, the client is told the next group id, the store has the group under that id with the chosen
      name and the client's own user as creator, and the id is the last of the row's list. Otherwise it is
      told 0, and no group appears. */
  lemma GroupCreated(col: Collation, ss: seq<State>, es: seq<Event>, i: nat, id: nat, gname: string,
                     g: GroupTable, now: int, insertOk: bool, stale1: string, stale2: string)
    requires Run(col, ss, es) && i <= |es| && |stale1| == |stale2| == BUFFER_SIZE
    requires id in ss[i].conns && ss[i].conns[id].phase.Idle?
    requires Offered(ss[i].conns[id].client, ChooseCreateGroup(gname))
    requires ss[i].conns[id].client.uid in ss[i].table.rows && 1 <= g.nextGid < Pow10(9)
    ensures var k, t := ss[i].conns[id], ss[i].table;
            var request := ServerDecode(stale1, WireOf(RequestOf(k.client, ChooseCreateGroup(gname))));
            && request.kind == CREATE_GROUP && CreateGroupDefined(k.session, t, request.body)
            && var o := CreateGroup(col, k.session, t, g, request.body, now, insertOk);
               var reply := ClientDecode(stale2, FrameOf(CREATE_GROUP, Some(Decimal(o.gid))));
               var uid := k.client.uid;
               var row := t.rows[uid];
               var created := row.groupNum < row.groupNumMax && insertOk;
               && reply.kind == CREATE_GROUP && Atoi(reply.body) == (if created then g.nextGid else 0)
               && o.groups.groups == (if created then g.groups[g.nextGid := Group(gname, uid)] else g.groups)
               && uid in o.table.rows
               && (created ==> ParseGids(o.table.rows[uid].groups) == ParseGids(row.groups) + [g.nextGid])
  {
    var k, t := ss[i].conns[id], ss[i].table;
    RunKeepsInv(col, ss, es, i);
    assert InStep(k) && SessionOk(col, t, k.session);
    RequestMeansChoice(k.client, ChooseCreateGroup(gname), stale1);
    var body := ServerDecode(stale1, WireOf(RequestOf(k.client, ChooseCreateGroup(gname)))).body;
    assert Answers.Own(k.session, body);
    if t.rows[k.session.uid].groupNum < t.rows[k.session.uid].groupNumMax {
      Answers.GroupAnswered(col, k.session, t, g, body, now, insertOk);
    } else {
      Answers.NoRoomForGroup(col, k.session, t, g, body, now, insertOk);
    }
    GidReceived(CreateGroup(col, k.session, t, g, body, now, insertOk).gid, stale2);
  }
}
