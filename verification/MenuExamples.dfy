/** A run of two menu clients in which a user who is logged in is shown offline. */
module MenuExamples {
  import opened CText
  import opened Frames
  import opened Requests
  import opened UserTables
  import opened WorkServers
  import opened ChatClients
  import opened ChatSystem
  import MenuRuns

  function EmptyBuffer(): (s: string)
    ensures |s| == BUFFER_SIZE
  {
    seq(BUFFER_SIZE, i => NUL)
  }

  lemma RunExtended(col: Collation, ss: seq<State>, es: seq<Event>, e: Event)
    requires Run(col, ss, es) && Enabled(ss[|es|], e)
    ensures Run(col, ss + [Next(col, ss[|es|], e)], es + [e])
  {
    var rs, fs := ss + [Next(col, ss[|es|], e)], es + [e];
    forall i | 0 <= i < |fs|
      ensures Enabled(rs[i], fs[i]) && rs[i + 1] == Next(col, rs[i], fs[i])
    {
      if i < |es| {
        assert rs[i] == ss[i] && rs[i + 1] == ss[i + 1] && fs[i] == es[i];
      }
    }
  }

  /** The choices of the example: a registration or a login. */
  predicate Simple(choice: Choice) {
    choice.ChooseRegister? || choice.ChooseLogin?
  }

  /** A state in which only connection id differs, and holds session x and the same peer. */
  ghost predicate OnlyConn(s: State, s': State, id: nat, x: Session) {
    && id in s.conns && id in s'.conns && s'.conns == s.conns[id := s'.conns[id]]
    && s'.conns[id].session == x && s'.conns[id].peer == s.conns[id].peer
  }

  lemma ServedEffect(col: Collation, s: State, id: nat, now: int)
    requires Inv(col, s) && id in s.conns && s.conns[id].phase.Sent? && Simple(s.conns[id].phase.choice)
    ensures var e := Serve(id, EmptyBuffer(), now, true);
            var f := ServeEffect(col, s.conns[id], s.table, s.conns[id].phase.choice, now, true);
            && Enabled(s, e)
            && var s' := Next(col, s, e);
               s'.table == f.table && OnlyConn(s, s', id, f.session) && s'.conns[id].phase.Answered?
  {
    ServeDoesTheChoice(col, s.conns[id], s.table, EmptyBuffer(), now, true);
  }

  /** What a call has to do with the states before and after it. */
  ghost predicate CallDone(col: Collation, s: State, s': State, id: nat, choice: Choice, now: int)
    requires id in s.conns
  {
    var f := ServeEffect(col, s.conns[id], s.table, choice, now, true);
    s'.table == f.table && OnlyConn(s, s', id, f.session)
  }

  /** The request is sent and served. */
  lemma Asked(col: Collation, before: seq<State>, past: seq<Event>, id: nat, choice: Choice, now: int)
    returns (ss: seq<State>, es: seq<Event>)
    requires Run(col, before, past) && id in before[|past|].conns && before[|past|].conns[id].phase.Idle?
    requires Offered(before[|past|].conns[id].client, choice) && Simple(choice)
    ensures Run(col, ss, es) && CallDone(col, before[|past|], ss[|es|], id, choice, now)
    ensures ss[|es|].conns[id].phase.Answered?
  {
    var s, e1 := before[|past|], Choose(id, choice);
    RunExtended(col, before, past, e1);
    ss, es := before + [Next(col, s, e1)], past + [e1];
    var s1, e2 := ss[|es|], Serve(id, EmptyBuffer(), now, true);
    RunKeepsInv(col, ss, es, |es|);
    ServedEffect(col, s1, id, now);
    RunExtended(col, ss, es, e2);
    ss, es := ss + [Next(col, s1, e2)], es + [e2];
  }

  /** A whole call: the request is sent, served and its reply read. */
  lemma Called(col: Collation, before: seq<State>, past: seq<Event>, id: nat, choice: Choice, now: int)
    returns (ss: seq<State>, es: seq<Event>)
    requires Run(col, before, past) && id in before[|past|].conns && before[|past|].conns[id].phase.Idle?
    requires Offered(before[|past|].conns[id].client, choice) && Simple(choice)
    ensures Run(col, ss, es) && CallDone(col, before[|past|], ss[|es|], id, choice, now)
    ensures ss[|es|].conns[id].phase.Idle? && Agree(ss[|es|].conns[id])
  {
    ss, es := Asked(col, before, past, id, choice, now);
    var s2, e := ss[|es|], Receive(id, EmptyBuffer());
    RunKeepsInv(col, ss, es, |es|);
    StepKeepsInv(col, s2, e);
    RunExtended(col, ss, es, e);
    ss, es := ss + [Next(col, s2, e)], es + [e];
    assert InStep(ss[|es|].conns[id]);
  }

  lemma Connected(col: Collation, before: seq<State>, past: seq<Event>, id: nat, peer: Peer)
    returns (ss: seq<State>, es: seq<Event>)
    requires Run(col, before, past) && id !in before[|past|].conns
    ensures Run(col, ss, es)
    ensures ss[|es|] == before[|past|].(conns := before[|past|].conns[id := Conn(NEW_CLIENT, LOGGED_OUT, peer, Idle)])
  {
    RunExtended(col, before, past, Connect(id, peer));
    ss, es := before + [Next(col, before[|past|], Connect(id, peer))], past + [Connect(id, peer)];
  }

  /** One client has registered and logged in. */
  lemma AnnOnline(col: Collation, p: Peer) returns (ss: seq<State>, es: seq<Event>)
    ensures Run(col, ss, es)
    ensures var s := ss[|es|];
            && 1 in s.table.rows && s.table.rows[1].password == "pw" && s.table.rows[1].time == 0
            && 0 in s.conns && 1 !in s.conns && s.conns[0].session == Session(1, "pw")
  {
    ss, es := [State(Table(map[], 1), map[], map[])], [];
    ss, es := Connected(col, ss, es, 0, p);
    ss, es := Called(col, ss, es, 0, ChooseRegister("ann", "pw"), 0);
    ss, es := Called(col, ss, es, 0, ChooseLogin(1, "pw"), 0);
  }

  /** A second client logs in as the same user; then the first one goes away, which hides that user. */
  lemma MenuHidingReachable(col: Collation, p: Peer, q: Peer) returns (ss: seq<State>, es: seq<Event>)
    ensures Run(col, ss, es) && |es| > 0 && MenuRuns.Hides(ss[|es| - 1], es[|es| - 1])
    ensures var s := ss[|es|];
            && 1 in s.table.rows && s.table.rows[1].online == 0
            && 1 in s.conns && s.conns[1].session.uid == 1
  {
    ss, es := AnnOnline(col, p);
    ss, es := Connected(col, ss, es, 1, q);
    ss, es := Called(col, ss, es, 1, ChooseLogin(1, "pw"), 1);
    var s, e := ss[|es|], Close(0, 2);
    UidRequestRoundTrip(1, "pw");
    RunExtended(col, ss, es, e);
    assert s.conns[1].session.uid == 1 && 1 != e.id;
    ss, es := ss + [Next(col, s, e)], es + [e];
  }
}
