/** When the table tells the whole truth about who is online: a user is shown online exactly if some connection is
    logged in as that user. Module Credentials has one half of it, that nobody is shown without a connection. */
module OnlineTruth {
  import opened CText
  import opened Frames
  import opened Requests
  import opened UserTables
  import opened WorkServers
  import opened Credentials

  ghost predicate LoggedIn(s: State, uid: int, id: nat) {
    id in s.links && s.links[id].session.uid == uid
  }

  /** Every connection that is logged in, with an account that still exists, has its user shown online. */
  ghost predicate Shown(s: State) {
    forall id :: id in s.links && s.links[id].session.uid in s.table.rows
             ==> s.table.rows[s.links[id].session.uid].online == 1
  }

  /** Online iff logged in, and then with the address of such a connection. */
  ghost predicate Truth(s: State) {
    forall uid :: uid in s.table.rows ==>
      && (s.table.rows[uid].online == 1 <==> exists id :: LoggedIn(s, uid, id))
      && (s.table.rows[uid].online == 1 ==> exists id :: BackedBy(s, uid, id))
  }

  lemma TruthParts(s: State)
    ensures Truth(s) <==> Agreement(s) && Shown(s)
  {
    if Truth(s) {
      forall id | id in s.links && s.links[id].session.uid in s.table.rows
        ensures s.table.rows[s.links[id].session.uid].online == 1
      {
        assert LoggedIn(s, s.links[id].session.uid, id);
      }
      assert forall uid :: uid in s.table.rows ==> RowAgrees(s, uid);
    } else if Agreement(s) && Shown(s) {
      forall uid | uid in s.table.rows
        ensures s.table.rows[uid].online == 1 <==> exists id :: LoggedIn(s, uid, id)
        ensures s.table.rows[uid].online == 1 ==> exists id :: BackedBy(s, uid, id)
      {
        assert RowAgrees(s, uid);
        assert forall id :: BackedBy(s, uid, id) ==> LoggedIn(s, uid, id);
      }
    }
  }

  /** Event e is a logout of uid with its password, or the end of a connection logged in as uid. */
  ghost predicate TakesOffline(col: Collation, s: State, e: Event, uid: int)
    requires Enabled(s, e)
  {
    match e
    case Close(id, _) => uid in s.table.rows && s.links[id].session.uid == uid
    case Deliver(_, m, _, _) =>
      var r := ParseUidRequest(m.body);
      m.kind == LOGOUT && r.Some? && r.value.uid == uid && Matches(col, s.table, uid, r.value.password)
    case _ => false
  }

  /** An event that takes a user offline while another connection is logged in as that user. */
  ghost predicate Hides(col: Collation, s: State, e: Event)
    requires Enabled(s, e)
  {
    exists uid, j :: TakesOffline(col, s, e, uid) && LoggedIn(s, uid, j) && j != e.id
  }

  /** What a login, a logout or the end of a connection does to the rows of other users, and to its own. */
  lemma RowAfter(col: Collation, s: State, e: Event, uid: int)
    requires Inv(col, s) && Enabled(s, e) && uid in s.table.rows && uid in Next(col, s, e).table.rows
    ensures TakesOffline(col, s, e, uid) ==> Next(col, s, e).table.rows[uid].online == 0
    ensures s.table.rows[uid].online == 1 && !TakesOffline(col, s, e, uid)
        ==> Next(col, s, e).table.rows[uid].online == 1
  {
    if e.Close? {
      UidRequestRoundTrip(s.links[e.id].session.uid, s.links[e.id].session.password);
    }
  }

  /** A session that changes is that of the connection an event is about: it has logged in as a user who is now
      online, or it is empty. */
  lemma SessionAfter(col: Collation, s: State, e: Event, id: nat)
    requires Inv(col, s) && Enabled(s, e) && id in Next(col, s, e).links
    ensures var x, t := Next(col, s, e).links[id].session, Next(col, s, e).table;
            || (id in s.links && x == s.links[id].session && x.uid != s.table.nextUid)
            || (x.uid in t.rows && t.rows[x.uid].online == 1)
            || x == LOGGED_OUT
  {
    assert id in s.links ==> Holds(col, s.registered, s.links[id].session);
  }

  /** A logout that takes the own user of a connection offline succeeds and clears its session. */
  lemma OwnLogoutClears(col: Collation, s: State, e: Event)
    requires Inv(col, s) && Shown(s) && Enabled(s, e) && e.Deliver?
    requires TakesOffline(col, s, e, s.links[e.id].session.uid)
    ensures Next(col, s, e).links[e.id].session == LOGGED_OUT
  {
  }

  lemma ShownKept(col: Collation, s: State, e: Event)
    requires Inv(col, s) && Shown(s) && Enabled(s, e) && !Hides(col, s, e)
    ensures Shown(Next(col, s, e))
  {
    var s' := Next(col, s, e);
    forall id | id in s'.links && s'.links[id].session.uid in s'.table.rows
      ensures s'.table.rows[s'.links[id].session.uid].online == 1
    {
      var uid := s'.links[id].session.uid;
      StepKeepsInv(col, s, e);
      SessionAfter(col, s, e, id);
      if id in s.links && s'.links[id].session == s.links[id].session && uid in s.table.rows {
        RowAfter(col, s, e, uid);
        assert LoggedIn(s, uid, id);
        if TakesOffline(col, s, e, uid) {
          assert id == e.id;
          OwnLogoutClears(col, s, e);
        }
      }
    }
  }

  lemma HiddenAfterwards(col: Collation, s: State, e: Event)
    requires Inv(col, s) && Enabled(s, e) && Hides(col, s, e)
    ensures !Shown(Next(col, s, e))
  {
    var uid, j :| TakesOffline(col, s, e, uid) && LoggedIn(s, uid, j) && j != e.id;
    RowAfter(col, s, e, uid);
    assert Next(col, s, e).links[j] == s.links[j];
  }

  /** Every step from a state in which all logged-in users are shown leads to such a state exactly when it does
      not take a user offline who is logged in on another connection. */
  lemma ShownKeptExactly(col: Collation, s: State, e: Event)
    requires Inv(col, s) && Shown(s) && Enabled(s, e)
    ensures Shown(Next(col, s, e)) <==> !Hides(col, s, e)
  {
    if Hides(col, s, e) {
      HiddenAfterwards(col, s, e);
    } else {
      ShownKept(col, s, e);
    }
  }

  lemma InvOpens(col: Collation, s: State)
    requires Inv(col, s)
    ensures TableOk(s.table) && SessionsOpen(col, s)
  {
    forall id | id in s.links && s.links[id].session.uid in s.table.rows
      ensures Matches(col, s.table, s.links[id].session.uid, s.links[id].session.password)
    {
      assert Holds(col, s.registered, s.links[id].session);
    }
  }

  /** Both halves in one: a step keeps "online iff logged in" exactly when it neither leaves a user behind nor
      hides one. */
  lemma TruthKeptExactly(col: Collation, s: State, e: Event)
    requires Inv(col, s) && Truth(s) && Enabled(s, e)
    ensures Truth(Next(col, s, e)) <==> !LeavesAt(col, s, e) && !Hides(col, s, e)
  {
    InvOpens(col, s);
    TruthParts(s);
    TruthParts(Next(col, s, e));
    AgreementKeptExactly(col, s, e);
    ShownKeptExactly(col, s, e);
  }

  ghost predicate Deceives(col: Collation, s: State, e: Event)
    requires Enabled(s, e)
  {
    LeavesAt(col, s, e) || Hides(col, s, e)
  }

  lemma {:induction false} TrueUntilDeceived(col: Collation, ss: seq<State>, es: seq<Event>, i: nat)
    requires Run(col, ss, es) && i <= |es|
    requires forall k :: 0 <= k < i ==> !Deceives(col, ss[k], es[k])
    ensures Truth(ss[i])
  {
    if i > 0 {
      TrueUntilDeceived(col, ss, es, i - 1);
      RunKeepsInv(col, ss, es, i - 1);
      TruthKeptExactly(col, ss[i - 1], es[i - 1]);
    }
  }

  /** Over a whole run the users shown online are exactly the ones logged in, if and only if no connection leaves
      its own user behind and no logout or end of a connection hides a user logged in on another one. */
  lemma OnlineIffLoggedInExactly(col: Collation, ss: seq<State>, es: seq<Event>)
    requires Run(col, ss, es)
    ensures (forall i :: 0 <= i <= |es| ==> Truth(ss[i]))
       <==> (forall i :: 0 <= i < |es| ==> !LeavesAt(col, ss[i], es[i]) && !Hides(col, ss[i], es[i]))
  {
    if forall i :: 0 <= i <= |es| ==> Truth(ss[i]) {
      forall i | 0 <= i < |es|
        ensures !Deceives(col, ss[i], es[i])
      {
        RunKeepsInv(col, ss, es, i);
        assert Truth(ss[i]) && Truth(ss[i + 1]);
        TruthKeptExactly(col, ss[i], es[i]);
      }
    } else {
      var i :| 0 <= i <= |es| && !Truth(ss[i]);
      if forall k :: 0 <= k < |es| ==> !Deceives(col, ss[k], es[k]) {
        TrueUntilDeceived(col, ss, es, i);
      }
    }
  }

  // ---- a run that hides a user -----------------------------------------------------------------

  /** The first of two users is logged in on connection 0, and later also on connection 1. */
  function AnnTwice(p: Peer, q: Peer): State {
    var s := AnnOnline(p);
    var row := NewRow("ann").(online := 1, addr := AddressText(q), time := 1);
    s.(table := s.table.(rows := s.table.rows[1 := row]),
       links := map[0 := Link(Session(1, "pw"), p), 1 := Link(Session(1, "pw"), q)])
  }

  function SecondLogin(): Event {
    Deliver(1, Message(LOGIN, UidRequest(1, "pw")), 1, true)
  }

  lemma AnnComesAgain(col: Collation, p: Peer, q: Peer)
    ensures var s := Next(col, AnnOnline(p), Accept(1, q));
            Enabled(s, SecondLogin()) && Next(col, s, SecondLogin()) == AnnTwice(p, q)
  {
    UidMessageOk(LOGIN, 1);
  }

  lemma AnnHidden(col: Collation, p: Peer, q: Peer)
    ensures Hides(col, AnnTwice(p, q), Close(0, 2)) && !LeavesAt(col, AnnTwice(p, q), Close(0, 2))
    ensures Truth(AnnTwice(p, q))
  {
    var s := AnnTwice(p, q);
    assert LoggedIn(s, 1, 1) && BackedBy(s, 1, 1);
    assert TakesOffline(col, s, Close(0, 2), 1);
  }

  lemma HiddenAfter(col: Collation, before: seq<State>, past: seq<Event>, e: Event, f: Event, g: Event)
    returns (ss: seq<State>, es: seq<Event>)
    requires Run(col, before, past) && Enabled(before[|past|], e) && Enabled(Next(col, before[|past|], e), f)
    requires var s := Next(col, Next(col, before[|past|], e), f); Enabled(s, g) && Truth(s) && Hides(col, s, g)
    ensures Run(col, ss, es) && es == past + [e, f, g] && |ss| == |before| + 3
    ensures var n := |past| + 2; Truth(ss[n]) && Hides(col, ss[n], es[n]) && !Truth(ss[n + 1])
  {
    var s1 := Next(col, before[|past|], e);
    var s2 := Next(col, s1, f);
    RunExtended(col, before, past, e);
    RunExtended(col, before + [s1], past + [e], f);
    RunExtended(col, before + [s1] + [s2], past + [e] + [f], g);
    ss, es := before + [s1] + [s2] + [Next(col, s2, g)], past + [e] + [f] + [g];
    RunKeepsInv(col, ss, es, |past| + 2);
    TruthKeptExactly(col, s2, g);
  }

  /** Two connections log in as the same user, and the end of the first one hides that user. */
  lemma HidingReachable(col: Collation, p: Peer, q: Peer) returns (ss: seq<State>, es: seq<Event>)
    ensures Run(col, ss, es) && |es| == 7 && es[6] == Close(0, 2)
    ensures Truth(ss[6]) && Hides(col, ss[6], es[6]) && !Truth(ss[7])
  {
    ss, es := TwoUsersReachable(col, p);
    AnnLogsIn(col, p);
    AnnComesAgain(col, p, q);
    AnnHidden(col, p, q);
    RunExtended(col, ss, es, PwRequest(LOGIN, 1, 0));
    ss, es := ss + [AnnOnline(p)], es + [PwRequest(LOGIN, 1, 0)];
    ss, es := HiddenAfter(col, ss, es, Accept(1, q), SecondLogin(), Close(0, 2));
  }
}
