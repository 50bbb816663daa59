/** Clients that follow the menu are a special case of arbitrary ones: every run of the chat system is a run of
    the work servers of module Credentials, in which no connection leaves its own user behind. */
module MenuRuns {
  import opened CText
  import opened Frames
  import opened Requests
  import opened UserTables
  import opened WorkServers
  import opened ChatClients
  import ChatSystem
  import Credentials
  import OnlineTruth

  function LinksOf(conns: map<nat, ChatSystem.Conn>): map<nat, Credentials.Link> {
    map id | id in conns :: Credentials.Link(conns[id].session, conns[id].peer)
  }

  function ViewOf(s: ChatSystem.State, registered: map<int, string>): Credentials.State {
    Credentials.State(s.table, LinksOf(s.conns), registered)
  }

  /** What the work servers notice of an event; choosing and reading a reply happen at the client. */
  ghost function EventOf(s: ChatSystem.State, e: ChatSystem.Event): Option<Credentials.Event>
    requires ChatSystem.Enabled(s, e)
  {
    match e
    case Connect(id, peer) => Some(Credentials.Accept(id, peer))
    case Choose(_, _) => None
    case Serve(id, stale, now, insertOk) =>
      Some(Credentials.Deliver(id, ServerDecode(stale, s.conns[id].phase.wire), now, insertOk))
    case AnswerCreateGroup(_, _) => None
    case GroupStatement(uid, password, groupNum, groups, now) =>
      Some(Credentials.GroupStatement(uid, password, groupNum, groups, now))
    case Receive(_, _) => None
    case Close(id, now) => Some(Credentials.Close(id, now))
  }

  lemma PageWellFormed(page: int)
    requires Int32(page)
    ensures Credentials.WellFormed(Message(USER_LIST, PageRequest(page, 20)))
  {
    PagePlain(page);
    DecimalPlain(page);
    SplitPairOf(Decimal(page), Decimal(20));
    AtoiOfDecimal(page);
    AtoiOfDecimal(20);
  }

  lemma PagePlain(page: int)
    ensures Credentials.SqlPlain(PageRequest(page, 20))
  {
    Credentials.DecimalSqlPlain(page);
    Credentials.DecimalSqlPlain(20);
  }

  lemma MemberPlain(uid: int, password: string, last: string)
    requires CheckName(password) && Credentials.SqlPlain(last)
    ensures Credentials.SqlPlain(MemberRequest(uid, password, last))
  {
    Credentials.DecimalSqlPlain(uid);
  }

  lemma MemberWellFormed(kind: nat, c: Client, last: string)
    requires c.ifLogin && ClientOk(c) && Credentials.SqlPlain(last)
    requires if kind == CREATE_GROUP then |last| <= 16 else kind in {FIND_USER, OBTAIN_CLIENT_ADDR} && Int32(Atoi(last))
    ensures Credentials.WellFormed(Message(kind, MemberRequest(c.uid, c.password, last)))
  {
    AlnumPlain(c.password);
    MemberPlain(c.uid, c.password, last);
    MemberRequestRoundTrip(c.uid, c.password, last);
  }

  /** Every request the menu can send is well formed. */
  lemma MenuRequestsWellFormed(c: Client, choice: Choice)
    requires Offered(c, choice) && ClientOk(c)
    ensures Credentials.WellFormed(RequestOf(c, choice))
  {
    if choice.ChooseFind? || choice.ChooseObtain? {
      AtoiOfDecimal(choice.who);
      Credentials.DecimalSqlPlain(choice.who);
    }
    match choice
    case ChooseRegister(uname, password) => Credentials.RegistrationWellFormed(uname, password);
    case ChooseLogin(uid, password) => Credentials.UidWellFormed(LOGIN, uid, password);
    case ChooseDelete(uid, password) => Credentials.UidWellFormed(DELETE_USER, uid, password);
    case ChooseLogout => Credentials.UidWellFormed(LOGOUT, c.uid, c.password);
    case ChooseList(page) => PageWellFormed(page);
    case ChooseFind(who) => MemberWellFormed(FIND_USER, c, Decimal(who));
    case ChooseObtain(who) => MemberWellFormed(OBTAIN_CLIENT_ADDR, c, Decimal(who));
    case ChooseCreateGroup(gname) => MemberWellFormed(CREATE_GROUP, c, gname);
  }

  /** The request under way reaches the server as the client meant it. */
  lemma RequestServed(col: Collation, s: ChatSystem.State, e: ChatSystem.Event)
    requires ChatSystem.Inv(col, s) && ChatSystem.Enabled(s, e) && e.Serve?
    ensures var k := s.conns[e.id];
            && ChatSystem.Agree(k) && Offered(k.client, k.phase.choice)
            && ServerDecode(e.stale, k.phase.wire) == RequestOf(k.client, k.phase.choice)
  {
    var k := s.conns[e.id];
    assert ChatSystem.InStep(k);
    RequestDelivered(k.client, k.phase.choice, e.stale);
  }

  function RegisteredAfter(registered: map<int, string>, s: ChatSystem.State, f: Option<Credentials.Event>)
    : map<int, string>
  {
    if f.Some? && f.value.Deliver? then Credentials.Remember(registered, s.table, f.value.m, f.value.insertOk)
    else registered
  }

  /** Every step of the chat system is a step of the work servers, or one they do not notice. */
  ghost predicate Simulated(col: Collation, s: ChatSystem.State, e: ChatSystem.Event, registered: map<int, string>)
    requires ChatSystem.Enabled(s, e)
  {
    var f := EventOf(s, e);
    var v, v' := ViewOf(s, registered), ViewOf(ChatSystem.Next(col, s, e), RegisteredAfter(registered, s, f));
    if f.None? then v' == v else Credentials.Enabled(v, f.value) && v' == Credentials.Next(col, v, f.value)
  }

  lemma LinkReplaced(conns: map<nat, ChatSystem.Conn>, id: nat, k: ChatSystem.Conn)
    ensures LinksOf(conns[id := k]) == LinksOf(conns)[id := Credentials.Link(k.session, k.peer)]
  {
  }

  lemma ServeIsDeliver(col: Collation, s: ChatSystem.State, e: ChatSystem.Event, registered: map<int, string>)
    requires ChatSystem.Inv(col, s) && ChatSystem.Enabled(s, e) && s.table.nextUid < Pow10(9) && e.Serve?
    ensures Simulated(col, s, e, registered)
  {
    var k := s.conns[e.id];
    RequestServed(col, s, e);
    MenuRequestsWellFormed(k.client, k.phase.choice);
    LinkReplaced(s.conns, e.id, ChatSystem.Next(col, s, e).conns[e.id]);
  }

  lemma CloseIsClose(col: Collation, s: ChatSystem.State, e: ChatSystem.Event, registered: map<int, string>)
    requires ChatSystem.Enabled(s, e) && e.Close?
    ensures Simulated(col, s, e, registered)
  {
    assert LinksOf(ChatSystem.Next(col, s, e).conns) == LinksOf(s.conns) - {e.id};
  }

  lemma ConnectIsAccept(col: Collation, s: ChatSystem.State, e: ChatSystem.Event, registered: map<int, string>)
    requires ChatSystem.Enabled(s, e) && e.Connect?
    ensures Simulated(col, s, e, registered)
  {
    LinkReplaced(s.conns, e.id, ChatSystem.Next(col, s, e).conns[e.id]);
  }

  /** What a client does on its own, and group statements, change no session. */
  lemma OthersKeepLinks(col: Collation, s: ChatSystem.State, e: ChatSystem.Event, registered: map<int, string>)
    requires ChatSystem.Enabled(s, e) && !e.Serve? && !e.Close? && !e.Connect?
    ensures Simulated(col, s, e, registered)
  {
    if !e.GroupStatement? {
      LinkReplaced(s.conns, e.id, ChatSystem.Next(col, s, e).conns[e.id]);
      assert LinksOf(s.conns)[e.id := LinksOf(s.conns)[e.id]] == LinksOf(s.conns);
    }
  }

  lemma StepIsStep(col: Collation, s: ChatSystem.State, e: ChatSystem.Event, registered: map<int, string>)
    requires ChatSystem.Inv(col, s) && ChatSystem.Enabled(s, e) && s.table.nextUid < Pow10(9)
    ensures Simulated(col, s, e, registered)
  {
    if e.Serve? {
      ServeIsDeliver(col, s, e, registered);
    } else if e.Close? {
      CloseIsClose(col, s, e, registered);
    } else if e.Connect? {
      ConnectIsAccept(col, s, e, registered);
    } else {
      OthersKeepLinks(col, s, e, registered);
    }
  }

  /** The menu offers a login only to a client whose session is empty, and a logout only of its own user. */
  lemma MenuNeverLeaves(col: Collation, s: ChatSystem.State, e: ChatSystem.Event, registered: map<int, string>)
    requires ChatSystem.Inv(col, s) && ChatSystem.Enabled(s, e) && e.Serve?
    ensures var m := ServerDecode(e.stale, s.conns[e.id].phase.wire);
            !Credentials.Leaves(col, ViewOf(s, registered), e.id, m, e.now)
  {
    var k := s.conns[e.id];
    RequestServed(col, s, e);
    if k.phase.choice.ChooseLogout? {
      UidRequestRoundTrip(k.client.uid, k.client.password);
    }
  }

  /** A run of the work servers that ends where the chat system stands, and in which nobody is left behind. */
  ghost predicate Follows(col: Collation, s: ChatSystem.State, vs: seq<Credentials.State>, fs: seq<Credentials.Event>) {
    && Credentials.Run(col, vs, fs)
    && vs[|fs|] == ViewOf(s, vs[|fs|].registered)
    && forall k :: 0 <= k < |fs| ==> !Credentials.LeavesAt(col, vs[k], fs[k])
  }

  lemma FollowsOn(col: Collation, s: ChatSystem.State, e: ChatSystem.Event,
                  past: seq<Credentials.State>, events: seq<Credentials.Event>)
    returns (vs: seq<Credentials.State>, fs: seq<Credentials.Event>)
    requires ChatSystem.Inv(col, s) && ChatSystem.Enabled(s, e) && s.table.nextUid < Pow10(9)
    requires Follows(col, s, past, events)
    ensures Follows(col, ChatSystem.Next(col, s, e), vs, fs)
  {
    var v, f := past[|events|], EventOf(s, e);
    StepIsStep(col, s, e, v.registered);
    if f.None? {
      vs, fs := past, events;
    } else {
      if e.Serve? {
        MenuNeverLeaves(col, s, e, v.registered);
      }
      vs, fs := FollowedBy(col, s, past, events, f.value);
    }
  }

  lemma FollowedBy(col: Collation, s: ChatSystem.State, past: seq<Credentials.State>,
                   events: seq<Credentials.Event>, f: Credentials.Event)
    returns (vs: seq<Credentials.State>, fs: seq<Credentials.Event>)
    requires Follows(col, s, past, events) && Credentials.Enabled(past[|events|], f)
    requires !Credentials.LeavesAt(col, past[|events|], f)
    ensures Credentials.Run(col, vs, fs) && vs[|fs|] == Credentials.Next(col, past[|events|], f)
    ensures forall k :: 0 <= k < |fs| ==> !Credentials.LeavesAt(col, vs[k], fs[k])
  {
    Credentials.RunExtended(col, past, events, f);
    vs, fs := past + [Credentials.Next(col, past[|events|], f)], events + [f];
    forall k | 0 <= k < |fs|
      ensures !Credentials.LeavesAt(col, vs[k], fs[k])
    {
      if k < |events| {
        assert vs[k] == past[k] && fs[k] == events[k];
      }
    }
  }

  /** A run of the chat system with fewer than 10^9 accounts, as a run of the work servers: same table, same
      sessions, and no connection ever leaves its own user behind. */
  lemma {:induction false} MenuRunIsRun(col: Collation, ss: seq<ChatSystem.State>, es: seq<ChatSystem.Event>, i: nat)
    returns (vs: seq<Credentials.State>, fs: seq<Credentials.Event>)
    requires ChatSystem.Run(col, ss, es) && i <= |es|
    requires forall k :: 0 <= k < i ==> ss[k].table.nextUid < Pow10(9)
    ensures Follows(col, ss[i], vs, fs)
  {
    if i == 0 {
      vs, fs := [ViewOf(ss[0], map[])], [];
    } else {
      vs, fs := MenuRunIsRun(col, ss, es, i - 1);
      ChatSystem.RunKeepsInv(col, ss, es, i - 1);
      vs, fs := FollowsOn(col, ss[i - 1], es[i - 1], vs, fs);
    }
  }

  /** So both results about arbitrary clients hold for menu clients: whoever is shown online is connected, and
      is_login accepts registered credentials only. */
  lemma MenuRunsAreSound(col: Collation, ss: seq<ChatSystem.State>, es: seq<ChatSystem.Event>, i: nat,
                         id: nat, uid: int, password: string)
    returns (vs: seq<Credentials.State>, fs: seq<Credentials.Event>)
    requires ChatSystem.Run(col, ss, es) && i <= |es| && id in ss[i].conns
    requires forall k :: 0 <= k < i ==> ss[k].table.nextUid < Pow10(9)
    ensures Follows(col, ss[i], vs, fs) && Credentials.Agreement(vs[|fs|])
    ensures IsLogin(ss[i].conns[id].session, uid, password)
        ==> uid in vs[|fs|].registered && col.Same(vs[|fs|].registered[uid], password)
  {
    vs, fs := MenuRunIsRun(col, ss, es, i);
    Credentials.OnlineBackedExactly(col, vs, fs);
    Credentials.CredentialsSound(col, vs, fs, |fs|, id, uid, password);
  }

  // ---- online iff logged in, for menu clients --------------------------------------------------

  /** A client logs out or goes away while another one is logged in as the same user. */
  ghost predicate Hides(s: ChatSystem.State, e: ChatSystem.Event)
    requires ChatSystem.Enabled(s, e)
  {
    && (e.Close? || (e.Serve? && s.conns[e.id].phase.choice.ChooseLogout?))
    && s.conns[e.id].session.uid in s.table.rows
    && exists j :: j in s.conns && j != e.id && s.conns[j].session.uid == s.conns[e.id].session.uid
  }

  lemma TakesOfflineSame(col: Collation, s: ChatSystem.State, e: ChatSystem.Event, v: Credentials.State,
                         f: Credentials.Event, uid: int)
    requires ChatSystem.Inv(col, s) && ChatSystem.Enabled(s, e) && v == ViewOf(s, v.registered)
    requires EventOf(s, e) == Some(f) && Credentials.Enabled(v, f)
    ensures OnlineTruth.TakesOffline(col, v, f, uid)
       <==> (e.Close? || (e.Serve? && s.conns[e.id].phase.choice.ChooseLogout?))
            && uid == s.conns[e.id].session.uid && uid in s.table.rows
  {
    if e.Serve? {
      var k := s.conns[e.id];
      RequestServed(col, s, e);
      UidRequestRoundTrip(k.client.uid, k.client.password);
      assert ChatSystem.SessionOk(col, s.table, k.session);
    }
  }

  lemma HidesSame(col: Collation, s: ChatSystem.State, e: ChatSystem.Event, v: Credentials.State, f: Credentials.Event)
    requires ChatSystem.Inv(col, s) && ChatSystem.Enabled(s, e) && v == ViewOf(s, v.registered)
    requires EventOf(s, e) == Some(f) && Credentials.Enabled(v, f)
    ensures OnlineTruth.Hides(col, v, f) <==> Hides(s, e)
  {
    forall uid
      ensures OnlineTruth.TakesOffline(col, v, f, uid)
         <==> (e.Close? || (e.Serve? && s.conns[e.id].phase.choice.ChooseLogout?))
              && uid == s.conns[e.id].session.uid && uid in s.table.rows
    {
      TakesOfflineSame(col, s, e, v, f, uid);
    }
    if Hides(s, e) {
      var uid := s.conns[e.id].session.uid;
      var j :| j in s.conns && j != e.id && s.conns[j].session.uid == uid;
      assert OnlineTruth.TakesOffline(col, v, f, uid) && OnlineTruth.LoggedIn(v, uid, j);
    }
  }

  /** A user of the chat system is shown online iff some client is logged in as that user. */
  ghost predicate Truth(s: ChatSystem.State) {
    OnlineTruth.Truth(ViewOf(s, map[]))
  }

  lemma TruthWithoutHistory(s: ChatSystem.State, registered: map<int, string>)
    ensures OnlineTruth.Truth(ViewOf(s, registered)) <==> Truth(s)
  {
    var a, b := ViewOf(s, registered), ViewOf(s, map[]);
    assert forall uid, id :: OnlineTruth.LoggedIn(a, uid, id) <==> OnlineTruth.LoggedIn(b, uid, id);
    assert forall uid, id :: uid in s.table.rows ==>
             (Credentials.BackedBy(a, uid, id) <==> Credentials.BackedBy(b, uid, id));
  }

  lemma TruthStep(col: Collation, s: ChatSystem.State, e: ChatSystem.Event, registered: map<int, string>)
    requires ChatSystem.Inv(col, s) && ChatSystem.Enabled(s, e) && s.table.nextUid < Pow10(9)
    requires Credentials.Inv(col, ViewOf(s, registered)) && Truth(s)
    ensures Truth(ChatSystem.Next(col, s, e)) <==> !Hides(s, e)
  {
    var v, f := ViewOf(s, registered), EventOf(s, e);
    StepIsStep(col, s, e, registered);
    TruthWithoutHistory(s, registered);
    TruthWithoutHistory(ChatSystem.Next(col, s, e), RegisteredAfter(registered, s, f));
    if f.Some? {
      ViewKeepsTruthExactly(col, s, e, v, f.value);
    }
  }

  lemma ViewKeepsTruthExactly(col: Collation, s: ChatSystem.State, e: ChatSystem.Event, v: Credentials.State,
                              f: Credentials.Event)
    requires ChatSystem.Inv(col, s) && ChatSystem.Enabled(s, e) && v == ViewOf(s, v.registered)
    requires EventOf(s, e) == Some(f) && Credentials.Enabled(v, f)
    requires Credentials.Inv(col, v) && OnlineTruth.Truth(v)
    ensures OnlineTruth.Truth(Credentials.Next(col, v, f)) <==> !Hides(s, e)
  {
    if e.Serve? {
      MenuNeverLeaves(col, s, e, v.registered);
    }
    HidesSame(col, s, e, v, f);
    OnlineTruth.TruthKeptExactly(col, v, f);
  }

  lemma TruthStepInRun(col: Collation, ss: seq<ChatSystem.State>, es: seq<ChatSystem.Event>, i: nat)
    requires ChatSystem.Run(col, ss, es) && i < |es|
    requires forall k :: 0 <= k <= i ==> ss[k].table.nextUid < Pow10(9)
    requires Truth(ss[i])
    ensures Truth(ss[i + 1]) <==> !Hides(ss[i], es[i])
  {
    var vs, fs := MenuRunIsRun(col, ss, es, i);
    Credentials.RunKeepsInv(col, vs, fs, |fs|);
    ChatSystem.RunKeepsInv(col, ss, es, i);
    TruthStep(col, ss[i], es[i], vs[|fs|].registered);
  }

  lemma {:induction false} TrueUntilHidden(col: Collation, ss: seq<ChatSystem.State>, es: seq<ChatSystem.Event>, i: nat)
    requires ChatSystem.Run(col, ss, es) && i <= |es|
    requires forall k :: 0 <= k < i ==> ss[k].table.nextUid < Pow10(9) && !Hides(ss[k], es[k])
    ensures Truth(ss[i])
  {
    if i > 0 {
      TrueUntilHidden(col, ss, es, i - 1);
      TruthStepInRun(col, ss, es, i - 1);
    }
  }

  /** With menu clients, below 10^9 accounts, the users shown online are exactly the ones logged in over a whole
      run, if and only if no client logs out or goes away while another is logged in as the same user. */
  lemma MenuOnlineExactly(col: Collation, ss: seq<ChatSystem.State>, es: seq<ChatSystem.Event>)
    requires ChatSystem.Run(col, ss, es)
    requires forall k :: 0 <= k < |es| ==> ss[k].table.nextUid < Pow10(9)
    ensures (forall i :: 0 <= i <= |es| ==> Truth(ss[i])) <==> (forall i :: 0 <= i < |es| ==> !Hides(ss[i], es[i]))
  {
    if forall i :: 0 <= i <= |es| ==> Truth(ss[i]) {
      forall i | 0 <= i < |es|
        ensures !Hides(ss[i], es[i])
      {
        assert Truth(ss[i]) && Truth(ss[i + 1]);
        TruthStepInRun(col, ss, es, i);
      }
    } else {
      var i :| 0 <= i <= |es| && !Truth(ss[i]);
      if forall k :: 0 <= k < |es| ==> !Hides(ss[k], es[k]) {
        TrueUntilHidden(col, ss, es, i);
      }
    }
  }
}
