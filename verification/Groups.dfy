/** Concurrent create_group calls: select, insert and update of any number of calls interleave with each
    other and with every other statement on the user table. */
module Groups {
  import opened CText
  import opened UserTables
  import opened GroupSteps
  import opened Requests
  import WorkServers

  /** Where a call that passed is_login stands; Undefined is the unchecked res[0] on an empty result. */
  datatype Call =
    | Started(uid: int, password: string, gname: string)
    | HasRead(uid: int, password: string, gname: string, snap: Snapshot)
    | HasInserted(uid: int, password: string, gname: string, snap: Snapshot, gid: int)
    | Finished(uid: int, gname: string, gid: int)
    | Undefined

  datatype State = State(table: Table, store: GroupTable, calls: map<nat, Call>)

  datatype Event =
    | Start(id: nat, uid: int, password: string, gname: string)
    | Select(id: nat)
    | InsertGid(id: nat, ok: bool)
    | Update(id: nat, now: int)
    | OtherOnline(uid: int, online: int, password: string, addr: string, now: int)
    | OtherDelete(uid: int, password: string)
    | OtherInsert(uname: string, password: string, now: int, ok: bool)

  ghost predicate Initial(s: State) {
    s == State(Table(map[], 1), GroupTable(map[], 1), map[])
  }

  /** A started call carries credentials of an allocated user id, because is_login accepted them. */
  ghost predicate Enabled(s: State, e: Event) {
    match e
    case Start(id, uid, _, _) => id !in s.calls && 1 <= uid < s.table.nextUid
    case Select(id) => id in s.calls && s.calls[id].Started?
    case InsertGid(id, _) => id in s.calls && s.calls[id].HasRead?
    case Update(id, _) => id in s.calls && s.calls[id].HasInserted?
    case _ => true
  }

  function AfterSelect(t: Table, c: Call): Call
    requires c.Started?
  {
    match SearchWhere(t, c.uid)
    case None => Undefined
    case Some(row) =>
      if row.groupNum < row.groupNumMax then HasRead(c.uid, c.password, c.gname, SnapshotOf(row))
      else Finished(c.uid, c.gname, 0)
  }

  ghost function Next(col: Collation, s: State, e: Event): State
    requires Enabled(s, e)
  {
    match e
    case Start(id, uid, password, gname) => s.(calls := s.calls[id := Started(uid, password, gname)])
    case Select(id) => s.(calls := s.calls[id := AfterSelect(s.table, s.calls[id])])
    case InsertGid(id, ok) =>
      var c := s.calls[id];
      var i := InsertGroup(s.store, c.uid, c.gname, ok);
      s.(store := i.table, calls := s.calls[id := HasInserted(c.uid, c.password, c.gname, c.snap, i.gid)])
    case Update(id, now) =>
      var c := s.calls[id];
      var u := FinishUpdate(col, s.table, c.uid, c.password, c.snap, c.gid, now);
      s.(table := u.table, calls := s.calls[id := Finished(c.uid, c.gname, if u.ok then c.gid else 0)])
    case OtherOnline(uid, online, password, addr, now) =>
      s.(table := UpdateOnlineAndAddr(col, s.table, uid, online, password, addr, now).table)
    case OtherDelete(uid, password) => s.(table := DeleteWhereUidPassword(col, s.table, uid, password).table)
    case OtherInsert(uname, password, now, ok) => s.(table := Insert(s.table, uname, password, now, ok).table)
  }

  ghost predicate Run(col: Collation, ss: seq<State>, es: seq<Event>) {
    && |ss| == |es| + 1
    && Initial(ss[0])
    && forall i :: 0 <= i < |es| ==> Enabled(ss[i], es[i]) && ss[i + 1] == Next(col, ss[i], es[i])
  }

  /** Run in a row, the steps of one call are the work server's create_group. */
  lemma UninterruptedCallIsCreateGroup(col: Collation, s: State, id: nat, x: WorkServers.Session, r: MemberCall,
                                       now: int, insertOk: bool)
    requires id !in s.calls && 1 <= r.uid < s.table.nextUid && r.uid in s.table.rows
    requires x == WorkServers.Session(r.uid, r.password) && ':' !in r.password
    ensures var body := MemberRequest(r.uid, r.password, r.last);
            && WorkServers.CreateGroupDefined(x, s.table, body)
            && var o := WorkServers.CreateGroup(col, x, s.table, s.store, body, now, insertOk);
               var s2 := Next(col, Next(col, s, Start(id, r.uid, r.password, r.last)), Select(id));
               if s.table.rows[r.uid].groupNum < s.table.rows[r.uid].groupNumMax
               then Next(col, Next(col, s2, InsertGid(id, insertOk)), Update(id, now))
                    == State(o.table, o.groups, s.calls[id := Finished(r.uid, r.last, o.gid)])
               else s2 == State(o.table, o.groups, s.calls[id := Finished(r.uid, r.last, o.gid)])
  {
    MemberRequestRoundTrip(r.uid, r.password, r.last);
    var s1 := Next(col, s, Start(id, r.uid, r.password, r.last));
    var s2 := Next(col, s1, Select(id));
    if s.table.rows[r.uid].groupNum < s.table.rows[r.uid].groupNumMax {
      var s3 := Next(col, s2, InsertGid(id, insertOk));
      assert s3.calls[id].HasInserted?;
    }
  }

  // ---- the invariant ---------------------------------------------------------------------------

  ghost predicate Owned(g: GroupTable, uid: int, gid: int) {
    gid == 0 || (gid in g.groups && g.groups[gid].creator == uid)
  }

  /** A (count, text) pair is consistent: the text lists count ids, each 0 or a group of uid. */
  ghost predicate ListOk(g: GroupTable, uid: int, groupNum: int, groups: string) {
    var gids := ParseGids(groups);
    && groups == JoinGids(gids) && |gids| == groupNum
    && forall gid :: gid in gids ==> Owned(g, uid, gid)
  }

  ghost predicate RowOk(g: GroupTable, uid: int, row: Row) {
    ListOk(g, uid, row.groupNum, row.groups) && row.groupNum <= row.groupNumMax == 3
  }

  ghost predicate SnapOk(g: GroupTable, uid: int, snap: Snapshot) {
    ListOk(g, uid, snap.groupNum, snap.groups) && snap.groupNum < snap.groupNumMax == 3
  }

  predicate Active(c: Call) {
    c.Started? || c.HasRead? || c.HasInserted?
  }

  ghost predicate CallOk(s: State, c: Call) {
    && (Active(c) ==> 1 <= c.uid < s.table.nextUid)
    && (c.HasRead? || c.HasInserted? ==> SnapOk(s.store, c.uid, c.snap))
    && (c.HasInserted? ==> Owned(s.store, c.uid, c.gid))
  }

  ghost predicate Inv(s: State) {
    && IdsOk(s.table) && GroupIdsOk(s.store)
    && (forall uid :: uid in s.table.rows ==> RowOk(s.store, uid, s.table.rows[uid]))
    && (forall id :: id in s.calls ==> CallOk(s, s.calls[id]))
  }

  lemma ParseAppended(groups: string, gid: int)
    requires groups == JoinGids(ParseGids(groups))
    ensures ParseGids(AppendGid(groups, gid)) == ParseGids(groups) + [gid]
    ensures AppendGid(groups, gid) == JoinGids(ParseGids(groups) + [gid])
  {
    var gids := ParseGids(groups);
    assert (gids + [gid])[..|gids|] == gids;
    ParseJoined(gids + [gid]);
  }

  /** What an update writes is consistent again. */
  lemma AppendKeepsList(g: GroupTable, uid: int, groupNum: int, groups: string, gid: int)
    requires ListOk(g, uid, groupNum, groups) && Owned(g, uid, gid)
    ensures ListOk(g, uid, groupNum + 1, AppendGid(groups, gid))
    ensures ParseGids(AppendGid(groups, gid)) == ParseGids(groups) + [gid]
  {
    ParseAppended(groups, gid);
  }

  lemma UpdateKeepsInv(col: Collation, s: State, id: nat, now: int)
    requires Inv(s) && Enabled(s, Update(id, now))
    ensures Inv(Next(col, s, Update(id, now)))
  {
    var c := s.calls[id];
    AppendKeepsList(s.store, c.uid, c.snap.groupNum, c.snap.groups, c.gid);
    var s' := Next(col, s, Update(id, now));
    forall j | j in s'.calls
      ensures CallOk(s', s'.calls[j])
    {
      assert j != id ==> CallOk(s, s.calls[j]);
    }
  }

  lemma InsertKeepsInv(col: Collation, s: State, id: nat, ok: bool)
    requires Inv(s) && Enabled(s, InsertGid(id, ok))
    ensures Inv(Next(col, s, InsertGid(id, ok)))
  {
    var s' := Next(col, s, InsertGid(id, ok));
    assert forall uid, gid :: Owned(s.store, uid, gid) ==> Owned(s'.store, uid, gid);
    forall j | j in s'.calls
      ensures CallOk(s', s'.calls[j])
    {
      assert CallOk(s, s.calls[j]);
    }
  }

  /** Other statements leave the group columns of every row alone and add only empty rows. */
  lemma OtherKeepsRows(col: Collation, s: State, e: Event)
    requires Inv(s) && Enabled(s, e) && !e.Update? && !e.InsertGid?
    ensures var t := Next(col, s, e).table;
            && IdsOk(t) && t.nextUid >= s.table.nextUid
            && forall uid :: uid in t.rows ==> RowOk(s.store, uid, t.rows[uid])
  {
    var t := Next(col, s, e).table;
    ParseJoined([]);
    forall uid | uid in t.rows
      ensures RowOk(s.store, uid, t.rows[uid])
    {
      if uid in s.table.rows {
        assert RowOk(s.store, uid, s.table.rows[uid]);
      }
    }
  }

  lemma SelectKeepsCall(s: State, id: nat)
    requires Inv(s) && Enabled(s, Select(id))
    ensures CallOk(s, AfterSelect(s.table, s.calls[id]))
  {
    var uid := s.calls[id].uid;
    assert CallOk(s, s.calls[id]);
    if uid in s.table.rows {
      assert RowOk(s.store, uid, s.table.rows[uid]);
    }
  }

  lemma OtherKeepsInv(col: Collation, s: State, e: Event)
    requires Inv(s) && Enabled(s, e) && !e.Update? && !e.InsertGid?
    ensures Inv(Next(col, s, e))
  {
    var s' := Next(col, s, e);
    OtherKeepsRows(col, s, e);
    if e.Select? {
      SelectKeepsCall(s, e.id);
    }
    forall j | j in s'.calls
      ensures CallOk(s', s'.calls[j])
    {
      if j in s.calls {
        assert CallOk(s, s.calls[j]);
      }
    }
  }

  lemma StepKeepsInv(col: Collation, s: State, e: Event)
    requires Inv(s) && Enabled(s, e)
    ensures Inv(Next(col, s, e))
  {
    if e.Update? {
      UpdateKeepsInv(col, s, e.id, e.now);
    } else if e.InsertGid? {
      InsertKeepsInv(col, s, e.id, e.ok);
    } else {
      OtherKeepsInv(col, s, e);
    }
  }

  lemma {:induction false} RunKeepsInv(col: Collation, ss: seq<State>, es: seq<Event>, i: nat)
    requires Run(col, ss, es) && i <= |es|
    ensures Inv(ss[i])
  {
    if i > 0 {
      RunKeepsInv(col, ss, es, i - 1);
      StepKeepsInv(col, ss[i - 1], es[i - 1]);
    }
  }

  /** Under every interleaving each row counts exactly the ids it lists, lists no more than its limit, and
      lists nothing but 0 (a failed insert) and groups its own user created. */
  lemma GroupBookkeeping(col: Collation, ss: seq<State>, es: seq<Event>, i: nat, uid: int)
    requires Run(col, ss, es) && i <= |es| && uid in ss[i].table.rows
    ensures var row := ss[i].table.rows[uid];
            && row.groupNum == FieldCount(row.groups) == |ParseGids(row.groups)| <= row.groupNumMax
            && forall gid :: gid in ParseGids(row.groups) && gid != 0
                 ==> gid in ss[i].store.groups && ss[i].store.groups[gid].creator == uid
  {
    RunKeepsInv(col, ss, es, i);
    var row := ss[i].table.rows[uid];
    assert RowOk(ss[i].store, uid, row);
    JoinedFieldCount(ParseGids(row.groups));
  }

  /** The list fits its varchar(30) column while group ids have at most nine digits. */
  lemma GroupColumnFits(col: Collation, ss: seq<State>, es: seq<Event>, i: nat, uid: int)
    requires Run(col, ss, es) && i <= |es| && uid in ss[i].table.rows
    requires ss[i].store.nextGid <= Pow10(9)
    ensures |ss[i].table.rows[uid].groups| <= 29
  {
    RunKeepsInv(col, ss, es, i);
    var row := ss[i].table.rows[uid];
    assert RowOk(ss[i].store, uid, row);
    var gids := ParseGids(row.groups);
    assert forall k :: 0 <= k < |gids| ==> gids[k] in gids;
    JoinedLength(gids);
  }

  // ---- where a list comes from -----------------------------------------------------------------

  predicate HasSnap(c: Call) {
    c.HasRead? || c.HasInserted?
  }

  ghost predicate HasList(c: Call, uid: int, gids: seq<int>) {
    HasSnap(c) && c.uid == uid && gids == ParseGids(c.snap.groups)
  }

  /** The lists of uid in use: the one in its row and those its calls have read. */
  ghost predicate InUse(s: State, uid: int, gids: seq<int>) {
    || (uid in s.table.rows && gids == ParseGids(s.table.rows[uid].groups))
    || exists id :: id in s.calls && HasList(s.calls[id], uid, gids)
  }

  /** The new group of a call is in no list yet, and no other call has it. */
  ghost predicate NewGidOk(s: State, id: nat)
    requires id in s.calls
  {
    var c := s.calls[id];
    c.HasInserted? && c.gid != 0 ==>
      && (forall uid, gids :: InUse(s, uid, gids) ==> c.gid !in gids)
      && forall j :: j in s.calls && j != id && s.calls[j].HasInserted? ==> s.calls[j].gid != c.gid
  }

  /** A list that is no longer the one a call has read ends in something that call has not seen. */
  ghost predicate ReadOk(s: State, id: nat)
    requires id in s.calls
  {
    var c := s.calls[id];
    HasSnap(c) && c.uid in s.table.rows ==>
      var now, read := ParseGids(s.table.rows[c.uid].groups), ParseGids(c.snap.groups);
      now == read || (now != [] && (now[|now| - 1] == 0 || now[|now| - 1] !in read))
  }

  /** A group stands behind the same ids wherever it is listed. */
  ghost predicate Coherent(a: seq<int>, b: seq<int>) {
    forall i, j :: 0 <= i < |a| && 0 <= j < |b| && a[i] == b[j] != 0 ==> i == j && a[..i] == b[..j]
  }

  ghost predicate ListsInv(s: State) {
    && Inv(s)
    && (forall id :: id in s.calls ==> NewGidOk(s, id) && ReadOk(s, id))
    && forall uid, a, b :: InUse(s, uid, a) && InUse(s, uid, b) ==> Coherent(a, b)
  }

  lemma InUseOwned(s: State, uid: int, gids: seq<int>)
    requires Inv(s) && InUse(s, uid, gids)
    ensures forall gid :: gid in gids ==> Owned(s.store, uid, gid)
  {
    if uid in s.table.rows && gids == ParseGids(s.table.rows[uid].groups) {
      assert RowOk(s.store, uid, s.table.rows[uid]);
    } else {
      var id :| id in s.calls && HasList(s.calls[id], uid, gids);
      assert CallOk(s, s.calls[id]);
    }
  }

  /** The list an update writes. */
  ghost function Written(c: Call): seq<int>
    requires c.HasInserted?
  {
    ParseGids(c.snap.groups) + [c.gid]
  }

  lemma UpdateWrites(col: Collation, s: State, id: nat, now: int)
    requires Inv(s) && Enabled(s, Update(id, now))
    requires Matches(col, s.table, s.calls[id].uid, s.calls[id].password)
    ensures var c, t := s.calls[id], Next(col, s, Update(id, now)).table;
            c.uid in t.rows && ParseGids(t.rows[c.uid].groups) == Written(c)
  {
    var c := s.calls[id];
    assert CallOk(s, c);
    AppendKeepsList(s.store, c.uid, c.snap.groupNum, c.snap.groups, c.gid);
  }

  /** Only an update changes the list of a row, and a new row is of a user without calls. */
  lemma TextBefore(col: Collation, s: State, e: Event, uid: int)
    requires IdsOk(s.table) && Enabled(s, e) && uid in Next(col, s, e).table.rows
    ensures var text := Next(col, s, e).table.rows[uid].groups;
            || (uid in s.table.rows && text == s.table.rows[uid].groups)
            || (uid >= s.table.nextUid && text == "")
            || (e.Update? && s.calls[e.id].uid == uid && Matches(col, s.table, uid, s.calls[e.id].password))
  {
  }

  /** What a call has read stays what it was, unless the call reads just now. */
  lemma SnapBefore(col: Collation, s: State, e: Event, id: nat)
    requires Enabled(s, e) && id in Next(col, s, e).calls && HasSnap(Next(col, s, e).calls[id])
    ensures var c := Next(col, s, e).calls[id];
            id in s.calls && c.uid == s.calls[id].uid
            && if e.Select? && e.id == id then c.uid in s.table.rows && c.snap == SnapshotOf(s.table.rows[c.uid])
               else HasSnap(s.calls[id]) && c.snap == s.calls[id].snap
  {
  }

  /** Only an update brings a new list into use, apart from the empty one of a new row. */
  lemma InUseBefore(col: Collation, s: State, e: Event, uid: int, gids: seq<int>)
    requires Inv(s) && Enabled(s, e) && InUse(Next(col, s, e), uid, gids)
    ensures InUse(s, uid, gids) || gids == []
         || (e.Update? && uid == s.calls[e.id].uid && gids == Written(s.calls[e.id]))
  {
    var s' := Next(col, s, e);
    if uid in s'.table.rows && gids == ParseGids(s'.table.rows[uid].groups) {
      TextBefore(col, s, e, uid);
      if e.Update? && s.calls[e.id].uid == uid && Matches(col, s.table, uid, s.calls[e.id].password) {
        UpdateWrites(col, s, e.id, e.now);
      }
    } else {
      var id :| id in s'.calls && HasList(s'.calls[id], uid, gids);
      SnapBefore(col, s, e, id);
      assert !(e.Select? && id == e.id) ==> HasList(s.calls[id], uid, gids);
    }
  }

  /** The id a call has inserted is brand new, 0, or one it had before. */
  lemma GidBefore(col: Collation, s: State, e: Event, id: nat)
    requires Enabled(s, e) && id in Next(col, s, e).calls && Next(col, s, e).calls[id].HasInserted?
    ensures var gid := Next(col, s, e).calls[id].gid;
            if e.InsertGid? && e.id == id then gid in {0, s.store.nextGid}
            else id in s.calls && s.calls[id].HasInserted? && gid == s.calls[id].gid
  {
  }

  lemma NewGidUnlisted(col: Collation, s: State, e: Event, id: nat, uid: int, gids: seq<int>)
    requires ListsInv(s) && Enabled(s, e) && id in Next(col, s, e).calls && InUse(Next(col, s, e), uid, gids)
    requires Next(col, s, e).calls[id].HasInserted? && Next(col, s, e).calls[id].gid != 0
    ensures Next(col, s, e).calls[id].gid !in gids
  {
    GidBefore(col, s, e, id);
    InUseBefore(col, s, e, uid, gids);
    assert id in s.calls ==> NewGidOk(s, id);
    if InUse(s, uid, gids) {
      InUseOwned(s, uid, gids);
    } else if gids != [] {
      assert HasList(s.calls[e.id], uid, ParseGids(s.calls[e.id].snap.groups));
      assert InUse(s, uid, ParseGids(s.calls[e.id].snap.groups));
    }
  }

  lemma NewGidKept(col: Collation, s: State, e: Event, id: nat)
    requires ListsInv(s) && Enabled(s, e) && id in Next(col, s, e).calls
    ensures NewGidOk(Next(col, s, e), id)
  {
    var s' := Next(col, s, e);
    var c := s'.calls[id];
    if c.HasInserted? && c.gid != 0 {
      GidBefore(col, s, e, id);
      forall uid, gids | InUse(s', uid, gids)
        ensures c.gid !in gids
      {
        NewGidUnlisted(col, s, e, id, uid, gids);
      }
      forall j | j in s'.calls && j != id && s'.calls[j].HasInserted?
        ensures s'.calls[j].gid != c.gid
      {
        GidBefore(col, s, e, j);
        assert j in s.calls ==> CallOk(s, s.calls[j]);
        assert id in s.calls ==> CallOk(s, s.calls[id]) && NewGidOk(s, id);
      }
    }
  }

  lemma ReadKept(col: Collation, s: State, e: Event, id: nat)
    requires ListsInv(s) && Enabled(s, e) && id in Next(col, s, e).calls
    ensures ReadOk(Next(col, s, e), id)
  {
    var s' := Next(col, s, e);
    var c := s'.calls[id];
    if HasSnap(c) && c.uid in s'.table.rows {
      SnapBefore(col, s, e, id);
      TextBefore(col, s, e, c.uid);
      assert CallOk(s, s.calls[id]);
      if e.Update? && s.calls[e.id].uid == c.uid && Matches(col, s.table, c.uid, s.calls[e.id].password) {
        UpdateWrites(col, s, e.id, e.now);
        WrittenUnread(s, e.id, id);
      } else if !(e.Select? && e.id == id) {
        assert ReadOk(s, id);
      }
    }
  }

  /** What an update writes ends in 0 or in an id that no other call has read. */
  lemma WrittenUnread(s: State, a: nat, id: nat)
    requires ListsInv(s) && a in s.calls && s.calls[a].HasInserted? && id in s.calls && HasSnap(s.calls[id])
    ensures s.calls[a].gid == 0 || s.calls[a].gid !in ParseGids(s.calls[id].snap.groups)
  {
    var c := s.calls[id];
    assert NewGidOk(s, a) && HasList(c, c.uid, ParseGids(c.snap.groups));
    assert InUse(s, c.uid, ParseGids(c.snap.groups));
  }

  lemma CoherentAppend(a: seq<int>, gid: int, b: seq<int>)
    requires Coherent(a, b) && (gid == 0 || gid !in b)
    ensures Coherent(a + [gid], b) && Coherent(b, a + [gid])
  {
    forall i, j | 0 <= i < |a + [gid]| && 0 <= j < |b| && (a + [gid])[i] == b[j] != 0
      ensures i == j && (a + [gid])[..i] == b[..j]
    {
      assert i < |a| && a[i] == b[j];
      assert (a + [gid])[..i] == a[..i];
    }
  }

  lemma CoherentWithItself(a: seq<int>, gid: int)
    requires Coherent(a, a) && (gid == 0 || gid !in a)
    ensures Coherent(a + [gid], a + [gid])
  {
    var b := a + [gid];
    forall i, j | 0 <= i < |b| && 0 <= j < |b| && b[i] == b[j] != 0
      ensures i == j
    {
      assert i < |a| && j < |a| ==> a[i] == a[j] != 0;
    }
  }

  lemma WrittenCoherent(s: State, id: nat, b: seq<int>)
    requires ListsInv(s) && id in s.calls && s.calls[id].HasInserted?
    requires InUse(s, s.calls[id].uid, b)
    ensures Coherent(Written(s.calls[id]), b) && Coherent(b, Written(s.calls[id]))
    ensures Coherent(Written(s.calls[id]), Written(s.calls[id]))
  {
    var c := s.calls[id];
    var a := ParseGids(c.snap.groups);
    assert HasList(c, c.uid, a) && InUse(s, c.uid, a) && NewGidOk(s, id);
    CoherentAppend(a, c.gid, b);
    CoherentWithItself(a, c.gid);
  }

  lemma CoherenceKept(col: Collation, s: State, e: Event, uid: int, a: seq<int>, b: seq<int>)
    requires ListsInv(s) && Enabled(s, e) && InUse(Next(col, s, e), uid, a) && InUse(Next(col, s, e), uid, b)
    ensures Coherent(a, b)
  {
    InUseBefore(col, s, e, uid, a);
    InUseBefore(col, s, e, uid, b);
    if a != [] && b != [] && !(InUse(s, uid, a) && InUse(s, uid, b)) {
      var read := ParseGids(s.calls[e.id].snap.groups);
      assert HasList(s.calls[e.id], uid, read);
      WrittenCoherent(s, e.id, if InUse(s, uid, a) then a else if InUse(s, uid, b) then b else read);
    }
  }

  lemma StepKeepsLists(col: Collation, s: State, e: Event)
    requires ListsInv(s) && Enabled(s, e)
    ensures ListsInv(Next(col, s, e))
  {
    var s' := Next(col, s, e);
    StepKeepsInv(col, s, e);
    forall id | id in s'.calls
      ensures NewGidOk(s', id) && ReadOk(s', id)
    {
      NewGidKept(col, s, e, id);
      ReadKept(col, s, e, id);
    }
    forall uid, a, b | InUse(s', uid, a) && InUse(s', uid, b)
      ensures Coherent(a, b)
    {
      CoherenceKept(col, s, e, uid, a, b);
    }
  }

  lemma {:induction false} RunKeepsLists(col: Collation, ss: seq<State>, es: seq<Event>, i: nat)
    requires Run(col, ss, es) && i <= |es|
    ensures ListsInv(ss[i])
  {
    if i > 0 {
      RunKeepsLists(col, ss, es, i - 1);
      StepKeepsLists(col, ss[i - 1], es[i - 1]);
    }
  }

  // ---- lost updates ----------------------------------------------------------------------------

  /** The last group of a list, passing over the zeros of failed inserts; 0 when it lists no group. */
  function LastGroup(gids: seq<int>): (g: int)
    ensures g != 0 ==> g in gids
  {
    if gids == [] then 0
    else if gids[|gids| - 1] != 0 then gids[|gids| - 1]
    else LastGroup(gids[..|gids| - 1])
  }

  /** Every group of a is in b. */
  ghost predicate GroupsIn(a: seq<int>, b: seq<int>) {
    forall gid :: gid in a && gid != 0 ==> gid in b
  }

  /** Of two coherent lists, one has all groups of the other as soon as it has the last. */
  lemma {:induction false} LastBringsAll(a: seq<int>, b: seq<int>)
    requires Coherent(a, b)
    ensures GroupsIn(a, b) <==> LastGroup(a) == 0 || LastGroup(a) in b
  {
    if a != [] {
      var n := |a| - 1;
      if a[n] == 0 {
        assert forall i :: 0 <= i < n ==> a[..n][..i] == a[..i];
        LastBringsAll(a[..n], b);
        assert a == a[..n] + [0];
      } else if a[n] in b {
        var j :| 0 <= j < |b| && b[j] == a[n];
        assert a == b[..j] + [a[n]];
      }
    }
  }

  /** What the update of a call that opens its row does to the list there, in every reachable state. It
      appends its id to that list exactly when the list is still the one the call has read. It keeps every
      group listed exactly when the call has seen the last one; and when no failed insert is listed, that
      again means exactly that the list is still the one the call has read. */
  lemma UpdateKeepsGroupsExactly(col: Collation, ss: seq<State>, es: seq<Event>, i: nat, id: nat, now: int)
    requires Run(col, ss, es) && i <= |es| && Enabled(ss[i], Update(id, now))
    requires Matches(col, ss[i].table, ss[i].calls[id].uid, ss[i].calls[id].password)
    ensures var s, c := ss[i], ss[i].calls[id];
            var text, text' := s.table.rows[c.uid].groups, Next(col, s, Update(id, now)).table.rows[c.uid].groups;
            var before, after, read := ParseGids(text), ParseGids(text'), ParseGids(c.snap.groups);
            && (after == before + [c.gid] <==> text == c.snap.groups)
            && (GroupsIn(before, after) <==> LastGroup(before) == 0 || LastGroup(before) in read)
            && (0 !in before ==> (GroupsIn(before, after) <==> text == c.snap.groups))
  {
    var s, c := ss[i], ss[i].calls[id];
    RunKeepsLists(col, ss, es, i);
    UpdateWrites(col, s, id, now);
    var before, read := ParseGids(s.table.rows[c.uid].groups), ParseGids(c.snap.groups);
    assert RowOk(s.store, c.uid, s.table.rows[c.uid]) && CallOk(s, c);
    assert before == read <==> s.table.rows[c.uid].groups == c.snap.groups;
    if read + [c.gid] == before + [c.gid] {
      assert read == (read + [c.gid])[..|read|] && before == (before + [c.gid])[..|before|];
    }
    assert InUse(s, c.uid, before) && HasList(c, c.uid, read) && InUse(s, c.uid, read);
    assert NewGidOk(s, id) && ReadOk(s, id);
    LastBringsAll(before, read);
    assert GroupsIn(before, Written(c)) <==> GroupsIn(before, read);
  }

  /** Call b has not seen group gid and never will. */
  ghost predicate Misses(s: State, b: nat, uid: int, gid: int) {
    && gid in s.store.groups && gid != 0
    && b in s.calls
    && (HasSnap(s.calls[b]) ==> s.calls[b].uid == uid && gid !in ParseGids(s.calls[b].snap.groups))
    && (s.calls[b].HasInserted? ==> s.calls[b].gid != gid)
    && !s.calls[b].Started?
  }

  lemma MissesStep(col: Collation, s: State, e: Event, b: nat, uid: int, gid: int)
    requires GroupIdsOk(s.store) && Enabled(s, e) && Misses(s, b, uid, gid)
    ensures Misses(Next(col, s, e), b, uid, gid)
  {
    var s' := Next(col, s, e);
    assert gid in s'.store.groups;
    if e.InsertGid? && e.id == b {
      assert s'.calls[b].gid in {0, s.store.nextGid};
    } else if !(e.Update? && e.id == b) {
      assert s'.calls[b] == s.calls[b];
    }
  }

  lemma {:induction false} MissesLasts(col: Collation, ss: seq<State>, es: seq<Event>, j: nat, k: nat,
                                       b: nat, uid: int, gid: int)
    requires Run(col, ss, es) && j <= k <= |es| && Misses(ss[j], b, uid, gid)
    ensures Misses(ss[k], b, uid, gid)
    decreases k
  {
    if j < k {
      MissesLasts(col, ss, es, j, k - 1, b, uid, gid);
      RunKeepsInv(col, ss, es, k - 1);
      MissesStep(col, ss[k - 1], es[k - 1], b, uid, gid);
    }
  }

  /** Two overlapping calls of one user always lose a group, whatever happens between their steps: if b has
      read the list before a writes it, the group a has created is not in the list that b writes. */
  lemma OverlapLosesGroup(col: Collation, ss: seq<State>, es: seq<Event>, j: nat, k: nat)
    requires Run(col, ss, es) && j < k < |es| && es[j].Update? && es[k].Update? && es[j].id != es[k].id
    requires var a, b := es[j].id, es[k].id;
             && b in ss[j].calls && HasSnap(ss[j].calls[b]) && ss[j].calls[b].uid == ss[j].calls[a].uid
             && ss[j].calls[a].gid != 0
             && Matches(col, ss[k].table, ss[k].calls[b].uid, ss[k].calls[b].password)
    ensures var uid, gid, s' := ss[j].calls[es[j].id].uid, ss[j].calls[es[j].id].gid, ss[k + 1];
            && gid in s'.store.groups && s'.store.groups[gid].creator == uid
            && uid in s'.table.rows && gid !in ParseGids(s'.table.rows[uid].groups)
  {
    var a, b := es[j].id, es[k].id;
    var uid, gid, read := ss[j].calls[a].uid, ss[j].calls[a].gid, ParseGids(ss[j].calls[b].snap.groups);
    RunKeepsLists(col, ss, es, j);
    assert CallOk(ss[j], ss[j].calls[a]) && NewGidOk(ss[j], a);
    assert HasList(ss[j].calls[b], uid, read) && InUse(ss[j], uid, read);
    MissesLasts(col, ss, es, j, k, b, uid, gid);
    OwnerLasts(col, ss, es, j, k + 1, uid, gid);
    RunKeepsInv(col, ss, es, k);
    UpdateWrites(col, ss[k], b, es[k].now);
  }

  lemma {:induction false} OwnerLasts(col: Collation, ss: seq<State>, es: seq<Event>, j: nat, k: nat,
                                      uid: int, gid: int)
    requires Run(col, ss, es) && j <= k <= |es| && gid != 0 && Owned(ss[j].store, uid, gid)
    ensures Owned(ss[k].store, uid, gid)
    decreases k
  {
    if j < k {
      OwnerLasts(col, ss, es, j, k - 1, uid, gid);
      RunKeepsInv(col, ss, es, k - 1);
    }
  }

  lemma RunExtended(col: Collation, ss: seq<State>, es: seq<Event>, e: Event)
    requires Run(col, ss, es) && Enabled(ss[|es|], e)
    ensures Run(col, ss + [Next(col, ss[|es|], e)], es + [e])
  {
    var rs, fs := ss + [Next(col, ss[|es|], e)], es + [e];
    forall i | 0 <= i < |fs|
      ensures Enabled(rs[i], fs[i]) && rs[i + 1] == Next(col, rs[i], fs[i])
    {
      if i < |es| {
        assert rs[i] == ss[i] && rs[i + 1] == ss[i + 1] && fs[i] == es[i];
      }
    }
  }

  /** A run in which two calls of one user have both read and nothing else has happened. */
  lemma OverlapReachable(col: Collation) returns (ss: seq<State>, es: seq<Event>)
    ensures Run(col, ss, es) && |es| == 5
    ensures var t := Insert(Table(map[], 1), "ann", "pw", 0, true).table;
            var snap := SnapshotOf(t.rows[1]);
            ss[5] == State(t, GroupTable(map[], 1),
                           map[0 := HasRead(1, "pw", "g", snap), 1 := HasRead(1, "pw", "h", snap)])
  {
    es := [OtherInsert("ann", "pw", 0, true), Start(0, 1, "pw", "g"), Start(1, 1, "pw", "h"), Select(0), Select(1)];
    var s0 := State(Table(map[], 1), GroupTable(map[], 1), map[]);
    var s1 := Next(col, s0, es[0]);
    var s2 := Next(col, s1, es[1]);
    var s3 := Next(col, s2, es[2]);
    var s4 := Next(col, s3, es[3]);
    ss := [s0, s1, s2, s3, s4, Next(col, s4, es[4])];
  }

  /** Such a run goes on to a row that does not list group 1 of its user. */
  lemma LossReachable(col: Collation) returns (ss: seq<State>, es: seq<Event>)
    ensures Run(col, ss, es)
    ensures var s := ss[|es|];
            && 1 in s.store.groups && s.store.groups[1].creator == 1
            && 1 in s.table.rows && 1 !in ParseGids(s.table.rows[1].groups)
  {
    ss, es := OverlapReachable(col);
    var s5 := ss[5];
    RunExtended(col, ss, es, InsertGid(0, true));
    var s6 := Next(col, s5, InsertGid(0, true));
    RunExtended(col, ss + [s6], es + [InsertGid(0, true)], InsertGid(1, true));
    var s7 := Next(col, s6, InsertGid(1, true));
    ss, es := ss + [s6, s7], es + [InsertGid(0, true), InsertGid(1, true)];
    RunExtended(col, ss, es, Update(0, 0));
    var s8 := Next(col, s7, Update(0, 0));
    RunExtended(col, ss + [s8], es + [Update(0, 0)], Update(1, 0));
    ss, es := ss + [s8, Next(col, s8, Update(1, 0))], es + [Update(0, 0), Update(1, 0)];
    assert ss[7] == s7 && ss[8] == s8 && es[7] == Update(0, 0) && es[8] == Update(1, 0);
    assert s7.calls[0].gid == 1 && Matches(col, s8.table, 1, "pw");
    OverlapLosesGroup(col, ss, es, 7, 8);
  }

  // ---- what a call answers ---------------------------------------------------------------------

  /** An id other than 0 is that of a group with this name and creator. */
  ghost predicate Made(g: GroupTable, uid: int, gname: string, gid: int) {
    gid != 0 ==> gid in g.groups && g.groups[gid] == Group(gname, uid)
  }

  ghost predicate CallMade(s: State, id: nat)
    requires id in s.calls
  {
    var c := s.calls[id];
    c.HasInserted? || c.Finished? ==> Made(s.store, c.uid, c.gname, c.gid)
  }

  lemma CallMadeKept(col: Collation, s: State, e: Event, id: nat)
    requires GroupIdsOk(s.store) && Enabled(s, e) && id in Next(col, s, e).calls
    requires forall j :: j in s.calls ==> CallMade(s, j)
    ensures CallMade(Next(col, s, e), id)
  {
    assert id in s.calls ==> CallMade(s, id);
  }

  lemma {:induction false} AllMade(col: Collation, ss: seq<State>, es: seq<Event>, i: nat)
    requires Run(col, ss, es) && i <= |es|
    ensures forall id :: id in ss[i].calls ==> CallMade(ss[i], id)
  {
    if i > 0 {
      AllMade(col, ss, es, i - 1);
      RunKeepsInv(col, ss, es, i - 1);
      forall id | id in ss[i].calls
        ensures CallMade(ss[i], id)
      {
        CallMadeKept(col, ss[i - 1], es[i - 1], id);
      }
    }
  }

  /** Under every interleaving a call that answers an id other than 0 has created the group with that id, under
      the name it was given and for its own user. */
  lemma AnswerNamesOwnGroup(col: Collation, ss: seq<State>, es: seq<Event>, i: nat, id: nat)
    requires Run(col, ss, es) && i <= |es| && id in ss[i].calls && ss[i].calls[id].Finished?
    requires ss[i].calls[id].gid != 0
    ensures var c, g := ss[i].calls[id], ss[i].store.groups;
            c.gid in g && g[c.gid] == Group(c.gname, c.uid)
  {
    AllMade(col, ss, es, i);
    assert CallMade(ss[i], id);
  }

  /** The last step of a call answers the inserted id exactly if its credentials still open the row, and then that
      id is the last of the list and the rest of the list is the one the call has read; otherwise it answers 0
      and changes nothing. */
  lemma UpdateAnswersExactly(col: Collation, ss: seq<State>, es: seq<Event>, i: nat, id: nat, now: int)
    requires Run(col, ss, es) && i <= |es| && Enabled(ss[i], Update(id, now))
    ensures var s, c, s' := ss[i], ss[i].calls[id], Next(col, ss[i], Update(id, now));
            var opens := Matches(col, s.table, c.uid, c.password);
            && s'.calls == s.calls[id := Finished(c.uid, c.gname, if opens then c.gid else 0)]
            && s'.store == s.store
            && (!opens ==> s'.table == s.table)
            && (opens ==> c.uid in s'.table.rows
                          && ParseGids(s'.table.rows[c.uid].groups) == ParseGids(c.snap.groups) + [c.gid])
  {
    var s, c := ss[i], ss[i].calls[id];
    RunKeepsLists(col, ss, es, i);
    if Matches(col, s.table, c.uid, c.password) {
      UpdateWrites(col, s, id, now);
      var before := ParseGids(s.table.rows[c.uid].groups);
      assert InUse(s, c.uid, before) && NewGidOk(s, id);
      assert Written(c)[|ParseGids(c.snap.groups)|] == c.gid;
    }
  }

  // ---- calls of one user that do not overlap ---------------------------------------------------

  /** A call starts with credentials that open the row, and only when its user has no call under way. */
  ghost predicate SerialStart(col: Collation, s: State, e: Event) {
    e.Start? ==>
      && Matches(col, s.table, e.uid, e.password)
      && forall id :: id in s.calls && Active(s.calls[id]) ==> s.calls[id].uid != e.uid
  }

  ghost predicate SerialRun(col: Collation, ss: seq<State>, es: seq<Event>) {
    Run(col, ss, es) && forall i :: 0 <= i < |es| ==> SerialStart(col, ss[i], es[i])
  }

  /** The id of uid's call between its insert and its update. */
  ghost predicate Unlisted(s: State, uid: int, gid: int) {
    exists id :: id in s.calls && s.calls[id].HasInserted? && s.calls[id].uid == uid && s.calls[id].gid == gid
  }

  ghost predicate Listed(s: State, uid: int, gid: int)
    requires uid in s.table.rows
  {
    gid in ParseGids(s.table.rows[uid].groups)
  }

  ghost predicate SerialCallOk(col: Collation, s: State, id: nat)
    requires id in s.calls
  {
    var c := s.calls[id];
    Active(c) ==>
      && (c.uid in s.table.rows ==>
            && Matches(col, s.table, c.uid, c.password)
            && (!c.Started? ==> c.snap == SnapshotOf(s.table.rows[c.uid])))
      && forall j :: j in s.calls && j != id && Active(s.calls[j]) ==> s.calls[j].uid != c.uid
  }

  ghost predicate SerialInv(col: Collation, s: State) {
    && Inv(s)
    && (forall id :: id in s.calls ==> SerialCallOk(col, s, id))
    && (forall gid :: gid in s.store.groups ==> s.store.groups[gid].creator < s.table.nextUid)
    && (forall gid :: gid in s.store.groups && s.store.groups[gid].creator in s.table.rows
          ==> Listed(s, s.store.groups[gid].creator, gid) || Unlisted(s, s.store.groups[gid].creator, gid))
  }

  /** The part of SerialCallOk about the call's own row. */
  ghost predicate OpensRow(col: Collation, t: Table, c: Call)
    requires Active(c)
  {
    c.uid in t.rows ==>
      Matches(col, t, c.uid, c.password) && (!c.Started? ==> c.snap == SnapshotOf(t.rows[c.uid]))
  }

  /** Statements other than an update of the same user keep a row's password and group columns. */
  lemma OpensRowKept(col: Collation, s: State, e: Event, c: Call)
    requires SerialInv(col, s) && Enabled(s, e) && Active(c) && 1 <= c.uid < s.table.nextUid
    requires OpensRow(col, s.table, c)
    requires e.Update? ==> s.calls[e.id].uid != c.uid
    ensures OpensRow(col, Next(col, s, e).table, c)
  {
  }

  /** Every step moves at most one call and never changes a call's user. */
  lemma CallsMove(col: Collation, s: State, e: Event, id: nat)
    requires Enabled(s, e) && id in Next(col, s, e).calls && Active(Next(col, s, e).calls[id])
    ensures var c' := Next(col, s, e).calls[id];
            if id !in s.calls then e.Start? && e.id == id && c' == Started(e.uid, e.password, e.gname)
            else Active(s.calls[id]) && s.calls[id].uid == c'.uid && s.calls[id].password == c'.password
  {
  }

  lemma SerialRowsKept(col: Collation, s: State, e: Event, id: nat)
    requires SerialInv(col, s) && Enabled(s, e) && SerialStart(col, s, e)
    requires id in Next(col, s, e).calls && Active(Next(col, s, e).calls[id])
    ensures OpensRow(col, Next(col, s, e).table, Next(col, s, e).calls[id])
  {
    CallsMove(col, s, e, id);
    if id in s.calls {
      assert SerialCallOk(col, s, id) && CallOk(s, s.calls[id]);
      if e.Update? {
        assert SerialCallOk(col, s, e.id);
      }
      OpensRowKept(col, s, e, s.calls[id]);
    }
  }

  lemma SerialCallsKept(col: Collation, s: State, e: Event)
    requires SerialInv(col, s) && Enabled(s, e) && SerialStart(col, s, e)
    ensures var s' := Next(col, s, e); forall id :: id in s'.calls ==> SerialCallOk(col, s', id)
  {
    var s' := Next(col, s, e);
    forall id | id in s'.calls && Active(s'.calls[id])
      ensures OpensRow(col, s'.table, s'.calls[id])
    {
      SerialRowsKept(col, s, e, id);
    }
    forall id, j | id in s'.calls && j in s'.calls && id != j && Active(s'.calls[id]) && Active(s'.calls[j])
      ensures s'.calls[id].uid != s'.calls[j].uid
    {
      CallsMove(col, s, e, id);
      CallsMove(col, s, e, j);
      assert id in s.calls ==> SerialCallOk(col, s, id);
    }
  }

  /** Steps other than updates and inserts leave the list of a surviving row alone. */
  lemma ListedKept(col: Collation, s: State, e: Event, uid: int)
    requires IdsOk(s.table) && Enabled(s, e) && !e.Update? && !e.InsertGid?
    requires uid in Next(col, s, e).table.rows && uid < s.table.nextUid
    ensures uid in s.table.rows && Next(col, s, e).table.rows[uid].groups == s.table.rows[uid].groups
  {
  }

  lemma UnlistedKept(col: Collation, s: State, e: Event, uid: int, gid: int)
    requires Enabled(s, e) && !e.Update? && !e.InsertGid? && Unlisted(s, uid, gid)
    ensures Unlisted(Next(col, s, e), uid, gid)
  {
    var id :| id in s.calls && s.calls[id].HasInserted? && s.calls[id].uid == uid && s.calls[id].gid == gid;
    assert id in Next(col, s, e).calls && Next(col, s, e).calls[id] == s.calls[id];
  }

  /** A group that was accounted for stays so over a step that is not an update or an insert. */
  lemma AccountedKept(col: Collation, s: State, e: Event, gid: int)
    requires SerialInv(col, s) && Enabled(s, e) && !e.Update? && !e.InsertGid?
    requires gid in s.store.groups && s.store.groups[gid].creator in Next(col, s, e).table.rows
    ensures var uid := s.store.groups[gid].creator;
            Listed(Next(col, s, e), uid, gid) || Unlisted(Next(col, s, e), uid, gid)
  {
    var uid := s.store.groups[gid].creator;
    ListedKept(col, s, e, uid);
    if Unlisted(s, uid, gid) {
      UnlistedKept(col, s, e, uid, gid);
    }
  }

  lemma InsertAccounted(col: Collation, s: State, e: Event, gid: int)
    requires SerialInv(col, s) && Enabled(s, e) && e.InsertGid?
    requires gid in Next(col, s, e).store.groups && Next(col, s, e).store.groups[gid].creator in s.table.rows
    ensures var s' := Next(col, s, e);
            Listed(s', s'.store.groups[gid].creator, gid) || Unlisted(s', s'.store.groups[gid].creator, gid)
  {
    var s' := Next(col, s, e);
    var uid := s'.store.groups[gid].creator;
    if gid !in s.store.groups {
      assert s'.calls[e.id].HasInserted? && s'.calls[e.id].uid == uid && s'.calls[e.id].gid == gid;
    } else if Unlisted(s, uid, gid) {
      var id :| id in s.calls && s.calls[id].HasInserted? && s.calls[id].uid == uid && s.calls[id].gid == gid;
      assert s'.calls[id] == s.calls[id];
    }
  }

  lemma UpdateAccounted(col: Collation, s: State, e: Event, gid: int)
    requires SerialInv(col, s) && Enabled(s, e) && e.Update?
    requires gid in s.store.groups && s.store.groups[gid].creator in s.table.rows
    ensures var uid := s.store.groups[gid].creator;
            Listed(Next(col, s, e), uid, gid) || Unlisted(Next(col, s, e), uid, gid)
  {
    var uid, s', c := s.store.groups[gid].creator, Next(col, s, e), s.calls[e.id];
    assert SerialCallOk(col, s, e.id) && CallOk(s, c);
    if c.uid == uid {
      AppendKeepsList(s.store, c.uid, c.snap.groupNum, c.snap.groups, c.gid);
      if Unlisted(s, uid, gid) {
        var id :| id in s.calls && s.calls[id].HasInserted? && s.calls[id].uid == uid && s.calls[id].gid == gid;
        assert id == e.id;
      }
    } else if Unlisted(s, uid, gid) {
      var id :| id in s.calls && s.calls[id].HasInserted? && s.calls[id].uid == uid && s.calls[id].gid == gid;
      assert s'.calls[id] == s.calls[id];
    }
  }

  lemma SerialStepKeepsInv(col: Collation, s: State, e: Event)
    requires SerialInv(col, s) && Enabled(s, e) && SerialStart(col, s, e)
    ensures SerialInv(col, Next(col, s, e))
  {
    var s' := Next(col, s, e);
    StepKeepsInv(col, s, e);
    SerialCallsKept(col, s, e);
    if e.InsertGid? {
      assert CallOk(s, s.calls[e.id]);
    }
    forall gid | gid in s'.store.groups && s'.store.groups[gid].creator in s'.table.rows
      ensures Listed(s', s'.store.groups[gid].creator, gid) || Unlisted(s', s'.store.groups[gid].creator, gid)
    {
      if e.InsertGid? {
        InsertAccounted(col, s, e, gid);
      } else if e.Update? {
        UpdateAccounted(col, s, e, gid);
      } else {
        AccountedKept(col, s, e, gid);
      }
    }
  }

  lemma {:induction false} SerialRunKeepsInv(col: Collation, ss: seq<State>, es: seq<Event>, i: nat)
    requires SerialRun(col, ss, es) && i <= |es|
    ensures SerialInv(col, ss[i])
  {
    if i > 0 {
      SerialRunKeepsInv(col, ss, es, i - 1);
      SerialStepKeepsInv(col, ss[i - 1], es[i - 1]);
    }
  }

  /** When no two calls of one user overlap, nothing is lost: whenever a user with a row has no call under
      way, the groups its row lists (apart from 0) are exactly the groups it created. */
  lemma NonOverlappingCallsLoseNothing(col: Collation, ss: seq<State>, es: seq<Event>, i: nat, uid: int, gid: int)
    requires SerialRun(col, ss, es) && i <= |es| && uid in ss[i].table.rows
    requires forall id :: id in ss[i].calls && Active(ss[i].calls[id]) ==> ss[i].calls[id].uid != uid
    requires gid != 0
    ensures gid in ParseGids(ss[i].table.rows[uid].groups)
       <==> gid in ss[i].store.groups && ss[i].store.groups[gid].creator == uid
  {
    SerialRunKeepsInv(col, ss, es, i);
    assert RowOk(ss[i].store, uid, ss[i].table.rows[uid]);
  }
}
