/** The user and user_group tables. Every SQL statement of the work servers is one atomic operation
    on them; an update reports success when it changed at least one row. */
module UserTables {
  import opened CText

  datatype Row = Row(
    uname: string, password: string,
    online: int, addr: string,
    groupNum: int, groupNumMax: int, groups: string,
    time: int)

  datatype Table = Table(rows: map<int, Row>, nextUid: int)

  /** How SQL compares two strings: any equivalence relation is equality of some key. */
  datatype Collation = Collation(key: string -> string) {
    predicate Same(a: string, b: string) {
      key(a) == key(b)
    }
  }

  datatype Changed = Changed(table: Table, ok: bool)
  datatype Inserted = Inserted(table: Table, uid: int)

  predicate Matches(col: Collation, t: Table, uid: int, password: string) {
    uid in t.rows && col.Same(t.rows[uid].password, password)
  }

  /** Replaces the row of uid; no row counts as affected when the new row equals the old one. */
  function Replace(t: Table, uid: int, row: Row): Changed
    requires uid in t.rows
  {
    Changed(t.(rows := t.rows[uid := row]), row != t.rows[uid])
  }

  function UpdateOnlineAndAddr(col: Collation, t: Table, uid: int, online: int, password: string,
                               addr: string, now: int): Changed
  {
    if Matches(col, t, uid, password)
    then Replace(t, uid, t.rows[uid].(online := online, addr := addr, time := now))
    else Changed(t, false)
  }

  function UpdateGroups(col: Collation, t: Table, uid: int, password: string,
                        groupNum: int, groups: string, now: int): Changed
  {
    if Matches(col, t, uid, password)
    then Replace(t, uid, t.rows[uid].(groupNum := groupNum, groups := groups, time := now))
    else Changed(t, false)
  }

  function DeleteWhereUidPassword(col: Collation, t: Table, uid: int, password: string): Changed {
    if Matches(col, t, uid, password) then Changed(t.(rows := t.rows - {uid}), true) else Changed(t, false)
  }

  /** The schema's defaults, with the next auto-increment id; 0 when the statement fails. */
  function Insert(t: Table, uname: string, password: string, now: int, ok: bool): Inserted {
    if ok
    then Inserted(Table(t.rows[t.nextUid := Row(uname, password, 0, "", 0, 3, "", now)], t.nextUid + 1), t.nextUid)
    else Inserted(t, 0)
  }

  function SearchWhere(t: Table, uid: int): Option<Row> {
    if uid in t.rows then Some(t.rows[uid]) else None
  }

  // ---- the order of a listing ------------------------------------------------------------------

  datatype Entry = Entry(uid: int, uname: string, online: int)

  /** The rows with a user id below limit, in primary-key order. */
  function Listing(t: Table, limit: int): (es: seq<Entry>)
    ensures forall e :: e in es ==> 1 <= e.uid < limit && e.uid in t.rows
                                    && e == Entry(e.uid, t.rows[e.uid].uname, t.rows[e.uid].online)
    decreases limit
  {
    if limit <= 1 then []
    else
      var front := Listing(t, limit - 1);
      var uid := limit - 1;
      if uid in t.rows then front + [Entry(uid, t.rows[uid].uname, t.rows[uid].online)] else front
  }

  /** A listing shows each row once, in increasing order of the user id. */
  lemma {:induction false} ListingComplete(t: Table, limit: int)
    ensures forall i, j :: 0 <= i < j < |Listing(t, limit)| ==> Listing(t, limit)[i].uid < Listing(t, limit)[j].uid
    ensures forall uid :: 1 <= uid < limit && uid in t.rows
              ==> Entry(uid, t.rows[uid].uname, t.rows[uid].online) in Listing(t, limit)
    decreases limit
  {
    if limit > 1 {
      ListingComplete(t, limit - 1);
    }
  }

  // ---- what every operation keeps --------------------------------------------------------------

  /** Allocated ids are 1 .. nextUid - 1. */
  predicate IdsOk(t: Table) {
    t.nextUid >= 1 && forall uid :: uid in t.rows ==> 1 <= uid < t.nextUid
  }

  predicate RowOnlineOk(row: Row) {
    row.online in {0, 1} && (row.online == 1 <==> row.addr != "")
  }

  /** online is a flag and says whether an address is recorded. */
  predicate OnlineOk(t: Table) {
    forall uid :: uid in t.rows ==> RowOnlineOk(t.rows[uid])
  }

  predicate TableOk(t: Table) {
    IdsOk(t) && OnlineOk(t)
  }

  /** The two ways the work server sets the pair: (1, address) and (0, ""). */
  lemma OperationsKeepTableOk(col: Collation, t: Table, uid: int, online: int, addr: string, password: string,
                              uname: string, groupNum: int, groups: string, now: int, ok: bool)
    requires TableOk(t)
    requires online in {0, 1} && (online == 1 <==> addr != "")
    ensures TableOk(UpdateOnlineAndAddr(col, t, uid, online, password, addr, now).table)
    ensures TableOk(UpdateGroups(col, t, uid, password, groupNum, groups, now).table)
    ensures TableOk(DeleteWhereUidPassword(col, t, uid, password).table)
    ensures TableOk(Insert(t, uname, password, now, ok).table)
  {
  }

  // ---- the shared table ------------------------------------------------------------------------

  class UserTable {
    var rows: map<int, Row>
    var nextUid: int

    function Value(): Table
      reads this
    {
      Table(rows, nextUid)
    }

    constructor ()
      ensures Value() == Table(map[], 1)
    {
      rows, nextUid := map[], 1;
    }

    method ExecuteUpdate(col: Collation, uid: int, online: int, password: string, addr: string, now: int)
      returns (ok: bool)
      modifies this
      ensures Changed(Value(), ok) == UpdateOnlineAndAddr(col, old(Value()), uid, online, password, addr, now)
    {
      ok := false;
      if uid in rows && col.Same(rows[uid].password, password) {
        var row := rows[uid].(online := online, addr := addr, time := now);
        ok := row != rows[uid];
        rows := rows[uid := row];
      }
    }

    method ExecuteGroupUpdate(col: Collation, uid: int, password: string, groupNum: int, groups: string, now: int)
      returns (ok: bool)
      modifies this
      ensures Changed(Value(), ok) == UpdateGroups(col, old(Value()), uid, password, groupNum, groups, now)
    {
      ok := false;
      if uid in rows && col.Same(rows[uid].password, password) {
        var row := rows[uid].(groupNum := groupNum, groups := groups, time := now);
        ok := row != rows[uid];
        rows := rows[uid := row];
      }
    }

    method ExecuteDelete(col: Collation, uid: int, password: string) returns (ok: bool)
      modifies this
      ensures Changed(Value(), ok) == DeleteWhereUidPassword(col, old(Value()), uid, password)
    {
      ok := false;
      if uid in rows && col.Same(rows[uid].password, password) {
        rows := rows - {uid};
        ok := true;
      }
    }

    method ExecuteInsert(uname: string, password: string, now: int, succeeds: bool) returns (uid: int)
      modifies this
      ensures Inserted(Value(), uid) == Insert(old(Value()), uname, password, now, succeeds)
    {
      uid := 0;
      if succeeds {
        uid := nextUid;
        rows := rows[uid := Row(uname, password, 0, "", 0, 3, "", now)];
        nextUid := nextUid + 1;
      }
    }
  }
}
