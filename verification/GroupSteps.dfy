/** The three SQL statements of create_group and the text of a row's c_group column. */
module GroupSteps {
  import opened CText
  import opened UserTables

  // ---- the user_group table --------------------------------------------------------------------

  datatype Group = Group(gname: string, creator: int)
  datatype GroupTable = GroupTable(groups: map<int, Group>, nextGid: int)
  datatype InsertedGroup = InsertedGroup(table: GroupTable, gid: int)

  /** Auto-increment insert; 0 when the statement fails. */
  function InsertGroup(g: GroupTable, creator: int, gname: string, ok: bool): InsertedGroup {
    if ok
    then InsertedGroup(GroupTable(g.groups[g.nextGid := Group(gname, creator)], g.nextGid + 1), g.nextGid)
    else InsertedGroup(g, 0)
  }

  predicate GroupIdsOk(g: GroupTable) {
    g.nextGid >= 1 && forall gid :: gid in g.groups ==> 1 <= gid < g.nextGid
  }

  // ---- the c_group column ----------------------------------------------------------------------

  /** What create_group writes back: the old list with one more id. */
  function AppendGid(groups: string, gid: int): string {
    if groups == "" then Decimal(gid) else groups + ":" + Decimal(gid)
  }

  /** The number of colon separated fields; the empty text has none. */
  function FieldCount(groups: string): nat {
    if groups == "" then 0 else 1 + Colons(groups)
  }

  function Colons(s: string): nat {
    if s == "" then 0 else (if s[|s| - 1] == ':' then 1 else 0) + Colons(s[..|s| - 1])
  }

  lemma {:induction false} ColonsAppend(a: string, b: string)
    ensures Colons(a + b) == Colons(a) + Colons(b)
    decreases |b|
  {
    if b == "" {
      assert a + b == a;
    } else {
      ColonsAppend(a, b[..|b| - 1]);
      assert (a + b)[..|a + b| - 1] == a + b[..|b| - 1];
    }
  }

  lemma {:induction false} NoColons(s: string)
    requires ':' !in s
    ensures Colons(s) == 0
  {
    if s != "" {
      NoColons(s[..|s| - 1]);
    }
  }

  /** Writing one more id adds exactly one field, whatever text was there. */
  lemma AppendAddsOneField(groups: string, gid: int)
    ensures FieldCount(AppendGid(groups, gid)) == FieldCount(groups) + 1
  {
    DecimalPlain(gid);
    NoColons(Decimal(gid));
    if groups != "" {
      ColonsAppend(groups + ":", Decimal(gid));
      ColonsAppend(groups, ":");
      assert Colons(":") == 1 + Colons("");
    }
  }

  /** The column text for a list of ids. */
  function JoinGids(gids: seq<int>): string {
    if gids == [] then "" else AppendGid(JoinGids(gids[..|gids| - 1]), gids[|gids| - 1])
  }

  lemma {:induction false} JoinedFieldCount(gids: seq<int>)
    ensures FieldCount(JoinGids(gids)) == |gids|
    ensures JoinGids(gids) == "" <==> gids == []
  {
    if gids != [] {
      JoinedFieldCount(gids[..|gids| - 1]);
      AppendAddsOneField(JoinGids(gids[..|gids| - 1]), gids[|gids| - 1]);
    }
  }

  /** The text before and after the last colon; everything is the tail when there is none. */
  function CutLast(s: string): (r: (string, string))
    ensures s != "" ==> |r.0| < |s|
  {
    if s == "" then ("", "")
    else if s[|s| - 1] == ':' then (s[..|s| - 1], "")
    else var (front, tail) := CutLast(s[..|s| - 1]); (front, tail + [s[|s| - 1]])
  }

  lemma {:induction false} LastColon(s: string, t: string)
    requires ':' !in t
    ensures CutLast(s + ":" + t) == (s, t)
    decreases |t|
  {
    if t == "" {
      assert s + ":" + t == s + ":";
    } else {
      var u := t[..|t| - 1];
      LastColon(s, u);
      assert (s + ":" + t)[..|s + ":" + t| - 1] == s + ":" + u;
      assert u + [t[|t| - 1]] == t;
      assert t[|t| - 1] != ':';
    }
  }

  lemma {:induction false} CutWithoutColon(s: string)
    requires ':' !in s
    ensures CutLast(s) == ("", s)
  {
    if s != "" {
      CutWithoutColon(s[..|s| - 1]);
      assert s[..|s| - 1] + [s[|s| - 1]] == s;
    }
  }

  lemma CutJoined(gids: seq<int>, gid: int)
    ensures CutLast(JoinGids(gids + [gid])) == (JoinGids(gids), Decimal(gid))
  {
    assert (gids + [gid])[..|gids|] == gids;
    DecimalPlain(gid);
    if JoinGids(gids) == "" {
      CutWithoutColon(Decimal(gid));
    } else {
      LastColon(JoinGids(gids), Decimal(gid));
    }
  }

  /** The ids a column text stands for. */
  function ParseGids(groups: string): seq<int>
    decreases |groups|
  {
    if groups == "" then [] else ParseGids(CutLast(groups).0) + [Atoi(CutLast(groups).1)]
  }

  /** The column text keeps the list of ids, so different lists are never written alike. */
  lemma {:induction false} ParseJoined(gids: seq<int>)
    ensures ParseGids(JoinGids(gids)) == gids
  {
    if gids != [] {
      var front, gid := gids[..|gids| - 1], gids[|gids| - 1];
      assert gids == front + [gid];
      ParseJoined(front);
      CutJoined(front, gid);
      AtoiOfDecimal(gid);
      JoinedFieldCount(gids);
    }
  }

  /** Nine digits an id and a colon between two ids. */
  lemma {:induction false} JoinedLength(gids: seq<int>)
    requires forall i :: 0 <= i < |gids| ==> 0 <= gids[i] < Pow10(9)
    ensures |JoinGids(gids)| <= 10 * |gids|
    ensures gids != [] ==> |JoinGids(gids)| < 10 * |gids|
  {
    if gids != [] {
      JoinedLength(gids[..|gids| - 1]);
      JoinedFieldCount(gids[..|gids| - 1]);
      DigitsFit(gids[|gids| - 1], 9);
    }
  }

  // ---- the three statements --------------------------------------------------------------------

  /** What a call knows after its select. */
  datatype Snapshot = Snapshot(groupNum: int, groupNumMax: int, groups: string)

  function SnapshotOf(row: Row): Snapshot {
    Snapshot(row.groupNum, row.groupNumMax, row.groups)
  }

  /** The update that ends a call. */
  function FinishUpdate(col: Collation, t: Table, uid: int, password: string, snap: Snapshot, gid: int, now: int)
    : Changed
  {
    UpdateGroups(col, t, uid, password, snap.groupNum + 1, AppendGid(snap.groups, gid), now)
  }
}
