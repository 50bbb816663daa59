/** The user list: pages of the table, the text a work server renders and the cells a client shows. */
module UserLists {
  import opened CText
  import opened UserTables
  import opened Frames
  import opened Requests

  // ---- rendering -------------------------------------------------------------------------------

  function TupleOf(e: Entry): string {
    Decimal(e.uid) + ":" + e.uname + ":" + Decimal(e.online)
  }

  /** "%s:%s:%s," */
  function RenderRow(e: Entry): string {
    TupleOf(e) + [',']
  }

  function Concat(texts: seq<string>): string {
    if texts == [] then "" else texts[0] + Concat(texts[1..])
  }

  function RowTexts(es: seq<Entry>): (texts: seq<string>)
    ensures |texts| == |es| && forall i :: 0 <= i < |es| ==> texts[i] == RenderRow(es[i])
  {
    seq(|es|, i requires 0 <= i < |es| => RenderRow(es[i]))
  }

  function RenderList(es: seq<Entry>): string {
    Concat(RowTexts(es))
  }

  lemma Associative(a: string, b: string, c: string)
    ensures a + (b + c) == (a + b) + c
  {
  }

  lemma {:induction false} ConcatAppend(a: seq<string>, b: seq<string>)
    ensures Concat(a + b) == Concat(a) + Concat(b)
  {
    if a == [] {
      assert a + b == b;
    } else {
      ConcatAppend(a[1..], b);
      assert (a + b)[1..] == a[1..] + b;
      Associative(a[0], Concat(a[1..]), Concat(b));
    }
  }

  lemma ConcatStep(texts: seq<string>, i: nat)
    requires i < |texts|
    ensures Concat(texts[..i + 1]) == Concat(texts[..i]) + texts[i]
    ensures |Concat(texts[..i + 1])| <= |Concat(texts)|
  {
    assert texts[..i + 1] == texts[..i] + [texts[i]];
    ConcatAppend(texts[..i], [texts[i]]);
    assert Concat([texts[i]]) == texts[i] + Concat([]);
    assert texts == texts[..i + 1] + texts[i + 1..];
    ConcatAppend(texts[..i + 1], texts[i + 1..]);
  }

  /** A user name without the separators of the list. */
  predicate PlainName(s: string) {
    ':' !in s && ',' !in s && NUL !in s
  }

  predicate PlainNames(es: seq<Entry>) {
    forall e :: e in es ==> PlainName(e.uname)
  }

  /** Names as any C string can hold them. */
  predicate CNames(es: seq<Entry>) {
    forall e :: e in es ==> NUL !in e.uname
  }

  lemma {:induction false} ConcatHasNoNul(texts: seq<string>)
    requires forall i :: 0 <= i < |texts| ==> NUL !in texts[i]
    ensures NUL !in Concat(texts)
  {
    if texts != [] {
      ConcatHasNoNul(texts[1..]);
    }
  }

  lemma RenderedTextHasNoNul(es: seq<Entry>)
    requires CNames(es)
    ensures NUL !in RenderList(es)
  {
    forall i | 0 <= i < |es|
      ensures NUL !in RenderRow(es[i])
    {
      assert es[i] in es;
      DecimalPlain(es[i].uid);
      DecimalPlain(es[i].online);
    }
    ConcatHasNoNul(RowTexts(es));
  }

  /** memcpy of a C string, with its NUL, into the buffer at idex. */
  method CopyString(m_buf: array<char>, idex: nat, cnt: string)
    requires idex + |cnt| < m_buf.Length
    modifies m_buf
    ensures m_buf[..] == old(m_buf[..idex]) + cnt + [NUL] + old(m_buf[idex + |cnt| + 1..])
  {
    forall k | 0 <= k < |cnt| {
      m_buf[idex + k] := cnt[k];
    }
    m_buf[idex + |cnt|] := NUL;
  }

  method AppendText(m_buf: array<char>, idex: nat, cnt: string, ghost front: string)
    requires idex + |cnt| < m_buf.Length && m_buf[..idex] == front
    modifies m_buf
    ensures m_buf[..idex + |cnt|] == front + cnt && m_buf[idex + |cnt|] == NUL
    ensures forall k :: idex + |cnt| < k < m_buf.Length ==> m_buf[k] == old(m_buf[k])
  {
    CopyString(m_buf, idex, cnt);
    assert m_buf[..idex + |cnt|] == m_buf[..][..idex + |cnt|];
    assert forall k :: idex + |cnt| <= k < m_buf.Length ==> m_buf[k] == m_buf[..][k];
  }

  /** The body of the render loop for row i. */
  method AppendRow(m_buf: array<char>, idex: nat, row: Entry, ghost texts: seq<string>, ghost i: nat)
    returns (next: nat)
    requires i < |texts| && texts[i] == RenderRow(row) && |Concat(texts)| < m_buf.Length
    requires idex == |Concat(texts[..i])| && idex < m_buf.Length && m_buf[..idex] == Concat(texts[..i])
    modifies m_buf
    ensures next == |Concat(texts[..i + 1])| <= |Concat(texts)|
    ensures m_buf[..next] == Concat(texts[..i + 1]) && m_buf[next] == NUL
    ensures forall k :: |Concat(texts)| < k < m_buf.Length ==> m_buf[k] == old(m_buf[k])
  {
    ConcatStep(texts, i);
    var cnt := RenderRow(row);
    AppendText(m_buf, idex, cnt, Concat(texts[..i]));
    next := idex + |cnt|;
  }

  /** The render loop on the connection's own buffer: each row goes, with its NUL, behind the last. */
  method RenderInto(m_buf: array<char>, ares: seq<Entry>)
    requires m_buf.Length == BUFFER_SIZE
    requires CNames(ares)
    requires |RenderList(ares)| < BUFFER_SIZE
    requires forall e :: e in ares ==> |RenderRow(e)| < 30
    modifies m_buf
    ensures ares != [] ==> CString(m_buf[..]) == RenderList(ares)
    ensures forall k :: |RenderList(ares)| < k < BUFFER_SIZE ==> m_buf[k] == old(m_buf[k])
  {
    var idex := 0;
    ghost var texts := RowTexts(ares);
    for i := 0 to |ares|
      invariant idex == |Concat(texts[..i])| <= |Concat(texts)|
      invariant m_buf[..idex] == Concat(texts[..i])
      invariant i > 0 ==> m_buf[idex] == NUL
      invariant forall k :: |Concat(texts)| < k < BUFFER_SIZE ==> m_buf[k] == old(m_buf[k])
    {
      idex := AppendRow(m_buf, idex, ares[i], texts, i);
    }
    assert texts[..|ares|] == texts;
    if ares != [] {
      RenderedTextHasNoNul(ares);
      TextEndsAt(m_buf[..], RenderList(ares));
    }
  }

  lemma TextEndsAt(buffer: string, text: string)
    requires text <= buffer && |text| < |buffer| && buffer[|text|] == NUL && NUL !in text
    ensures CString(buffer) == text
  {
    assert buffer == text + buffer[|text|..];
    CStringOf(text, buffer[|text|..]);
  }

  // ---- the client's splitter -------------------------------------------------------------------

  /** The fields of one tuple from position i on, cnt being the start of the current field; of the
      last field only one character is taken. */
  function Cells(tuple: string, cnt: nat, i: nat): seq<string>
    requires cnt <= i <= |tuple|
    decreases |tuple| - i
  {
    if i == |tuple| then [tuple[cnt..if cnt < |tuple| then cnt + 1 else cnt]]
    else if tuple[i] == ':' then [tuple[cnt..i]] + Cells(tuple, i + 1, i + 1)
    else Cells(tuple, cnt, i + 1)
  }

  function SplitList(list: string): seq<seq<string>>
    decreases |list|
  {
    match Strtok(list, ',')
    case None => []
    case Some(p) => [Cells(p.text, 0, 0)] + SplitList(p.rest)
  }

  /** The inner loop: the cells of one tuple. */
  method SplitTuple(tuple: string) returns (line: seq<string>)
    ensures line == Cells(tuple, 0, 0)
  {
    line := [];
    var cnt := 0;
    for i := 0 to |tuple|
      invariant 0 <= cnt <= i
      invariant line + Cells(tuple, cnt, i) == Cells(tuple, 0, 0)
    {
      if tuple[i] == ':' {
        line := line + [tuple[cnt..i]];
        cnt := i + 1;
      }
    }
    line := line + [tuple[cnt..if cnt < |tuple| then cnt + 1 else cnt]];
  }

  lemma LinesStep(lines: seq<seq<string>>, list: string, rest: string, p: Token)
    requires Strtok(rest, ',') == Some(p) && lines + SplitList(rest) == SplitList(list)
    ensures lines + [Cells(p.text, 0, 0)] + SplitList(p.rest) == SplitList(list)
  {
    assert SplitList(rest) == [Cells(p.text, 0, 0)] + SplitList(p.rest);
  }

  /** The display loop of the client menu; the result holds the cells it prints, line by line. */
  method SplitUserList(list: string) returns (lines: seq<seq<string>>)
    ensures lines == SplitList(list)
  {
    lines := [];
    var rest := list;
    var p := Strtok(rest, ',');
    while p.Some?
      invariant p == Strtok(rest, ',')
      invariant lines + SplitList(rest) == SplitList(list)
      decreases |rest|
    {
      LinesStep(lines, list, rest, p.value);
      var line := SplitTuple(p.value.text);
      lines := lines + [line];
      rest := p.value.rest;
      p := Strtok(rest, ',');
    }
  }

  // ---- round trip ------------------------------------------------------------------------------

  function CellsOfEntry(e: Entry): seq<string> {
    [Decimal(e.uid), e.uname, Decimal(e.online)]
  }

  function CellsOfEntries(es: seq<Entry>): (lines: seq<seq<string>>)
    ensures |lines| == |es| && forall i :: 0 <= i < |es| ==> lines[i] == CellsOfEntry(es[i])
  {
    seq(|es|, i requires 0 <= i < |es| => CellsOfEntry(es[i]))
  }

  /** What a reader of the list takes from one line. */
  function EntryOfCells(line: seq<string>): Entry
    requires |line| == 3
  {
    Entry(Atoi(line[0]), line[1], Atoi(line[2]))
  }

  lemma {:induction false} CellsSkip(tuple: string, cnt: nat, i: nat, j: nat)
    requires cnt <= i <= j <= |tuple|
    requires ':' !in tuple[i..j]
    ensures Cells(tuple, cnt, i) == Cells(tuple, cnt, j)
    decreases j - i
  {
    if i < j {
      assert tuple[i..j][0] == tuple[i];
      assert tuple[i + 1..j] == tuple[i..j][1..];
      CellsSkip(tuple, cnt, i + 1, j);
    }
  }

  lemma CellsOfTuple(e: Entry)
    requires PlainName(e.uname) && 0 <= e.online <= 9
    ensures Cells(TupleOf(e), 0, 0) == CellsOfEntry(e)
  {
    var tuple := TupleOf(e);
    var a, b := |Decimal(e.uid)|, |Decimal(e.uid)| + 1 + |e.uname|;
    DecimalPlain(e.uid);
    assert tuple[0..a] == Decimal(e.uid) && tuple[a + 1..b] == e.uname;
    assert tuple[b + 1..] == Decimal(e.online) && |Decimal(e.online)| == 1;
    CellsSkip(tuple, 0, 0, a);
    CellsSkip(tuple, a + 1, a + 1, b);
    assert tuple[a] == ':' && tuple[b] == ':';
    assert tuple[b + 1] != ':';
    assert Cells(tuple, b + 1, b + 1) == Cells(tuple, b + 1, b + 2);
    assert tuple[b + 1..b + 2] == Decimal(e.online);
  }

  /** A line of three fields, whatever they are: of the last one the client takes the first character only. */
  lemma LineOfThreeFields(first: string, second: string, last: string)
    requires ':' !in first && ':' !in second && ':' !in last
    ensures Cells(first + ":" + second + ":" + last, 0, 0) == [first, second, if last == "" then "" else last[..1]]
  {
    var tuple := first + ":" + second + ":" + last;
    var a, b := |first|, |first| + 1 + |second|;
    assert tuple[0..a] == first && tuple[a + 1..b] == second && tuple[b + 1..|tuple|] == last;
    CellsSkip(tuple, 0, 0, a);
    CellsSkip(tuple, a + 1, a + 1, b);
    LastCell(tuple, b + 1, last);
    assert tuple[a] == ':' && tuple[b] == ':';
  }

  lemma LastCell(tuple: string, cnt: nat, last: string)
    requires cnt <= |tuple| && tuple[cnt..|tuple|] == last && ':' !in last
    ensures Cells(tuple, cnt, cnt) == [if last == "" then "" else last[..1]]
  {
    CellsSkip(tuple, cnt, cnt, |tuple|);
    assert last != "" ==> tuple[cnt..cnt + 1] == last[..1];
  }

  lemma TuplePlain(e: Entry)
    requires PlainName(e.uname)
    ensures ',' !in TupleOf(e) && |TupleOf(e)| > 0
  {
    DecimalPlain(e.uid);
    DecimalPlain(e.online);
  }

  lemma SplitStep(tuple: string, rest: string)
    requires ',' !in tuple && tuple != ""
    ensures SplitList(tuple + [','] + rest) == [Cells(tuple, 0, 0)] + SplitList(rest)
  {
    StrtokOf(tuple, ',', rest);
  }

  function CellsOfTuples(tuples: seq<string>): seq<seq<string>> {
    if tuples == [] then [] else [Cells(tuples[0], 0, 0)] + CellsOfTuples(tuples[1..])
  }

  function Terminated(tuples: seq<string>): string {
    if tuples == [] then "" else tuples[0] + [','] + Terminated(tuples[1..])
  }

  /** Comma-terminated tuples come apart again, whatever the tuples are. */
  lemma {:induction false} SplitTerminated(tuples: seq<string>)
    requires forall i :: 0 <= i < |tuples| ==> ',' !in tuples[i] && tuples[i] != ""
    ensures SplitList(Terminated(tuples)) == CellsOfTuples(tuples)
  {
    if tuples != [] {
      SplitStep(tuples[0], Terminated(tuples[1..]));
      SplitTerminated(tuples[1..]);
    }
  }

  function TuplesOf(es: seq<Entry>): (tuples: seq<string>)
    ensures |tuples| == |es| && forall i :: 0 <= i < |es| ==> tuples[i] == TupleOf(es[i])
  {
    seq(|es|, i requires 0 <= i < |es| => TupleOf(es[i]))
  }

  lemma {:induction false} ConcatIsTerminated(texts: seq<string>, tuples: seq<string>)
    requires |texts| == |tuples| && forall i :: 0 <= i < |texts| ==> texts[i] == tuples[i] + [',']
    ensures Concat(texts) == Terminated(tuples)
  {
    if texts != [] {
      ConcatIsTerminated(texts[1..], tuples[1..]);
    }
  }

  lemma {:induction false} CellsOfRenderedTuples(es: seq<Entry>, tuples: seq<string>)
    requires |tuples| == |es| && forall i :: 0 <= i < |es| ==> Cells(tuples[i], 0, 0) == CellsOfEntry(es[i])
    ensures CellsOfTuples(tuples) == CellsOfEntries(es)
  {
    if es != [] {
      CellsOfRenderedTuples(es[1..], tuples[1..]);
      assert CellsOfEntries(es) == [CellsOfEntry(es[0])] + CellsOfEntries(es[1..]);
    }
  }

  lemma EntryFromCells(e: Entry)
    ensures EntryOfCells(CellsOfEntry(e)) == e
  {
    AtoiOfDecimal(e.uid);
    AtoiOfDecimal(e.online);
  }

  lemma TuplesFine(es: seq<Entry>)
    requires PlainNames(es) && forall e :: e in es ==> 0 <= e.online <= 9
    ensures var tuples := TuplesOf(es);
            forall i :: 0 <= i < |es| ==>
              ',' !in tuples[i] && tuples[i] != "" && Cells(tuples[i], 0, 0) == CellsOfEntry(es[i])
  {
    forall i | 0 <= i < |es|
      ensures ',' !in TupleOf(es[i]) && TupleOf(es[i]) != "" && Cells(TupleOf(es[i]), 0, 0) == CellsOfEntry(es[i])
    {
      assert es[i] in es;
      TuplePlain(es[i]);
      CellsOfTuple(es[i]);
    }
  }

  /** The client recovers exactly the rows the server rendered, in order. */
  lemma UserListRoundTrip(es: seq<Entry>)
    requires PlainNames(es) && forall e :: e in es ==> 0 <= e.online <= 9
    ensures SplitList(RenderList(es)) == CellsOfEntries(es)
    ensures forall i :: 0 <= i < |es| ==> EntryOfCells(SplitList(RenderList(es))[i]) == es[i]
  {
    var tuples := TuplesOf(es);
    TuplesFine(es);
    ConcatIsTerminated(RowTexts(es), tuples);
    SplitTerminated(tuples);
    CellsOfRenderedTuples(es, tuples);
    forall i | 0 <= i < |es|
      ensures EntryOfCells(CellsOfEntries(es)[i]) == es[i]
    {
      EntryFromCells(es[i]);
    }
  }

  // ---- pages -----------------------------------------------------------------------------------

  function Min(a: int, b: int): int {
    if a < b then a else b
  }

  /** "limit start, cap"; a negative bound is a syntax error and gives no result. */
  function SearchLimit<T>(rows: seq<T>, page: int, cap: int): Option<seq<T>> {
    var start := (page - 1) * cap;
    if start < 0 || cap < 0 then None
    else Some(rows[Min(start, |rows|)..Min(start + cap, |rows|)])
  }

  /** Page number page for a page and capacity that are not rejected. */
  function PageOf<T>(rows: seq<T>, page: int, cap: int): seq<T>
    requires page >= 1 && cap >= 1
  {
    assert (page - 1) * cap >= 0;
    SearchLimit(rows, page, cap).value
  }

  function Pages<T>(rows: seq<T>, k: nat, cap: int): seq<T>
    requires cap >= 1
  {
    if k == 0 then [] else Pages(rows, k - 1, cap) + PageOf(rows, k, cap)
  }

  lemma StretchesConcatenate<T>(rows: seq<T>, start: nat, cap: nat)
    ensures var a, b := Min(start, |rows|), Min(start + cap, |rows|); rows[..a] + rows[a..b] == rows[..b]
  {
  }

  lemma NextStart(k: nat, cap: int)
    requires k > 0 && cap >= 1
    ensures (k - 1) * cap >= 0 && k * cap == (k - 1) * cap + cap
  {
    MulMonotone(0, k - 1, cap);
  }

  /** Pages 1 .. k put end to end are the first k * cap rows. */
  lemma {:induction false} PagesConcatenate<T>(rows: seq<T>, k: nat, cap: int)
    requires cap >= 1
    ensures k * cap >= 0
    ensures Pages(rows, k, cap) == rows[..Min(k * cap, |rows|)]
  {
    if k > 0 {
      PagesConcatenate(rows, k - 1, cap);
      NextStart(k, cap);
      StretchesConcatenate(rows, (k - 1) * cap, cap);
    }
  }

  /** Position i of the table is on the page with number page. */
  predicate OnPage(n: nat, i: int, page: int, cap: int) {
    Min((page - 1) * cap, n) <= i < Min((page - 1) * cap + cap, n)
  }

  lemma PageOfPosition(n: nat, i: nat, page: int, cap: int)
    requires cap >= 1 && i < n
    ensures OnPage(n, i, page, cap) <==> page == i / cap + 1
  {
    var q := i / cap;
    assert q * cap <= i < q * cap + cap;
    if page <= q {
      assert (page - 1) * cap + cap == page * cap;
      MulMonotone(page, q, cap);
    } else if page >= q + 2 {
      MulMonotone(q + 1, page - 1, cap);
      assert (q + 1) * cap == q * cap + cap;
    }
  }

  lemma StartNonNegative(page: int, cap: int)
    requires page >= 1 && cap >= 1
    ensures (page - 1) * cap >= 0
  {
    MulMonotone(0, page - 1, cap);
  }

  lemma StretchHolds<T>(rows: seq<T>, start: nat, cap: nat, page: seq<T>)
    requires page == rows[Min(start, |rows|)..Min(start + cap, |rows|)]
    ensures forall i :: start <= i < |rows| && i < start + cap ==> i - start < |page| && page[i - start] == rows[i]
    ensures forall j :: 0 <= j < |page| ==> start + j < |rows| && j < cap && page[j] == rows[start + j]
  {
  }

  /** Every row is on exactly one page, the one with number i / cap + 1, and stands there at position i % cap;
      and what stands at position j of a page is row (page - 1) * cap + j. */
  lemma EachRowOnOnePage<T>(rows: seq<T>, i: nat, page: int, cap: int, j: nat)
    requires cap >= 1 && i < |rows| && page >= 1
    ensures OnPage(|rows|, i, page, cap) <==> page == i / cap + 1
    ensures page == i / cap + 1 ==> i % cap < |PageOf(rows, page, cap)| && PageOf(rows, page, cap)[i % cap] == rows[i]
    ensures var start := (page - 1) * cap;
            j < |PageOf(rows, page, cap)|
            ==> 0 <= start + j < |rows| && PageOf(rows, page, cap)[j] == rows[start + j]
  {
    var start := (page - 1) * cap;
    PageOfPosition(|rows|, i, page, cap);
    StartNonNegative(page, cap);
    StretchHolds(rows, start, cap, PageOf(rows, page, cap));
    if page == i / cap + 1 {
      assert start == i / cap * cap;
      assert i - start == i % cap;
    }
  }

  lemma MulMonotone(a: int, b: int, c: int)
    requires a <= b && c >= 0
    ensures a * c <= b * c
  {
    assert b * c == a * c + (b - a) * c;
  }

  // ---- sizes -----------------------------------------------------------------------------------

  /** The rows a deployment with fewer than 10^9 accounts can show. */
  predicate Listable(e: Entry) {
    0 <= e.uid < Pow10(9) && |e.uname| <= 16 && PlainName(e.uname) && e.online in {0, 1}
  }

  lemma RowFits(e: Entry)
    requires Listable(e)
    ensures |RenderRow(e)| <= 29
  {
    DigitsFit(e.uid, 9);
  }

  lemma ConcatOfRows(es: seq<Entry>)
    requires es != []
    ensures RenderList(es) == RenderRow(es[0]) + RenderList(es[1..])
  {
    assert RowTexts(es)[1..] == RowTexts(es[1..]);
  }

  lemma {:induction false} ListFits(es: seq<Entry>)
    requires forall e :: e in es ==> Listable(e)
    ensures |RenderList(es)| <= 29 * |es|
  {
    if es != [] {
      RowFits(es[0]);
      ListFits(es[1..]);
      ConcatOfRows(es);
    }
  }

  // ---- the request ----------------------------------------------------------------------------

  /** The rows user_list finds for a request body; None is the null pointer it returns instead. */
  function UserList(rows: seq<Entry>, body: string): Option<seq<Entry>> {
    match SplitPair(body)
    case None => None
    case Some(p) =>
      match SearchLimit(rows, Atoi(p.first), Atoi(p.second))
      case None => None
      case Some(es) => if es == [] then None else Some(es)
  }

  /** The body of the reply. */
  function UserListReply(rows: seq<Entry>, body: string): string {
    match UserList(rows, body)
    case None => ""
    case Some(es) => RenderList(es)
  }

  lemma PageRequestRoundTrip(rows: seq<Entry>, page: int, cap: int)
    ensures UserList(rows, PageRequest(page, cap))
         == match SearchLimit(rows, page, cap)
            case None => None
            case Some(es) => if es == [] then None else Some(es)
  {
    DecimalPlain(page);
    SplitPairOf(Decimal(page), Decimal(cap));
    AtoiOfDecimal(page);
    AtoiOfDecimal(cap);
  }

  /** From the table through request, render loop, frame and splitter: what the client shows for a page
      of 20 is that page of the table, and the texts stay inside both fixed buffers. */
  lemma PageShownIsPageOfTable(rows: seq<Entry>, page: int, stale: string)
    requires page >= 1 && |stale| == BUFFER_SIZE
    requires forall e :: e in rows ==> Listable(e)
    ensures var reply := UserListReply(rows, PageRequest(page, 20));
            && |reply| <= 1018
            && SplitList(ClientDecode(stale, FrameOf(USER_LIST, Some(reply))).body)
               == CellsOfEntries(PageOf(rows, page, 20))
  {
    var es := PageOf(rows, page, 20);
    PageRequestRoundTrip(rows, page, 20);
    assert |es| <= 20;
    ListFits(es);
    UserListRoundTrip(es);
    RenderedTextHasNoNul(es);
    FrameRoundTrip(stale, USER_LIST, RenderList(es));
  }

  /** A page below 1, a page size below 1, a page past the last row and a request without a colon: the answer is
      the empty text. */
  lemma NoSuchPage(rows: seq<Entry>, page: int, cap: int, body: string)
    requires ':' !in body
    ensures ((page - 1) * cap < 0 || cap <= 0 || |rows| <= (page - 1) * cap) ==>
              UserListReply(rows, PageRequest(page, cap)) == ""
    ensures UserListReply(rows, body) == ""
  {
    PageRequestRoundTrip(rows, page, cap);
  }

  /** The client shows nothing for it. */
  lemma NothingShown(stale: string)
    requires |stale| == BUFFER_SIZE
    ensures ClientDecode(stale, FrameOf(USER_LIST, Some(""))) == Message(USER_LIST, "")
    ensures SplitList("") == []
  {
    FrameRoundTrip(stale, USER_LIST, "");
  }

  /** Whatever page is asked for, the client shows that page, and nothing below page 1. */
  lemma EveryPageShown(rows: seq<Entry>, page: int, stale: string)
    requires |stale| == BUFFER_SIZE
    requires forall e :: e in rows ==> Listable(e)
    ensures var reply := UserListReply(rows, PageRequest(page, 20));
            && |reply| <= 1018
            && (page < 1 ==> reply == "")
            && SplitList(ClientDecode(stale, FrameOf(USER_LIST, Some(reply))).body)
               == if page < 1 then [] else CellsOfEntries(PageOf(rows, page, 20))
  {
    if page < 1 {
      NoSuchPage(rows, page, 20, "");
      NothingShown(stale);
    } else {
      PageShownIsPageOfTable(rows, page, stale);
    }
  }
}
