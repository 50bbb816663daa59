/** Request and address texts: how a client writes them and how the other side takes them apart. */
module Requests {
  import opened CText

  // ---- colon separated fields --------------------------------------------------------------

  function TwoFields(first: string, second: string): string {
    first + [':'] + second
  }

  function ThreeFields(first: string, second: string, third: string): string {
    first + [':'] + second + [':'] + third
  }

  datatype Pair = Pair(first: string, second: string)
  datatype Triple = Triple(first: string, second: string, third: string)

  /** The split at the first colon; None is the "format error" branch. */
  function SplitPair(body: string): Option<Pair> {
    var idex := Find(body, ':', 0);
    if idex == |body| then None else Some(Pair(body[..idex], body[idex + 1..]))
  }

  /** The split at the first and the second colon. */
  function SplitTriple(body: string): Option<Triple> {
    var idex := Find(body, ':', 0);
    if idex == |body| then None
    else
      var idex2 := Find(body, ':', idex + 1);
      if idex2 == |body| then None
      else Some(Triple(body[..idex], body[idex + 1..idex2], body[idex2 + 1..]))
  }

  lemma SplitPairOf(first: string, second: string)
    requires ':' !in first
    ensures SplitPair(TwoFields(first, second)) == Some(Pair(first, second))
  {
    FindAfter(first, ':', second);
  }

  lemma SplitTripleOf(first: string, second: string, third: string)
    requires ':' !in first && ':' !in second
    ensures SplitTriple(ThreeFields(first, second, third)) == Some(Triple(first, second, third))
  {
    var body := ThreeFields(first, second, third);
    var n, m := |first|, |first| + 1 + |second|;
    assert body == first + [':'] + (second + [':'] + third);
    FindAfter(first, ':', second + [':'] + third);
    assert body[n + 1..m] == second;
    FindIs(body, ':', n + 1, m);
    assert body[m + 1..] == third;
  }

  /** The first colon decides, and a body without one is refused; nothing of a body is lost. */
  lemma SplitPairExactly(body: string)
    ensures SplitPair(body).None? <==> ':' !in body
    ensures SplitPair(body).Some? ==>
              var p := SplitPair(body).value; ':' !in p.first && body == TwoFields(p.first, p.second)
  {
  }

  /** The first two colons decide, and a body with fewer is refused. */
  lemma SplitTripleExactly(body: string)
    ensures SplitTriple(body).Some? ==> var p := SplitTriple(body).value;
              ':' !in p.first && ':' !in p.second && body == ThreeFields(p.first, p.second, p.third)
    ensures SplitTriple(body).None? ==>
              forall first, second, third ::
                ':' !in first && ':' !in second ==> body != ThreeFields(first, second, third)
  {
    forall first, second, third | ':' !in first && ':' !in second && body == ThreeFields(first, second, third)
      ensures SplitTriple(body).Some?
    {
      SplitTripleOf(first, second, third);
    }
  }

  // ---- the requests of the client ----------------------------------------------------------

  /** "%d:%s" with a user id and a password: login, logout and delete. */
  function UidRequest(uid: int, password: string): string {
    TwoFields(Decimal(uid), password)
  }

  /** "%d:%s:%s" with the caller's credentials and one more field: find, obtain address, create group. */
  function MemberRequest(uid: int, password: string, last: string): string {
    ThreeFields(Decimal(uid), password, last)
  }

  /** "%d:%d": the user list. */
  function PageRequest(page: int, cap: int): string {
    TwoFields(Decimal(page), Decimal(cap))
  }

  datatype Credentials = Credentials(uid: int, password: string)
  datatype MemberCall = MemberCall(uid: int, password: string, last: string)

  function ParseUidRequest(body: string): Option<Credentials> {
    match SplitPair(body)
    case None => None
    case Some(p) => Some(Credentials(Atoi(p.first), p.second))
  }

  function ParseMemberRequest(body: string): Option<MemberCall> {
    match SplitTriple(body)
    case None => None
    case Some(p) => Some(MemberCall(Atoi(p.first), p.second, p.third))
  }

  /** Two-field requests come back whole, for every user id and every password text. */
  lemma UidRequestRoundTrip(uid: int, password: string)
    ensures ParseUidRequest(UidRequest(uid, password)) == Some(Credentials(uid, password))
  {
    DecimalPlain(uid);
    SplitPairOf(Decimal(uid), password);
    AtoiOfDecimal(uid);
  }

  /** Three-field requests come back whole as soon as the password has no colon; the last field may
      hold anything. */
  lemma MemberRequestRoundTrip(uid: int, password: string, last: string)
    requires ':' !in password
    ensures ParseMemberRequest(MemberRequest(uid, password, last)) == Some(MemberCall(uid, password, last))
  {
    DecimalPlain(uid);
    SplitTripleOf(Decimal(uid), password, last);
    AtoiOfDecimal(uid);
  }

  /** A colon in the password always spoils a three-field request, so the condition is exact. */
  lemma MemberRequestNeedsColonFreePassword(uid: int, password: string, last: string)
    ensures ParseMemberRequest(MemberRequest(uid, password, last)) == Some(MemberCall(uid, password, last))
       <==> ':' !in password
  {
    if ':' !in password {
      MemberRequestRoundTrip(uid, password, last);
    } else {
      var i := Find(password, ':', 0);
      var front, back := password[..i], password[i + 1..];
      assert password == front + [':'] + back;
      assert ':' !in front;
      DecimalPlain(uid);
      SplitTripleOf(Decimal(uid), front, back + [':'] + last);
      Regroup(Decimal(uid), front, back, last);
      assert |front| < |password|;
    }
  }

  lemma Regroup(first: string, front: string, back: string, last: string)
    ensures ThreeFields(first, front + [':'] + back, last) == ThreeFields(first, front, back + [':'] + last)
  {
    var rest := front + [':'] + back + [':'] + last;
    assert ThreeFields(first, front + [':'] + back, last) == first + [':'] + rest;
    assert ThreeFields(first, front, back + [':'] + last) == first + [':'] + rest;
  }

  // ---- addresses ---------------------------------------------------------------------------

  datatype Address = Address(ip: string, port: int)

  /** An address as inet_ntoa and ntohs give it for a connected peer. */
  predicate Real(a: Address) {
    |a.ip| <= 15 && ':' !in a.ip && NUL !in a.ip && 0 <= a.port < 65536
  }

  type Peer = a: Address | Real(a) witness Address("0.0.0.0", 0)

  /** "%s:%d" */
  function AddressText(a: Address): (s: string)
    ensures |s| > 0
  {
    a.ip + [':'] + Decimal(a.port)
  }

  /** The client's strchr, strcpy and atoi; without a colon strchr returns a null pointer and the
      source's behaviour is undefined. */
  function ParseAddress(body: string): Option<Address> {
    var idx := Find(body, ':', 0);
    if idx == |body| then None else Some(Address(body[..idx], Atoi(body[idx + 1..])))
  }

  lemma AddressRoundTrip(a: Address)
    requires Real(a)
    ensures ParseAddress(AddressText(a)) == Some(a)
    ensures NUL !in AddressText(a) && |AddressText(a)| < 25
  {
    FindAfter(a.ip, ':', Decimal(a.port));
    AtoiOfDecimal(a.port);
    DecimalPlain(a.port);
    assert Pow10(5) == 100000 by {
      assert Pow10(2) == 100 && Pow10(3) == 10 * Pow10(2) && Pow10(4) == 10 * Pow10(3);
    }
    DigitsFit(a.port, 5);
  }

  /** Two peers with the same text are the same peer. */
  lemma AddressTextInjective(a: Address, b: Address)
    requires Real(a) && Real(b) && AddressText(a) == AddressText(b)
    ensures a == b
  {
    AddressRoundTrip(a);
    AddressRoundTrip(b);
  }
}
