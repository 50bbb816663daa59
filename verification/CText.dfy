/** Text as the C and C++ library routines used by the chat system print and read it. */
module CText {

  datatype Option<+T> = None | Some(value: T)

  const NUL: char := 0 as char

  predicate IsDigit(c: char) {
    '0' <= c <= '9'
  }

  predicate IsAlnum(c: char) {
    IsDigit(c) || 'a' <= c <= 'z' || 'A' <= c <= 'Z'
  }

  /** isspace in the "C" locale. */
  predicate IsSpace(c: char) {
    c == ' ' || 9 <= c as int <= 13
  }

  predicate Alnum(s: string) {
    forall i :: 0 <= i < |s| ==> IsAlnum(s[i])
  }

  /** What the client accepts for a user name, a group name or a password. */
  predicate CheckName(s: string) {
    |s| <= 16 && |s| > 0 && Alnum(s)
  }

  /** The names that pass are those of 1 to 16 ASCII digits, capital and small letters. */
  lemma NamesAccepted(s: string)
    ensures CheckName(s) <==>
              && 1 <= |s| < 17
              && forall c :: c in s ==> 48 <= c as int <= 57 || 65 <= c as int <= 90 || 97 <= c as int <= 122
  {
    assert forall i :: 0 <= i < |s| ==> s[i] in s;
  }

  function DigitChar(d: nat): char
    requires d < 10
  {
    (d + '0' as int) as char
  }

  function DigitsOf(n: nat): (s: string)
    ensures |s| > 0 && forall i :: 0 <= i < |s| ==> IsDigit(s[i])
  {
    if n < 10 then [DigitChar(n)] else DigitsOf(n / 10) + [DigitChar(n % 10)]
  }

  /** printf's %d. */
  function Decimal(n: int): (s: string)
    ensures |s| > 0 && forall i :: 0 <= i < |s| ==> IsDigit(s[i]) || s[i] == '-'
  {
    if n < 0 then "-" + DigitsOf(-n) else DigitsOf(n)
  }

  function ReadDigits(s: string, acc: nat): nat {
    if s != [] && IsDigit(s[0]) then ReadDigits(s[1..], 10 * acc + (s[0] as int - '0' as int)) else acc
  }

  function SkipSpace(s: string): string {
    if s != [] && IsSpace(s[0]) then SkipSpace(s[1..]) else s
  }

  /** atoi, section 7.22.1.2 of ISO C11, on results that fit an int. */
  function Atoi(s: string): int {
    var t := SkipSpace(s);
    if t != [] && t[0] == '-' then -(ReadDigits(t[1..], 0) as int)
    else if t != [] && t[0] == '+' then ReadDigits(t[1..], 0)
    else ReadDigits(t, 0)
  }

  lemma {:induction false} ReadDigitsOf(n: nat, tail: string)
    ensures ReadDigits(DigitsOf(n) + tail, 0) == ReadDigits(tail, n)
  {
    if n < 10 {
      assert (DigitsOf(n) + tail)[1..] == tail;
    } else {
      var last := [DigitChar(n % 10)];
      ReadDigitsOf(n / 10, last + tail);
      assert DigitsOf(n) + tail == DigitsOf(n / 10) + (last + tail);
      assert (last + tail)[1..] == tail;
    }
  }

  /** Reading back a printed number stops at the first character that is no digit. */
  lemma AtoiDecimal(n: int, tail: string)
    requires tail == [] || !IsDigit(tail[0])
    ensures Atoi(Decimal(n) + tail) == n
  {
    var s := Decimal(n) + tail;
    assert s[0] == Decimal(n)[0];
    assert SkipSpace(s) == s;
    if n < 0 {
      ReadDigitsOf(-n, tail);
      assert s[1..] == DigitsOf(-n) + tail;
      assert Atoi(s) == -(ReadDigits(tail, -n) as int);
    } else {
      ReadDigitsOf(n, tail);
      assert ReadDigits(tail, n) == n;
    }
  }

  /** What C calls white space in front of a number is skipped. */
  lemma {:induction false} SpacesSkipped(spaces: string, s: string)
    requires forall i :: 0 <= i < |spaces| ==> spaces[i] == ' ' || spaces[i] as int in {9, 10, 11, 12, 13}
    ensures SkipSpace(spaces + s) == SkipSpace(s)
  {
    if spaces == "" {
      assert spaces + s == s;
    } else {
      SpacesSkipped(spaces[1..], s);
      assert (spaces + s)[1..] == spaces[1..] + s;
    }
  }

  /** Leading white space and one sign are read as C does. */
  lemma AtoiOtherForms(spaces: string, sign: string, n: nat, tail: string)
    requires forall i :: 0 <= i < |spaces| ==> spaces[i] == ' ' || spaces[i] as int in {9, 10, 11, 12, 13}
    requires sign in {"", "+", "-"} && (tail == [] || !IsDigit(tail[0]))
    ensures Atoi(spaces + (sign + (DigitsOf(n) + tail))) == if sign == "-" then -(n as int) else n
  {
    var digits := DigitsOf(n) + tail;
    var text := sign + digits;
    SpacesSkipped(spaces, text);
    ReadDigitsOf(n, tail);
    assert text[0] == if sign == "" then DigitsOf(n)[0] else sign[0];
    assert SkipSpace(text) == text;
    assert if sign == "" then text == digits else text[1..] == digits;
    assert ReadDigits(tail, n) == n;
  }

  /** Text that starts with neither white space, a sign nor a digit is 0. */
  lemma AtoiOfNoNumber(s: string)
    requires s == [] || !(s[0] in {' ', '+', '-'} || 9 <= s[0] as int <= 13 || '0' <= s[0] <= '9')
    ensures Atoi(s) == 0
  {
  }

  lemma AtoiOfDecimal(n: int)
    ensures Atoi(Decimal(n)) == n
  {
    AtoiDecimal(n, []);
    assert Decimal(n) + [] == Decimal(n);
  }

  function Pow10(k: nat): (p: nat)
    ensures p > 0
  {
    if k == 0 then 1 else 10 * Pow10(k - 1)
  }

  lemma Pow10Nine()
    ensures Pow10(9) == 1000000000
  {
    assert Pow10(3) == 1000 && Pow10(6) == 1000 * Pow10(3) && Pow10(9) == 1000 * Pow10(6);
  }

  /** A printed count fits a buffer of k characters exactly when it is below 10^k. */
  lemma {:induction false} DigitsFit(n: nat, k: nat)
    requires k > 0
    ensures |DigitsOf(n)| <= k <==> n < Pow10(k)
    decreases k
  {
    if k == 1 {
      assert Pow10(1) == 10 * Pow10(0);
    } else if n >= 10 {
      DigitsFit(n / 10, k - 1);
    } else {
      assert Pow10(k) == 10 * Pow10(k - 1);
    }
  }

  /** std::string::find: the first position of c at or after from, or |s| for npos. */
  function Find(s: string, c: char, from: nat): (i: nat)
    requires from <= |s|
    ensures from <= i <= |s|
    ensures i < |s| ==> s[i] == c
    ensures forall k :: from <= k < i ==> s[k] != c
    decreases |s| - from
  {
    if from == |s| || s[from] == c then from else Find(s, c, from + 1)
  }

  /** The C string that starts at the front of a buffer. */
  function CString(buffer: string): (s: string)
    ensures NUL !in s && |s| <= |buffer|
  {
    buffer[..Find(buffer, NUL, 0)]
  }

  lemma FindIs(s: string, c: char, from: nat, i: nat)
    requires from <= i <= |s| && (i < |s| ==> s[i] == c)
    requires c !in s[from..i]
    ensures Find(s, c, from) == i
  {
    assert forall k :: from <= k < i ==> s[k] == s[from..i][k - from];
  }

  lemma CStringOf(body: string, rest: string)
    requires NUL !in body && (rest == [] || rest[0] == NUL)
    ensures CString(body + rest) == body
  {
    assert (body + rest)[..|body|] == body;
    FindIs(body + rest, NUL, 0, |body|);
  }

  /** The first separator of prefix + c + rest sits right after a prefix without it. */
  lemma FindAfter(prefix: string, c: char, rest: string)
    requires c !in prefix
    ensures Find(prefix + [c] + rest, c, 0) == |prefix|
    ensures (prefix + [c] + rest)[..|prefix|] == prefix
    ensures (prefix + [c] + rest)[|prefix| + 1..] == rest
  {
    var s := prefix + [c] + rest;
    assert s[0..|prefix|] == prefix;
    FindIs(s, c, 0, |prefix|);
  }

  lemma DecimalPlain(n: int)
    ensures ':' !in Decimal(n) && ',' !in Decimal(n) && NUL !in Decimal(n)
  {
  }

  lemma AlnumPlain(s: string)
    requires Alnum(s)
    ensures ':' !in s && ',' !in s && NUL !in s
  {
  }

  /** strtok, section 7.24.5.8 of ISO C11, with one delimiter: the token found and the text from which
      the next call goes on. */
  datatype Token = Token(text: string, rest: string)

  function SkipDelimiters(s: string, delimiter: char): (t: string)
    ensures |t| <= |s| && (t != "" ==> t[0] != delimiter)
    ensures t == "" <==> forall k :: 0 <= k < |s| ==> s[k] == delimiter
  {
    if s == "" || s[0] != delimiter then s else SkipDelimiters(s[1..], delimiter)
  }

  function Strtok(s: string, delimiter: char): (t: Option<Token>)
    ensures t.Some? ==> |t.value.rest| < |s| && t.value.text != "" && delimiter !in t.value.text
    ensures t.None? <==> forall k :: 0 <= k < |s| ==> s[k] == delimiter
  {
    var t := SkipDelimiters(s, delimiter);
    if t == "" then None
    else
      var end := Find(t, delimiter, 0);
      Some(Token(t[..end], if end < |t| then t[end + 1..] else ""))
  }

  lemma StrtokOf(token: string, delimiter: char, rest: string)
    requires token != "" && delimiter !in token
    ensures Strtok(token + [delimiter] + rest, delimiter) == Some(Token(token, rest))
  {
    var s := token + [delimiter] + rest;
    assert s[0] == token[0];
    assert SkipDelimiters(s, delimiter) == s;
    FindAfter(token, delimiter, rest);
  }
}
