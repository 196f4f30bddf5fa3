/** Strings and integers as the Go standard library treats them: `strings.TrimSpace`,
    `strings.ReplaceAll`, `strings.TrimLeft`, `strings.HasPrefix`, `strings.Join`,
    `strconv.Itoa` / `fmt.Sprintf("%d")` and `strconv.Atoi`.  A Go string is modelled as a
    sequence of characters. */
module Base {

  datatype Option<T> = None | Some(value: T)

  datatype Result<T, E> = Ok(value: T) | Err(error: E)

  const MinInt64: int := -0x8000_0000_0000_0000
  const MaxInt64: int := 0x7FFF_FFFF_FFFF_FFFF

  /** Go's `int` on a 64-bit platform. */
  type Int64 = x: int | MinInt64 <= x <= MaxInt64

  predicate IsDigit(c: char) { '0' <= c <= '9' }

  predicate IsAsciiLetter(c: char) { 'a' <= c <= 'z' || 'A' <= c <= 'Z' }

  predicate AllDigits(s: string) { forall i | 0 <= i < |s| :: IsDigit(s[i]) }

  predicate AllAsciiLetters(s: string) { forall i | 0 <= i < |s| :: IsAsciiLetter(s[i]) }

  /** `unicode.IsSpace`: the ASCII white space characters, NEL, NBSP and the other
      Unicode White_Space code points. */
  predicate IsSpace(c: char) {
    c == ' ' || c == '\t' || c == '\n' || c == '\U{000B}' || c == '\U{000C}' || c == '\r'
    || c == '\U{0085}' || c == '\U{00A0}' || c == '\U{1680}'
    || ('\U{2000}' <= c <= '\U{200A}')
    || c == '\U{2028}' || c == '\U{2029}' || c == '\U{202F}' || c == '\U{205F}' || c == '\U{3000}'
  }

  function TrimLeftSpace(s: string): (r: string)
    ensures |r| <= |s| && r == s[|s| - |r|..]
    ensures |r| > 0 ==> !IsSpace(r[0])
    ensures forall i | 0 <= i < |s| - |r| :: IsSpace(s[i])
  {
    if |s| > 0 && IsSpace(s[0]) then TrimLeftSpace(s[1..]) else s
  }

  function TrimRightSpace(s: string): (r: string)
    ensures |r| <= |s| && r == s[..|r|]
    ensures |r| > 0 ==> !IsSpace(r[|r| - 1])
    ensures forall i | |r| <= i < |s| :: IsSpace(s[i])
  {
    if |s| > 0 && IsSpace(s[|s| - 1]) then TrimRightSpace(s[..|s| - 1]) else s
  }

  /** `strings.TrimSpace`: the longest infix of `s` that neither starts nor ends with white
      space, obtained by dropping only white space from either end. */
  function TrimSpace(s: string): (r: string)
    ensures |r| <= |s|
    ensures |r| > 0 ==> !IsSpace(r[0]) && !IsSpace(r[|r| - 1])
    ensures exists k :: InfixAt(r, s, k)
    ensures exists k :: TrimmedAt(r, s, k)
  {
    TrimBothEnds(s);
    TrimRightSpace(TrimLeftSpace(s))
  }

  /** Trimming the left end and then the right end drops only white space. */
  lemma TrimBothEnds(s: string)
    ensures TrimmedAt(TrimRightSpace(TrimLeftSpace(s)), s, |s| - |TrimLeftSpace(s)|)
  {
    var left := TrimLeftSpace(s);
    var k := |s| - |left|;
    TrimRightOfSuffix(s, left, k);
  }

  /** Right-trimming the suffix of `s` that starts at `k` drops only white space at the end of `s`. */
  lemma TrimRightOfSuffix(s: string, left: string, k: int)
    requires 0 <= k <= |s| && left == s[k..]
    ensures var r := TrimRightSpace(left);
            && InfixAt(r, s, k)
            && forall i | k + |r| <= i < |s| :: IsSpace(s[i])
  {
    var r := TrimRightSpace(left);
    assert s[k..k + |r|] == left[..|r|];
    forall i | k + |r| <= i < |s|
      ensures IsSpace(s[i])
    {
      assert s[i] == left[i - k];
    }
  }

  /** `r` sits at position `k` of `s`, and everything of `s` before and after it is white space. */
  predicate TrimmedAt(r: string, s: string, k: int)
  {
    && InfixAt(r, s, k)
    && (forall i | 0 <= i < k :: IsSpace(s[i]))
    && (forall i | k + |r| <= i < |s| :: IsSpace(s[i]))
  }

  /** Dropping white space from both ends leaves a string that TrimSpace returns unchanged. */
  lemma TrimSpaceFixed(s: string)
    requires |s| > 0 ==> !IsSpace(s[0]) && !IsSpace(s[|s| - 1])
    ensures TrimSpace(s) == s
  {
  }

  lemma TrimSpaceIdempotent(s: string)
    ensures TrimSpace(TrimSpace(s)) == TrimSpace(s)
  {
    TrimSpaceFixed(TrimSpace(s));
  }

  /** `strings.ReplaceAll(s, string(c), "")`. */
  function RemoveChar(s: string, c: char): (r: string)
    ensures c !in r
    ensures |r| <= |s|
    ensures forall x | x in r :: x in s
    ensures c !in s ==> r == s
  {
    if |s| == 0 then ""
    else if s[0] == c then RemoveChar(s[1..], c)
    else [s[0]] + RemoveChar(s[1..], c)
  }

  /** Removing a character keeps the characters that are not it, and only them. */
  lemma {:induction false} RemoveCharKeeps(s: string, c: char, d: char)
    requires d != c
    ensures d in RemoveChar(s, c) <==> d in s
  {
    if |s| > 0 {
      RemoveCharKeeps(s[1..], c, d);
      assert s == [s[0]] + s[1..];
    }
  }

  /** Removal drops every copy of `c` and keeps every other character as often as it occurs. */
  lemma {:induction false} RemoveCharCounts(s: string, c: char)
    ensures multiset(RemoveChar(s, c)) == multiset(s)[c := 0]
  {
    if |s| > 0 {
      RemoveCharCounts(s[1..], c);
      assert s == [s[0]] + s[1..];
    }
  }

  /** Removal works piece by piece, so the kept characters stay in their order. */
  lemma {:induction false} RemoveCharAppend(a: string, b: string, c: char)
    ensures RemoveChar(a + b, c) == RemoveChar(a, c) + RemoveChar(b, c)
    decreases |a|
  {
    if |a| == 0 {
      assert a + b == b;
    } else {
      var ab := a + b;
      assert ab[0] == a[0] && ab[1..] == a[1..] + b;
      RemoveCharAppend(a[1..], b, c);
      if a[0] != c {
        calc {
          RemoveChar(ab, c);
          [a[0]] + RemoveChar(a[1..] + b, c);
          [a[0]] + (RemoveChar(a[1..], c) + RemoveChar(b, c));
          ([a[0]] + RemoveChar(a[1..], c)) + RemoveChar(b, c);
        }
      }
    }
  }

  /** `strings.TrimLeft(s, string(c))`: drop every leading `c`. */
  function TrimLeftChar(s: string, c: char): (r: string)
    ensures |r| <= |s| && r == s[|s| - |r|..]
    ensures |r| > 0 ==> r[0] != c
    ensures forall i | 0 <= i < |s| - |r| :: s[i] == c
  {
    if |s| > 0 && s[0] == c then TrimLeftChar(s[1..], c) else s
  }

  predicate HasPrefix(s: string, p: string) { |p| <= |s| && s[..|p|] == p }

  /** `r` occurs in `s` starting at position `k`. */
  predicate InfixAt(r: string, s: string, k: int) { 0 <= k && k + |r| <= |s| && s[k..k + |r|] == r }

  /** Text found in `body` is found in `head + body`, shifted by the length of `head`. */
  lemma InfixBehindPrefix(line: string, head: string, body: string, k: int)
    requires InfixAt(line, body, k)
    ensures InfixAt(line, head + body, |head| + k)
  {
    assert (head + body)[|head| + k..|head| + k + |line|] == body[k..k + |line|];
  }

  /** `strings.Join`. */
  function Join(parts: seq<string>, sep: string): (r: string)
    ensures parts == [] ==> r == ""
    ensures |parts| == 1 ==> r == parts[0]
  {
    if |parts| == 0 then ""
    else if |parts| == 1 then parts[0]
    else parts[0] + sep + Join(parts[1..], sep)
  }

  /** Every part of a join occurs in it as an infix. */
  lemma {:induction false} JoinContainsPart(parts: seq<string>, sep: string, i: nat)
    requires i < |parts|
    ensures exists k :: InfixAt(parts[i], Join(parts, sep), k)
  {
    var j := Join(parts, sep);
    if i == 0 {
      assert InfixAt(parts[0], j, 0);
    } else {
      JoinContainsPart(parts[1..], sep, i - 1);
      var rest := Join(parts[1..], sep);
      var k :| InfixAt(parts[i], rest, k);
      var off := |parts[0]| + |sep|;
      assert j == parts[0] + sep + rest;
      assert j[off + k..off + k + |parts[i]|] == rest[k..k + |parts[i]|];
      assert InfixAt(parts[i], j, off + k);
    }
  }

  function DigitChar(d: nat): (c: char)
    requires d < 10
    ensures IsDigit(c)
  {
    "0123456789"[d]
  }

  function DigitValue(c: char): (d: nat)
    requires IsDigit(c)
    ensures d < 10
  {
    (c as int - '0' as int) as nat
  }

  /** Decimal digits of a natural number, most significant first, without leading zeros. */
  function NatDigits(n: nat): (r: string)
    ensures |r| > 0 && AllDigits(r)
    ensures n > 0 ==> r[0] != '0'
    decreases n
  {
    if n < 10 then [DigitChar(n)] else NatDigits(n / 10) + [DigitChar(n % 10)]
  }

  /** `strconv.Itoa(n)` and `fmt.Sprintf("%d", n)`. */
  function Decimal(n: int): string
  {
    if n < 0 then "-" + NatDigits(-n) else NatDigits(n)
  }

  /** The value of a string of decimal digits. */
  function DigitsValue(s: string): nat
    requires AllDigits(s)
  {
    if |s| == 0 then 0 else DigitsValue(s[..|s| - 1]) * 10 + DigitValue(s[|s| - 1])
  }

  /** `strconv.Atoi`: an optional sign followed by at least one decimal digit and nothing
      else, whose value fits Go's 64-bit `int`; anything else is an error. */
  function Atoi(s: string): (r: Option<int>)
    ensures r.Some? ==> MinInt64 <= r.value <= MaxInt64
    ensures r.Some? ==> |s| > 0 && (AllDigits(s) || ((s[0] == '-' || s[0] == '+') && AllDigits(s[1..])))
  {
    if |s| == 0 then None
    else
      var body := if s[0] == '-' || s[0] == '+' then s[1..] else s;
      if |body| == 0 || !AllDigits(body) then None
      else
        var n: int := DigitsValue(body);
        var v: int := if s[0] == '-' then -n else n;
        if MinInt64 <= v <= MaxInt64 then Some(v) else None
  }

  lemma {:induction false} DigitRoundTrip(d: nat)
    requires d < 10
    ensures DigitValue(DigitChar(d)) == d
  {
  }

  /** Reading back the digits of `n` gives `n`. */
  lemma {:induction false} NatDigitsValue(n: nat)
    ensures DigitsValue(NatDigits(n)) == n
    decreases n
  {
    var r := NatDigits(n);
    if n < 10 {
      DigitRoundTrip(n);
      assert r[..0] == "";
    } else {
      NatDigitsValue(n / 10);
      DigitRoundTrip(n % 10);
      assert r[..|r| - 1] == NatDigits(n / 10);
    }
  }

  /** `strconv.Atoi(strconv.Itoa(n)) == n` for every Go `int`. */
  lemma DecimalRoundTrip(n: int)
    requires MinInt64 <= n <= MaxInt64
    ensures Atoi(Decimal(n)) == Some(n)
  {
    if n < 0 {
      NegativeDecimalRoundTrip(n);
    } else {
      NatDigitsValue(n);
      var d := NatDigits(n);
      assert d[0] != '-' && d[0] != '+';
    }
  }

  lemma NegativeDecimalRoundTrip(n: int)
    requires MinInt64 <= n < 0
    ensures Atoi(Decimal(n)) == Some(n)
  {
    var m: nat := -n;
    var body := NatDigits(m);
    var d := "-" + body;
    assert Decimal(n) == d;
    NatDigitsValue(m);
    assert d[0] == '-' && d[1..] == body;
    assert |body| > 0 && AllDigits(body) && DigitsValue(body) == m;
  }

  /** The decimal rendering of a positive number is digits only. */
  lemma PositiveDecimalDigits(n: int)
    requires n > 0
    ensures Decimal(n) == NatDigits(n) && AllDigits(Decimal(n)) && |Decimal(n)| > 0
  {
  }

  lemma Decimal254()
    ensures Decimal(254) == "254"
  {
    assert NatDigits(2) == "2";
    assert NatDigits(25) == "25";
  }
}
