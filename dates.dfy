/** The date helpers of the `utils` package: `FormatDate`, which re-formats a date or a
    date-time through Go's `time.Parse` and `Time.Format`, and the two slicing formatters
    applied to values read back from the database. */
module Dates {
  import opened Base
  import Utils

  /** A calendar date as `time.Parse` yields it for the layout "2006-01-02". */
  datatype Date = Date(year: int, month: int, day: int)

  /** Why `FormatDate` fails: a length other than 10 or 19, text `time.Parse` rejects, or a
      parsed value whose re-formatted length differs from the requested one. */
  datatype DateError = InvalidDesiredLength | Unparsable | InvalidInputFormat

  predicate IsLeap(year: int)
  {
    year % 4 == 0 && (year % 100 != 0 || year % 400 == 0)
  }

  /** Go's `daysIn`: the length of a month, February having 29 days in leap years. */
  function DaysIn(month: int, year: int): (r: int)
    requires 1 <= month <= 12
    ensures 28 <= r <= 31
    ensures r == 29 <==> month == 2 && IsLeap(year)
  {
    if month == 2 then (if IsLeap(year) then 29 else 28)
    else if month == 4 || month == 6 || month == 9 || month == 11 then 30
    else 31
  }

  /** A date `Time.Format` can write in four-digit-year form and `time.Parse` accepts. */
  predicate ValidDate(d: Date)
  {
    0 <= d.year <= 9999 && 1 <= d.month <= 12 && 1 <= d.day <= DaysIn(d.month, d.year)
  }

  /** Two decimal digits, zero-padded. */
  function Pad2(n: int): (r: string)
    requires 0 <= n < 100
    ensures |r| == 2 && AllDigits(r)
  {
    [DigitChar(n / 10), DigitChar(n % 10)]
  }

  /** Four decimal digits, zero-padded. */
  function Pad4(n: int): (r: string)
    requires 0 <= n < 10000
    ensures |r| == 4 && AllDigits(r)
  {
    Pad2(n / 100) + Pad2(n % 100)
  }

  /** The value of the two digits at `i`. */
  function TwoDigits(s: string, i: int): (r: int)
    requires 0 <= i && i + 2 <= |s| && IsDigit(s[i]) && IsDigit(s[i + 1])
    ensures 0 <= r < 100
  {
    DigitValue(s[i]) * 10 + DigitValue(s[i + 1])
  }

  /** `Time.Format` with the layout "2006-01-02". */
  function RenderDate(d: Date): (r: string)
    requires ValidDate(d)
    ensures |r| == 10 && r[4] == '-' && r[7] == '-'
  {
    Pad4(d.year) + "-" + Pad2(d.month) + "-" + Pad2(d.day)
  }

  /** The text has the shape "dddd-dd-dd". */
  predicate DateShape(s: string)
  {
    && |s| == 10 && s[4] == '-' && s[7] == '-'
    && IsDigit(s[0]) && IsDigit(s[1]) && IsDigit(s[2]) && IsDigit(s[3])
    && IsDigit(s[5]) && IsDigit(s[6]) && IsDigit(s[8]) && IsDigit(s[9])
  }

  /** `time.Parse("2006-01-02", s)`: exactly four year digits, two month digits in 1..12,
      two day digits within the month, and no further text. */
  function ParseDate(s: string): (r: Option<Date>)
    ensures r.Some? ==> ValidDate(r.value)
  {
    if !DateShape(s) then None
    else
      var d := Date(TwoDigits(s, 0) * 100 + TwoDigits(s, 2), TwoDigits(s, 5), TwoDigits(s, 8));
      if 1 <= d.month <= 12 && 1 <= d.day <= DaysIn(d.month, d.year) then Some(d) else None
  }

  lemma {:induction false} Pad2Value(n: int)
    requires 0 <= n < 100
    ensures TwoDigits(Pad2(n), 0) == n
  {
    DigitRoundTrip(n / 10);
    DigitRoundTrip(n % 10);
  }

  /** Parsing what `RenderDate` wrote gives the date back. */
  lemma {:induction false} ParseRenderDate(d: Date)
    requires ValidDate(d)
    ensures ParseDate(RenderDate(d)) == Some(d)
  {
    var s := RenderDate(d);
    RenderDateDigits(d);
    assert (d.year / 100) * 100 + d.year % 100 == d.year;
  }

  /** The digit pairs of a rendered date hold its century, year of century, month and day. */
  lemma {:induction false} RenderDateDigits(d: Date)
    requires ValidDate(d)
    ensures var s := RenderDate(d);
            && DateShape(s)
            && TwoDigits(s, 0) == d.year / 100 && TwoDigits(s, 2) == d.year % 100
            && TwoDigits(s, 5) == d.month && TwoDigits(s, 8) == d.day
  {
    var s := RenderDate(d);
    Pad2Value(d.year / 100);
    Pad2Value(d.year % 100);
    Pad2Value(d.month);
    Pad2Value(d.day);
    assert s[0..2] == Pad2(d.year / 100) && s[2..4] == Pad2(d.year % 100);
    assert s[5..7] == Pad2(d.month) && s[8..10] == Pad2(d.day);
    PairAt(s, 0, Pad2(d.year / 100));
    PairAt(s, 2, Pad2(d.year % 100));
    PairAt(s, 5, Pad2(d.month));
    PairAt(s, 8, Pad2(d.day));
  }

  lemma PairAt(s: string, i: int, p: string)
    requires |p| == 2 && AllDigits(p) && 0 <= i && i + 2 <= |s| && s[i..i + 2] == p
    ensures IsDigit(s[i]) && IsDigit(s[i + 1]) && TwoDigits(s, i) == TwoDigits(p, 0)
  {
    assert s[i] == p[0] && s[i + 1] == p[1];
  }

  lemma {:induction false} TwoDigitsRender(s: string, i: int)
    requires 0 <= i && i + 2 <= |s| && IsDigit(s[i]) && IsDigit(s[i + 1])
    ensures Pad2(TwoDigits(s, i)) == s[i..i + 2]
  {
    var n := TwoDigits(s, i);
    var a := DigitValue(s[i]);
    var b := DigitValue(s[i + 1]);
    assert n / 10 == a && n % 10 == b;
    assert DigitChar(a) == s[i] && DigitChar(b) == s[i + 1];
  }

  /** Writing back what `ParseDate` read gives the text back: the layout has no optional or
      variable-width part. */
  lemma {:induction false} RenderParseDate(s: string)
    requires ParseDate(s).Some?
    ensures RenderDate(ParseDate(s).value) == s
  {
    var d := ParseDate(s).value;
    TwoDigitsRender(s, 0);
    TwoDigitsRender(s, 2);
    TwoDigitsRender(s, 5);
    TwoDigitsRender(s, 8);
    assert d.year / 100 == TwoDigits(s, 0) && d.year % 100 == TwoDigits(s, 2);
    assert s == s[0..2] + s[2..4] + "-" + s[5..7] + "-" + s[8..10];
  }

  /** A date-time `time.Parse` accepts for the layout "2006-01-02T15:04:05Z": a date, a
      'T', an hour of one or two digits below 24, two-digit minutes and seconds below 60, an
      optional fraction of a second ('.' or ',' and digits), and a literal 'Z' ending the
      text. */
  predicate ParsesAsIsoZulu(s: string)
  {
    && |s| >= 11 && ParseDate(s[..10]).Some? && s[10] == 'T'
    && var t := s[11..];
       && |t| >= 1 && IsDigit(t[0])
       && var hourLen := if |t| >= 2 && IsDigit(t[1]) then 2 else 1;
          && var hour := if hourLen == 2 then TwoDigits(t, 0) else DigitValue(t[0]);
             hour < 24 && ClockTailParses(t[hourLen..])
  }

  /** ":MM:SS", an optional fraction and "Z", as the rest of the date-time layout. */
  predicate ClockTailParses(u: string)
  {
    && |u| >= 7 && u[0] == ':' && IsDigit(u[1]) && IsDigit(u[2]) && TwoDigits(u, 1) < 60
    && u[3] == ':' && IsDigit(u[4]) && IsDigit(u[5]) && TwoDigits(u, 4) < 60
    && var f := u[6..];
       if |f| >= 2 && (f[0] == '.' || f[0] == ',') && IsDigit(f[1]) then
         var n := FractionLength(f, 2);
         f[n..] == "Z"
       else f == "Z"
  }

  /** The end of the run of digits starting at `i`. */
  function FractionLength(f: string, i: nat): (n: nat)
    requires i <= |f|
    ensures i <= n <= |f|
    ensures n < |f| ==> !IsDigit(f[n])
    decreases |f| - i
  {
    if i < |f| && IsDigit(f[i]) then FractionLength(f, i + 1) else i
  }

  /** `FormatDate(inputDate, desiredLength)`. With length 10 the date is parsed and
      written back in the same layout. With length 19 the parse layout ends in a literal
      'Z', so a parsed value is formatted to 20 characters and the length test fails. */
  function FormatDate(inputDate: string, desiredLength: int): (r: Result<string, DateError>)
    ensures desiredLength != 10 && desiredLength != 19 ==> r == Err(InvalidDesiredLength)
    ensures desiredLength == 10 ==> (r.Ok? <==> ParseDate(inputDate).Some?)
    ensures desiredLength == 10 && r.Ok? ==> r.value == inputDate
    ensures desiredLength == 19 ==> r.Err?
  {
    if desiredLength == 19 then
      if !ParsesAsIsoZulu(inputDate) then Err(Unparsable)
      // a parsed value is re-formatted as "yyyy-mm-ddThh:mm:ssZ", 20 characters
      else Err(InvalidInputFormat)
    else if desiredLength == 10 then
      match ParseDate(inputDate)
      case None => Err(Unparsable)
      case Some(d) =>
        RenderParseDate(inputDate);
        if |RenderDate(d)| != desiredLength then Err(InvalidInputFormat) else Ok(RenderDate(d))
    else Err(InvalidDesiredLength)
  }

  /** `FormatDate(_, 10)` is idempotent: its output is accepted and returned unchanged. */
  lemma FormatDateIdempotent(inputDate: string)
    requires FormatDate(inputDate, 10).Ok?
    ensures FormatDate(FormatDate(inputDate, 10).value, 10) == FormatDate(inputDate, 10)
  {
  }

  /** Every valid date round-trips through its rendering. */
  lemma FormatDateAcceptsRendered(d: Date)
    requires ValidDate(d)
    ensures FormatDate(RenderDate(d), 10) == Ok(RenderDate(d))
  {
    ParseRenderDate(d);
  }

  /** February 29th is accepted exactly in leap years. */
  lemma LeapDay(year: int)
    requires 0 <= year <= 9999
    ensures ValidDate(Date(year, 2, 29)) <==> IsLeap(year)
  {
  }

  /** `DatetimeFormatter`: the first 19 characters with the first 'T' turned into a space.
      Shorter input makes the slice expression panic. */
  function DatetimeFormatter(input: string): (r: string)
    requires |input| >= 19
    ensures |r| == 19
    ensures var k := Utils.FirstIndex(input[..19], 'T');
            forall i | 0 <= i < 19 :: r[i] == (if i == k then ' ' else input[i])
  {
    var head := input[..19];
    var k := Utils.FirstIndex(head, 'T');
    if k < 0 then head else head[..k] + " " + head[k + 1..]
  }

  /** An ISO date-time "yyyy-mm-ddThh:mm:ss..." becomes "yyyy-mm-dd hh:mm:ss". */
  lemma DatetimeFormatterIso(input: string)
    requires |input| >= 19 && DateShape(input[..10]) && input[10] == 'T'
    ensures DatetimeFormatter(input) == input[..10] + " " + input[11..19]
  {
    var k := Utils.FirstIndex(input[..19], 'T');
    assert 'T' !in input[..10] by {
      assert forall i | 0 <= i < 10 :: input[..10][i] == '-' || IsDigit(input[..10][i]);
    }
    assert input[..19][..10] == input[..10];
    assert k == 10;
  }

  /** A text without 'T' in its first 19 characters (a MySQL DATETIME "yyyy-mm-dd
      hh:mm:ss") is cut to 19 characters and otherwise kept. */
  lemma DatetimeFormatterKeeps(input: string)
    requires |input| >= 19 && 'T' !in input[..19]
    ensures DatetimeFormatter(input) == input[..19]
  {
  }

  /** `DateFormatter`: the first ten characters. Shorter input makes the slice expression
      panic. */
  function DateFormatter(input: string): (r: string)
    requires |input| >= 10
    ensures |r| == 10 && HasPrefix(input, r)
  {
    input[..10]
  }

  /** A stored DATE or DATETIME value beginning with a valid date is cut to a date that
      `FormatDate(_, 10)` accepts unchanged. */
  lemma DateFormatterGivesDate(input: string)
    requires |input| >= 10 && ParseDate(input[..10]).Some?
    ensures FormatDate(DateFormatter(input), 10) == Ok(input[..10])
  {
  }
}
