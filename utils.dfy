/** The string and number helpers of the `utils` package: parameter parsing, phone
    normalisation and validation, e-mail and full-name validation, and a few lookups. */
module Utils {
  import opened Base

  /** `ZeroToOne`: toggles a 0/1 flag, reading anything but 1 as 0. */
  function ZeroToOne(val: int): (r: int)
    ensures r == 0 || r == 1
    ensures r == 0 <==> val == 1
  {
    if val == 1 then 0 else 1
  }

  /** `TrimInt`: the integer written in `s` once white space is trimmed, or 0 when it does
      not parse. */
  function TrimInt(s: string): (r: int)
    ensures Atoi(TrimSpace(s)).None? ==> r == 0
    ensures Atoi(TrimSpace(s)).Some? ==> r == Atoi(TrimSpace(s)).value
  {
    match Atoi(TrimSpace(s))
    case Some(v) => v
    case None => 0
  }

  /** `TrimInt(strconv.Itoa(x))` gives back `x`. */
  lemma TrimIntOfDecimal(x: int)
    requires MinInt64 <= x <= MaxInt64
    ensures TrimInt(Decimal(x)) == x
  {
    var d := Decimal(x);
    if x < 0 {
      assert d[0] == '-';
    } else {
      assert IsDigit(d[0]);
    }
    assert IsDigit(d[|d| - 1]);
    TrimSpaceFixed(d);
    DecimalRoundTrip(x);
  }

  /** `QueryParamToIntWithDefault` and `PathParamToIntWithDefault` (same body, applied to a
      query or a path parameter): the raw parameter text is an input here. */
  function ParamToIntWithDefault(raw: string, defaultValue: int): (r: int)
    ensures Atoi(TrimSpace(raw)) == None || Atoi(TrimSpace(raw)) == Some(0) ==> r == defaultValue
    ensures Atoi(TrimSpace(raw)).Some? && Atoi(TrimSpace(raw)).value != 0 ==> r == Atoi(TrimSpace(raw)).value
  {
    var v := TrimInt(raw);
    if v == 0 then defaultValue else v
  }

  /** The code `MakePhoneValid` prefixes: the configured one, or 254 when none is set. */
  function EffectiveCountryCode(cc: int): (r: int)
    ensures r > 0
  {
    if cc <= 0 then 254 else cc
  }

  /** The phone with surrounding white space trimmed and every ' ' and '+' removed. */
  function CleanPhone(phone: string): (r: string)
    ensures ' ' !in r && '+' !in r
  {
    RemoveChar(RemoveChar(TrimSpace(phone), ' '), '+')
  }

  /** `MakePhoneValid`: `cc` is the integer read from COUNTRY_CODE (0 when it is unset or
      does not parse). */
  function MakePhoneValid(phone: string, cc: int): (r: string)
    ensures ' ' !in r && '+' !in r
    ensures HasPrefix(r, Decimal(EffectiveCountryCode(cc)))
    ensures var p := CleanPhone(phone);
            |p| == 12 && p[..3] == Decimal(EffectiveCountryCode(cc)) ==> r == p
  {
    var p := CleanPhone(phone);
    var code := Decimal(EffectiveCountryCode(cc));
    PositiveDecimalDigits(EffectiveCountryCode(cc));
    assert ' ' !in code && '+' !in code by {
      forall i | 0 <= i < |code| ensures code[i] != ' ' && code[i] != '+' {
        assert IsDigit(code[i]);
      }
    }
    if |p| == 12 && p[..3] == code then p
    else if HasPrefix(p, "0") then code + TrimLeftChar(p, '0')
    else code + p
  }

  /** `IsPhoneValid`: exactly 12 characters whose first three are the decimal rendering of
      the configured code; unlike `MakePhoneValid` there is no default of 254. */
  predicate IsPhoneValid(phone: string, cc: int)
  {
    |phone| == 12 && phone[..3] == Decimal(cc)
  }

  /** With COUNTRY_CODE unset (read as 0) no phone is valid. */
  lemma NoPhoneValidWithoutCountryCode(phone: string)
    ensures !IsPhoneValid(phone, 0)
  {
    assert Decimal(0) == "0";
  }

  /** For a configured three-digit code, a normalised phone is valid exactly when it has 12
      characters. */
  lemma {:induction false} NormalizedValidIffTwelve(phone: string, cc: int)
    requires 100 <= cc <= 999
    ensures IsPhoneValid(MakePhoneValid(phone, cc), cc) <==> |MakePhoneValid(phone, cc)| == 12
  {
    var r := MakePhoneValid(phone, cc);
    assert |Decimal(cc)| == 3 by { ThreeDigitDecimal(cc); }
    assert HasPrefix(r, Decimal(cc));
  }

  lemma ThreeDigitDecimal(cc: int)
    requires 100 <= cc <= 999
    ensures |Decimal(cc)| == 3
  {
    var a := cc / 10;
    var b := a / 10;
    assert 1 <= b <= 9 && 10 <= a <= 99;
    assert |NatDigits(b)| == 1;
    assert |NatDigits(a)| == 2;
    assert Decimal(cc) == NatDigits(cc);
  }

  /** A phone already in normal form (no surrounding white space, no ' ' or '+', twelve
      characters beginning with the code) is returned unchanged. */
  lemma MakePhoneValidKeepsNormal(phone: string, cc: int)
    requires TrimSpace(phone) == phone && ' ' !in phone && '+' !in phone
    requires |phone| == 12 && phone[..3] == Decimal(EffectiveCountryCode(cc))
    ensures MakePhoneValid(phone, cc) == phone
  {
  }

  /** Normalising twice is normalising once, whenever the first result is a valid-length
      number without white space at its ends and the code has three digits. */
  lemma MakePhoneValidIdempotent(phone: string, cc: int)
    requires 100 <= EffectiveCountryCode(cc) <= 999
    requires |MakePhoneValid(phone, cc)| == 12
    requires !IsSpace(MakePhoneValid(phone, cc)[0]) && !IsSpace(MakePhoneValid(phone, cc)[11])
    ensures MakePhoneValid(MakePhoneValid(phone, cc), cc) == MakePhoneValid(phone, cc)
  {
    var r := MakePhoneValid(phone, cc);
    ThreeDigitDecimal(EffectiveCountryCode(cc));
    TrimSpaceFixed(r);
    MakePhoneValidKeepsNormal(r, cc);
  }

  /** The trailing-white-space case is not idempotent: a tab hidden behind a '+' (as in
      "07\t+", see `CleanTabBehindPlus`) survives the first trimming and is removed by the
      second, which then prefixes the code once more. */
  lemma TabBehindPlusNotIdempotent(phone: string)
    requires CleanPhone(phone) == "07\t"
    ensures MakePhoneValid(phone, 254) == "2547\t"
    ensures MakePhoneValid("2547\t", 254) != "2547\t"
  {
    Decimal254();
    TrimLeadingZeroOfTab();
    MakePhoneValidLeadingZero(phone, 254);
    assert "254" + "7\t" == "2547\t";
    CleanTrailingTab();
    MakePhoneValidPrefixes("2547\t", 254);
  }

  lemma MakePhoneValidLeadingZero(phone: string, cc: int)
    requires var p := CleanPhone(phone); |p| != 12 && HasPrefix(p, "0")
    ensures MakePhoneValid(phone, cc) == Decimal(EffectiveCountryCode(cc)) + TrimLeftChar(CleanPhone(phone), '0')
  {
  }

  lemma MakePhoneValidPrefixes(phone: string, cc: int)
    requires var p := CleanPhone(phone); |p| != 12 && !HasPrefix(p, "0")
    ensures MakePhoneValid(phone, cc) == Decimal(EffectiveCountryCode(cc)) + CleanPhone(phone)
  {
  }

  lemma TrimLeadingZeroOfTab()
    ensures TrimLeftChar("07\t", '0') == "7\t"
  {
    var p := "07\t";
    assert p[1..] == "7\t" && p[1] != '0';
  }

  lemma CleanTabBehindPlus()
    ensures CleanPhone("07\t+") == "07\t"
  {
    TrimTabBehindPlus();
    NoSpaceInTabBehindPlus();
    RemovePlusBehindTab();
  }

  lemma TrimTabBehindPlus()
    ensures TrimSpace("07\t+") == "07\t+"
  {
    var p := "07\t+";
    assert p[0] == '0' && p[3] == '+';
    TrimSpaceFixed(p);
  }

  lemma NoSpaceInTabBehindPlus()
    ensures RemoveChar("07\t+", ' ') == "07\t+"
  {
    var p := "07\t+";
    assert forall i | 0 <= i < 4 :: p[i] != ' ';
  }

  lemma RemovePlusBehindTab()
    ensures RemoveChar("07\t+", '+') == "07\t"
  {
    var p := "07\t+";
    assert RemoveChar("+", '+') == "";
    assert RemoveChar(p[2..], '+') == "\t";
    assert RemoveChar(p[1..], '+') == "7\t";
  }

  lemma CleanTrailingTab()
    ensures CleanPhone("2547\t") == "2547"
  {
    TrimTrailingTab();
    CleanPhoneOfPlain("2547\t", "2547");
  }

  lemma CleanPhoneOfPlain(phone: string, p: string)
    requires TrimSpace(phone) == p && AllDigits(p)
    ensures CleanPhone(phone) == p
  {
    assert ' ' !in p && '+' !in p by {
      forall i | 0 <= i < |p| ensures p[i] != ' ' && p[i] != '+' {
        assert IsDigit(p[i]);
      }
    }
  }

  lemma TrimTrailingTab()
    ensures TrimSpace("2547\t") == "2547" && AllDigits("2547")
  {
    var q := "2547\t";
    assert !IsSpace(q[0]) && IsSpace(q[4]);
    assert TrimLeftSpace(q) == q;
    assert q[..4] == "2547";
    var p := "2547";
    assert !IsSpace(p[3]);
    assert TrimRightSpace(p) == p;
  }

  /** A Kenyan mobile in local form, "0712345678", normalizes to "254712345678". */
  lemma LocalFormTrimmed()
    ensures TrimSpace("0712345678") == "0712345678"
  {
    var p := "0712345678";
    assert !IsSpace(p[0]) && !IsSpace(p[9]);
    TrimSpaceFixed(p);
  }

  lemma LocalFormIsKept()
    ensures CleanPhone("0712345678") == "0712345678"
  {
    LocalFormTrimmed();
    LocalFormIsDigits();
  }

  lemma LocalFormIsDigits()
    ensures ' ' !in "0712345678" && '+' !in "0712345678"
  {
    assert AllDigits("0712345678");
  }

  lemma LocalFormNormalizes()
    ensures MakePhoneValid("0712345678", 254) == "254712345678"
  {
    LocalFormIsKept();
    LocalFormWithoutZero();
    MakePhoneValidLeadingZero("0712345678", 254);
    Decimal254();
    LocalFormPrefixed();
  }

  lemma LocalFormPrefixed()
    ensures "254" + "712345678" == "254712345678"
  {
  }

  lemma LocalFormWithoutZero()
    ensures TrimLeftChar("0712345678", '0') == "712345678"
  {
    var p := "0712345678";
    assert p[1..] == "712345678" && p[1] != '0';
  }

  lemma {:induction false} RemoveCharAppend(a: string, b: string, c: char)
    ensures RemoveChar(a + b, c) == RemoveChar(a, c) + RemoveChar(b, c)
  {
    if |a| > 0 {
      assert (a + b)[1..] == a[1..] + b;
      RemoveCharAppend(a[1..], b, c);
    } else {
      assert a + b == b;
    }
  }

  /** `TruncateString`: the first `length` characters, or the whole string when shorter.
      A negative length makes the slice expression panic, which is `None` here. */
  function TruncateString(input: string, length: int): (r: Option<string>)
    ensures r.None? <==> length < 0
    ensures r.Some? && |input| <= length ==> r.value == input
    ensures r.Some? && |input| > length ==> |r.value| == length
    ensures r.Some? ==> HasPrefix(input, r.value)
  {
    if |input| <= length then Some(input)
    else if length < 0 then None
    else Some(input[..length])
  }

  predicate IsAsciiUpper(c: char) { 'A' <= c <= 'Z' }

  /** `unicode.ToLower` on ASCII letters. */
  function ToLower(c: char): (r: char)
    ensures !IsAsciiUpper(r)
    ensures !IsAsciiUpper(c) ==> r == c
  {
    if IsAsciiUpper(c) then (c as int + 32) as char else c
  }

  /** What character `i` of the input becomes in `PascalCaseToSeparatedWords`: the first
      character is lowered; every later upper-case letter starts a new word, so it is
      lowered and preceded by a space; every other character is kept. */
  function Piece(s: string, i: nat): (r: string)
    requires i < |s|
  {
    if i == 0 then [ToLower(s[0])]
    else if IsAsciiUpper(s[i]) then [' ', ToLower(s[i])]
    else [s[i]]
  }

  /** The pieces of `s[..n]` laid end to end. */
  function Separated(s: string, n: nat): (r: string)
    requires n <= |s|
  {
    if n == 0 then "" else Separated(s, n - 1) + Piece(s, n - 1)
  }

  /** Every ASCII upper-case letter of the input is lowered in the output. */
  lemma {:induction false} SeparatedHasNoUpper(s: string, n: nat)
    requires n <= |s|
    ensures forall j | 0 <= j < |Separated(s, n)| :: !IsAsciiUpper(Separated(s, n)[j])
    ensures |Separated(s, n)| >= n
  {
    if n > 0 {
      SeparatedHasNoUpper(s, n - 1);
    }
  }

  lemma {:induction false} JoinSnoc(ws: seq<string>, w: string, sep: string)
    requires |ws| > 0
    ensures Join(ws + [w], sep) == Join(ws, sep) + sep + w
  {
    if |ws| == 1 {
      assert ws + [w] == [ws[0], w];
    } else {
      assert (ws + [w])[1..] == ws[1..] + [w];
      JoinSnoc(ws[1..], w, sep);
    }
  }

  /** `PascalCaseToSeparatedWords` (ASCII letters): splits before every upper-case letter
      after the first character and lowers the first letter of every word. */
  method PascalCaseToSeparatedWords(input: string) returns (r: string)
    ensures r == Separated(input, |input|)
  {
    var words: seq<string> := [];
    var currentWord := "";
    var i := 0;
    while i < |input|
      invariant 0 <= i <= |input|
      invariant i == 0 ==> words == [] && currentWord == ""
      invariant i > 0 ==> |currentWord| > 0 && Join(words + [currentWord], " ") == Separated(input, i)
    {
      var ch := input[i];
      if i == 0 {
        currentWord := currentWord + [ToLower(ch)];
      } else if IsAsciiUpper(ch) {
        JoinSnoc(words + [currentWord], [ToLower(ch)], " ");
        words := words + [currentWord];
        currentWord := [ToLower(ch)];
      } else {
        ghost var before := words + [currentWord];
        currentWord := currentWord + [ch];
        JoinLastGrows(words, before[|before| - 1], [ch], " ");
      }
      i := i + 1;
    }
    if |currentWord| > 0 {
      words := words + [currentWord];
    }
    r := Join(words, " ");
  }

  /** Extending the last word of a join extends the join. */
  lemma JoinLastGrows(ws: seq<string>, w: string, tail: string, sep: string)
    ensures Join(ws + [w + tail], sep) == Join(ws + [w], sep) + tail
  {
    if |ws| > 0 {
      JoinSnoc(ws, w + tail, sep);
      JoinSnoc(ws, w, sep);
    }
  }

  /** `GeneratePlaceholders`: `length` question marks separated by ", ". */
  method GeneratePlaceholders(length: int) returns (r: string)
    ensures length <= 0 ==> r == ""
    ensures length > 0 ==> |r| == 3 * length - 2
    ensures forall k | 0 <= k < |r| ::
              r[k] == (if k % 3 == 0 then '?' else if k % 3 == 1 then ',' else ' ')
  {
    var placeholders: seq<string> := [];
    var i := 0;
    while i < length
      invariant 0 <= i && (length > 0 ==> i <= length) && (length <= 0 ==> i == 0)
      invariant |placeholders| == i
      invariant forall j | 0 <= j < i :: placeholders[j] == "?"
      invariant i > 0 ==> |Join(placeholders, ", ")| == 3 * i - 2
      invariant forall k | 0 <= k < |Join(placeholders, ", ")| ::
                  Join(placeholders, ", ")[k] == (if k % 3 == 0 then '?' else if k % 3 == 1 then ',' else ' ')
    {
      if i > 0 {
        JoinSnoc(placeholders, "?", ", ");
      }
      placeholders := placeholders + ["?"];
      i := i + 1;
    }
    r := Join(placeholders, ", ");
  }

  /** `IntSliceContains`: a linear search that stops at the first match. */
  method IntSliceContains(slice: seq<int>, val: int) returns (found: bool)
    ensures found <==> val in slice
  {
    var i := 0;
    while i < |slice|
      invariant 0 <= i <= |slice|
      invariant val !in slice[..i]
    {
      if slice[i] == val {
        return true;
      }
      i := i + 1;
    }
    assert slice[..i] == slice;
    return false;
  }

  /** `CustomerStatusName`: the names of the customer status codes 0 to 4 of the customer
      model (DELETED, ACTIVE, BLOCKED, LEAD, DRAFT). */
  function CustomerStatusName(status: int): (r: string)
    ensures r == "Unknown" <==> !(0 <= status <= 4)
    ensures status == 2 ==> r == "Blocked"
  {
    match status
    case 0 => "Deleted"
    case 1 => "Active"
    case 2 => "Blocked"
    case 3 => "Lead"
    case 4 => "Draft"
    case _ => "Unknown"
  }

  /** Distinct known statuses have distinct names. */
  lemma CustomerStatusNamesDistinct(a: int, b: int)
    requires 0 <= a <= 4 && 0 <= b <= 4 && a != b
    ensures CustomerStatusName(a) != CustomerStatusName(b)
  {
  }

  /** The validator tags `GetErrorMsg` knows. */
  const KnownTags: set<string> := {"required", "lt", "lte", "gt", "gte", "email", "min", "max",
    "alpha", "alphanum", "numeric", "eq", "oneof", "url", "datetime"}

  /** The tags whose message quotes the tag's parameter. */
  const ParamTags: set<string> := {"lt", "lte", "gt", "gte", "min", "max", "eq", "oneof"}

  /** The fixed part of the message for a tag that quotes its parameter. */
  function ParamMessagePrefix(tag: string): string
    requires tag in ParamTags
  {
    if tag == "lt" || tag == "lte" then "Should be less than "
    else if tag == "gt" || tag == "gte" then "Should be greater than "
    else if tag == "min" then "Minimum length is "
    else if tag == "max" then "Maximum length is "
    else if tag == "eq" then "Should be equal to "
    else "Invalid value. Allowed values are "
  }

  /** The message for a tag that does not quote its parameter. */
  function FixedMessage(tag: string): string
  {
    if tag == "required" then "This field is required"
    else if tag == "email" then "Invalid email address"
    else if tag == "alpha" then "Should contain only alphabets"
    else if tag == "alphanum" then "Should contain only alphabets and numbers"
    else if tag == "numeric" then "Should contain only numbers"
    else if tag == "url" then "Invalid URL"
    else if tag == "datetime" then "Invalid date format"
    else "Unknown error"
  }

  /** `GetErrorMsg`: the message for a failed validator tag; `param` is the tag's parameter. */
  function GetErrorMsg(tag: string, param: string): (r: string)
    ensures r == "Unknown error" <==> tag !in KnownTags
    ensures tag in ParamTags ==> |r| > |param| && r[|r| - |param|..] == param
  {
    if tag in ParamTags then
      var prefix := ParamMessagePrefix(tag);
      assert |prefix| > 0;
      assert (prefix + param)[|prefix|..] == param;
      prefix + param
    else FixedMessage(tag)
  }

  /** The index of the first `c` in `s`, or -1. */
  function FirstIndex(s: string, c: char): (k: int)
    ensures -1 <= k < |s|
    ensures k == -1 <==> c !in s
    ensures k >= 0 ==> s[k] == c && c !in s[..k]
  {
    if |s| == 0 then -1
    else if s[0] == c then 0
    else
      var k := FirstIndex(s[1..], c);
      assert s[1..][..k + 1] == s[1..k + 2] by { }
      if k == -1 then -1 else k + 1
  }

  /** The index of the last `c` in `s`, or -1. */
  function LastIndex(s: string, c: char): (k: int)
    ensures -1 <= k < |s|
    ensures k == -1 <==> c !in s
    ensures k >= 0 ==> s[k] == c && c !in s[k + 1..]
  {
    if |s| == 0 then -1
    else if s[|s| - 1] == c then |s| - 1
    else
      var k := LastIndex(s[..|s| - 1], c);
      assert s == s[..|s| - 1] + [s[|s| - 1]];
      k
  }

  /** `^[a-zA-Z]+ [a-zA-Z]+$` holds with the single space at position `k`. */
  predicate FullNameSplitAt(s: string, k: int)
  {
    0 < k < |s| - 1 && s[k] == ' ' && AllAsciiLetters(s[..k]) && AllAsciiLetters(s[k + 1..])
  }

  /** `IsValidFullName`: two runs of ASCII letters separated by exactly one space. */
  function IsValidFullName(fullName: string): (r: bool)
    ensures r <==> exists k :: FullNameSplitAt(fullName, k)
  {
    var k := FirstIndex(fullName, ' ');
    var r := FullNameSplitAt(fullName, k);
    assert (exists j :: FullNameSplitAt(fullName, j)) ==> r by {
      if j :| FullNameSplitAt(fullName, j) {
        assert ' ' !in fullName[..j] by {
          forall i | 0 <= i < j ensures fullName[..j][i] != ' ' {
            assert IsAsciiLetter(fullName[..j][i]);
          }
        }
        assert k == j;
      }
    }
    r
  }

  predicate IsLocalChar(c: char) { IsAsciiLetter(c) || IsDigit(c) || c in "._%+-" }

  predicate IsDomainChar(c: char) { IsAsciiLetter(c) || IsDigit(c) || c in ".-" }

  /** `^[a-zA-Z0-9._%+-]+@[a-zA-Z0-9.-]+\.[a-zA-Z]{2,}$` holds with the '@' at position `a`
      and the final '.' at position `a + 1 + d`. */
  predicate EmailSplitAt(s: string, a: int, d: int)
  {
    && 0 < a < |s| && s[a] == '@'
    && (forall i | 0 <= i < a :: IsLocalChar(s[i]))
    && 0 < d && a + 1 + d < |s| && s[a + 1 + d] == '.'
    && (forall i | a + 1 <= i < a + 1 + d :: IsDomainChar(s[i]))
    && |s| - (a + 2 + d) >= 2
    && (forall i | a + 2 + d <= i < |s| :: IsAsciiLetter(s[i]))
  }

  /** `IsValidEmail`: the regular expression of the source, decided by splitting at the only
      possible '@' (the first) and the only possible final '.' (the last). */
  function IsValidEmail(email: string): (r: bool)
    ensures r <==> exists a, d :: EmailSplitAt(email, a, d)
  {
    var a := FirstIndex(email, '@');
    if a <= 0 then
      assert !exists a', d' :: EmailSplitAt(email, a', d') by { EmailSplitUnique(email); }
      false
    else
      var rest := email[a + 1..];
      var d := LastIndex(rest, '.');
      var r := EmailSplitAt(email, a, d);
      assert (exists a', d' :: EmailSplitAt(email, a', d')) ==> r by { EmailSplitUnique(email); }
      r
  }

  /** The split of a matching address is forced: '@' is the first '@' and the final '.' is
      the last '.' after it. */
  lemma EmailSplitUnique(email: string)
    ensures forall a, d | EmailSplitAt(email, a, d) ::
              a == FirstIndex(email, '@') && d == LastIndex(email[a + 1..], '.')
  {
    forall a, d | EmailSplitAt(email, a, d)
      ensures a == FirstIndex(email, '@') && d == LastIndex(email[a + 1..], '.')
    {
      assert '@' !in email[..a] by {
        forall i | 0 <= i < a ensures email[..a][i] != '@' {
          assert IsLocalChar(email[i]);
        }
      }
      var rest := email[a + 1..];
      assert '.' !in rest[d + 1..] by {
        forall i | a + 2 + d <= i < |email| ensures email[i] != '.' {
          assert IsAsciiLetter(email[i]);
        }
        assert rest[d + 1..] == email[a + 2 + d..];
      }
      assert rest[d] == '.';
    }
  }
}
