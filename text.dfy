/** The parts of Python's `str` behaviour that the application's renderings
    rely on: `strip()`, `sep.join(...)`, `filter(None, ...)`, `upper()`,
    `lower()`, `capitalize()`, `str(int)`, `str(Decimal)` for a two-place
    decimal, and `strftime('%d.%m.%Y')`. */
module Text {
  import opened Wrappers

  // ---------------------------------------------------------------------
  // Prefixes and suffixes
  // ---------------------------------------------------------------------

  predicate StartsWith(s: string, prefix: string) {
    |prefix| <= |s| && s[..|prefix|] == prefix
  }

  predicate EndsWith(s: string, suffix: string) {
    |suffix| <= |s| && s[|s| - |suffix|..] == suffix
  }

  // ---------------------------------------------------------------------
  // Whitespace and strip()
  // ---------------------------------------------------------------------

  /** The characters for which Python's `str.isspace()` holds: the ASCII
      controls 9-13 and 28-31, the space, U+0085, U+00A0, U+1680,
      U+2000-U+200A, U+2028, U+2029, U+202F, U+205F and U+3000. */
  const SpaceChars: set<char> := {
    '\U{0009}', '\U{000A}', '\U{000B}', '\U{000C}', '\U{000D}', '\U{001C}', '\U{001D}',
    '\U{001E}', '\U{001F}', '\U{0020}', '\U{0085}', '\U{00A0}', '\U{1680}', '\U{2000}',
    '\U{2001}', '\U{2002}', '\U{2003}', '\U{2004}', '\U{2005}', '\U{2006}', '\U{2007}',
    '\U{2008}', '\U{2009}', '\U{200A}', '\U{2028}', '\U{2029}', '\U{202F}', '\U{205F}',
    '\U{3000}'
  }

  predicate IsSpace(c: char) {
    c in SpaceChars
  }

  /** `s.lstrip()`: drops the leading whitespace and nothing else. */
  function StripLeft(s: string): (r: string)
    ensures |r| <= |s| && r == s[|s| - |r|..]
    ensures r != [] ==> !IsSpace(r[0])
    ensures forall i :: 0 <= i < |s| - |r| ==> IsSpace(s[i])
  {
    if s != [] && IsSpace(s[0]) then StripLeft(s[1..]) else s
  }

  /** `s.rstrip()`: drops the trailing whitespace and nothing else. */
  function StripRight(s: string): (r: string)
    ensures |r| <= |s| && r == s[..|r|]
    ensures r != [] ==> !IsSpace(r[|r| - 1])
    ensures forall i :: |r| <= i < |s| ==> IsSpace(s[i])
  {
    if s != [] && IsSpace(s[|s| - 1]) then StripRight(s[..|s| - 1]) else s
  }

  /** `s.strip()`: the slice of `s` between its leading and its trailing
      whitespace; inner whitespace is kept. */
  function Strip(s: string): (r: string)
    ensures |r| <= |s|
    ensures r != [] ==> !IsSpace(r[0]) && !IsSpace(r[|r| - 1])
    ensures s != [] && !IsSpace(s[0]) && !IsSpace(s[|s| - 1]) ==> r == s
  {
    StripRight(StripLeft(s))
  }

  lemma StripIdempotent(s: string)
    ensures Strip(Strip(s)) == Strip(s)
  {
  }

  /** Stripping a string that begins with a non-space character only cuts
      its end. */
  lemma StripKeepsStart(s: string)
    requires s != [] && !IsSpace(s[0])
    ensures Strip(s) == StripRight(s) && Strip(s) != [] && Strip(s)[0] == s[0]
  {
  }

  /** Stripping a string that ends with a non-space character only cuts its
      start. */
  lemma StripKeepsEnd(s: string)
    requires s != [] && !IsSpace(s[|s| - 1])
    ensures Strip(s) == StripLeft(s)
    ensures EndsWith(StripLeft(s), [s[|s| - 1]])
  {
    LastSurvivesStripLeft(s);
    var l := StripLeft(s);
    StripRightKeepsVisibleEnd(l);
    LastIsSuffix(l);
  }

  /** A prefix that begins and ends with visible characters survives
      `strip()`. */
  lemma StripKeepsVisiblePrefix(s: string, prefix: string)
    requires StartsWith(s, prefix) && prefix != []
    requires !IsSpace(prefix[0]) && !IsSpace(prefix[|prefix| - 1])
    ensures StartsWith(Strip(s), prefix)
  {
    assert s[0] == prefix[0];
    StripKeepsStart(s);
    var r := StripRight(s);
    assert s[|prefix| - 1] == prefix[|prefix| - 1];
    assert |prefix| <= |r|;
    assert r[..|prefix|] == s[..|prefix|];
  }

  lemma PrefixOfConcat(a: string, b: string, prefix: string)
    requires StartsWith(a, prefix)
    ensures StartsWith(a + b, prefix)
  {
    assert (a + b)[..|prefix|] == a[..|prefix|];
  }

  lemma StripRightKeepsVisibleEnd(s: string)
    requires s != [] && !IsSpace(s[|s| - 1])
    ensures StripRight(s) == s
  {
  }

  lemma LastIsSuffix(s: string)
    requires s != []
    ensures EndsWith(s, [s[|s| - 1]])
  {
  }

  /** `lstrip()` keeps a visible last character. */
  lemma {:induction false} LastSurvivesStripLeft(s: string)
    requires s != [] && !IsSpace(s[|s| - 1])
    ensures StripLeft(s) != [] && StripLeft(s)[|StripLeft(s)| - 1] == s[|s| - 1]
  {
    if IsSpace(s[0]) {
      assert |s| > 1;
      assert s[1..][|s[1..]| - 1] == s[|s| - 1];
      LastSurvivesStripLeft(s[1..]);
    }
  }

  /** `lstrip()` removes exactly the run of whitespace before the first
      visible character. */
  lemma {:induction false} StripLeftSkips(s: string, k: nat)
    requires k < |s| && !IsSpace(s[k])
    requires forall i :: 0 <= i < k ==> IsSpace(s[i])
    ensures StripLeft(s) == s[k..]
  {
    if k > 0 {
      assert s[1..][k - 1..] == s[k..];
      StripLeftSkips(s[1..], k - 1);
    }
  }

  // ---------------------------------------------------------------------
  // join() and filter(None, ...)
  // ---------------------------------------------------------------------

  function TotalLength(parts: seq<string>): nat {
    if parts == [] then 0 else |parts[0]| + TotalLength(parts[1..])
  }

  /** `sep.join(parts)`. */
  function Join(sep: string, parts: seq<string>): (r: string)
    ensures |parts| == 0 ==> r == ""
    ensures |parts| > 0 ==> |r| == TotalLength(parts) + (|parts| - 1) * |sep|
    ensures |parts| > 0 ==> StartsWith(r, parts[0]) && EndsWith(r, parts[|parts| - 1])
  {
    if |parts| == 0 then ""
    else if |parts| == 1 then parts[0]
    else
      var rest := Join(sep, parts[1..]);
      assert parts[1..][|parts| - 2] == parts[|parts| - 1];
      ConcatKeepsEnds(parts[0] + sep, rest, parts[0], parts[|parts| - 1]);
      parts[0] + sep + rest
  }

  lemma ConcatKeepsEnds(a: string, b: string, prefix: string, suffix: string)
    requires StartsWith(a, prefix) && EndsWith(b, suffix)
    ensures StartsWith(a + b, prefix) && EndsWith(a + b, suffix)
  {
    assert (a + b)[..|prefix|] == a[..|prefix|];
    assert (a + b)[|a + b| - |suffix|..] == b[|b| - |suffix|..];
  }

  /** Appending one part to a non-empty join adds the separator and the part. */
  lemma {:induction false} JoinSnoc(sep: string, parts: seq<string>, x: string)
    requires parts != []
    ensures Join(sep, parts + [x]) == Join(sep, parts) + sep + x
  {
    var longer := parts + [x];
    if |parts| == 1 {
      assert longer == [parts[0], x];
      JoinOfTwo(sep, parts[0], x);
    } else {
      assert longer[0] == parts[0] && longer[1..] == parts[1..] + [x];
      JoinSnoc(sep, parts[1..], x);
      calc {
        Join(sep, longer);
        longer[0] + sep + Join(sep, longer[1..]);
        parts[0] + sep + (Join(sep, parts[1..]) + sep + x);
      }
    }
  }

  /** Python truthiness of an optional string: neither `None` nor `''`. */
  predicate Truthy(o: Option<string>) {
    o.Some? && o.value != ""
  }

  /** `filter(None, parts)`: the truthy parts, in order. */
  function Present(parts: seq<Option<string>>): (r: seq<string>)
    ensures |r| <= |parts|
    ensures forall i :: 0 <= i < |r| ==> r[i] != ""
    ensures |r| == 0 <==> forall i :: 0 <= i < |parts| ==> !Truthy(parts[i])
  {
    if parts == [] then [] else Keep(parts[0]) + Present(parts[1..])
  }

  /** The contribution of one part to `filter(None, parts)`. */
  function Keep(o: Option<string>): seq<string> {
    if Truthy(o) then [o.value] else []
  }

  lemma PresentOfThree(a: Option<string>, b: Option<string>, c: Option<string>)
    ensures Present([a, b, c]) == Keep(a) + Keep(b) + Keep(c)
  {
    var last, two, three := [c], [b, c], [a, b, c];
    assert last[1..] == [] && two[1..] == last && three[1..] == two;
    calc {
      Present(three);
      Keep(a) + Present(two);
      Keep(a) + (Keep(b) + Present(last));
      Keep(a) + (Keep(b) + (Keep(c) + Present([])));
    }
  }

  lemma JoinOfTwo(sep: string, x: string, y: string)
    ensures Join(sep, [x, y]) == x + sep + y
  {
    assert [x, y][1..] == [y];
  }

  lemma JoinOfThree(sep: string, x: string, y: string, z: string)
    ensures Join(sep, [x, y, z]) == x + sep + y + sep + z
  {
    assert [x, y, z][1..] == [y, z];
    JoinOfTwo(sep, y, z);
  }

  /** `sep.join(filter(None, parts))`. */
  function JoinPresent(sep: string, parts: seq<Option<string>>): string {
    Join(sep, Present(parts))
  }

  /** `sep.join(filter(None, [a, b, c]))` when all three are present. */
  lemma JoinPresentAll(sep: string, a: Option<string>, b: Option<string>, c: Option<string>)
    requires Truthy(a) && Truthy(b) && Truthy(c)
    ensures JoinPresent(sep, [a, b, c]) == a.value + sep + b.value + sep + c.value
  {
    PresentOfThree(a, b, c);
    assert Present([a, b, c]) == [a.value, b.value, c.value];
    JoinOfThree(sep, a.value, b.value, c.value);
  }

  /** `sep.join(filter(None, [a, b, c]))` when only the last is missing. */
  lemma JoinPresentFirstTwo(sep: string, a: Option<string>, b: Option<string>, c: Option<string>)
    requires Truthy(a) && Truthy(b) && !Truthy(c)
    ensures JoinPresent(sep, [a, b, c]) == a.value + sep + b.value
  {
    PresentOfThree(a, b, c);
    assert Present([a, b, c]) == [a.value, b.value];
    JoinOfTwo(sep, a.value, b.value);
  }

  /** `sep.join(filter(None, [a, b, c]))` when all three are missing. */
  lemma JoinPresentNone(sep: string, a: Option<string>, b: Option<string>, c: Option<string>)
    requires !Truthy(a) && !Truthy(b) && !Truthy(c)
    ensures JoinPresent(sep, [a, b, c]) == ""
  {
    PresentOfThree(a, b, c);
  }

  lemma {:induction false} JoinOfNonEmptyIsNonEmpty(sep: string, parts: seq<string>)
    requires forall i :: 0 <= i < |parts| ==> parts[i] != ""
    ensures Join(sep, parts) == "" <==> parts == []
  {
    if parts != [] {
      assert |Join(sep, parts)| >= |parts[0]| > 0;
    }
  }

  /** `sep.join(filter(None, parts))` is empty exactly when no part is truthy. */
  lemma JoinPresentEmpty(sep: string, parts: seq<Option<string>>)
    ensures JoinPresent(sep, parts) == "" <==> forall i :: 0 <= i < |parts| ==> !Truthy(parts[i])
  {
    JoinOfNonEmptyIsNonEmpty(sep, Present(parts));
  }

  /** `value or ''` on an optional string. */
  function OrEmpty(o: Option<string>): string {
    o.GetOr("")
  }

  /** An optional string inside an f-string: `None` renders as "None". */
  function Formatted(o: Option<string>): string {
    match o
    case None => "None"
    case Some(s) => s
  }

  // ---------------------------------------------------------------------
  // Case mapping
  // ---------------------------------------------------------------------

  /** Code points that are paired lower/upper letters in Latin Extended-A
      with the upper-case letter at the even code point. */
  predicate EvenUpperRange(n: int) {
    (0x100 <= n <= 0x12F) || (0x132 <= n <= 0x137) || (0x14A <= n <= 0x177)
  }

  /** ... and with the upper-case letter at the odd code point. */
  predicate OddUpperRange(n: int) {
    (0x139 <= n <= 0x148) || (0x179 <= n <= 0x17E)
  }

  predicate IsLowerLetter(c: char) {
    var n := c as int;
    ('a' as int <= n <= 'z' as int)
    || (0xDF < n <= 0xFE && n != 0xF7)
    || n == 0xFF
    || (EvenUpperRange(n) && n % 2 == 1)
    || (OddUpperRange(n) && n % 2 == 0)
  }

  predicate IsUpperLetter(c: char) {
    var n := c as int;
    ('A' as int <= n <= 'Z' as int)
    || (0xC0 <= n <= 0xDE && n != 0xD7)
    || n == 0x178
    || (EvenUpperRange(n) && n % 2 == 0)
    || (OddUpperRange(n) && n % 2 == 1)
  }

  /** Lower-case letters whose upper case lies in another pair: the dotless
      ı and the long ſ upper-case to I and S, and the micro sign µ to the
      Greek capital Μ. Lower-casing never leads back to them. */
  predicate IsFoldedLower(c: char) {
    c == 0x131 as char || c == 0x17F as char || c == 0xB5 as char
  }

  /** `c.upper()` for one character. */
  function UpperChar(c: char): (u: char)
    ensures !IsLowerLetter(u) && !IsFoldedLower(u)
    ensures IsLowerLetter(c) ==> IsUpperLetter(u) && LowerChar(u) == c
    ensures IsFoldedLower(c) ==> u != c && LowerChar(u) != c
    ensures !IsLowerLetter(c) && !IsFoldedLower(c) ==> u == c
  {
    var n := c as int;
    if 'a' as int <= n <= 'z' as int || (0xDF < n <= 0xFE && n != 0xF7) then (n - 32) as char
    else if n == 0xFF then 0x178 as char
    else if (EvenUpperRange(n) && n % 2 == 1) || (OddUpperRange(n) && n % 2 == 0) then (n - 1) as char
    else if n == 0x131 then 'I'
    else if n == 0x17F then 'S'
    else if n == 0xB5 then 0x39C as char
    else c
  }

  /** `c.lower()` for one character. */
  function LowerChar(c: char): (l: char)
    ensures !IsUpperLetter(l)
    ensures IsUpperLetter(c) ==> IsLowerLetter(l)
    ensures !IsUpperLetter(c) ==> l == c
  {
    var n := c as int;
    if 'A' as int <= n <= 'Z' as int || (0xC0 <= n <= 0xDE && n != 0xD7) then (n + 32) as char
    else if n == 0x178 then 0xFF as char
    else if (EvenUpperRange(n) && n % 2 == 0) || (OddUpperRange(n) && n % 2 == 1) then (n + 1) as char
    else c
  }

  /** Upper-casing leaves what a character lower-cases to unchanged exactly
      when the character is not one of the folded lower-case letters. */
  lemma LowerOfUpper(c: char)
    ensures LowerChar(UpperChar(c)) == LowerChar(c) <==> !IsFoldedLower(c)
  {
    if IsLowerLetter(c) {
      assert !IsUpperLetter(c);
    }
  }

  /** The dotless ı and the dotted i upper-case to the same letter. */
  lemma DotlessIMeetsI()
    ensures UpperChar(0x131 as char) == UpperChar('i') == 'I'
    ensures LowerChar(0x131 as char) != LowerChar('i')
  {
  }

  function Upper(s: string): (r: string)
    ensures |r| == |s| && forall i :: 0 <= i < |s| ==> r[i] == UpperChar(s[i])
  {
    seq(|s|, i requires 0 <= i < |s| => UpperChar(s[i]))
  }

  function Lower(s: string): (r: string)
    ensures |r| == |s| && forall i :: 0 <= i < |s| ==> r[i] == LowerChar(s[i])
  {
    seq(|s|, i requires 0 <= i < |s| => LowerChar(s[i]))
  }

  /** `s[:1].upper() + s[1:]`: upper-cases the first character only. */
  function UpperFirst(s: string): (r: string)
    ensures |r| == |s|
    ensures s != "" ==> r[0] == UpperChar(s[0]) && r[1..] == s[1..]
  {
    if s == "" then "" else [UpperChar(s[0])] + s[1..]
  }

  /** `s.capitalize()`: the first character upper-cased, the rest lower-cased. */
  function Capitalize(s: string): (r: string)
    ensures |r| == |s|
    ensures s != "" ==> r[0] == UpperChar(s[0]) && r[1..] == Lower(s[1..])
  {
    if s == "" then "" else [UpperChar(s[0])] + Lower(s[1..])
  }

  // ---------------------------------------------------------------------
  // Numbers
  // ---------------------------------------------------------------------

  predicate IsDigit(c: char) {
    '0' <= c <= '9'
  }

  predicate AllDigits(s: string) {
    forall i :: 0 <= i < |s| ==> IsDigit(s[i])
  }

  function DigitChar(d: nat): (c: char)
    requires d < 10
    ensures IsDigit(c) && c as int - '0' as int == d
  {
    ('0' as int + d) as char
  }

  /** The number a string of decimal digits denotes (leading zeros allowed). */
  function DigitsValue(s: string): nat
    requires AllDigits(s)
  {
    if s == [] then 0 else DigitsValue(s[..|s| - 1]) * 10 + (s[|s| - 1] as int - '0' as int)
  }

  /** `str(n)` for a natural number. */
  function NatToString(n: nat): (r: string)
    ensures |r| >= 1 && AllDigits(r)
    ensures |r| > 1 ==> r[0] != '0'
  {
    if n < 10 then [DigitChar(n)] else NatToString(n / 10) + [DigitChar(n % 10)]
  }

  lemma {:induction false} NatToStringRoundTrip(n: nat)
    ensures DigitsValue(NatToString(n)) == n
  {
    if n >= 10 {
      var s := NatToString(n);
      assert s[..|s| - 1] == NatToString(n / 10);
      NatToStringRoundTrip(n / 10);
    }
  }

  lemma {:induction false} NatToStringInjective(m: nat, n: nat)
    ensures NatToString(m) == NatToString(n) <==> m == n
  {
    if NatToString(m) == NatToString(n) {
      NatToStringRoundTrip(m);
      NatToStringRoundTrip(n);
    }
  }

  function Zeros(k: nat): (r: string)
    ensures |r| == k && AllDigits(r)
  {
    if k == 0 then "" else "0" + Zeros(k - 1)
  }

  lemma {:induction false} LeadingZeros(k: nat, t: string)
    requires AllDigits(t)
    ensures AllDigits(Zeros(k) + t) && DigitsValue(Zeros(k) + t) == DigitsValue(t)
    decreases |t|, k
  {
    if t == [] {
      assert Zeros(k) + t == Zeros(k);
      if k > 0 {
        assert Zeros(k)[..k - 1] == Zeros(k - 1) by {
          ZerosSnoc(k - 1);
        }
        LeadingZeros(k - 1, t);
        assert Zeros(k - 1) + t == Zeros(k - 1);
      }
    } else {
      var u := Zeros(k) + t;
      assert u[..|u| - 1] == Zeros(k) + t[..|t| - 1];
      LeadingZeros(k, t[..|t| - 1]);
    }
  }

  lemma {:induction false} ZerosSnoc(k: nat)
    ensures Zeros(k + 1) == Zeros(k) + "0"
  {
    if k > 0 {
      ZerosSnoc(k - 1);
    }
  }

  /** A number written with at least `width` digits, zero-padded on the left. */
  function ZeroPad(n: nat, width: nat): (r: string)
    ensures AllDigits(r) && DigitsValue(r) == n
    ensures |r| >= width && |r| >= 1
    ensures |NatToString(n)| <= width ==> |r| == width
  {
    var digits := NatToString(n);
    NatToStringRoundTrip(n);
    if |digits| >= width then digits
    else
      LeadingZeros(width - |digits|, digits);
      Zeros(width - |digits|) + digits
  }

  lemma {:induction false} SmallNatDigits(n: nat, width: nat)
    requires width >= 1 && n < Power10(width)
    ensures |NatToString(n)| <= width
  {
    if n >= 10 {
      SmallNatDigits(n / 10, width - 1);
    }
  }

  function Power10(k: nat): (p: nat)
    ensures p >= 1
  {
    if k == 0 then 1 else 10 * Power10(k - 1)
  }

  /** `str(i)` for an integer. */
  function IntToString(i: int): string {
    if i < 0 then "-" + NatToString(-i) else NatToString(i)
  }

  function Abs(i: int): nat {
    if i < 0 then -i else i
  }

  /** `str(d)` for a `Decimal` with two decimal places, held as whole cents:
      an optional minus sign, the integer part, a dot and two digits. */
  function CentsToString(cents: int): (r: string)
    ensures |r| >= 4 && r[|r| - 3] == '.'
    ensures StartsWith(r, "-") <==> cents < 0
  {
    var unsigned := UnsignedCents(Abs(cents));
    if cents < 0 then "-" + unsigned else unsigned
  }

  /** The integer part, a dot and two digits. */
  function UnsignedCents(a: nat): (r: string)
    ensures |r| >= 4 && r[|r| - 3] == '.' && r[0] != '-'
  {
    SmallNatDigits(a % 100, 2);
    NatToString(a / 100) + "." + ZeroPad(a % 100, 2)
  }

  /** Reads back what `CentsToString` writes. */
  function ParseCents(s: string): Option<int> {
    if |s| > 0 && s[0] == '-' then
      match ParseUnsignedCents(s[1..])
      case Some(v) => Some(-v)
      case None => None
    else ParseUnsignedCents(s)
  }

  function ParseUnsignedCents(body: string): Option<int> {
    if |body| >= 4 && body[|body| - 3] == '.'
       && AllDigits(body[..|body| - 3]) && AllDigits(body[|body| - 2..])
    then Some(DigitsValue(body[..|body| - 3]) * 100 + DigitsValue(body[|body| - 2..]))
    else None
  }

  lemma CentsRoundTrip(cents: int)
    ensures ParseCents(CentsToString(cents)) == Some(cents)
  {
    var body := UnsignedCents(Abs(cents));
    UnsignedCentsRoundTrip(Abs(cents));
    if cents < 0 {
      assert ("-" + body)[1..] == body;
    }
  }

  lemma UnsignedCentsRoundTrip(a: nat)
    ensures ParseUnsignedCents(UnsignedCents(a)) == Some(a)
  {
    SmallNatDigits(a % 100, 2);
    var whole, frac := NatToString(a / 100), ZeroPad(a % 100, 2);
    var body := whole + "." + frac;
    NatToStringRoundTrip(a / 100);
    assert body[..|body| - 3] == whole;
    assert body[|body| - 2..] == frac;
  }

  // ---------------------------------------------------------------------
  // Dates
  // ---------------------------------------------------------------------

  datatype Date = Date(year: nat, month: nat, day: nat)

  predicate ValidDate(d: Date) {
    1 <= d.year <= 9999 && 1 <= d.month <= 12 && 1 <= d.day <= 31
  }

  /** `d.strftime('%d.%m.%Y')`. */
  function FormatDate(d: Date): (r: string)
    ensures ValidDate(d) ==> |r| == 10 && r[2] == '.' && r[5] == '.'
    ensures ValidDate(d) ==> AllDigits(r[..2]) && AllDigits(r[3..5]) && AllDigits(r[6..])
    ensures ValidDate(d) ==> DigitsValue(r[..2]) == d.day && DigitsValue(r[3..5]) == d.month
                             && DigitsValue(r[6..]) == d.year
  {
    var dd, mm, yyyy := ZeroPad(d.day, 2), ZeroPad(d.month, 2), ZeroPad(d.year, 4);
    assert ValidDate(d) ==> |dd| == 2 && |mm| == 2 && |yyyy| == 4 by {
      if ValidDate(d) {
        SmallNatDigits(d.day, 2);
        SmallNatDigits(d.month, 2);
        SmallNatDigits(d.year, 4);
      }
    }
    var r := dd + "." + mm + "." + yyyy;
    assert |dd| == 2 ==> r[..2] == dd;
    assert |dd| == 2 && |mm| == 2 ==> r[3..5] == mm && r[6..] == yyyy;
    r
  }

  /** Two valid dates render alike only if they are the same date. */
  lemma FormatDateInjective(d: Date, e: Date)
    requires ValidDate(d) && ValidDate(e)
    ensures FormatDate(d) == FormatDate(e) <==> d == e
  {
  }
}
