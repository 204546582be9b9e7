/**
 * Reading the text cells of the two exports: `DD/MM/YYYY` dates and
 * `HH:MM:SS` clock times as `pd.to_datetime` reads them with an explicit
 * format (Python's strptime field patterns, a calendar check, and pandas'
 * nanosecond timestamp range), decimal numbers as `float()` reads them, and
 * the SAP hours text with its `" H"` unit marker.
 */
module Text {
  import opened Wrappers
  import opened Calendar

  // ---------------------------------------------------------------- digits

  predicate IsDigit(c: char) {
    '0' <= c <= '9'
  }

  predicate AllDigits(s: string) {
    forall i :: 0 <= i < |s| ==> IsDigit(s[i])
  }

  function DigitValue(c: char): int
    requires IsDigit(c)
  {
    c as int - '0' as int
  }

  function DigitChar(n: int): (c: char)
    requires 0 <= n < 10
    ensures IsDigit(c) && DigitValue(c) == n
  {
    ('0' as int + n) as char
  }

  /** The value of a decimal digit string, most significant digit first. */
  function DigitsValue(s: string): nat
    requires AllDigits(s)
    decreases |s|
  {
    if s == [] then 0 else 10 * DigitsValue(s[..|s| - 1]) + DigitValue(s[|s| - 1])
  }

  function Pow10(k: nat): (p: nat)
    ensures 1 <= p
  {
    if k == 0 then 1 else 10 * Pow10(k - 1)
  }

  /** `n` written in exactly `k` digits, with leading zeros. */
  function PadDigits(n: nat, k: nat): (s: string)
    ensures |s| == k && AllDigits(s)
  {
    if k == 0 then [] else PadDigits(n / 10, k - 1) + [DigitChar(n % 10)]
  }

  /** `n` in decimal without leading zeros, as `str(n)` writes it. */
  function NatText(n: nat): (s: string)
    ensures 1 <= |s| && AllDigits(s)
  {
    if n < 10 then [DigitChar(n)] else NatText(n / 10) + [DigitChar(n % 10)]
  }

  lemma {:induction false} DigitsValueBound(s: string)
    requires AllDigits(s)
    ensures DigitsValue(s) < Pow10(|s|)
    decreases |s|
  {
    if s != [] {
      DigitsValueBound(s[..|s| - 1]);
    }
  }

  lemma {:induction false} PadDigitsValue(n: nat, k: nat)
    requires n < Pow10(k)
    ensures DigitsValue(PadDigits(n, k)) == n
  {
    if k > 0 {
      PadDigitsValue(n / 10, k - 1);
      var s := PadDigits(n, k);
      assert s[..|s| - 1] == PadDigits(n / 10, k - 1);
    }
  }

  lemma {:induction false} NatTextValue(n: nat)
    ensures DigitsValue(NatText(n)) == n
  {
    var s := NatText(n);
    if n >= 10 {
      NatTextValue(n / 10);
      assert s[..|s| - 1] == NatText(n / 10);
    }
  }

  // ------------------------------------------------------------ splitting

  /** Position of the first `c` in `s`. */
  function IndexOf(s: string, c: char): (r: Option<nat>)
    ensures r.Some? ==> r.value < |s| && s[r.value] == c && c !in s[..r.value]
    ensures r.None? ==> c !in s
  {
    if s == [] then None
    else if s[0] == c then Some(0)
    else match IndexOf(s[1..], c)
      case None => None
      case Some(i) => assert s[..i + 1] == [s[0]] + s[1..][..i]; Some(i + 1)
  }

  lemma {:induction false} IndexOfJoin(a: string, c: char, b: string)
    requires c !in a
    ensures IndexOf(a + [c] + b, c) == Some(|a|)
    decreases |a|
  {
    var s := a + [c] + b;
    if a != [] {
      assert s[1..] == a[1..] + [c] + b;
      IndexOfJoin(a[1..], c, b);
    }
  }

  /** Splits `s` at its first two `sep`; whatever follows stays in the third part. */
  function Split3(s: string, sep: char): Option<(string, string, string)> {
    match IndexOf(s, sep)
    case None => None
    case Some(i) =>
      var rest := s[i + 1..];
      match IndexOf(rest, sep)
      case None => None
      case Some(j) => Some((s[..i], rest[..j], rest[j + 1..]))
  }

  lemma {:induction false} Split3Join(a: string, b: string, c: string, sep: char)
    requires sep !in a && sep !in b
    ensures Split3(a + [sep] + b + [sep] + c, sep) == Some((a, b, c))
  {
    var s := a + [sep] + b + [sep] + c;
    assert s == a + [sep] + (b + [sep] + c);
    IndexOfJoin(a, sep, b + [sep] + c);
    var rest := s[|a| + 1..];
    assert rest == b + [sep] + c;
    IndexOfJoin(b, sep, c);
    assert s[..|a|] == a;
    assert rest[..|b|] == b && rest[|b| + 1..] == c;
  }

  // -------------------------------------------------- date and time fields

  /** A two-character token of two digits. */
  function TwoDigits(t: string): Option<int> {
    if |t| == 2 && IsDigit(t[0]) && IsDigit(t[1])
    then Some(10 * DigitValue(t[0]) + DigitValue(t[1]))
    else None
  }

  /** A one-character token holding a digit. */
  function OneDigit(t: string): Option<int> {
    if |t| == 1 && IsDigit(t[0]) then Some(DigitValue(t[0])) else None
  }

  /** strptime `%d`: two digits 01..31, one digit 1..9, or a space and 1..9. */
  function DayField(t: string): (r: Option<int>)
    ensures r.Some? ==> 1 <= r.value <= 31
  {
    match TwoDigits(t)
    case Some(v) => if 1 <= v <= 31 then Some(v) else None
    case None =>
      match OneDigit(t)
      case Some(v) => if v != 0 then Some(v) else None
      case None =>
        if |t| == 2 && t[0] == ' ' && IsDigit(t[1]) && t[1] != '0' then Some(DigitValue(t[1])) else None
  }

  /** strptime `%m`: two digits 01..12 or one digit 1..9. */
  function MonthField(t: string): (r: Option<int>)
    ensures r.Some? ==> 1 <= r.value <= 12
  {
    match TwoDigits(t)
    case Some(v) => if 1 <= v <= 12 then Some(v) else None
    case None =>
      match OneDigit(t)
      case Some(v) => if v != 0 then Some(v) else None
      case None => None
  }

  /** strptime `%Y`: exactly four digits. */
  function YearField(t: string): (r: Option<int>)
    ensures r.Some? ==> 0 <= r.value < 10000
  {
    if |t| == 4 && AllDigits(t) then
      DigitsValueBound(t);
      Some(DigitsValue(t))
    else None
  }

  /** A field of at most `limit` (< 100): two digits 00..limit or one digit. */
  function ClockField(t: string, limit: int): (r: Option<int>)
    ensures r.Some? ==> 0 <= r.value <= limit || 0 <= r.value < 10
  {
    match TwoDigits(t)
    case Some(v) => if v <= limit then Some(v) else None
    case None => OneDigit(t)
  }

  /** The earliest and latest calendar days a pandas nanosecond timestamp
      holds in full: 1677-09-21 00:00 is already before its minimum. */
  const FirstTimestampDay := Date(1677, 9, 22)
  const LastTimestampDay := Date(2262, 4, 11)

  predicate InTimestampRange(d: Date) {
    NotAfter(FirstTimestampDay, d) && NotAfter(d, LastTimestampDay)
  }

  /** A date `pd.to_datetime(..., format='%d/%m/%Y')` accepts. */
  predicate ParsableDate(d: Date) {
    ValidDate(d) && InTimestampRange(d)
  }

  /**
   * `pd.to_datetime(cell, format='%d/%m/%Y')` for one cell: the whole text
   * must match the three fields; the date must exist in the calendar and
   * fit a nanosecond timestamp. None stands for the error that aborts.
   */
  function ParseDate(s: string): (r: Option<Date>)
    ensures r.Some? ==> ParsableDate(r.value)
  {
    match Split3(s, '/')
    case None => None
    case Some((a, b, c)) =>
      match (DayField(a), MonthField(b), YearField(c))
      case (Some(d), Some(m), Some(y)) =>
        var date := Date(y, m, d);
        if ParsableDate(date) then Some(date) else None
      case _ => None
  }

  /**
   * `pd.to_datetime(cell, format='%H:%M:%S', errors='coerce')` for one cell,
   * followed by `.dt.time`: None is the missing value the coercion leaves.
   * The seconds pattern admits 60 and 61, which no time of day has.
   */
  function ParseClock(s: string): (r: Option<Time>)
    ensures r.Some? ==> ValidTime(r.value)
  {
    match Split3(s, ':')
    case None => None
    case Some((a, b, c)) =>
      match (ClockField(a, 23), ClockField(b, 59), ClockField(c, 61))
      case (Some(h), Some(m), Some(sec)) =>
        if sec < 60 then Some(Time(h, m, sec)) else None
      case _ => None
  }

  /** A date written as the exports write it, `DD/MM/YYYY`. */
  function FormatDate(d: Date): string
    requires 0 <= d.day < 100 && 0 <= d.month < 100 && 0 <= d.year < 10000
  {
    PadDigits(d.day, 2) + "/" + PadDigits(d.month, 2) + "/" + PadDigits(d.year, 4)
  }

  /** A time written `HH:MM:SS`. */
  function FormatClock(t: Time): string
    requires ValidTime(t)
  {
    PadDigits(t.hour, 2) + ":" + PadDigits(t.minute, 2) + ":" + PadDigits(t.second, 2)
  }

  lemma {:induction false} TwoDigitsOfPad(n: nat)
    requires n < 100
    ensures TwoDigits(PadDigits(n, 2)) == Some(n)
  {
    PadDigitsValue(n, 2);
    var s := PadDigits(n, 2);
    assert s[..1][..0] == [];
  }

  lemma {:induction false} NoSeparatorInDigits(s: string, sep: char)
    requires AllDigits(s) && !IsDigit(sep)
    ensures sep !in s
  {
  }

  /** Three fields separated by slashes read as the date they spell, when
      that date exists and fits a timestamp. */
  lemma {:induction false} ParseDateOfFields(a: string, b: string, c: string, d: Date)
    requires '/' !in a && '/' !in b
    requires DayField(a) == Some(d.day) && MonthField(b) == Some(d.month)
    requires YearField(c) == Some(d.year)
    ensures ParseDate(a + ['/'] + b + ['/'] + c) == if ParsableDate(d) then Some(d) else None
  {
    Split3Join(a, b, c, '/');
  }

  /** Every date the reader accepts reads back from its `DD/MM/YYYY` form. */
  lemma {:induction false} ParseFormatDate(d: Date)
    requires ParsableDate(d)
    ensures ParseDate(FormatDate(d)) == Some(d)
  {
    var a, b, c := PadDigits(d.day, 2), PadDigits(d.month, 2), PadDigits(d.year, 4);
    NoSeparatorInDigits(a, '/');
    NoSeparatorInDigits(b, '/');
    Split3Join(a, b, c, '/');
    TwoDigitsOfPad(d.day);
    TwoDigitsOfPad(d.month);
    PadDigitsValue(d.year, 4);
  }

  /** Every time of day reads back from its `HH:MM:SS` form. */
  lemma {:induction false} ParseFormatClock(t: Time)
    requires ValidTime(t)
    ensures ParseClock(FormatClock(t)) == Some(t)
  {
    var a, b, c := PadDigits(t.hour, 2), PadDigits(t.minute, 2), PadDigits(t.second, 2);
    NoSeparatorInDigits(a, ':');
    NoSeparatorInDigits(b, ':');
    Split3Join(a, b, c, ':');
    TwoDigitsOfPad(t.hour);
    TwoDigitsOfPad(t.minute);
    TwoDigitsOfPad(t.second);
  }

  lemma {:induction false} YearDigits2024()
    ensures YearField("2024") == Some(2024)
  {
    assert "2024"[..3] == "202" && "202"[..2] == "20" && "20"[..1] == "2" && "2"[..0] == "";
  }

  lemma {:induction false} YearDigits2023()
    ensures YearField("2023") == Some(2023)
  {
    assert "2023"[..3] == "202" && "202"[..2] == "20" && "20"[..1] == "2" && "2"[..0] == "";
  }

  lemma {:induction false} LeapDay2024Parsable()
    ensures ParsableDate(Date(2024, 2, 29))
  {
    assert DaysInMonth(2024, 2) == 29;
  }

  /** A leap day is read in a leap year. */
  lemma {:induction false} LeapDayAccepted()
    ensures ParseDate("29/02/2024") == Some(Date(2024, 2, 29))
  {
    YearDigits2024();
    assert DayField("29") == Some(29) && MonthField("02") == Some(2);
    ParseDateOfFields("29", "02", "2024", Date(2024, 2, 29));
    assert "29" + ['/'] + "02" + ['/'] + "2024" == "29/02/2024";
    LeapDay2024Parsable();
  }

  /** Day and month may be written with one digit. */
  lemma {:induction false} SingleDigitFieldsAccepted()
    ensures ParseDate("1/2/2024") == Some(Date(2024, 2, 1))
  {
    YearDigits2024();
    assert DayField("1") == Some(1) && MonthField("2") == Some(2);
    ParseDateOfFields("1", "2", "2024", Date(2024, 2, 1));
    assert "1" + ['/'] + "2" + ['/'] + "2024" == "1/2/2024";
  }

  /** A leap day outside a leap year is refused. */
  lemma {:induction false} LeapDayRefused()
    ensures ParseDate("29/02/2023") == None
  {
    YearDigits2023();
    assert DayField("29") == Some(29) && MonthField("02") == Some(2);
    ParseDateOfFields("29", "02", "2023", Date(2023, 2, 29));
    assert "29" + ['/'] + "02" + ['/'] + "2023" == "29/02/2023";
    assert DaysInMonth(2023, 2) == 28;
  }

  /** The 31st of a 30-day month is refused. */
  lemma {:induction false} ThirtyFirstOfAprilRefused()
    ensures ParseDate("31/04/2024") == None
  {
    YearDigits2024();
    assert DayField("31") == Some(31) && MonthField("04") == Some(4);
    ParseDateOfFields("31", "04", "2024", Date(2024, 4, 31));
    assert "31" + ['/'] + "04" + ['/'] + "2024" == "31/04/2024";
    assert DaysInMonth(2024, 4) == 30;
  }

  /** A year written in two digits is refused. */
  lemma {:induction false} TwoDigitYearRefused()
    ensures ParseDate("01/02/24") == None
  {
    Split3Join("01", "02", "24", '/');
    assert "01" + ['/'] + "02" + ['/'] + "24" == "01/02/24";
  }

  /** The ISO layout is refused. */
  lemma {:induction false} IsoLayoutRefused()
    ensures ParseDate("2024-02-01") == None
  {
    assert '/' !in "2024-02-01";
  }

  // ------------------------------------------------------------- numbers

  /** The characters Python's `float()` skips around a number: the ASCII
      blanks (space and '\t'..'\r') and the non-ASCII characters
      `str.isspace` accepts. The separators '\U{001C}'..'\U{001F}' are
      white space to `str.isspace` but not to `float()`. */
  predicate IsSpace(c: char) {
    c == ' ' || ('\t' <= c <= '\r')
    || c == '\U{0085}' || c == '\U{00A0}' || c == '\U{1680}' || ('\U{2000}' <= c <= '\U{200A}')
    || c == '\U{2028}' || c == '\U{2029}' || c == '\U{202F}' || c == '\U{205F}' || c == '\U{3000}'
  }

  /** How many white-space characters `s` starts with. */
  function LeadingSpaces(s: string): (k: nat)
    ensures k <= |s|
  {
    if |s| > 0 && IsSpace(s[0]) then 1 + LeadingSpaces(s[1..]) else 0
  }

  /** How many white-space characters `s` ends with. */
  function TrailingSpaces(s: string): (k: nat)
    ensures k <= |s|
  {
    if |s| > 0 && IsSpace(s[|s| - 1]) then 1 + TrailingSpaces(s[..|s| - 1]) else 0
  }

  /** `s` without the leading and trailing white space `float()` skips. */
  function Strip(s: string): string {
    var u := s[LeadingSpaces(s)..];
    u[..|u| - TrailingSpaces(u)]
  }

  lemma {:induction false} LeadingSpacesAreSpaces(s: string)
    ensures forall j :: 0 <= j < LeadingSpaces(s) ==> IsSpace(s[j])
    ensures LeadingSpaces(s) < |s| ==> !IsSpace(s[LeadingSpaces(s)])
  {
    if |s| > 0 && IsSpace(s[0]) {
      LeadingSpacesAreSpaces(s[1..]);
    }
  }

  lemma {:induction false} TrailingSpacesAreSpaces(s: string)
    ensures forall j :: |s| - TrailingSpaces(s) <= j < |s| ==> IsSpace(s[j])
    ensures TrailingSpaces(s) < |s| ==> !IsSpace(s[|s| - TrailingSpaces(s) - 1])
  {
    if |s| > 0 && IsSpace(s[|s| - 1]) {
      TrailingSpacesAreSpaces(s[..|s| - 1]);
    }
  }

  /** The stripped text is the slice of `s` after its leading white space,
      with only white space around it and none at either of its ends. */
  lemma {:induction false} StripSlice(s: string)
    ensures var k := LeadingSpaces(s);
            var t := Strip(s);
            k + |t| <= |s| && t == s[k..k + |t|]
            && (forall j :: 0 <= j < k ==> IsSpace(s[j]))
            && (forall j :: k + |t| <= j < |s| ==> IsSpace(s[j]))
            && (|t| > 0 ==> !IsSpace(t[0]) && !IsSpace(t[|t| - 1]))
  {
    var k := LeadingSpaces(s);
    var u := s[k..];
    LeadingSpacesAreSpaces(s);
    TrailingSpacesAreSpaces(u);
    var t := Strip(s);
    forall j | k + |t| <= j < |s|
      ensures IsSpace(s[j])
    {
      assert s[j] == u[j - k];
    }
    if |t| > 0 {
      assert t[0] == s[k];
      assert t[|t| - 1] == u[|u| - TrailingSpaces(u) - 1];
    }
  }

  /** Stripping finds the one slice of `x` that has only white space around
      it and none at either of its ends. */
  lemma {:induction false} StripIsUnique(x: string, i: nat, j: nat)
    requires i <= j <= |x|
    requires forall n :: 0 <= n < i ==> IsSpace(x[n])
    requires forall n :: j <= n < |x| ==> IsSpace(x[n])
    requires i < j ==> !IsSpace(x[i]) && !IsSpace(x[j - 1])
    ensures Strip(x) == x[i..j]
  {
    var k := LeadingSpaces(x);
    var t := Strip(x);
    StripSlice(x);
    if i < j {
      assert k <= i && i < k + |t|;
      assert t[0] == x[k];
      assert k == i;
      assert t[|t| - 1] == x[k + |t| - 1];
      assert k + |t| == j;
    }
  }

  /** Blanks around a text do not change what it strips to. */
  lemma {:induction false} StripIgnoresBlanks(p: string, s: string, q: string)
    requires forall n :: 0 <= n < |p| ==> IsSpace(p[n])
    requires forall n :: 0 <= n < |q| ==> IsSpace(q[n])
    ensures Strip(p + s + q) == Strip(s)
  {
    var x := p + s + q;
    var k := LeadingSpaces(s);
    var t := Strip(s);
    StripSlice(s);
    var i := |p| + k;
    var j := |p| + k + |t|;
    forall n | 0 <= n < i
      ensures IsSpace(x[n])
    {
      if n >= |p| {
        assert x[n] == s[n - |p|];
      }
    }
    forall n | j <= n < |x|
      ensures IsSpace(x[n])
    {
      if n < |p| + |s| {
        assert x[n] == s[n - |p|];
      } else {
        assert x[n] == q[n - |p| - |s|];
      }
    }
    if i < j {
      assert x[i] == t[0] && x[j - 1] == t[|t| - 1];
    }
    StripIsUnique(x, i, j);
    assert x[i..j] == t;
  }

  lemma {:induction false} StripUnchanged(s: string)
    requires |s| > 0 && !IsSpace(s[0]) && !IsSpace(s[|s| - 1])
    ensures Strip(s) == s
  {
    assert LeadingSpaces(s) == 0;
    assert s[0..] == s;
    assert TrailingSpaces(s) == 0;
  }

  /** The value of `f` written as `k` digits after a point: f / 10^k. */
  function Fraction(f: nat, k: nat): real {
    if k == 0 then f as real else Fraction(f, k - 1) / 10.0
  }

  /** The value of `whole.fraction`, when both are digits and not both empty. */
  function PointValue(whole: string, fraction: string): Option<real> {
    if AllDigits(whole) && AllDigits(fraction) && |whole| + |fraction| > 0
    then Some(DigitsValue(whole) as real + Fraction(DigitsValue(fraction), |fraction|))
    else None
  }

  /** Digits with at most one point and at least one digit, unsigned. */
  function ParseUnsigned(u: string): Option<real> {
    match IndexOf(u, '.')
    case None => if |u| > 0 && AllDigits(u) then Some(DigitsValue(u) as real) else None
    case Some(i) => PointValue(u[..i], u[i + 1..])
  }

  function Negated(r: Option<real>): Option<real> {
    match r
    case None => None
    case Some(x) => Some(-x)
  }

  /**
   * Python's `float(text)` for decimal text: surrounding white space, an
   * optional sign, digits with at most one point and at least one digit.
   * None stands for the `ValueError` it raises on anything else.
   */
  function ParseDecimal(s: string): (r: Option<real>)
    ensures r.Some? ==> forall i :: 0 <= i < |s| ==> IsNumeralChar(s[i])
  {
    NumeralCharacters(s);
    var t := Strip(s);
    if |t| > 0 && t[0] == '-' then Negated(ParseUnsigned(t[1..]))
    else if |t| > 0 && t[0] == '+' then ParseUnsigned(t[1..])
    else ParseUnsigned(t)
  }

  /** `float()` reads a numeral the same with white space around it. */
  lemma {:induction false} ParseDecimalIgnoresBlanks(p: string, s: string, q: string)
    requires forall n :: 0 <= n < |p| ==> IsSpace(p[n])
    requires forall n :: 0 <= n < |q| ==> IsSpace(q[n])
    ensures ParseDecimal(p + s + q) == ParseDecimal(s)
  {
    StripIgnoresBlanks(p, s, q);
  }

  /** A character that may appear in text `float()` accepts as a decimal. */
  predicate IsNumeralChar(c: char) {
    IsDigit(c) || c == '+' || c == '-' || c == '.' || IsSpace(c)
  }

  lemma {:induction false} ParseUnsignedCharacters(u: string)
    requires ParseUnsigned(u).Some?
    ensures forall i :: 0 <= i < |u| ==> IsDigit(u[i]) || u[i] == '.'
  {
    match IndexOf(u, '.')
    case None =>
    case Some(dot) =>
      forall i | 0 <= i < |u| && i != dot
        ensures IsDigit(u[i])
      {
        if i < dot {
          assert u[i] == u[..dot][i];
        } else {
          assert u[i] == u[dot + 1..][i - dot - 1];
        }
      }
  }

  /** `s` stripped and without its sign. */
  function UnsignedPart(s: string): string {
    var t := Strip(s);
    if |t| > 0 && (t[0] == '-' || t[0] == '+') then t[1..] else t
  }

  /** Text whose unsigned part reads as a number holds only numeral characters. */
  lemma {:induction false} NumeralCharacters(s: string)
    ensures ParseUnsigned(UnsignedPart(s)).Some? ==> forall i :: 0 <= i < |s| ==> IsNumeralChar(s[i])
  {
    var t := Strip(s);
    var k := LeadingSpaces(s);
    StripSlice(s);
    var signed := |t| > 0 && (t[0] == '-' || t[0] == '+');
    var u := UnsignedPart(s);
    if ParseUnsigned(u).Some? {
      ParseUnsignedCharacters(u);
      forall i | k <= i < k + |t|
        ensures IsNumeralChar(s[i])
      {
        assert s[i] == t[i - k];
        if signed && i > k {
          assert t[i - k] == u[i - k - 1];
        }
      }
    }
  }

  /** A decimal written `w.f` with `k` fraction digits (`w` alone when k is 0). */
  function FormatDecimal(w: nat, f: nat, k: nat): string
    requires f < Pow10(k)
  {
    if k == 0 then NatText(w) else NatText(w) + ['.'] + PadDigits(f, k)
  }

  lemma {:induction false} ParseUnsignedWhole(a: string)
    requires |a| > 0 && AllDigits(a)
    ensures ParseUnsigned(a) == Some(DigitsValue(a) as real)
  {
    NoSeparatorInDigits(a, '.');
  }

  lemma {:induction false} ParseUnsignedPoint(a: string, b: string)
    requires AllDigits(a)
    ensures ParseUnsigned(a + ['.'] + b) == PointValue(a, b)
  {
    var u := a + ['.'] + b;
    NoSeparatorInDigits(a, '.');
    IndexOfJoin(a, '.', b);
    assert u[..|a|] == a && u[|a| + 1..] == b;
  }

  lemma {:induction false} ParseDecimalOfDigitText(s: string)
    requires |s| > 0 && IsDigit(s[0]) && !IsSpace(s[|s| - 1])
    ensures ParseDecimal(s) == ParseUnsigned(s)
  {
    StripUnchanged(s);
  }

  lemma {:induction false} ParseNatText(w: nat)
    ensures ParseDecimal(NatText(w)) == Some(w as real)
  {
    var n := NatText(w);
    NatTextValue(w);
    ParseDecimalOfDigitText(n);
    ParseUnsignedWhole(n);
  }

  lemma {:induction false} ParseDecimalOfPointText(n: string, p: string)
    requires |n| > 0 && AllDigits(n) && AllDigits(p)
    ensures ParseDecimal(n + ['.'] + p) == ParseUnsigned(n + ['.'] + p)
  {
    var s := n + ['.'] + p;
    assert s[0] == n[0];
    if |p| > 0 {
      assert s[|s| - 1] == p[|p| - 1];
    }
    ParseDecimalOfDigitText(s);
  }

  /** `n.p` reads back as the value of its digits. */
  lemma {:induction false} ParsePointDigits(n: string, p: string)
    requires |n| > 0 && AllDigits(n) && AllDigits(p)
    ensures ParseDecimal(n + ['.'] + p) ==
            Some(DigitsValue(n) as real + Fraction(DigitsValue(p), |p|))
  {
    calc {
      ParseDecimal(n + ['.'] + p);
    == { ParseDecimalOfPointText(n, p); }
      ParseUnsigned(n + ['.'] + p);
    == { ParseUnsignedPoint(n, p); }
      PointValue(n, p);
    }
  }

  lemma {:induction false} ParsePointText(w: nat, f: nat, k: nat)
    requires 0 < k && f < Pow10(k)
    ensures ParseDecimal(NatText(w) + ['.'] + PadDigits(f, k)) == Some(w as real + Fraction(f, k))
  {
    NatTextValue(w);
    PadDigitsValue(f, k);
    ParsePointDigits(NatText(w), PadDigits(f, k));
  }

  /** `float()` reads back the value of every decimal written by FormatDecimal. */
  lemma {:induction false} ParseFormatDecimal(w: nat, f: nat, k: nat)
    requires f < Pow10(k)
    ensures ParseDecimal(FormatDecimal(w, f, k)) == Some(w as real + Fraction(f, k))
  {
    if k == 0 {
      ParseNatText(w);
    } else {
      ParsePointText(w, f, k);
    }
  }

  // ----------------------------------------------------------- SAP hours

  /** `text.replace(' H', '')`: every `" H"` found scanning left to right,
      without overlaps, is deleted. */
  function RemoveUnit(s: string): (r: string)
    ensures |r| <= |s|
    decreases |s|
  {
    if |s| < 2 then s
    else if s[0] == ' ' && s[1] == 'H' then RemoveUnit(s[2..])
    else [s[0]] + RemoveUnit(s[1..])
  }

  /** No `" H"` occurs in `s`. */
  predicate NoUnit(s: string) {
    forall i :: 0 <= i < |s| - 1 ==> !(s[i] == ' ' && s[i + 1] == 'H')
  }

  lemma {:induction false} RemoveUnitNoop(s: string)
    requires NoUnit(s)
    ensures RemoveUnit(s) == s
    decreases |s|
  {
    if |s| >= 2 {
      RemoveUnitNoop(s[1..]);
    }
  }

  /** Removal distributes over a concatenation that does not split a `" H"`. */
  lemma {:induction false} RemoveUnitConcat(a: string, b: string)
    requires !(|a| > 0 && a[|a| - 1] == ' ' && |b| > 0 && b[0] == 'H')
    ensures RemoveUnit(a + b) == RemoveUnit(a) + RemoveUnit(b)
    decreases |a|
  {
    var s := a + b;
    if |a| == 0 {
      assert s == b;
    } else if |a| == 1 {
      if |b| == 0 {
        assert s == a;
      } else {
        assert !(s[0] == ' ' && s[1] == 'H');
        assert s[1..] == b;
      }
    } else if a[0] == ' ' && a[1] == 'H' {
      assert s[2..] == a[2..] + b;
      RemoveUnitConcat(a[2..], b);
    } else {
      assert s[1..] == a[1..] + b;
      RemoveUnitConcat(a[1..], b);
    }
  }

  /** `df['Hours'].str.replace(' H', '').astype(float)` for one SAP cell;
      None is the `ValueError` that aborts the file. */
  function ParseSapHours(s: string): (r: Option<real>)
    ensures r.Some? ==> forall i :: 0 <= i < |RemoveUnit(s)| ==> IsNumeralChar(RemoveUnit(s)[i])
  {
    ParseDecimal(RemoveUnit(s))
  }

  /** Appending the unit marker never changes what the SAP reader makes of a cell. */
  lemma {:induction false} SapHoursIgnoresUnit(t: string)
    ensures ParseSapHours(t + " H") == ParseSapHours(t)
  {
    RemoveUnitConcat(t, " H");
    assert RemoveUnit(" H") == [];
    assert RemoveUnit(t) + [] == RemoveUnit(t);
  }

  /** A decimal followed by `" H"` reads as that decimal. */
  lemma {:induction false} SapHoursOfFormatted(w: nat, f: nat, k: nat)
    requires f < Pow10(k)
    ensures ParseSapHours(FormatDecimal(w, f, k) + " H") == Some(w as real + Fraction(f, k))
  {
    var s := FormatDecimal(w, f, k);
    SapHoursIgnoresUnit(s);
    assert NoUnit(s) by {
      forall i | 0 <= i < |s| - 1
        ensures s[i] != ' '
      {
        var n := NatText(w);
        if i >= |n| + 1 {
          assert s[i] == PadDigits(f, k)[i - |n| - 1];
        } else if i < |n| {
          assert s[i] == n[i];
        }
      }
    }
    RemoveUnitNoop(s);
    ParseFormatDecimal(w, f, k);
  }

  /** What is left after removing the markers must be numeric, or the file fails. */
  lemma {:induction false} SapHoursRejectsOtherText(s: string, i: int)
    requires 0 <= i < |RemoveUnit(s)| && !IsNumeralChar(RemoveUnit(s)[i])
    ensures ParseSapHours(s) == None
  {
  }

  /** The usual SAP cell `7.5 H`. */
  lemma {:induction false} SapHoursDecimalCell()
    ensures ParseSapHours("7.5 H") == Some(7.5)
  {
    SapHoursOfFormatted(7, 5, 1);
    assert FormatDecimal(7, 5, 1) + " H" == "7.5 H";
  }

  /** A whole number of hours. */
  lemma {:induction false} SapHoursWholeCell()
    ensures ParseSapHours("8 H") == Some(8.0)
  {
    SapHoursOfFormatted(8, 0, 0);
    assert FormatDecimal(8, 0, 0) + " H" == "8 H";
  }

  /** Without the space the unit is not removed, and the cell is refused. */
  lemma {:induction false} SapHoursUnspacedUnitRefused()
    ensures ParseSapHours("7.5H") == None
  {
    assert RemoveUnit("7.5H") == "7.5H";
    SapHoursRejectsOtherText("7.5H", 3);
  }

  /** A leading file separator is not white space to `float()`. */
  lemma {:induction false} SapHoursSeparatorRefused()
    ensures ParseSapHours("\U{001C}8 H").None?
  {
  }

  /** A decimal comma is refused. */
  lemma {:induction false} SapHoursDecimalCommaRefused()
    ensures ParseSapHours("7,5 H") == None
  {
    assert RemoveUnit("7,5 H") == "7,5";
    SapHoursRejectsOtherText("7,5 H", 1);
  }
}
