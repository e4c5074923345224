/** The text forms of a date the harness and the daemon exchange: the date and
    time of section 5.6 of RFC 3339 (`utc`), and the provider's `yyyyMMdd`
    (`shanghai_date`), read back by `shanghai_midnight_ms`. Shanghai is UTC+8
    flat.
 */
module CalendarText {
  import opened Calendar
  import opened Options

  const DAY := 86400
  const SHANGHAI := 8 * 3600

  // ---------------------------------------------------------------------
  // Numbers as text
  // ---------------------------------------------------------------------

  function Digit(n: int): char
    requires 0 <= n <= 9
  {
    ('0' as int + n) as char
  }

  function Digits(n: nat): (s: string)
    ensures |s| >= 1
  {
    if n < 10 then [Digit(n)] else Digits(n / 10) + [Digit(n % 10)]
  }

  function Zeros(k: int): (s: string)
    ensures |s| == if k < 0 then 0 else k
  {
    if k <= 0 then "" else "0" + Zeros(k - 1)
  }

  /** `{n:0width}`: zero-padded, the sign counted in the width. */
  function Padded(n: int, width: nat): (s: string)
    ensures |s| >= width
  {
    if n >= 0 then
      var d := Digits(n);
      Zeros(width - |d|) + d
    else
      var d := Digits(-n);
      "-" + Zeros(width - 1 - |d|) + d
  }

  function DigitValue(c: char): Option<int> {
    if '0' <= c <= '9' then Some(c as int - '0' as int) else None
  }

  /** The value of an unsigned run of digits; an empty run has none. */
  function ParseDigits(s: string): Option<int> {
    if s == "" then None
    else if |s| == 1 then DigitValue(s[0])
    else
      match (ParseDigits(s[..|s| - 1]), DigitValue(s[|s| - 1]))
      case (Some(high), Some(low)) => Some(10 * high + low)
      case _ => None
  }

  /** An integer as the standard parser reads it: one sign is allowed. */
  function ParseInt(s: string): Option<int> {
    if s != "" && s[0] == '+' then ParseDigits(s[1..])
    else if s != "" && s[0] == '-' then
      match ParseDigits(s[1..])
      case Some(n) => Some(-n)
      case None => None
    else ParseDigits(s)
  }

  // ---------------------------------------------------------------------
  // The harness's conversions
  // ---------------------------------------------------------------------

  function Utc(unixS: int): (s: string)
    ensures |s| >= 19
  {
    var date := CivilFromDays(unixS / DAY);
    var seconds := unixS % DAY;
    Padded(date.year, 4) + "-" + Padded(date.month, 2) + "-" + Padded(date.day, 2)
    + "T" + Padded(seconds / 3600, 2) + ":" + Padded((seconds % 3600) / 60, 2)
    + ":" + Padded(seconds % 60, 2)
  }

  function WithoutDashes(s: string): string {
    if s == "" then ""
    else if s[0] == '-' then WithoutDashes(s[1..])
    else [s[0]] + WithoutDashes(s[1..])
  }

  function ShanghaiDate(unixS: int): string {
    WithoutDashes(Utc(unixS + SHANGHAI)[..10])
  }

  /** The Shanghai day number a Unix second falls in. */
  function ShanghaiDay(unixS: int): int {
    (unixS + SHANGHAI) / DAY
  }

  function ShanghaiMidnightS(unixS: int): int {
    (unixS + SHANGHAI) / DAY * DAY - SHANGHAI
  }

  /** `text.get(from..to)` read as a number; `None` is the panic. */
  function Number(text: string, from: nat, to: nat): Option<int>
    requires from <= to
  {
    if to <= |text| then ParseInt(text[from..to]) else None
  }

  function ShanghaiMidnightMs(yyyymmdd: string): Option<int> {
    match (Number(yyyymmdd, 0, 4), Number(yyyymmdd, 4, 6), Number(yyyymmdd, 6, 8))
    case (Some(year), Some(month), Some(day)) =>
      Some((DaysFromCivil(Date(year, month, day)) * DAY - SHANGHAI) * 1000)
    case _ => None
  }

  /** Monday through Friday; day 0 was a Thursday. */
  predicate Weekday(unixS: int) {
    1 <= WeekdayOf(ShanghaiDay(unixS)) <= 5
  }

  // ---------------------------------------------------------------------
  // Fixed-width text of a date with a four-digit year
  // ---------------------------------------------------------------------

  predicate FourDigitYear(date: Date) {
    0 <= date.year <= 9999
  }

  /** The days of years 0000 to 9999. */
  const FIRST_DAY := -719528
  const LAST_DAY := 2932896

  predicate FourDigitDay(day: int) {
    FIRST_DAY <= day <= LAST_DAY
  }

  lemma FourDigitEnds()
    ensures DaysFromCivil(Date(0, 1, 1)) == FIRST_DAY && DaysFromCivil(Date(9999, 12, 31)) == LAST_DAY
  {
  }

  lemma FourDigitDays(day: int)
    ensures FourDigitDay(day) <==> FourDigitYear(CivilFromDays(day))
    ensures Valid(CivilFromDays(day))
  {
    hide CivilFromDays, DaysFromCivil, Leap;
    FourDigitEnds();
    DateRoundTrip(Date(0, 1, 1));
    DateRoundTrip(Date(9999, 12, 31));
    OrderIsDateOrder(day, FIRST_DAY);
    OrderIsDateOrder(LAST_DAY, day);
    DaysRoundTrip(day);
  }

  function Two(n: int): (s: string)
    requires 0 <= n <= 99
    ensures |s| == 2
  {
    [Digit(n / 10), Digit(n % 10)]
  }

  /** `yyyyMMdd`. */
  function Compact(date: Date): (s: string)
    requires Valid(date) && FourDigitYear(date)
    ensures |s| == 8
  {
    Two(date.year / 100) + Two(date.year % 100) + Two(date.month) + Two(date.day)
  }

  lemma PaddedTwo(n: int)
    requires 0 <= n <= 99
    ensures Padded(n, 2) == Two(n)
  {
    if n < 10 {
      assert Zeros(1) == "0";
    } else {
      assert Digits(n / 10) == [Digit(n / 10)];
      assert Zeros(0) == "";
    }
  }

  lemma DigitsOfHundreds(x: int, y: int)
    requires 1 <= x <= 99 && 0 <= y <= 99
    ensures Digits(100 * x + y) == Digits(x) + Two(y)
  {
    var n := 10 * x + y / 10;
    assert 100 * x + y == 10 * n + y % 10;
    assert Digits(n) == Digits(x) + [Digit(y / 10)];
    assert Digits(10 * n + y % 10) == Digits(n) + [Digit(y % 10)];
  }

  lemma PaddedFour(n: int)
    requires 0 <= n <= 9999
    ensures Padded(n, 4) == Two(n / 100) + Two(n % 100)
  {
    var x, y := n / 100, n % 100;
    PaddedTwo(x);
    PaddedTwo(y);
    if x == 0 {
      assert Zeros(3) == "0" + Zeros(2);
      assert Zeros(2) == "0" + Zeros(1);
    } else {
      hide Digits, Two;
      DigitsOfHundreds(x, y);
      assert n == 100 * x + y;
      assert Padded(x, 2) == Zeros(2 - |Digits(x)|) + Digits(x);
    }
  }

  lemma WithoutDashesConcat(a: string, b: string)
    ensures WithoutDashes(a + b) == WithoutDashes(a) + WithoutDashes(b)
  {
    if a == "" {
      assert a + b == b;
    } else {
      assert (a + b)[1..] == a[1..] + b;
    }
  }

  lemma TwoHasNoDash(n: int)
    requires 0 <= n <= 99
    ensures WithoutDashes(Two(n)) == Two(n)
  {
    var low := [Digit(n % 10)];
    assert Two(n)[1..] == low && low[1..] == "";
    assert WithoutDashes(low) == low + WithoutDashes("");
  }

  /** The first ten characters of `Utc`, with the dashes taken out. */
  lemma ShanghaiDateIsCompact(unixS: int)
    requires FourDigitYear(CivilFromDays(ShanghaiDay(unixS)))
    ensures Valid(CivilFromDays(ShanghaiDay(unixS)))
    ensures ShanghaiDate(unixS) == Compact(CivilFromDays(ShanghaiDay(unixS)))
  {
    hide CivilFromDays, Padded, Two, Digits, Zeros;
    DaysRoundTrip(ShanghaiDay(unixS));
    var date := CivilFromDays(ShanghaiDay(unixS));
    PaddedFour(date.year);
    PaddedTwo(date.month);
    PaddedTwo(date.day);
    var y1, y2, m, d := Two(date.year / 100), Two(date.year % 100), Two(date.month), Two(date.day);
    assert Utc(unixS + SHANGHAI)[..10] == y1 + (y2 + ("-" + (m + ("-" + d))));
    TwoHasNoDash(date.year / 100);
    TwoHasNoDash(date.year % 100);
    TwoHasNoDash(date.month);
    TwoHasNoDash(date.day);
    WithoutDashesConcat(y1, y2 + ("-" + (m + ("-" + d))));
    WithoutDashesConcat(y2, "-" + (m + ("-" + d)));
    assert ("-" + (m + ("-" + d)))[1..] == m + ("-" + d);
    WithoutDashesConcat(m, "-" + d);
    assert ("-" + d)[1..] == d;
  }

  lemma ParseTwo(n: int)
    requires 0 <= n <= 99
    ensures ParseInt(Two(n)) == Some(n)
  {
    var high := [Digit(n / 10)];
    assert Two(n)[..1] == high && ParseDigits(high) == DigitValue(high[0]);
    assert DigitValue(Digit(n / 10)) == Some(n / 10);
    assert DigitValue(Digit(n % 10)) == Some(n % 10);
  }

  lemma ParseFour(n: int)
    requires 0 <= n <= 9999
    ensures ParseInt(Two(n / 100) + Two(n % 100)) == Some(n)
  {
    var s := Two(n / 100) + Two(n % 100);
    assert s[..3][..2] == Two(n / 100);
    assert s[..3][..2][..1] == [Digit(n / 100 / 10)];
    ParseTwo(n / 100);
    assert ParseDigits(s[..3]) == Some(10 * (n / 100) + n % 100 / 10);
  }

  // ---------------------------------------------------------------------
  // Main results
  // ---------------------------------------------------------------------

  /** A `yyyyMMdd` reads back as the midnight of the date it was written from. */
  lemma CompactReadsBack(date: Date)
    requires Valid(date) && FourDigitYear(date)
    ensures ShanghaiMidnightMs(Compact(date))
         == Some((DaysFromCivil(date) * DAY - SHANGHAI) * 1000)
  {
    hide DaysFromCivil, ParseInt, Two;
    var text := Compact(date);
    assert text[0..4] == Two(date.year / 100) + Two(date.year % 100);
    assert text[4..6] == Two(date.month);
    assert text[6..8] == Two(date.day);
    ParseFour(date.year);
    ParseTwo(date.month);
    ParseTwo(date.day);
  }

  /** `shanghai_midnight_ms` undoes `shanghai_date` up to the day: from any
      second of a day it gives that day's Shanghai midnight. */
  lemma SecondRoundTrip(unixS: int)
    requires FourDigitDay(ShanghaiDay(unixS))
    ensures ShanghaiMidnightMs(ShanghaiDate(unixS)) == Some(ShanghaiMidnightS(unixS) * 1000)
  {
    hide CivilFromDays, DaysFromCivil, Compact, ShanghaiDate, ShanghaiMidnightMs;
    FourDigitDays(ShanghaiDay(unixS));
    ShanghaiDateIsCompact(unixS);
    DaysRoundTrip(ShanghaiDay(unixS));
    CompactReadsBack(CivilFromDays(ShanghaiDay(unixS)));
  }

  /** `shanghai_date` undoes `shanghai_midnight_ms`: the midnight a date's text
      names is a second that is written as that same text. */
  lemma DateTextRoundTrip(date: Date)
    requires Valid(date) && FourDigitYear(date)
    ensures var ms := ShanghaiMidnightMs(Compact(date));
            ms.Some? && ms.value % 1000 == 0 && ShanghaiDate(ms.value / 1000) == Compact(date)
  {
    hide CivilFromDays, DaysFromCivil, Compact, ShanghaiDate, ShanghaiMidnightMs;
    CompactReadsBack(date);
    var unixS := DaysFromCivil(date) * DAY - SHANGHAI;
    assert ShanghaiMidnightMs(Compact(date)).value / 1000 == unixS;
    assert ShanghaiDay(unixS) == DaysFromCivil(date);
    DateRoundTrip(date);
    ShanghaiDateIsCompact(unixS);
  }

  /** Character by character, as strings compare. */
  predicate TextLess(a: string, b: string) {
    if b == "" then false
    else if a == "" then true
    else a[0] < b[0] || (a[0] == b[0] && TextLess(a[1..], b[1..]))
  }

  lemma TextLessTwo(a: int, b: int, s: string, t: string)
    requires 0 <= a <= 99 && 0 <= b <= 99
    ensures TextLess(Two(a) + s, Two(b) + t) <==> a < b || (a == b && TextLess(s, t))
  {
    assert (Two(a) + s)[1..] == [Digit(a % 10)] + s;
    assert (Two(b) + t)[1..] == [Digit(b % 10)] + t;
    assert ([Digit(a % 10)] + s)[1..] == s;
    assert ([Digit(b % 10)] + t)[1..] == t;
  }

  lemma CompactOrder(a: Date, b: Date)
    requires Valid(a) && FourDigitYear(a) && Valid(b) && FourDigitYear(b)
    ensures TextLess(Compact(a), Compact(b)) <==> Before(a, b)
  {
    assert !TextLess("", "");
    hide Two, TextLess;
    var a3, b3 := Two(a.day) + "", Two(b.day) + "";
    var a2, b2 := Two(a.month) + a3, Two(b.month) + b3;
    var a1, b1 := Two(a.year % 100) + a2, Two(b.year % 100) + b2;
    assert Compact(a) == Two(a.year / 100) + a1;
    assert Compact(b) == Two(b.year / 100) + b1;
    TextLessTwo(a.year / 100, b.year / 100, a1, b1);
    TextLessTwo(a.year % 100, b.year % 100, a2, b2);
    TextLessTwo(a.month, b.month, a3, b3);
    TextLessTwo(a.day, b.day, "", "");
  }

  /** Text order is day order, and equal texts are equal days. */
  lemma TextOrderIsDayOrder(s: int, t: int)
    requires FourDigitDay(ShanghaiDay(s)) && FourDigitDay(ShanghaiDay(t))
    ensures TextLess(ShanghaiDate(s), ShanghaiDate(t)) <==> ShanghaiDay(s) < ShanghaiDay(t)
    ensures ShanghaiDate(s) == ShanghaiDate(t) <==> ShanghaiDay(s) == ShanghaiDay(t)
  {
    hide CivilFromDays, Compact, ShanghaiDate, ShanghaiMidnightMs, TextLess;
    FourDigitDays(ShanghaiDay(s));
    FourDigitDays(ShanghaiDay(t));
    ShanghaiDateIsCompact(s);
    ShanghaiDateIsCompact(t);
    CompactOrder(CivilFromDays(ShanghaiDay(s)), CivilFromDays(ShanghaiDay(t)));
    OrderIsDateOrder(ShanghaiDay(s), ShanghaiDay(t));
    SecondRoundTrip(s);
    SecondRoundTrip(t);
  }
}
