/** Order dates: a calendar day with a time of day, their chronological
    order, the month window of the daily-sales report and the DD/MM/YYYY
    rendering of a day. */
module Calendar {
  import opened Wrappers

  type Month = m: nat | 1 <= m <= 12 witness 1
  type DayOfMonth = d: nat | 1 <= d <= 31 witness 1
  type MillisOfDay = ms: nat | ms < 86_400_000

  /** A point in time, as `$year`, `$month`, `$dayOfMonth` and the time of day see it. */
  datatype Instant = Instant(year: nat, month: Month, day: DayOfMonth, millis: MillisOfDay)

  /** The `{year, month, day}` key the daily-sales grouping uses. */
  datatype DayKey = DayKey(year: nat, month: Month, day: DayOfMonth)

  function DayOf(t: Instant): DayKey {
    DayKey(t.year, t.month, t.day)
  }

  /** `a <= b` on dates. */
  predicate AtOrBefore(a: Instant, b: Instant) {
    || a.year < b.year
    || (a.year == b.year && a.month < b.month)
    || (a.year == b.year && a.month == b.month && a.day < b.day)
    || (a.year == b.year && a.month == b.month && a.day == b.day && a.millis <= b.millis)
  }

  /** Ascending `(year, month, day)` order, strict. */
  predicate DayBefore(a: DayKey, b: DayKey) {
    || a.year < b.year
    || (a.year == b.year && a.month < b.month)
    || (a.year == b.year && a.month == b.month && a.day < b.day)
  }

  /** `new Date(year, month, 1)` for the current month. */
  function StartOfMonth(now: Instant): Instant {
    Instant(now.year, now.month, 1, 0)
  }

  /** `new Date(year, month + 1, 1)`: December rolls over into January. */
  function StartOfNextMonth(now: Instant): Instant {
    if now.month == 12 then Instant(now.year + 1, 1, 1, 0)
    else Instant(now.year, now.month + 1, 1, 0)
  }

  /** `{$gte: startOfMonth, $lt: startOfNextMonth}`. */
  predicate InCurrentMonth(t: Instant, now: Instant) {
    AtOrBefore(StartOfMonth(now), t) && !AtOrBefore(StartOfNextMonth(now), t)
  }

  /** The half-open window holds exactly the instants of the current
      calendar month. */
  lemma CurrentMonthWindow(t: Instant, now: Instant)
    ensures InCurrentMonth(t, now) <==> t.year == now.year && t.month == now.month
  {
  }

  predicate IsDigit(c: char) {
    '0' <= c <= '9'
  }

  predicate AllDigits(s: string) {
    forall i :: 0 <= i < |s| ==> IsDigit(s[i])
  }

  function DigitChar(d: nat): (c: char)
    requires d < 10
    ensures IsDigit(c) && DigitValue(c) == d
  {
    ('0' as int + d) as char
  }

  function DigitValue(c: char): nat
    requires IsDigit(c)
  {
    c as int - '0' as int
  }

  /** The decimal rendering of `n`, without leading zeros. */
  function Decimal(n: nat): (s: string)
    ensures |s| >= 1 && AllDigits(s)
    decreases n
  {
    if n < 10 then [DigitChar(n)] else Decimal(n / 10) + [DigitChar(n % 10)]
  }

  /** The number a string of decimal digits denotes. */
  function DigitsValue(s: string): nat
    requires AllDigits(s)
  {
    if s == [] then 0 else DigitsValue(s[..|s| - 1]) * 10 + DigitValue(s[|s| - 1])
  }

  lemma {:induction false} DecimalRoundTrip(n: nat)
    ensures DigitsValue(Decimal(n)) == n
    decreases n
  {
    var s := Decimal(n);
    if n >= 10 {
      DecimalRoundTrip(n / 10);
      assert s[..|s| - 1] == Decimal(n / 10);
    }
  }

  /** A two-digit rendering: `2-digit` in the formatter's options. */
  function Pad2(n: nat): (s: string)
    requires n < 100
    ensures |s| == 2 && AllDigits(s) && DigitsValue(s) == n
  {
    var s := [DigitChar(n / 10), DigitChar(n % 10)];
    assert s[..1] == [DigitChar(n / 10)] && s[..1][..0] == [];
    assert DigitsValue(s[..1]) == n / 10;
    s
  }

  /** The `pt-BR` rendering of a day: two-digit day, two-digit month and the
      numeric year, separated by slashes. */
  function FormatDay(k: DayKey): (s: string)
    ensures |s| >= 7 && s[2] == '/' && s[5] == '/'
  {
    Pad2(k.day) + "/" + Pad2(k.month) + "/" + Decimal(k.year)
  }

  /** Reads a DD/MM/YYYY string back. */
  function ParseDay(s: string): Option<DayKey> {
    if |s| >= 7 && s[2] == '/' && s[5] == '/'
       && AllDigits(s[..2]) && AllDigits(s[3..5]) && AllDigits(s[6..])
    then
      var d, m, y := DigitsValue(s[..2]), DigitsValue(s[3..5]), DigitsValue(s[6..]);
      if 1 <= d <= 31 && 1 <= m <= 12 then Some(DayKey(y, m, d)) else None
    else None
  }

  /** The rendering loses nothing: reading it back gives the day. */
  lemma FormatRoundTrip(k: DayKey)
    ensures ParseDay(FormatDay(k)) == Some(k)
  {
    var s := FormatDay(k);
    assert s[..2] == Pad2(k.day);
    assert s[3..5] == Pad2(k.month);
    assert s[6..] == Decimal(k.year);
    DecimalRoundTrip(k.year);
  }

  /** Distinct days render to distinct strings. */
  lemma FormatInjective(k1: DayKey, k2: DayKey)
    requires FormatDay(k1) == FormatDay(k2)
    ensures k1 == k2
  {
    FormatRoundTrip(k1);
    FormatRoundTrip(k2);
  }
}
