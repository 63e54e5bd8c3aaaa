/** The parts of java.time the modelled code relies on: `LocalTime` at
    second precision, `Duration.between(..).toMinutes()`, the "HH:mm"
    formatter, and `LocalDate` with its Gregorian month lengths. */
module Temporal {
  import opened Wrappers
  import opened JavaLang

  /** A `LocalTime`, as seconds since midnight. */
  type Time = t: int | 0 <= t < 86400

  /** `LocalTime.of(hour, minute)`. */
  function At(hour: nat, minute: nat): (t: Time)
    requires hour < 24 && minute < 60
    ensures t / 3600 == hour && t % 3600 / 60 == minute && t % 60 == 0
  {
    hour * 3600 + minute * 60
  }

  function Hour(t: Time): (h: nat)
    ensures h < 24
  {
    t / 3600
  }

  function Minute(t: Time): (m: nat)
    ensures m < 60
  {
    t % 3600 / 60
  }

  /** A time with no seconds, as every time read from a file is. */
  predicate OnMinute(t: Time) { t % 60 == 0 }

  /** `Duration.between(from, to).toMinutes()`: whole minutes, truncated toward zero. */
  function MinutesBetween(from: Time, to: Time): (m: int)
    ensures from <= to ==> 0 <= m && 60 * m <= to - from < 60 * m + 60
    ensures to < from ==> m <= 0 && 60 * m - 60 < to - from <= 60 * m
  {
    TruncDiv(to - from, 60)
  }

  lemma MinutesBetweenOnMinute(from: Time, to: Time)
    requires OnMinute(from) && OnMinute(to)
    ensures 60 * MinutesBetween(from, to) == to - from
  {
  }

  // ----- the "HH:mm" formatter -----

  function TwoDigits(n: nat): (s: string)
    requires n < 100
    ensures |s| == 2 && AllDigits(s)
  {
    [DigitChar(n / 10), DigitChar(n % 10)]
  }

  /** `t.format(DateTimeFormatter.ofPattern("HH:mm"))`. */
  function FormatHHmm(t: Time): (s: string)
    ensures |s| == 5 && s[2] == ':'
  {
    TwoDigits(Hour(t)) + ":" + TwoDigits(Minute(t))
  }

  /** `LocalTime.parse(s, DateTimeFormatter.ofPattern("HH:mm"))`: exactly two
      digits, a colon and two digits, naming an hour up to 23 and a minute up
      to 59. A parse failure (DateTimeParseException) is `None`. Whatever it
      accepts is the canonical text of the time it returns. */
  function ParseHHmm(s: string): (r: Option<Time>)
    ensures r.Some? ==> OnMinute(r.value) && FormatHHmm(r.value) == s
  {
    if |s| == 5 && IsDigit(s[0]) && IsDigit(s[1]) && s[2] == ':' && IsDigit(s[3]) && IsDigit(s[4]) then
      var h := 10 * DigitValue(s[0]) + DigitValue(s[1]);
      var m := 10 * DigitValue(s[3]) + DigitValue(s[4]);
      if h < 24 && m < 60 then
        var t := At(h, m);
        assert TwoDigits(h) == s[..2];
        assert TwoDigits(m) == s[3..];
        Some(t)
      else None
    else None
  }

  /** Formatting a time and parsing the text back gives the time without its seconds. */
  lemma ParseFormatHHmm(t: Time)
    ensures ParseHHmm(FormatHHmm(t)) == Some(At(Hour(t), Minute(t)))
    ensures ParseHHmm(FormatHHmm(t)) == Some(t - t % 60)
  {
    var s := FormatHHmm(t);
    var h, m := Hour(t), Minute(t);
    assert s[..2] == TwoDigits(h) && s[3..] == TwoDigits(m);
    TwoDigitsValue(h);
    TwoDigitsValue(m);
    assert 10 * DigitValue(s[0]) + DigitValue(s[1]) == h;
    assert 10 * DigitValue(s[3]) + DigitValue(s[4]) == m;
    TimeDecomposition(t);
  }

  lemma TwoDigitsValue(n: nat)
    requires n < 100
    ensures var s := TwoDigits(n); 10 * DigitValue(s[0]) + DigitValue(s[1]) == n
  {
  }

  /** A time is its hour, its minute and its seconds. */
  lemma TimeDecomposition(t: Time)
    ensures At(Hour(t), Minute(t)) == t - t % 60
  {
    var h, r := t / 3600, t % 3600;
    assert t == 3600 * h + r;
    assert r == 60 * (r / 60) + r % 60;
    assert t % 60 == r % 60;
  }

  // ----- LocalDate -----

  datatype Ymd = Ymd(year: int, month: int, day: int)

  /** `IsoChronology.isLeapYear`: the proleptic Gregorian rule. */
  predicate IsLeapYear(year: int)
  {
    year % 4 == 0 && (year % 100 != 0 || year % 400 == 0)
  }

  /** `LocalDate.lengthOfMonth()`. */
  function LengthOfMonth(year: int, month: int): (n: int)
    requires 1 <= month <= 12
    ensures 28 <= n <= 31
    ensures month == 2 ==> (n == 29 <==> IsLeapYear(year))
  {
    if month == 2 then (if IsLeapYear(year) then 29 else 28)
    else if month == 4 || month == 6 || month == 9 || month == 11 then 30
    else 31
  }

  predicate ValidYmd(d: Ymd)
  {
    1 <= d.month <= 12 && 1 <= d.day <= LengthOfMonth(d.year, d.month)
  }

  /** A `LocalDate`: always a real day of the proleptic Gregorian calendar. */
  type Date = d: Ymd | ValidYmd(d) witness Ymd(1970, 1, 1)

  /** `a.isBefore(b)`: chronological, that is lexicographic on (year, month, day). */
  predicate IsBefore(a: Date, b: Date)
  {
    a.year < b.year || (a.year == b.year && (a.month < b.month || (a.month == b.month && a.day < b.day)))
  }

  /** `a.isAfter(b)`. */
  predicate IsAfter(a: Date, b: Date) { IsBefore(b, a) }

  /** A day lies in [start, end] (both inclusive) exactly when it is neither
      before the start nor after the end; a one-day range holds only that day. */
  lemma OneDayRange(d: Date, day: Date)
    ensures (!IsBefore(d, day) && !IsAfter(d, day)) <==> d == day
  {
  }
}
