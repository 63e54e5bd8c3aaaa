/** `DateTimeUtil`: lenient "HH:mm" time parsing and the month and
    half-month pay-period bounds, for a given current date. */
module DateTimeUtil {
  import opened Wrappers
  import opened JavaLang
  import opened Temporal

  /** The regular expression `^\d:\d\d$`: one digit, a colon, two digits. */
  predicate SingleDigitHourForm(s: string)
  {
    |s| == 4 && IsDigit(s[0]) && s[1] == ':' && IsDigit(s[2]) && IsDigit(s[3])
  }

  /** A one-character part gets a leading '0'; any other part is kept. */
  function PadPart(p: string): (r: string)
    ensures |p| == 1 ==> r == "0" + p
    ensures |p| != 1 ==> r == p
  {
    if |p| == 1 then "0" + p else p
  }

  /** The parsing steps shared by `DateTimeUtil.parseTime` and
      `FileAttendanceDao.parseTime`, after the blank check. `raw` is the text
      as given; `s` is the text the parse steps work on (trimmed in the
      first, as given in the second); `iso` is the final
      `LocalTime.parse(text)` fallback, `None` where it throws. Each step
      that throws falls through to the next (first step) or to `None`
      (later steps). */
  function ParseTimeSteps(raw: string, s: string, iso: string -> Option<Time>): (r: Option<Time>)
    ensures r.Some? ==> OnMinute(r.value) || r == iso(s)
  {
    if ParseHHmm(s).Some? then ParseHHmm(s)
    else if SingleDigitHourForm(raw) then ParseHHmm("0" + s)
    else ParseColonParts(s, iso)
  }

  /** The last steps: two colon-separated parts are padded and parsed
      strictly; any other number of parts goes to the fallback. */
  function ParseColonParts(s: string, iso: string -> Option<Time>): (r: Option<Time>)
    ensures r.Some? ==> OnMinute(r.value) || r == iso(s)
  {
    var parts := Split(s, ':');
    if |parts| == 2 then ParseHHmm(PadPart(parts[0]) + ":" + PadPart(parts[1]))
    else iso(s)
  }

  /** `DateTimeUtil.parseTime(timeStr)`: `null` (None) for null, blank or
      unparseable text. */
  function ParseTime(timeStr: Option<string>, iso: string -> Option<Time>): (r: Option<Time>)
    ensures timeStr.None? ==> r.None?
    ensures timeStr.Some? && AllTrimmable(timeStr.value) ==> r.None?
    ensures r.Some? ==> OnMinute(r.value) || r == iso(Trim(timeStr.value))
  {
    if timeStr.None? then None
    else if Trim(timeStr.value) == [] then None
    else
      TrimEmptyIff(timeStr.value);
      ParseTimeSteps(timeStr.value, Trim(timeStr.value), iso)
  }

  // ----- what parseTime accepts -----

  lemma TwoDigitValue(p: string)
    requires |p| == 2 && AllDigits(p)
    ensures DigitsValue(p) == 10 * DigitValue(p[0]) + DigitValue(p[1])
  {
    assert p[..1][..0] == [];
    assert p[..1][0] == p[0];
    assert DigitsValue(p[..1]) == DigitValue(p[0]);
  }

  /** Two two-digit numbers around a colon, naming a valid hour and minute, parse strictly. */
  lemma ParseHHmmDigits(p: string, q: string)
    requires |p| == 2 && |q| == 2 && AllDigits(p) && AllDigits(q)
    requires DigitsValue(p) < 24 && DigitsValue(q) < 60
    ensures ParseHHmm(p + ":" + q) == Some(At(DigitsValue(p), DigitsValue(q)))
  {
    TwoDigitValue(p);
    TwoDigitValue(q);
    var s := p + ":" + q;
    assert s[0] == p[0] && s[1] == p[1] && s[2] == ':' && s[3] == q[0] && s[4] == q[1];
  }

  /** Padding a one- or two-digit part gives two digits of the same value. */
  lemma PadPartDigits(p: string)
    requires 1 <= |p| <= 2 && AllDigits(p)
    ensures var r := PadPart(p); |r| == 2 && AllDigits(r) && DigitsValue(r) == DigitsValue(p)
  {
    var r := PadPart(p);
    TwoDigitValue(r);
    if |p| == 1 {
      assert p[..0] == [];
      assert r[0] == '0' && r[1] == p[0];
    } else {
      TwoDigitValue(p);
    }
  }

  lemma StrictNeedsFive(s: string)
    requires |s| != 5
    ensures ParseHHmm(s).None?
  {
  }

  lemma NoColonInDigits(p: string)
    requires AllDigits(p)
    ensures ':' !in p
  {
  }

  /** Hour and minute of two digits each: the direct parse accepts them. */
  lemma StepsTwoDigitParts(h: string, m: string, iso: string -> Option<Time>)
    requires |h| == 2 && |m| == 2 && AllDigits(h) && AllDigits(m)
    requires DigitsValue(h) < 24 && DigitsValue(m) < 60
    ensures ParseTimeSteps(h + ":" + m, h + ":" + m, iso) == Some(At(DigitsValue(h), DigitsValue(m)))
  {
    ParseHHmmDigits(h, m);
  }

  lemma StepsBySingleDigitRule(s: string, iso: string -> Option<Time>)
    requires |s| == 4 && SingleDigitHourForm(s)
    ensures ParseTimeSteps(s, s, iso) == ParseHHmm("0" + s)
  {
    StrictNeedsFive(s);
  }

  /** A one-digit hour and a two-digit minute: the `^\d:\d\d$` rule adds the leading zero. */
  lemma StepsSingleDigitHour(h: string, m: string, iso: string -> Option<Time>)
    requires |h| == 1 && |m| == 2 && AllDigits(h) && AllDigits(m)
    requires DigitsValue(h) < 24 && DigitsValue(m) < 60
    ensures ParseTimeSteps(h + ":" + m, h + ":" + m, iso) == Some(At(DigitsValue(h), DigitsValue(m)))
  {
    var s := h + ":" + m;
    assert s[0] == h[0] && s[1] == ':' && s[2] == m[0] && s[3] == m[1];
    StepsBySingleDigitRule(s, iso);
    PadPartDigits(h);
    var p := PadPart(h);
    assert "0" + s == p + ":" + m by {
      assert p == "0" + h;
      assert "0" + s == "0" + h + ":" + m;
    }
    ParseHHmmDigits(p, m);
  }

  /** A one-digit minute: the split on ':' pads each part. */
  lemma StepsSingleDigitMinute(h: string, m: string, iso: string -> Option<Time>)
    requires 1 <= |h| <= 2 && |m| == 1 && AllDigits(h) && AllDigits(m)
    requires DigitsValue(h) < 24 && DigitsValue(m) < 60
    ensures ParseTimeSteps(h + ":" + m, h + ":" + m, iso) == Some(At(DigitsValue(h), DigitsValue(m)))
  {
    var s := h + ":" + m;
    assert |s| < 5;
    StrictNeedsFive(s);
    assert !SingleDigitHourForm(s) by { assert s[|s| - 1] == m[0]; }
    NoColonInDigits(h);
    NoColonInDigits(m);
    SplitTwo(h, m, ':');
    assert h + [':'] + m == s;
    PadPartDigits(h);
    PadPartDigits(m);
    ParseHHmmDigits(PadPart(h), PadPart(m));
  }

  /** An hour of one or two digits, a colon and a minute of one or two
      digits parse to that hour and minute, whichever step accepts them:
      "08:30" directly, "8:30" by the `^\d:\d\d$` rule, "8:5" and "08:5"
      by padding each part. */
  lemma ParseTimeShortForms(h: string, m: string, iso: string -> Option<Time>)
    requires 1 <= |h| <= 2 && 1 <= |m| <= 2 && AllDigits(h) && AllDigits(m)
    requires DigitsValue(h) < 24 && DigitsValue(m) < 60
    ensures ParseTime(Some(h + ":" + m), iso) == Some(At(DigitsValue(h), DigitsValue(m)))
  {
    var s := h + ":" + m;
    assert s[0] == h[0] && !IsTrimmable(s[0]);
    assert s[|s| - 1] == m[|m| - 1] && !IsTrimmable(s[|s| - 1]);
    TrimNoop(s);
    assert Trim(s) != [];
    if |m| == 1 {
      StepsSingleDigitMinute(h, m, iso);
    } else if |h| == 1 {
      StepsSingleDigitHour(h, m, iso);
    } else {
      StepsTwoDigitParts(h, m, iso);
    }
  }

  /** A well-formed "HH:mm" time, with any blanks around it, parses to that time. */
  lemma ParseTimeCanonical(a: string, t: Time, b: string, iso: string -> Option<Time>)
    requires AllTrimmable(a) && AllTrimmable(b)
    ensures ParseTime(Some(a + FormatHHmm(t) + b), iso) == Some(t - t % 60)
  {
    var f := FormatHHmm(t);
    assert IsDigit(f[0]) && IsDigit(f[4]);
    TrimPadded(a, f, b);
    ParseFormatHHmm(t);
  }

  /** The strict parse refuses a minute of 60 or more. */
  lemma ParseHHmmLargeMinute(p: string, q: string)
    requires |p| == 2 && |q| == 2 && AllDigits(q) && DigitsValue(q) >= 60
    ensures ParseHHmm(p + ":" + q).None?
  {
    TwoDigitValue(q);
    var s := p + ":" + q;
    assert s[3] == q[0] && s[4] == q[1];
  }

  /** "8:75" is refused: the `^\d:\d\d$` rule pads it to "08:75", which the
      strict parse refuses, and the fallback is never reached. */
  lemma ParseTimeLargeMinuteShort(h: string, m: string, iso: string -> Option<Time>)
    requires |h| == 1 && |m| == 2 && AllDigits(h) && AllDigits(m) && DigitsValue(m) >= 60
    ensures ParseTime(Some(h + ":" + m), iso) == None
  {
    var s := h + ":" + m;
    assert s[0] == h[0] && s[1] == ':' && s[2] == m[0] && s[3] == m[1];
    TrimNoop(s);
    StepsBySingleDigitRule(s, iso);
    assert "0" + s == ("0" + h) + ":" + m;
    ParseHHmmLargeMinute("0" + h, m);
  }

  /** "08:75" is refused: the strict parse refuses it, and the split on ':'
      gives two two-digit parts that padding leaves as they are. */
  lemma ParseTimeLargeMinutePadded(h: string, m: string, iso: string -> Option<Time>)
    requires |h| == 1 && |m| == 2 && AllDigits(h) && AllDigits(m) && DigitsValue(m) >= 60
    ensures ParseTime(Some("0" + h + ":" + m), iso) == None
  {
    var p := "0" + h;
    var s := p + ":" + m;
    assert "0" + h + ":" + m == s;
    assert s[0] == '0' && s[4] == m[1];
    TrimNoop(s);
    ParseHHmmLargeMinute(p, m);
    assert !SingleDigitHourForm(s);
    assert ':' !in p by { NoColonInDigits(h); }
    NoColonInDigits(m);
    SplitTwo(p, m, ':');
    assert p + [':'] + m == s;
  }

  /** "8:30" and "08:30" are the same time, and "8:75" and "08:75" are both
      refused. */
  lemma ParseTimeLeadingZero(h: string, m: string, iso: string -> Option<Time>)
    requires |h| == 1 && |m| == 2 && AllDigits(h) && AllDigits(m)
    ensures ParseTime(Some(h + ":" + m), iso) == ParseTime(Some("0" + h + ":" + m), iso)
    ensures DigitsValue(m) >= 60 ==> ParseTime(Some(h + ":" + m), iso) == None
  {
    if DigitsValue(m) < 60 {
      PadPartDigits(h);
      ParseTimeShortForms(h, m, iso);
      ParseTimeShortForms("0" + h, m, iso);
    } else {
      ParseTimeLargeMinuteShort(h, m, iso);
      ParseTimeLargeMinutePadded(h, m, iso);
    }
  }

  // ----- pay periods -----

  /** `getFirstDayOfCurrentMonth()`. */
  function FirstDayOfMonth(now: Date): (d: Date)
    ensures d.year == now.year && d.month == now.month && d.day == 1
    ensures !IsAfter(d, now)
  {
    Ymd(now.year, now.month, 1)
  }

  /** `getLastDayOfCurrentMonth()`: the month's length in the Gregorian calendar. */
  function LastDayOfMonth(now: Date): (d: Date)
    ensures d.year == now.year && d.month == now.month && d.day == LengthOfMonth(now.year, now.month)
    ensures !IsBefore(d, now)
  {
    Ymd(now.year, now.month, LengthOfMonth(now.year, now.month))
  }

  /** `getFirstHalfStart()`: the same day as `getFirstDayOfCurrentMonth()`. */
  function FirstHalfStart(now: Date): (d: Date)
    ensures d.year == now.year && d.month == now.month && d.day == 1
    ensures !IsAfter(d, now)
  {
    FirstDayOfMonth(now)
  }

  /** `getFirstHalfEnd()`. */
  function FirstHalfEnd(now: Date): (d: Date)
    ensures d.year == now.year && d.month == now.month && d.day == 15
    ensures d.day < LengthOfMonth(now.year, now.month)
  {
    Ymd(now.year, now.month, 15)
  }

  /** `getSecondHalfStart()`. */
  function SecondHalfStart(now: Date): (d: Date)
    ensures d.year == now.year && d.month == now.month && d.day == 16
  {
    Ymd(now.year, now.month, 16)
  }

  /** `getSecondHalfEnd()`: the last day of the month. */
  function SecondHalfEnd(now: Date): (d: Date)
    ensures d == LastDayOfMonth(now)
  {
    LastDayOfMonth(now)
  }

  /** `start <= d <= end`, both inclusive, as the date-range query tests it. */
  predicate InRange(d: Date, start: Date, end: Date)
  {
    !IsBefore(d, start) && !IsAfter(d, end)
  }

  /** The two halves split the month: every day of the month lies in exactly
      one of them, and no day of another month lies in either. */
  lemma HalvesPartitionMonth(now: Date, d: Date)
    ensures InRange(d, FirstHalfStart(now), FirstHalfEnd(now)) || InRange(d, SecondHalfStart(now), SecondHalfEnd(now))
      <==> d.year == now.year && d.month == now.month
    ensures !(InRange(d, FirstHalfStart(now), FirstHalfEnd(now)) && InRange(d, SecondHalfStart(now), SecondHalfEnd(now)))
    ensures InRange(d, FirstHalfStart(now), FirstHalfEnd(now)) <==> d.year == now.year && d.month == now.month && d.day <= 15
  {
  }

  /** The whole month runs from its first day to its last. */
  lemma MonthBounds(now: Date, d: Date)
    ensures InRange(d, FirstDayOfMonth(now), LastDayOfMonth(now)) <==> d.year == now.year && d.month == now.month
  {
  }
}
