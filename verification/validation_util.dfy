/** `ValidationUtil`: blank check, phone and SSS number shapes, and string
    truncation for display. `null` is `None`. */
module ValidationUtil {
  import opened Wrappers
  import opened JavaLang

  /** `isEmpty(str)`: null, or nothing left after `trim()`. */
  function IsEmpty(str: Option<string>): (r: bool)
    ensures r <==> str.None? || AllTrimmable(str.value)
  {
    if str.None? then true
    else
      TrimEmptyIff(str.value);
      Trim(str.value) == []
  }

  /** The regular expression `\d{n}` at position `from` of `s`, with ASCII digits. */
  predicate DigitsAt(s: string, from: nat, n: nat)
  {
    from + n <= |s| && forall i :: from <= i < from + n ==> IsDigit(s[i])
  }

  /** Text that starts with a digit is not blank. */
  lemma LeadingDigitNotBlank(s: string)
    ensures |s| > 0 && IsDigit(s[0]) ==> !AllTrimmable(s)
  {
    if |s| > 0 && IsDigit(s[0]) {
      assert !IsTrimmable(s[0]);
    }
  }

  /** `isValidPhoneNumber(phoneNumber)`: not blank, and the whole text
      matches `\d{10,11}`. The blank check never decides: ten or eleven
      digits are not blank. */
  function IsValidPhoneNumber(phoneNumber: Option<string>): (r: bool)
    ensures r <==> phoneNumber.Some? && 10 <= |phoneNumber.value| <= 11 && AllDigits(phoneNumber.value)
  {
    if phoneNumber.Some? then
      var s := phoneNumber.value;
      LeadingDigitNotBlank(s);
      !IsEmpty(phoneNumber) && (|s| == 10 || |s| == 11) && DigitsAt(s, 0, |s|)
    else
      !IsEmpty(phoneNumber) && false
  }

  /** Ten digits, the canonical SSS number. */
  predicate IsTenDigits(d: string)
  {
    |d| == 10 && AllDigits(d)
  }

  /** Ten digits written in the dashed SSS layout `dd-ddddddd-d`. */
  function DashedSss(d: string): (s: string)
    requires |d| == 10
    ensures |s| == 12
  {
    d[..2] + "-" + d[2..9] + "-" + d[9..]
  }

  /** The regular expression `\d{2}-\d{7}-\d|\d{10}` on the whole text. */
  predicate SssPattern(s: string)
  {
    (|s| == 12 && DigitsAt(s, 0, 2) && s[2] == '-' && DigitsAt(s, 3, 7) && s[10] == '-' && DigitsAt(s, 11, 1))
    || (|s| == 10 && DigitsAt(s, 0, 10))
  }

  lemma DashedSssMatches(d: string)
    requires IsTenDigits(d)
    ensures SssPattern(DashedSss(d))
  {
    var s := DashedSss(d);
    assert forall i :: 0 <= i < 2 ==> s[i] == d[i];
    assert forall i :: 3 <= i < 10 ==> s[i] == d[i - 1];
    assert s[11] == d[9];
  }

  lemma SssPatternDashed(s: string)
    requires |s| == 12 && SssPattern(s)
    ensures IsTenDigits(s[..2] + s[3..10] + s[11..])
    ensures DashedSss(s[..2] + s[3..10] + s[11..]) == s
  {
    var d := s[..2] + s[3..10] + s[11..];
    assert forall i :: 0 <= i < 2 ==> d[i] == s[i];
    assert forall i :: 2 <= i < 9 ==> d[i] == s[i + 1];
    assert d[9] == s[11];
    assert d[..2] == s[..2] && d[2..9] == s[3..10] && d[9..] == s[11..];
    assert s == s[..2] + "-" + s[3..10] + "-" + s[11..];
  }

  /** The pattern accepts exactly the two layouts of ten digits. */
  lemma SssPatternLayouts(s: string)
    ensures SssPattern(s) <==> IsTenDigits(s) || exists d :: IsTenDigits(d) && DashedSss(d) == s
    ensures SssPattern(s) ==> !AllTrimmable(s)
  {
    if |s| == 12 && SssPattern(s) {
      SssPatternDashed(s);
    }
    if SssPattern(s) {
      assert !IsTrimmable(s[0]);
    }
    if exists d :: IsTenDigits(d) && DashedSss(d) == s {
      var d :| IsTenDigits(d) && DashedSss(d) == s;
      DashedSssMatches(d);
    }
  }

  /** `isValidSssNumber(sssNumber)`: not blank, and either ten digits or
      ten digits in the dashed layout `dd-ddddddd-d`. The blank check never
      decides: both layouts start with a digit. */
  function IsValidSssNumber(sssNumber: Option<string>): (r: bool)
    ensures r <==> (sssNumber.Some? &&
      (IsTenDigits(sssNumber.value) || exists d :: IsTenDigits(d) && DashedSss(d) == sssNumber.value))
  {
    if sssNumber.Some? then
      var s := sssNumber.value;
      SssPatternLayouts(s);
      !IsEmpty(sssNumber) && SssPattern(s)
    else
      !IsEmpty(sssNumber) && false
  }

  /** A valid dashed SSS number, with its two dashes removed, is a valid
      ten-digit SSS number, and putting the dashes back gives it again. */
  lemma SssDashesRemoved(s: string)
    requires IsValidSssNumber(Some(s)) && |s| == 12
    ensures var d := s[..2] + s[3..10] + s[11..];
      IsValidSssNumber(Some(d)) && |d| == 10 && DashedSss(d) == s
  {
    SssPatternLayouts(s);
    SssPatternDashed(s);
  }

  /** `truncateString(str, maxLength)`: null or a text of at most
      `maxLength` characters is returned as it is; a longer one is cut to
      its first `maxLength - 3` characters followed by "...". When
      `maxLength - 3` (a 32-bit subtraction) is negative, `substring`
      throws StringIndexOutOfBoundsException. */
  function TruncateString(str: Option<string>, maxLength: Int32): (r: Result<Option<string>>)
    ensures str.None? ==> r == Ok(None)
    ensures str.Some? && |str.value| <= maxLength ==> r == Ok(str)
    ensures str.Some? && 3 <= maxLength < |str.value| ==>
      && r.Ok? && r.value.Some?
      && |r.value.value| == maxLength
      && r.value.value[..maxLength - 3] == str.value[..maxLength - 3]
      && r.value.value[maxLength - 3..] == "..."
    ensures str.Some? && IntMin + 3 <= maxLength < 3 && maxLength < |str.value| ==>
      r == Err(StringIndexOutOfBounds)
  {
    if str.None? || |str.value| <= maxLength then Ok(str)
    else
      var end := Wrap32(maxLength - 3);
      if end < 0 || end > |str.value| then Err(StringIndexOutOfBounds)
      else Ok(Some(str.value[..end] + "..."))
  }

  /** A truncated text is no longer than `maxLength`, so truncating it
      again with the same bound changes nothing. */
  lemma TruncateIdempotent(str: Option<string>, maxLength: Int32)
    requires 0 <= maxLength
    requires TruncateString(str, maxLength).Ok?
    ensures var t := TruncateString(str, maxLength).value;
      && (t.Some? ==> |t.value| <= maxLength)
      && TruncateString(t, maxLength) == Ok(t)
  {
  }
}
