/** One attendance record (`Attendance`): an employee's clock-in and
    clock-out on one date, and the worked, late and overtime minutes derived
    from them against the standard 08:00-17:00 schedule. */
module AttendanceModel {
  import opened Wrappers
  import opened JavaLang
  import opened Temporal

  /** STANDARD_START_HOUR:STANDARD_START_MINUTE and STANDARD_END_HOUR:STANDARD_END_MINUTE. */
  const StandardStart: Time := At(8, 0)
  const StandardEnd: Time := At(17, 0)
  /** A raw duration above five hours loses a one-hour lunch break. */
  const LunchThresholdMinutes: int := 300
  const LunchBreakMinutes: int := 60

  /** The status strings "PRESENT", "LATE" and "ABSENT". */
  datatype AttendanceStatus = Present | Late | Absent

  /** The three derived fields, in minutes: totalHours * 60, lateMinutes and overtimeHours * 60. */
  datatype Metrics = Metrics(workedMinutes: int, lateMinutes: int, overtimeMinutes: int)

  /** The values `calculateWorkingHours` leaves in the derived fields. */
  function MetricsOf(timeIn: Option<Time>, timeOut: Option<Time>): (m: Metrics)
    ensures timeIn.None? || timeOut.None? ==> m == Metrics(0, 0, 0)
    ensures m.lateMinutes >= 0 && m.overtimeMinutes >= 0
  {
    if timeIn.None? || timeOut.None? then Metrics(0, 0, 0)
    else
      var raw := MinutesBetween(timeIn.value, timeOut.value);
      Metrics(
        if raw > LunchThresholdMinutes then raw - LunchBreakMinutes else raw,
        if timeIn.value > StandardStart then MinutesBetween(StandardStart, timeIn.value) else 0,
        if timeOut.value > StandardEnd then MinutesBetween(StandardEnd, timeOut.value) else 0)
  }

  /** `calculateWorkingHours`: the fields start at zero and are assigned only
      when both times are present. */
  method CalculateWorkingHours(timeIn: Option<Time>, timeOut: Option<Time>) returns (m: Metrics)
    ensures m == MetricsOf(timeIn, timeOut)
  {
    var totalMinutesField, lateMinutesField, overtimeMinutesField := 0, 0, 0;
    if timeIn.Some? && timeOut.Some? {
      var totalMinutes := MinutesBetween(timeIn.value, timeOut.value);
      if totalMinutes > LunchThresholdMinutes {
        totalMinutes := totalMinutes - LunchBreakMinutes;
      }
      totalMinutesField := totalMinutes;
      if timeIn.value > StandardStart {
        lateMinutesField := MinutesBetween(StandardStart, timeIn.value);
      }
      if timeOut.value > StandardEnd {
        overtimeMinutesField := MinutesBetween(StandardEnd, timeOut.value);
      }
    }
    m := Metrics(totalMinutesField, lateMinutesField, overtimeMinutesField);
  }

  /** For times on the minute: the worked time is the clock-out minus the
      clock-in, less exactly one hour when that exceeds five hours. */
  lemma WorkedMinutesLunchRule(timeIn: Time, timeOut: Time)
    requires OnMinute(timeIn) && OnMinute(timeOut)
    ensures var w := MetricsOf(Some(timeIn), Some(timeOut)).workedMinutes;
      if timeOut - timeIn > 300 * 60 then 60 * w == timeOut - timeIn - 3600
      else 60 * w == timeOut - timeIn
  {
    MinutesBetweenOnMinute(timeIn, timeOut);
  }

  /** Lateness is the time past 08:00 in whole minutes, and nothing when the clock-in is not after 08:00. */
  lemma LateMinutesPastStart(timeIn: Time, timeOut: Time)
    ensures var l := MetricsOf(Some(timeIn), Some(timeOut)).lateMinutes;
      (timeIn <= StandardStart ==> l == 0) &&
      (timeIn > StandardStart ==> 60 * l <= timeIn - StandardStart < 60 * l + 60)
  {
  }

  /** Overtime is the time past 17:00 in whole minutes, and nothing when the clock-out is not after 17:00. */
  lemma OvertimePastEnd(timeIn: Time, timeOut: Time)
    ensures var o := MetricsOf(Some(timeIn), Some(timeOut)).overtimeMinutes;
      (timeOut <= StandardEnd ==> o == 0) &&
      (timeOut > StandardEnd ==> 60 * o <= timeOut - StandardEnd < 60 * o + 60)
  {
  }

  /** A clock-out before the clock-in is not rejected: the worked time is
      minus the whole minutes between them, with no lunch deduction, and is
      negative once they are a minute or more apart. */
  lemma ClockOutBeforeClockIn(timeIn: Time, timeOut: Time)
    requires timeOut < timeIn
    ensures var w := MetricsOf(Some(timeIn), Some(timeOut)).workedMinutes;
      w == -((timeIn - timeOut) / 60) && w <= 0 && (timeIn - timeOut >= 60 ==> w < 0)
  {
  }

  /** 08:00 to 17:00 is eight worked hours (nine less lunch), on time, no overtime;
      09:30 to 18:30 is also eight hours, 90 minutes late and 90 minutes (1.5 hours) of overtime. */
  lemma StandardDayExamples()
    ensures MetricsOf(Some(At(8, 0)), Some(At(17, 0))) == Metrics(480, 0, 0)
    ensures MetricsOf(Some(At(9, 30)), Some(At(18, 30))) == Metrics(480, 90, 90)
  {
  }

  /** An `Attendance` record. Every field is assigned only by the constructor,
      so the derived metrics are fixed when the record is made. */
  class Attendance {
    const employeeId: Int32
    const date: Date
    const timeIn: Option<Time>
    const timeOut: Option<Time>
    const workedMinutes: int
    const lateMinutes: int
    const overtimeMinutes: int

    /** The derived fields are those `calculateWorkingHours` computes from the times. */
    ghost predicate Valid()
    {
      Metrics(workedMinutes, lateMinutes, overtimeMinutes) == MetricsOf(timeIn, timeOut)
    }

    constructor (employeeId: Int32, date: Date, timeIn: Option<Time>, timeOut: Option<Time>)
      ensures this.employeeId == employeeId && this.date == date
      ensures this.timeIn == timeIn && this.timeOut == timeOut
      ensures Valid()
    {
      this.employeeId := employeeId;
      this.date := date;
      this.timeIn := timeIn;
      this.timeOut := timeOut;
      var m := CalculateWorkingHours(timeIn, timeOut);
      this.workedMinutes := m.workedMinutes;
      this.lateMinutes := m.lateMinutes;
      this.overtimeMinutes := m.overtimeMinutes;
    }

    /** `getTotalHours()`. */
    function TotalHours(): (h: real)
      ensures h * 60.0 == workedMinutes as real
    {
      workedMinutes as real / 60.0
    }

    /** `getOvertimeHours()`. */
    function OvertimeHours(): (h: real)
      ensures h * 60.0 == overtimeMinutes as real
    {
      overtimeMinutes as real / 60.0
    }

    /** `getFormattedTimeIn()`. */
    function FormattedTimeIn(): (s: string)
      ensures timeIn.None? ==> s == "N/A"
      ensures timeIn.Some? ==> ParseHHmm(s) == Some(timeIn.value - timeIn.value % 60)
    {
      if timeIn.Some? then (ParseFormatHHmm(timeIn.value); FormatHHmm(timeIn.value)) else "N/A"
    }

    /** `getFormattedTimeOut()`. */
    function FormattedTimeOut(): (s: string)
      ensures timeOut.None? ==> s == "N/A"
      ensures timeOut.Some? ==> ParseHHmm(s) == Some(timeOut.value - timeOut.value % 60)
    {
      if timeOut.Some? then (ParseFormatHHmm(timeOut.value); FormatHHmm(timeOut.value)) else "N/A"
    }

    /** `isComplete()`: both times are recorded; only then can a record
        carry worked, late or overtime minutes. */
    predicate IsComplete()
      ensures Valid() && !IsComplete() ==> workedMinutes == 0 && lateMinutes == 0 && overtimeMinutes == 0
    {
      timeIn.Some? && timeOut.Some?
    }

    /** `isLate()`: the clock-in is after the standard start. On a complete
        record clocked in on the minute, that is a positive late count. */
    predicate IsLate()
      ensures Valid() && IsComplete() && OnMinute(timeIn.value) ==> (IsLate() <==> lateMinutes > 0)
    {
      timeIn.Some? && timeIn.value > StandardStart
    }

    /** `hasOvertime()`: the clock-out is after the standard end. On a
        complete record clocked out on the minute, that is a positive
        overtime count. */
    predicate HasOvertime()
      ensures Valid() && IsComplete() && OnMinute(timeOut.value) ==> (HasOvertime() <==> overtimeMinutes > 0)
    {
      timeOut.Some? && timeOut.value > StandardEnd
    }

    /** `getStatus()`. */
    function GetStatus(): (s: AttendanceStatus)
      ensures s == Absent <==> !IsComplete()
      ensures s == Late <==> IsComplete() && IsLate()
      ensures s == Present <==> IsComplete() && !IsLate()
    {
      if timeIn.None? || timeOut.None? then Absent
      else if IsLate() then Late
      else Present
    }
  }

  /** A record missing either time has no worked, late or overtime minutes. */
  lemma IncompleteHasNoMetrics(a: Attendance)
    requires a.Valid() && !a.IsComplete()
    ensures a.workedMinutes == 0 && a.lateMinutes == 0 && a.overtimeMinutes == 0
    ensures a.GetStatus() == Absent
  {
  }

  /** On complete records with times on the minute, `isLate` agrees with a
      positive late count and `hasOvertime` with a positive overtime count. */
  lemma FlagsMatchMetrics(a: Attendance)
    requires a.Valid() && a.IsComplete()
    requires OnMinute(a.timeIn.value) && OnMinute(a.timeOut.value)
    ensures a.IsLate() <==> a.lateMinutes > 0
    ensures a.HasOvertime() <==> a.overtimeMinutes > 0
  {
  }
}
