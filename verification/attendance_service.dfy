/** `AttendanceServiceImpl`: clocking in and out over the attendance store.
    The wall clock (`LocalDate.now()`, `LocalTime.now()`) is passed in as
    `today` and `now`. */
module AttendanceServiceModel {
  import opened Wrappers
  import opened JavaLang
  import opened Temporal
  import opened AttendanceModel
  import opened AttendanceDaoModel

  class AttendanceServiceImpl {
    const dao: FileAttendanceDao

    constructor (dao: FileAttendanceDao)
      ensures this.dao == dao
    {
      this.dao := dao;
    }

    /** `addAttendance(employeeId, date, timeIn, timeOut)`: a new record
        from the given values replaces any record with the same key and is
        appended. */
    method AddAttendance(employeeId: Int32, date: Date, timeIn: Option<Time>, timeOut: Option<Time>)
      modifies dao
      ensures |dao.records| >= 1
      ensures dao.records[..|dao.records| - 1] == WithoutKey(old(dao.records), Key(employeeId, date))
      ensures var a := dao.records[|dao.records| - 1];
        a.employeeId == employeeId && a.date == date && a.timeIn == timeIn && a.timeOut == timeOut && a.Valid()
      ensures old(OnePerKey(dao.records)) ==> OnePerKey(dao.records)
    {
      var attendance := new Attendance(employeeId, date, timeIn, timeOut);
      dao.AddAttendance(attendance);
      assert dao.records[..|dao.records| - 1] == WithoutKey(old(dao.records), Key(employeeId, date));
    }

    /** `updateAttendance(employeeId, date, timeIn, timeOut)`: a new record
        from the given values overwrites the first record with the same key;
        with none, DataAccessException and no change. */
    method UpdateAttendance(employeeId: Int32, date: Date, timeIn: Option<Time>, timeOut: Option<Time>)
      returns (outcome: Outcome)
      modifies dao
      ensures var i := IndexOfKey(old(dao.records), Key(employeeId, date));
        if i.Some? then
          && outcome == Done
          && |dao.records| == |old(dao.records)|
          && dao.records == old(dao.records)[i.value := dao.records[i.value]]
          && var a := dao.records[i.value];
             a.employeeId == employeeId && a.date == date && a.timeIn == timeIn && a.timeOut == timeOut && a.Valid()
        else
          outcome == Failed(AttendanceNotFoundForUpdate) && dao.records == old(dao.records)
      ensures old(OnePerKey(dao.records)) ==> OnePerKey(dao.records)
    {
      var attendance := new Attendance(employeeId, date, timeIn, timeOut);
      outcome := dao.UpdateAttendance(attendance);
    }

    /** `deleteAttendance(employeeId, date)`: forwarded to the store. */
    method DeleteAttendance(employeeId: Int32, date: Date) returns (outcome: Outcome)
      modifies dao
      ensures dao.records == WithoutKey(old(dao.records), Key(employeeId, date))
      ensures outcome == Done <==> HasKey(old(dao.records), Key(employeeId, date))
      ensures outcome.Failed? ==> outcome.error == AttendanceNotFoundForDeletion
      ensures old(OnePerKey(dao.records)) ==> OnePerKey(dao.records)
    {
      outcome := dao.DeleteAttendance(employeeId, date);
    }

    /** `getTodayAttendance(employeeId)`: the first record of the one-day
        range query for today, which is the first record with the key
        (employeeId, today); `None` when there is none. */
    function GetTodayAttendance(employeeId: Int32, today: Date): (r: Option<Attendance>)
      reads dao
      ensures r.Some? <==> HasKey(dao.records, Key(employeeId, today))
      ensures r.Some? ==> r.value == dao.records[IndexOfKey(dao.records, Key(employeeId, today)).value]
      ensures r.Some? ==> r.value.employeeId == employeeId && r.value.date == today
    {
      var q := dao.AttendanceByDateRange(employeeId, today, today);
      OneDayIsFirstWithKey(dao.records, employeeId, today);
      if q == [] then None else Some(q[0])
    }

    /** `hasCompletedAttendanceForToday(employeeId)`: today's record exists and has a clock-out. */
    predicate HasCompletedAttendanceForToday(employeeId: Int32, today: Date)
      reads dao
      ensures HasCompletedAttendanceForToday(employeeId, today) <==>
        HasKey(dao.records, Key(employeeId, today)) &&
        dao.records[IndexOfKey(dao.records, Key(employeeId, today)).value].timeOut.Some?
    {
      var r := GetTodayAttendance(employeeId, today);
      r.Some? && r.value.timeOut.Some?
    }

    /** `clockIn(employeeId)`. The source reads the clock's date twice: once
        for the record it writes (`today`) and once inside
        `getTodayAttendance` for the record it looks up (`lookupDay`); the two
        differ only when the call spans midnight. With no record for
        `lookupDay`, a record for `today` clocked in at `now` with no
        clock-out replaces any record for `today` and is appended; with one
        (open or complete), nothing changes. */
    method ClockIn(employeeId: Int32, today: Date, lookupDay: Date, now: Time)
      modifies dao
      ensures old(HasKey(dao.records, Key(employeeId, lookupDay))) ==> dao.records == old(dao.records)
      ensures !old(HasKey(dao.records, Key(employeeId, lookupDay))) ==>
        && |dao.records| >= 1
        && dao.records[..|dao.records| - 1] == WithoutKey(old(dao.records), Key(employeeId, today))
        && var a := dao.records[|dao.records| - 1];
           a.employeeId == employeeId && a.date == today && a.timeIn == Some(now) && a.timeOut == None && a.Valid()
      ensures lookupDay == today && !old(HasKey(dao.records, Key(employeeId, today))) ==>
        && |dao.records| == |old(dao.records)| + 1
        && dao.records[..|old(dao.records)|] == old(dao.records)
      ensures lookupDay == today ==> HasKey(dao.records, Key(employeeId, today))
      ensures old(OnePerKey(dao.records)) ==> OnePerKey(dao.records)
    {
      var todayRecord := GetTodayAttendance(employeeId, lookupDay);
      if todayRecord.None? {
        if lookupDay == today {
          WithoutAbsentKey(dao.records, Key(employeeId, today));
        }
        AddAttendance(employeeId, today, Some(now), None);
        assert KeyOf(dao.records[|dao.records| - 1]) == Key(employeeId, today);
      }
    }

    /** `clockOut(employeeId)`, with the same two readings of the date as
        `clockIn`. An open record for `lookupDay` leads to an update of the
        record for `today`, with the looked-up clock-in and a clock-out at
        `now`, in its place; with no record for `today` that update throws
        DataAccessException. With no record for `lookupDay`, or a complete
        one, nothing changes. */
    method ClockOut(employeeId: Int32, today: Date, lookupDay: Date, now: Time) returns (outcome: Outcome)
      modifies dao
      ensures var r := IndexOfKey(old(dao.records), Key(employeeId, lookupDay));
        if r.Some? && old(dao.records)[r.value].timeOut.None? then
          var i := IndexOfKey(old(dao.records), Key(employeeId, today));
          if i.Some? then
            && outcome == Done
            && |dao.records| == |old(dao.records)|
            && dao.records == old(dao.records)[i.value := dao.records[i.value]]
            && var a := dao.records[i.value];
               a.employeeId == employeeId && a.date == today && a.timeIn == old(dao.records)[r.value].timeIn
               && a.timeOut == Some(now) && a.Valid()
          else
            outcome == Failed(AttendanceNotFoundForUpdate) && dao.records == old(dao.records)
        else
          outcome == Done && dao.records == old(dao.records)
      ensures lookupDay == today ==> outcome == Done
      ensures old(OnePerKey(dao.records)) ==> OnePerKey(dao.records)
    {
      var todayRecord := GetTodayAttendance(employeeId, lookupDay);
      if todayRecord.Some? && todayRecord.value.timeOut.None? {
        outcome := UpdateAttendance(employeeId, today, todayRecord.value.timeIn, Some(now));
      } else {
        outcome := Done;
      }
    }
  }

  /** A clock-in whose two date readings straddle midnight, when the earlier
      day already has a record and the later one has none, replaces the
      earlier day's record (complete or not) by an open one. */
  method ClockInAcrossMidnight(service: AttendanceServiceImpl, employeeId: Int32, today: Date, lookupDay: Date, now: Time)
    modifies service.dao
    requires HasKey(service.dao.records, Key(employeeId, today))
    requires !HasKey(service.dao.records, Key(employeeId, lookupDay))
    ensures |service.dao.records| <= |old(service.dao.records)|
    ensures CountKey(service.dao.records, Key(employeeId, today)) == 1
    ensures var a := service.dao.records[|service.dao.records| - 1];
      a.date == today && a.timeIn == Some(now) && a.timeOut == None
  {
    ghost var before := service.dao.records;
    service.ClockIn(employeeId, today, lookupDay, now);
    ghost var rest := service.dao.records[..|service.dao.records| - 1];
    ghost var a := service.dao.records[|service.dao.records| - 1];
    assert service.dao.records == rest + [a];
    CountWithoutKey(before, Key(employeeId, today), Key(employeeId, today));
    CountKeyAppend(rest, [a], Key(employeeId, today));
    CountKeyPositive(before, Key(employeeId, today));
    WithoutKeyLength(before, Key(employeeId, today));
    assert CountKey([a], Key(employeeId, today)) == 1;
  }

  /** Clocking in twice on one day is the same as clocking in once. */
  method ClockInTwice(service: AttendanceServiceImpl, employeeId: Int32, today: Date, first: Time, second: Time)
    modifies service.dao
    ensures service.dao.records == old(service.dao.records) ||
      (|service.dao.records| == |old(service.dao.records)| + 1 &&
       service.dao.records[..|old(service.dao.records)|] == old(service.dao.records) &&
       service.dao.records[|old(service.dao.records)|].timeIn == Some(first))
  {
    service.ClockIn(employeeId, today, today, first);
    ghost var afterFirst := service.dao.records;
    service.ClockIn(employeeId, today, today, second);
    assert service.dao.records == afterFirst;
  }

  /** Clocking in and then out on a day with no record leaves one complete
      record for that day, clocked in and out at the given times. */
  method ClockInThenOut(service: AttendanceServiceImpl, employeeId: Int32, today: Date, timeIn: Time, timeOut: Time)
    modifies service.dao
    requires !HasKey(service.dao.records, Key(employeeId, today))
    ensures |service.dao.records| == |old(service.dao.records)| + 1
    ensures service.dao.records[..|old(service.dao.records)|] == old(service.dao.records)
    ensures var a := service.dao.records[|old(service.dao.records)|];
      a.employeeId == employeeId && a.date == today && a.timeIn == Some(timeIn) && a.timeOut == Some(timeOut)
      && a.Valid() && a.IsComplete()
    ensures service.HasCompletedAttendanceForToday(employeeId, today)
  {
    ghost var before := service.dao.records;
    service.ClockIn(employeeId, today, today, timeIn);
    var n := |before|;
    assert IndexOfKey(service.dao.records, Key(employeeId, today)) == Some(n) by {
      assert forall j :: 0 <= j < n ==> service.dao.records[j] == before[j];
      IndexOfKeyIsFirst(service.dao.records, Key(employeeId, today), n);
    }
    var outcome := service.ClockOut(employeeId, today, today, timeOut);
  }
}
