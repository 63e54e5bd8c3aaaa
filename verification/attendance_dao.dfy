/** `FileAttendanceDao`: the in-memory list of attendance records behind the
    attendance file, keyed by (employee id, date), with its queries and its
    in-place add, update and delete. */
module AttendanceDaoModel {
  import opened Wrappers
  import opened JavaLang
  import opened Temporal
  import opened AttendanceModel
  import DateTimeUtil

  /** The key the store matches records on. */
  datatype Key = Key(employeeId: int, date: Date)

  function KeyOf(a: Attendance): Key
  {
    Key(a.employeeId, a.date)
  }

  // ----- queries over a list of records -----

  /** Some record has the key (`anyMatch`). */
  predicate HasKey(rs: seq<Attendance>, k: Key)
  {
    exists i :: 0 <= i < |rs| && KeyOf(rs[i]) == k
  }

  /** How many records have the key. */
  function CountKey(rs: seq<Attendance>, k: Key): (n: nat)
    ensures n <= |rs|
    decreases |rs|
  {
    if rs == [] then 0 else (if KeyOf(rs[0]) == k then 1 else 0) + CountKey(rs[1..], k)
  }

  /** The store's invariant: at most one record per (employee id, date). */
  ghost predicate OnePerKey(rs: seq<Attendance>)
  {
    forall k :: CountKey(rs, k) <= 1
  }

  /** `removeIf` on the key: the records without it, in order. */
  function WithoutKey(rs: seq<Attendance>, k: Key): (r: seq<Attendance>)
    ensures |r| <= |rs|
    ensures forall i :: 0 <= i < |r| ==> r[i] in rs && KeyOf(r[i]) != k
    ensures forall i :: 0 <= i < |rs| && KeyOf(rs[i]) != k ==> rs[i] in r
    decreases |rs|
  {
    if rs == [] then []
    else (if KeyOf(rs[0]) == k then [] else [rs[0]]) + WithoutKey(rs[1..], k)
  }

  /** The position of the first record with the key, which the update loop stops at. */
  function IndexOfKey(rs: seq<Attendance>, k: Key): (r: Option<nat>)
    ensures r.Some? ==> r.value < |rs| && KeyOf(rs[r.value]) == k
    ensures r.Some? ==> forall j :: 0 <= j < r.value ==> KeyOf(rs[j]) != k
    ensures r.None? <==> !HasKey(rs, k)
    decreases |rs|
  {
    if rs == [] then None
    else if KeyOf(rs[0]) == k then Some(0)
    else
      var r := IndexOfKey(rs[1..], k);
      if r.None? then
        assert forall i :: 0 < i < |rs| ==> rs[i] == rs[1..][i - 1];
        None
      else Some(r.value + 1)
  }

  /** `getAttendanceByEmployeeId`: the employee's records, in stored order. */
  function ForEmployee(rs: seq<Attendance>, employeeId: int): (r: seq<Attendance>)
    ensures |r| <= |rs|
    ensures forall i :: 0 <= i < |r| ==> r[i] in rs && r[i].employeeId == employeeId
    ensures forall i :: 0 <= i < |rs| && rs[i].employeeId == employeeId ==> rs[i] in r
    decreases |rs|
  {
    if rs == [] then []
    else (if rs[0].employeeId == employeeId then [rs[0]] else []) + ForEmployee(rs[1..], employeeId)
  }

  /** `getAttendanceByDateRange`: the employee's records dated from `start`
      to `end`, both inclusive, in stored order. */
  function InDateRange(rs: seq<Attendance>, employeeId: int, start: Date, end: Date): (r: seq<Attendance>)
    ensures |r| <= |rs|
    ensures forall i :: 0 <= i < |r| ==>
      r[i] in rs && r[i].employeeId == employeeId && DateTimeUtil.InRange(r[i].date, start, end)
    ensures forall i :: 0 <= i < |rs| && rs[i].employeeId == employeeId && DateTimeUtil.InRange(rs[i].date, start, end) ==>
      rs[i] in r
    decreases |rs|
  {
    if rs == [] then []
    else
      (if rs[0].employeeId == employeeId && DateTimeUtil.InRange(rs[0].date, start, end) then [rs[0]] else []) +
      InDateRange(rs[1..], employeeId, start, end)
  }

  // ----- order: each query keeps the records in stored order -----

  lemma {:induction false} ForEmployeeAppend(s: seq<Attendance>, t: seq<Attendance>, employeeId: int)
    ensures ForEmployee(s + t, employeeId) == ForEmployee(s, employeeId) + ForEmployee(t, employeeId)
    decreases |s|
  {
    if s != [] {
      assert (s + t)[1..] == s[1..] + t;
      ForEmployeeAppend(s[1..], t, employeeId);
    } else {
      assert s + t == t;
    }
  }

  lemma {:induction false} InDateRangeAppend(s: seq<Attendance>, t: seq<Attendance>, employeeId: int, start: Date, end: Date)
    ensures InDateRange(s + t, employeeId, start, end) == InDateRange(s, employeeId, start, end) + InDateRange(t, employeeId, start, end)
    decreases |s|
  {
    if s != [] {
      assert (s + t)[1..] == s[1..] + t;
      InDateRangeAppend(s[1..], t, employeeId, start, end);
    } else {
      assert s + t == t;
    }
  }

  lemma {:induction false} WithoutKeyAppend(s: seq<Attendance>, t: seq<Attendance>, k: Key)
    ensures WithoutKey(s + t, k) == WithoutKey(s, k) + WithoutKey(t, k)
    decreases |s|
  {
    if s != [] {
      assert (s + t)[1..] == s[1..] + t;
      WithoutKeyAppend(s[1..], t, k);
    } else {
      assert s + t == t;
    }
  }

  /** A record is in the one-day range query exactly when it has that day's key. */
  lemma OneDayKey(a: Attendance, employeeId: int, day: Date)
    ensures (a.employeeId == employeeId && DateTimeUtil.InRange(a.date, day, day)) <==> KeyOf(a) == Key(employeeId, day)
  {
    OneDayRange(a.date, day);
  }

  /** The date-range query for one day is the query for that day's key, so
      its first element is the record the update loop would find. */
  lemma {:induction false} OneDayIsFirstWithKey(rs: seq<Attendance>, employeeId: int, day: Date)
    ensures var q := InDateRange(rs, employeeId, day, day);
      var i := IndexOfKey(rs, Key(employeeId, day));
      (q == [] <==> i.None?) && (q != [] ==> q[0] == rs[i.value])
    decreases |rs|
  {
    if rs != [] {
      var k := Key(employeeId, day);
      var tail := InDateRange(rs[1..], employeeId, day, day);
      OneDayIsFirstWithKey(rs[1..], employeeId, day);
      OneDayKey(rs[0], employeeId, day);
      if KeyOf(rs[0]) == k {
        assert InDateRange(rs, employeeId, day, day) == [rs[0]] + tail;
      } else {
        assert InDateRange(rs, employeeId, day, day) == tail;
        var i := IndexOfKey(rs[1..], k);
        assert IndexOfKey(rs, k) == if i.None? then None else Some(i.value + 1);
      }
    }
  }

  // ----- counting keys -----

  lemma {:induction false} CountKeyAppend(s: seq<Attendance>, t: seq<Attendance>, k: Key)
    ensures CountKey(s + t, k) == CountKey(s, k) + CountKey(t, k)
    decreases |s|
  {
    if s != [] {
      assert (s + t)[1..] == s[1..] + t;
      CountKeyAppend(s[1..], t, k);
    } else {
      assert s + t == t;
    }
  }

  lemma {:induction false} CountKeyPositive(rs: seq<Attendance>, k: Key)
    ensures CountKey(rs, k) > 0 <==> HasKey(rs, k)
    decreases |rs|
  {
    if rs != [] {
      CountKeyPositive(rs[1..], k);
      if HasKey(rs[1..], k) {
        var i :| 0 <= i < |rs[1..]| && KeyOf(rs[1..][i]) == k;
        assert KeyOf(rs[i + 1]) == k;
      }
      if HasKey(rs, k) && KeyOf(rs[0]) != k {
        var i :| 0 <= i < |rs| && KeyOf(rs[i]) == k;
        assert KeyOf(rs[1..][i - 1]) == k;
      }
    }
  }

  /** `removeIf` drops every record with the key and keeps the count of every other key. */
  lemma {:induction false} CountWithoutKey(rs: seq<Attendance>, k: Key, k': Key)
    ensures CountKey(WithoutKey(rs, k), k') == if k' == k then 0 else CountKey(rs, k')
    decreases |rs|
  {
    if rs != [] {
      var head := if KeyOf(rs[0]) == k then [] else [rs[0]];
      CountKeyAppend(head, WithoutKey(rs[1..], k), k');
      CountWithoutKey(rs[1..], k, k');
    }
  }

  /** `removeIf` shortens the list by exactly the number of records it matches. */
  lemma {:induction false} WithoutKeyLength(rs: seq<Attendance>, k: Key)
    ensures |WithoutKey(rs, k)| == |rs| - CountKey(rs, k)
    decreases |rs|
  {
    if rs != [] {
      WithoutKeyLength(rs[1..], k);
    }
  }

  /** With no record to remove, `removeIf` leaves the list as it was. */
  lemma {:induction false} WithoutAbsentKey(rs: seq<Attendance>, k: Key)
    requires !HasKey(rs, k)
    ensures WithoutKey(rs, k) == rs
    decreases |rs|
  {
    if rs != [] {
      assert KeyOf(rs[0]) != k;
      WithoutAbsentKey(rs[1..], k);
    }
  }

  /** Overwriting a record with one of the same key keeps every key's count. */
  lemma {:induction false} CountKeyReplace(rs: seq<Attendance>, i: nat, a: Attendance, k: Key)
    requires i < |rs| && KeyOf(a) == KeyOf(rs[i])
    ensures CountKey(rs[i := a], k) == CountKey(rs, k)
    decreases |rs|
  {
    if i > 0 {
      assert rs[i := a][1..] == rs[1..][i - 1 := a];
      CountKeyReplace(rs[1..], i - 1, a, k);
    } else {
      assert rs[i := a][1..] == rs[1..];
    }
  }

  /** Two records with one key count twice. */
  lemma {:induction false} CountKeyTwo(rs: seq<Attendance>, i: nat, j: nat)
    requires i < j < |rs| && KeyOf(rs[i]) == KeyOf(rs[j])
    ensures CountKey(rs, KeyOf(rs[i])) >= 2
    decreases |rs|
  {
    var k := KeyOf(rs[i]);
    if i == 0 {
      assert KeyOf(rs[1..][j - 1]) == k;
      CountKeyPositive(rs[1..], k);
    } else {
      assert rs[1..][i - 1] == rs[i] && rs[1..][j - 1] == rs[j];
      CountKeyTwo(rs[1..], i - 1, j - 1);
    }
  }

  /** The invariant in terms of positions: no two records share a key. */
  lemma OnePerKeyDistinct(rs: seq<Attendance>)
    requires OnePerKey(rs)
    ensures forall i, j :: 0 <= i < j < |rs| ==> KeyOf(rs[i]) != KeyOf(rs[j])
  {
    forall i, j | 0 <= i < j < |rs| ensures KeyOf(rs[i]) != KeyOf(rs[j]) {
      if KeyOf(rs[i]) == KeyOf(rs[j]) {
        CountKeyTwo(rs, i, j);
        assert false;
      }
    }
  }

  // ----- the store -----

  class FileAttendanceDao {
    /** `attendanceRecords`. */
    var records: seq<Attendance>

    /** The records as loaded from the file; reading the file is not modelled. */
    constructor (loaded: seq<Attendance>)
      ensures records == loaded
    {
      records := loaded;
    }

    /** `getAllAttendance()`: a copy of the list. */
    method GetAllAttendance() returns (r: seq<Attendance>)
      ensures r == records
    {
      r := records;
    }

    /** `getAttendanceByEmployeeId(employeeId)`. */
    function AttendanceByEmployeeId(employeeId: int): (r: seq<Attendance>)
      reads this
      ensures r == ForEmployee(records, employeeId)
      ensures forall i :: 0 <= i < |r| ==> r[i] in records && r[i].employeeId == employeeId
      ensures forall i :: 0 <= i < |records| && records[i].employeeId == employeeId ==> records[i] in r
    {
      ForEmployee(records, employeeId)
    }

    /** `getAttendanceByDateRange(employeeId, startDate, endDate)`. */
    function AttendanceByDateRange(employeeId: int, start: Date, end: Date): (r: seq<Attendance>)
      reads this
      ensures r == InDateRange(records, employeeId, start, end)
      ensures forall i :: 0 <= i < |r| ==>
        r[i] in records && r[i].employeeId == employeeId && !IsBefore(r[i].date, start) && !IsAfter(r[i].date, end)
      ensures forall i :: (0 <= i < |records| && records[i].employeeId == employeeId &&
        !IsBefore(records[i].date, start) && !IsAfter(records[i].date, end)) ==> records[i] in r
    {
      InDateRange(records, employeeId, start, end)
    }

    /** `addAttendance(attendance)`: any record with the same key is removed
        and the new one appended, so afterwards exactly one record has that key. */
    method AddAttendance(attendance: Attendance)
      modifies this
      ensures records == WithoutKey(old(records), KeyOf(attendance)) + [attendance]
      ensures CountKey(records, KeyOf(attendance)) == 1
      ensures forall k :: k != KeyOf(attendance) ==> CountKey(records, k) == CountKey(old(records), k)
      ensures old(OnePerKey(records)) ==> OnePerKey(records)
    {
      var k := KeyOf(attendance);
      ghost var before := records;
      var recordExists := HasKey(records, k);
      if recordExists {
        records := WithoutKey(records, k);
      } else {
        WithoutAbsentKey(records, k);
      }
      records := records + [attendance];
      forall k' ensures CountKey(records, k') == if k' == k then 1 else CountKey(before, k') {
        CountKeyAppend(WithoutKey(before, k), [attendance], k');
        CountWithoutKey(before, k, k');
        assert CountKey([attendance], k') == if k' == k then 1 else 0;
      }
    }

    /** `updateAttendance(attendance)`: the first record with the same key is
        overwritten in place; with none, DataAccessException and no change. */
    method UpdateAttendance(attendance: Attendance) returns (outcome: Outcome)
      modifies this
      ensures var i := IndexOfKey(old(records), KeyOf(attendance));
        && (i.Some? ==> outcome == Done && records == old(records)[i.value := attendance])
        && (i.None? ==> outcome == Failed(AttendanceNotFoundForUpdate) && records == old(records))
      ensures forall k :: CountKey(records, k) == CountKey(old(records), k)
      ensures old(OnePerKey(records)) ==> OnePerKey(records)
    {
      var k := KeyOf(attendance);
      var i := 0;
      while i < |records|
        invariant 0 <= i <= |records|
        invariant records == old(records)
        invariant forall j :: 0 <= j < i ==> KeyOf(records[j]) != k
      {
        var record := records[i];
        if record.employeeId == attendance.employeeId && record.date == attendance.date {
          assert IndexOfKey(records, k) == Some(i) by { IndexOfKeyIsFirst(records, k, i); }
          forall k' ensures CountKey(records[i := attendance], k') == CountKey(records, k') {
            CountKeyReplace(records, i, attendance, k');
          }
          records := records[i := attendance];
          return Done;
        }
        i := i + 1;
      }
      outcome := Failed(AttendanceNotFoundForUpdate);
    }

    /** `deleteAttendance(employeeId, date)`: every record with the key is
        removed, the rest keep their order; if none was removed,
        DataAccessException (the list is then unchanged). */
    method DeleteAttendance(employeeId: Int32, date: Date) returns (outcome: Outcome)
      modifies this
      ensures records == WithoutKey(old(records), Key(employeeId, date))
      ensures outcome == Done <==> HasKey(old(records), Key(employeeId, date))
      ensures outcome.Failed? ==> outcome.error == AttendanceNotFoundForDeletion && records == old(records)
      ensures !HasKey(records, Key(employeeId, date))
      ensures old(OnePerKey(records)) ==> OnePerKey(records)
    {
      var k := Key(employeeId, date);
      ghost var before := records;
      var size := |records|;
      records := WithoutKey(records, k);
      WithoutKeyLength(before, k);
      CountKeyPositive(before, k);
      CountWithoutKey(before, k, k);
      CountKeyPositive(records, k);
      forall k' ensures CountKey(records, k') <= CountKey(before, k') {
        CountWithoutKey(before, k, k');
      }
      if |records| == size {
        WithoutAbsentKey(before, k);
        outcome := Failed(AttendanceNotFoundForDeletion);
      } else {
        outcome := Done;
      }
    }
  }

  /** The first position holding the key is the one `IndexOfKey` names. */
  lemma IndexOfKeyIsFirst(rs: seq<Attendance>, k: Key, i: nat)
    requires i < |rs| && KeyOf(rs[i]) == k
    requires forall j :: 0 <= j < i ==> KeyOf(rs[j]) != k
    ensures IndexOfKey(rs, k) == Some(i)
  {
    var r := IndexOfKey(rs, k);
    assert r.Some?;
  }

  // ----- FileAttendanceDao.parseTime -----

  /** `FileAttendanceDao.parseTime(timeStr)`: the same steps as
      `DateTimeUtil.parseTime`, but only the blank check trims; the parse
      steps see the text as given. */
  function ParseTime(timeStr: Option<string>, iso: string -> Option<Time>): (r: Option<Time>)
    ensures timeStr.None? ==> r.None?
    ensures timeStr.Some? && AllTrimmable(timeStr.value) ==> r.None?
    ensures r.Some? ==> OnMinute(r.value) || r == iso(timeStr.value)
  {
    if timeStr.None? then None
    else if Trim(timeStr.value) == [] then None
    else
      TrimEmptyIff(timeStr.value);
      DateTimeUtil.ParseTimeSteps(timeStr.value, timeStr.value, iso)
  }

  /** On text with no surrounding blanks, as the loader passes it (it trims
      each column first), both `parseTime`s agree. */
  lemma ParseTimeAgreesOnTrimmed(timeStr: string, iso: string -> Option<Time>)
    requires Trim(timeStr) == timeStr
    ensures ParseTime(Some(timeStr), iso) == DateTimeUtil.ParseTime(Some(timeStr), iso)
  {
  }

  /** On untrimmed text they differ: a time with a leading blank, such as
      " 08:30", is unparseable here, as the split leaves an hour part of
      three characters ... */
  lemma ParseTimeUntrimmed(t: Time, iso: string -> Option<Time>)
    ensures ParseTime(Some(" " + FormatHHmm(t)), iso) == None
  {
    var f := FormatHHmm(t);
    assert f == TwoDigits(Hour(t)) + ":" + TwoDigits(Minute(t));
    assert f[..2] == TwoDigits(Hour(t)) && f[3..] == TwoDigits(Minute(t));
    DateTimeUtil.NoColonInDigits(f[..2]);
    DateTimeUtil.NoColonInDigits(f[3..]);
    BlankBeforeTime(f, iso);
  }

  /** The steps on " hh:mm": the strict parse sees six characters, the
      `^\d:\d\d$` rule does not apply, and the split on ':' gives " hh" and
      "mm", neither of which is padded, so the strict parse fails again. */
  lemma BlankBeforeTime(f: string, iso: string -> Option<Time>)
    requires |f| == 5 && f[2] == ':' && IsDigit(f[0])
    requires ':' !in f[..2] && ':' !in f[3..]
    ensures ParseTime(Some(" " + f), iso) == None
  {
    var s := " " + f;
    assert !AllTrimmable(s) by { assert s[1] == f[0]; }
    TrimEmptyIff(s);
    DateTimeUtil.StrictNeedsFive(s);
    assert !DateTimeUtil.SingleDigitHourForm(s);
    BlankBeforeTimeParts(f, iso);
    assert DateTimeUtil.ParseTimeSteps(s, s, iso) == None;
  }

  lemma BlankBeforeTimeParts(f: string, iso: string -> Option<Time>)
    requires |f| == 5 && f[2] == ':'
    requires ':' !in f[..2] && ':' !in f[3..]
    ensures DateTimeUtil.ParseColonParts(" " + f, iso) == None
  {
    var s := " " + f;
    var hour, minute := " " + f[..2], f[3..];
    assert ':' !in hour;
    SplitTwo(hour, minute, ':');
    assert hour + [':'] + minute == s;
    assert DateTimeUtil.PadPart(hour) + ":" + DateTimeUtil.PadPart(minute) == s;
    DateTimeUtil.StrictNeedsFive(s);
  }

  /** ... while `DateTimeUtil.parseTime` trims it to that time. */
  lemma ParseTimeUntrimmedUtil(t: Time, iso: string -> Option<Time>)
    ensures DateTimeUtil.ParseTime(Some(" " + FormatHHmm(t)), iso) == Some(t - t % 60)
  {
    DateTimeUtil.ParseTimeCanonical(" ", t, "", iso);
    assert " " + FormatHHmm(t) + "" == " " + FormatHHmm(t);
  }
}
