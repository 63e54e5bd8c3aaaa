# MotorPH payroll: attendance, employees and their utilities in Dafny

This project models the core of the MotorPH payroll system, a Java desktop
application. Employees clock in and out each day. The attendance record
derives worked time, lateness and overtime from the two times. File-backed
stores keep the attendance records and the employees in memory, and thin
services sit on top of them. A set of utilities parses times, dates, CSV
lines and identification numbers.

The model follows the source's own shape:

- `Attendance` is a class whose fields are fixed at construction. Its
  metrics come from `CalculateWorkingHours`, a method with conditional
  updates that is proved equal to the specification function `MetricsOf`.
  The `Valid()` invariant ties the stored fields to that function.
- `Employee` is a class with mutable fields. Each setter states the whole
  new state: one field changes and nothing else does.
- `FileAttendanceDao` and `FileEmployeeDao` are classes holding a `seq`
  field. Their methods update it in place, and each states the new list in
  terms of the old one. The stores' invariants (one record per
  employee-and-date key, unique employee ids) are proved preserved by every
  update.
- `AttendanceServiceImpl` and `EmployeeServiceImpl` hold their store. Clocking
  in and out is specified by its effect on the store.
- The CSV tokenizer is an imperative loop, proved against a scan function.
  Its fields are characterised by their count, their join and their
  concatenation.
- The pure helpers are functions: `DateTimeUtil`, `ValidationUtil`,
  `EmployeeStatus.fromString`, and `PayrollSummary.determineStatus`.

Java semantics the code relies on are written out in `JavaLang` and
`Temporal`:

- 32-bit `int` wrap-around;
- division truncating toward zero;
- `String.trim`, `String.split`, `Integer.parseInt` and `equalsIgnoreCase`;
- `LocalTime` as seconds since midnight, and the strict "HH:mm" formatter;
- `LocalDate` and its month lengths.

The wall clock (`LocalDate.now()` and `LocalTime.now()`) is a parameter:
`today` and `now`, plus `lookupDay` where the date is read a second time. The ISO fallback of `LocalTime.parse(String)` is a
parameter `iso`.

Where the behaviour of the code differs from its written description, the
model follows the code:

- A 09:30-18:30 day gives 90 minutes (1.5 hours) of overtime. Overtime is
  measured past 17:00, not as hours worked past 8.
- `PayrollSummary.determineStatus` tests `lateMinutes > 0`, whereas
  `Attendance.getStatus` tests `timeIn.isAfter(08:00)`. They disagree for a
  clock-in within the first minute after 08:00 (`DetermineStatusDiffers`).
- A clock-out before the clock-in is not rejected. It gives negative worked
  time (`ClockOutBeforeClockIn`).
- `FileAttendanceDao.parseTime` does not trim its input, unlike
  `DateTimeUtil.parseTime`. The two agree on the trimmed columns the loader
  passes it (`ParseTimeAgreesOnTrimmed`), and differ on " 08:30"
  (`ParseTimeUntrimmed`, `ParseTimeUntrimmedUtil`).
- `DateTimeUtil.parseTime` checks the single-digit-hour pattern on the raw
  text, before trimming.
- `clockIn` and `clockOut` read the current date twice: once for the
  record they write and once inside `getTodayAttendance` for the record
  they look up. A clock-in spanning midnight, on a day whose record exists
  but whose next day has none, replaces that record with an open one
  (`ClockInAcrossMidnight`). A clock-out in the same window can fail with
  DataAccessException.
- Login accepts any id text `Integer.parseInt` accepts, as long as the
  password is that same text. For example, "Employee010" with "010" logs in
  as employee 10, and a leading "+" is accepted.

## Model

| member | source | states |
|---|---|---|
| JavaLang.Wrap32 | motoPHPayrollSystemGUIv4/src/main/java/com/motorph/payroll/service/EmployeeServiceImpl.java:78-81 | The `+ 1` on an `int` wraps: in-range values are unchanged, and Integer.MAX_VALUE + 1 is Integer.MIN_VALUE. |
| JavaLang.TruncDiv | motoPHPayrollSystemGUIv3/src/com/motorph/payroll/model/Attendance.java:40 | `toMinutes()` truncates toward zero: the quotient is bounded by the dividend on the side of zero, for both signs. |
| JavaLang.ParseIntToString | motoPHPayrollSystemGUIv4/src/main/java/com/motorph/payroll/service/EmployeeServiceImpl.java:53 | `Integer.parseInt` reads back every `int` written in decimal. |
| JavaLang.TrimEmptyIff | motoPHPayrollSystemGUIv4/src/main/java/com/motorph/payroll/util/ValidationUtil.java:14 | `trim()` is empty exactly when every character is at most a space. |
| JavaLang.TrimPadded | motoPHPayrollSystemGUIv4/src/main/java/com/motorph/payroll/util/DateTimeUtil.java:45 | `trim()` removes any blank padding around text that starts and ends with a non-blank character. |
| JavaLang.SplitTwo | motoPHPayrollSystemGUIv4/src/main/java/com/motorph/payroll/util/DateTimeUtil.java:54 | `split(":")` of two colon-free parts joined by one colon, the second non-empty, gives exactly those two parts. |
| Temporal.MinutesBetween | motoPHPayrollSystemGUIv3/src/com/motorph/payroll/model/Attendance.java:37-40 | Whole minutes truncated toward zero: for a forward span, 60 times the result is at most the span and within a minute of it; mirrored for a backward span. |
| Temporal.ParseHHmm | motoPHPayrollSystemGUIv4/src/main/java/com/motorph/payroll/util/DateTimeUtil.java:45 | Strict "HH:mm" parsing: whatever it accepts is on the minute, and formatting it gives back exactly the parsed text. |
| Temporal.ParseFormatHHmm | motoPHPayrollSystemGUIv3/src/com/motorph/payroll/model/Attendance.java:68-74 | Parsing a formatted time gives back the time with its seconds dropped. |
| Temporal.LengthOfMonth | motoPHPayrollSystemGUIv4/src/main/java/com/motorph/payroll/util/DateTimeUtil.java:84 | A month has 28 to 31 days; February has 29 exactly in leap years. |
| Temporal.OneDayRange | motoPHPayrollSystemGUIv4/src/com/motorph/payroll/dao/FileAttendanceDao.java:102 | Neither before nor after a day is exactly that day. |
| AttendanceModel.MetricsOf | motoPHPayrollSystemGUIv3/src/com/motorph/payroll/model/Attendance.java:34-57 | A missing clock-in or clock-out leaves all three metrics at zero. Late and overtime minutes are never negative. |
| AttendanceModel.CalculateWorkingHours | motoPHPayrollSystemGUIv3/src/com/motorph/payroll/model/Attendance.java:34-57 | The values its conditional assignments leave are those of `MetricsOf`. |
| AttendanceModel.WorkedMinutesLunchRule | motoPHPayrollSystemGUIv3/src/com/motorph/payroll/model/Attendance.java:37-45 | For times on the minute, worked time is the clock-out minus the clock-in. Exactly one hour is deducted when that exceeds 300 minutes. |
| AttendanceModel.LateMinutesPastStart | motoPHPayrollSystemGUIv3/src/com/motorph/payroll/model/Attendance.java:48-50 | Lateness is zero unless the clock-in is after 08:00. Otherwise it is the whole minutes past 08:00. |
| AttendanceModel.OvertimePastEnd | motoPHPayrollSystemGUIv3/src/com/motorph/payroll/model/Attendance.java:53-55 | Overtime is zero unless the clock-out is after 17:00. Otherwise it is the whole minutes past 17:00. |
| AttendanceModel.ClockOutBeforeClockIn | motoPHPayrollSystemGUIv3/src/com/motorph/payroll/model/Attendance.java:37-45 | A clock-out before the clock-in is not rejected. It gives minus the whole minutes between them, with no lunch deduction. |
| AttendanceModel.StandardDayExamples | motoPHPayrollSystemGUIv3/src/com/motorph/payroll/model/Attendance.java:34-57 | 08:00-17:00 gives 480 worked minutes, 0 late and 0 overtime. 09:30-18:30 gives 480, 90 and 90. |
| AttendanceModel.Attendance.constructor | motoPHPayrollSystemGUIv3/src/com/motorph/payroll/model/Attendance.java:26-32 | It stores the id, date and times, and the derived fields are the calculated metrics (`Valid`). |
| AttendanceModel.Attendance.TotalHours | motoPHPayrollSystemGUIv3/src/com/motorph/payroll/model/Attendance.java:64 | The hours are the worked minutes divided by 60. |
| AttendanceModel.Attendance.OvertimeHours | motoPHPayrollSystemGUIv3/src/com/motorph/payroll/model/Attendance.java:65 | The overtime hours are the overtime minutes divided by 60. |
| AttendanceModel.Attendance.FormattedTimeIn | motoPHPayrollSystemGUIv3/src/com/motorph/payroll/model/Attendance.java:68-70 | Without a clock-in it is "N/A". Otherwise it is "HH:mm" text that parses back to the clock-in without seconds. |
| AttendanceModel.Attendance.FormattedTimeOut | motoPHPayrollSystemGUIv3/src/com/motorph/payroll/model/Attendance.java:72-74 | Without a clock-out it is "N/A". Otherwise it is "HH:mm" text that parses back to the clock-out without seconds. |
| AttendanceModel.Attendance.IsComplete | motoPHPayrollSystemGUIv3/src/com/motorph/payroll/model/Attendance.java:80-82 | Both times are recorded. A valid incomplete record has zero worked, late and overtime minutes. |
| AttendanceModel.Attendance.IsLate | motoPHPayrollSystemGUIv3/src/com/motorph/payroll/model/Attendance.java:88-90 | True exactly when there is a clock-in after 08:00. On a valid complete record clocked in on the minute, that is exactly a positive late count. |
| AttendanceModel.Attendance.HasOvertime | motoPHPayrollSystemGUIv3/src/com/motorph/payroll/model/Attendance.java:96-98 | True exactly when there is a clock-out after 17:00. On a valid complete record clocked out on the minute, that is exactly a positive overtime count. |
| AttendanceModel.Attendance.GetStatus | motoPHPayrollSystemGUIv3/src/com/motorph/payroll/model/Attendance.java:104-112 | Incomplete records are ABSENT. Complete records are LATE exactly when `isLate`, and PRESENT otherwise. |
| AttendanceModel.IncompleteHasNoMetrics | motoPHPayrollSystemGUIv3/src/com/motorph/payroll/model/Attendance.java:34-36 | A record missing a time has zero metrics and status ABSENT. |
| AttendanceModel.FlagsMatchMetrics | motoPHPayrollSystemGUIv3/src/com/motorph/payroll/model/Attendance.java:88-98 | On complete records on the minute, `isLate` holds exactly when late minutes are positive, and `hasOvertime` exactly when overtime is positive. |
| PayrollSummaryModel.PayrollSummary.constructor | motoPHPayrollSystemGUIv4/src/main/java/com/motorph/payroll/model/PayrollSummary.java:29-49 | All fourteen fields are stored as given. They are constants, so every getter returns them unchanged. |
| PayrollSummaryModel.DetermineStatus | motoPHPayrollSystemGUIv4/src/main/java/com/motorph/payroll/model/PayrollSummary.java:213-221 | ABSENT exactly for incomplete records. For complete records, LATE exactly when late minutes are positive, and PRESENT otherwise. |
| PayrollSummaryModel.DetermineStatusAgrees | motoPHPayrollSystemGUIv4/src/main/java/com/motorph/payroll/model/PayrollSummary.java:213-221 | For a clock-in on the minute, it equals the record's own `getStatus()`. |
| PayrollSummaryModel.DetermineStatusDiffers | motoPHPayrollSystemGUIv4/src/main/java/com/motorph/payroll/model/PayrollSummary.java:213-221 | The two statuses differ exactly on complete records clocked in within the first minute after 08:00. There `getStatus()` says LATE and the summary says PRESENT. |
| EmployeeStatusEnum.EmployeeStatus.ToString | motoPHPayrollSystemGUIv4/src/main/java/com/motorph/payroll/model/EmployeeStatus.java:43-45 | It is the display name, and `fromString` reads it back as the same status. |
| EmployeeStatusEnum.FirstMatch | motoPHPayrollSystemGUIv4/src/main/java/com/motorph/payroll/model/EmployeeStatus.java:32-39 | The loop returns a status that matches when one does, and REGULAR when none does. |
| EmployeeStatusEnum.FromString | motoPHPayrollSystemGUIv4/src/main/java/com/motorph/payroll/model/EmployeeStatus.java:27-40 | null gives REGULAR. Text matching a name or display name, ignoring case, gives a matching status. Any other text gives REGULAR. |
| EmployeeStatusEnum.MatchIsUnique | motoPHPayrollSystemGUIv4/src/main/java/com/motorph/payroll/model/EmployeeStatus.java:32-37 | No text matches two different statuses. |
| EmployeeStatusEnum.FromStringFindsMatch | motoPHPayrollSystemGUIv4/src/main/java/com/motorph/payroll/model/EmployeeStatus.java:32-36 | `fromString` returns whichever status the text matches. |
| EmployeeStatusEnum.FromStringRoundTrip | motoPHPayrollSystemGUIv4/src/main/java/com/motorph/payroll/model/EmployeeStatus.java:18-40 | Every status is recovered from its display name and from its constant name. |
| EmployeeStatusEnum.FromStringLowerCase | motoPHPayrollSystemGUIv4/src/main/java/com/motorph/payroll/model/EmployeeStatus.java:34 | "part-time" gives PART_TIME. |
| EmployeeStatusEnum.FromStringConstantName | motoPHPayrollSystemGUIv4/src/main/java/com/motorph/payroll/model/EmployeeStatus.java:33 | "part_time" gives PART_TIME. |
| EmployeeStatusEnum.FromStringUnknown | motoPHPayrollSystemGUIv4/src/main/java/com/motorph/payroll/model/EmployeeStatus.java:39 | "Intern" gives REGULAR. |
| EmployeeModel.Employee.constructor | motoPHPayrollSystemGUIv4/src/com/motorph/payroll/model/Employee.java:27-52 | It stores all nineteen fields, with the status text resolved through `fromString`. |
| EmployeeModel.Employee.GetStatus | motoPHPayrollSystemGUIv4/src/com/motorph/payroll/model/Employee.java:65 | It is the status's display name, and `fromString` recovers the stored status from it. |
| EmployeeModel.Employee.GetFullName | motoPHPayrollSystemGUIv4/src/com/motorph/payroll/model/Employee.java:103-105 | It is the first name, one space and the last name, in that order. |
| EmployeeModel.Employee.SetBirthday | motoPHPayrollSystemGUIv4/src/com/motorph/payroll/model/Employee.java:75 | Only the birthday changes. |
| EmployeeModel.Employee.SetEmployeeId | motoPHPayrollSystemGUIv4/src/com/motorph/payroll/model/Employee.java:76 | Only the id changes. |
| EmployeeModel.Employee.SetLastName | motoPHPayrollSystemGUIv4/src/com/motorph/payroll/model/Employee.java:77 | Only the last name changes. |
| EmployeeModel.Employee.SetFirstName | motoPHPayrollSystemGUIv4/src/com/motorph/payroll/model/Employee.java:78 | Only the first name changes. |
| EmployeeModel.Employee.SetAddress | motoPHPayrollSystemGUIv4/src/com/motorph/payroll/model/Employee.java:79 | Only the address changes. |
| EmployeeModel.Employee.SetPhoneNumber | motoPHPayrollSystemGUIv4/src/com/motorph/payroll/model/Employee.java:80 | Only the phone number changes. |
| EmployeeModel.Employee.SetSssNumber | motoPHPayrollSystemGUIv4/src/com/motorph/payroll/model/Employee.java:81 | Only the SSS number changes. |
| EmployeeModel.Employee.SetPhilhealthNumber | motoPHPayrollSystemGUIv4/src/com/motorph/payroll/model/Employee.java:82 | Only the PhilHealth number changes. |
| EmployeeModel.Employee.SetTinNumber | motoPHPayrollSystemGUIv4/src/com/motorph/payroll/model/Employee.java:83 | Only the TIN changes. |
| EmployeeModel.Employee.SetPagibigNumber | motoPHPayrollSystemGUIv4/src/com/motorph/payroll/model/Employee.java:84 | Only the Pag-IBIG number changes. |
| EmployeeModel.Employee.SetStatusText | motoPHPayrollSystemGUIv4/src/com/motorph/payroll/model/Employee.java:86 | Only the status changes, to `fromString` of the text. |
| EmployeeModel.Employee.SetStatus | motoPHPayrollSystemGUIv4/src/com/motorph/payroll/model/Employee.java:87 | Only the status changes. |
| EmployeeModel.Employee.SetPosition | motoPHPayrollSystemGUIv4/src/com/motorph/payroll/model/Employee.java:88 | Only the position changes. |
| EmployeeModel.Employee.SetSupervisor | motoPHPayrollSystemGUIv4/src/com/motorph/payroll/model/Employee.java:89 | Only the supervisor changes. |
| EmployeeModel.Employee.SetBasicSalary | motoPHPayrollSystemGUIv4/src/com/motorph/payroll/model/Employee.java:90 | Only the basic salary changes. |
| EmployeeModel.Employee.SetRiceSubsidy | motoPHPayrollSystemGUIv4/src/com/motorph/payroll/model/Employee.java:91 | Only the rice subsidy changes. |
| EmployeeModel.Employee.SetPhoneAllowance | motoPHPayrollSystemGUIv4/src/com/motorph/payroll/model/Employee.java:92 | Only the phone allowance changes. |
| EmployeeModel.Employee.SetClothingAllowance | motoPHPayrollSystemGUIv4/src/com/motorph/payroll/model/Employee.java:93 | Only the clothing allowance changes. |
| EmployeeModel.Employee.SetGrossSemiMonthlyRate | motoPHPayrollSystemGUIv4/src/com/motorph/payroll/model/Employee.java:94 | Only the gross semi-monthly rate changes. |
| EmployeeModel.Employee.SetHourlyRate | motoPHPayrollSystemGUIv4/src/com/motorph/payroll/model/Employee.java:95 | Only the hourly rate changes. |
| Csv.ParseCsvLine | motoPHPayrollSystemGUIv4.2/src/main/java/com/motorph/payroll/util/FileUtil.java:69-94 | The loop computes `CsvFields`. There are as many fields as unquoted commas plus one, and no field holds a quote. Joining the fields with commas gives the line with its quotes removed. Concatenating them gives the line without quotes and unquoted commas. |
| Csv.ScanFieldCount | motoPHPayrollSystemGUIv4/src/com/motorph/payroll/dao/FileAttendanceDao.java:187-190 | Each unquoted comma closes exactly one field. |
| Csv.ScanNoQuotes | motoPHPayrollSystemGUIv4/src/com/motorph/payroll/dao/FileAttendanceDao.java:184-186 | Quotes only toggle the flag and never reach a field. |
| Csv.ScanJoin | motoPHPayrollSystemGUIv4/src/com/motorph/payroll/dao/FileAttendanceDao.java:181-198 | The fields joined by commas are the line with its quotes removed. |
| Csv.ScanConcat | motoPHPayrollSystemGUIv4/src/com/motorph/payroll/dao/FileAttendanceDao.java:181-198 | The fields concatenated are the line without quotes and unquoted commas. |
| Csv.CsvFieldsNonEmpty | motoPHPayrollSystemGUIv4.2/src/main/java/com/motorph/payroll/util/FileUtil.java:90-93 | There is always at least one field, and the empty line gives one empty field. |
| Csv.CsvFieldsWithoutQuotes | motoPHPayrollSystemGUIv4/src/com/motorph/payroll/dao/FileEmployeeDao.java:160-185 | With no quote in the line, the result is a split on every comma that keeps empty pieces. |
| Csv.CsvQuotedComma | motoPHPayrollSystemGUIv4/src/com/motorph/payroll/dao/FileEmployeeDao.java:168-172 | a,"b,c" gives the two fields a and b,c. |
| Csv.CsvTrailingEmptyFields | motoPHPayrollSystemGUIv4/src/com/motorph/payroll/dao/FileEmployeeDao.java:182 | "1,," gives three fields: "1", "" and "". |
| DateTimeUtil.ParseTime | motoPHPayrollSystemGUIv4/src/main/java/com/motorph/payroll/util/DateTimeUtil.java:38-66 | null and blank text give null. Any time it returns is on the minute or comes from the ISO fallback on the trimmed text. |
| DateTimeUtil.ParseTimeShortForms | motoPHPayrollSystemGUIv4/src/main/java/com/motorph/payroll/util/DateTimeUtil.java:45-58 | An hour of one or two digits, a colon and a minute of one or two digits parse to that hour and minute. |
| DateTimeUtil.ParseTimeCanonical | motoPHPayrollSystemGUIv4/src/main/java/com/motorph/payroll/util/DateTimeUtil.java:45 | A formatted "HH:mm" time with any blanks around it parses to that time. |
| DateTimeUtil.ParseHHmmLargeMinute | motoPHPayrollSystemGUIv4/src/main/java/com/motorph/payroll/util/DateTimeUtil.java:45 | The strict parse refuses a minute of 60 or more. |
| DateTimeUtil.ParseTimeLargeMinuteShort | motoPHPayrollSystemGUIv4/src/main/java/com/motorph/payroll/util/DateTimeUtil.java:49-50 | "d:mm" with a minute of 60 or more is refused: the padded text fails the strict parse and the fallback is never reached. |
| DateTimeUtil.ParseTimeLargeMinutePadded | motoPHPayrollSystemGUIv4/src/main/java/com/motorph/payroll/util/DateTimeUtil.java:45-58 | "0d:mm" with a minute of 60 or more is refused: the strict parse and the padded split both fail. |
| DateTimeUtil.ParseTimeLeadingZero | motoPHPayrollSystemGUIv4/src/main/java/com/motorph/payroll/util/DateTimeUtil.java:45-58 | "d:mm" parses the same as "0d:mm" for every pair of minute digits. Both are refused when the minute is 60 or more. |
| DateTimeUtil.StepsSingleDigitMinute | motoPHPayrollSystemGUIv4/src/main/java/com/motorph/payroll/util/DateTimeUtil.java:54-58 | A one-digit minute is padded by the split step, so "8:5" is 08:05. |
| DateTimeUtil.FirstDayOfMonth | motoPHPayrollSystemGUIv4/src/main/java/com/motorph/payroll/util/DateTimeUtil.java:73-76 | It is day 1 of the current month, and never after today. |
| DateTimeUtil.LastDayOfMonth | motoPHPayrollSystemGUIv4/src/main/java/com/motorph/payroll/util/DateTimeUtil.java:82-85 | It is the month's Gregorian length as a day of the current month, and never before today. |
| DateTimeUtil.FirstHalfStart | motoPHPayrollSystemGUIv4/src/main/java/com/motorph/payroll/util/DateTimeUtil.java:91-94 | It is day 1 of the current month, and never after today. |
| DateTimeUtil.FirstHalfEnd | motoPHPayrollSystemGUIv4/src/main/java/com/motorph/payroll/util/DateTimeUtil.java:100-103 | It is day 15 of the current month, which every month has. |
| DateTimeUtil.SecondHalfStart | motoPHPayrollSystemGUIv4/src/main/java/com/motorph/payroll/util/DateTimeUtil.java:109-112 | It is day 16 of the current month. |
| DateTimeUtil.SecondHalfEnd | motoPHPayrollSystemGUIv4/src/main/java/com/motorph/payroll/util/DateTimeUtil.java:118-120 | It is the last day of the month. |
| DateTimeUtil.HalvesPartitionMonth | motoPHPayrollSystemGUIv4/src/main/java/com/motorph/payroll/util/DateTimeUtil.java:91-120 | Every day of the current month is in exactly one half, no other day is in either, and the first half is days 1-15. |
| DateTimeUtil.MonthBounds | motoPHPayrollSystemGUIv4/src/main/java/com/motorph/payroll/util/DateTimeUtil.java:73-85 | The first and last day bound exactly the current month. |
| AttendanceDaoModel.WithoutKey | motoPHPayrollSystemGUIv4/src/com/motorph/payroll/dao/FileAttendanceDao.java:112-117 | `removeIf` keeps exactly the records without the key, taken from the list. |
| AttendanceDaoModel.IndexOfKey | motoPHPayrollSystemGUIv4/src/com/motorph/payroll/dao/FileAttendanceDao.java:126-134 | It names the first record with the key, and is None exactly when no record has it. |
| AttendanceDaoModel.ForEmployee | motoPHPayrollSystemGUIv4/src/com/motorph/payroll/dao/FileAttendanceDao.java:92-96 | It holds exactly the stored records with the employee id. |
| AttendanceDaoModel.InDateRange | motoPHPayrollSystemGUIv4/src/com/motorph/payroll/dao/FileAttendanceDao.java:99-104 | It holds exactly the stored records with the id and a date in [start, end], both ends included. |
| AttendanceDaoModel.ForEmployeeAppend | motoPHPayrollSystemGUIv4/src/com/motorph/payroll/dao/FileAttendanceDao.java:92-96 | The filter keeps stored order: it distributes over concatenation. |
| AttendanceDaoModel.InDateRangeAppend | motoPHPayrollSystemGUIv4/src/com/motorph/payroll/dao/FileAttendanceDao.java:99-104 | The range filter keeps stored order: it distributes over concatenation. |
| AttendanceDaoModel.WithoutKeyAppend | motoPHPayrollSystemGUIv4/src/com/motorph/payroll/dao/FileAttendanceDao.java:112-117 | `removeIf` keeps stored order: it distributes over concatenation. |
| AttendanceDaoModel.OneDayIsFirstWithKey | motoPHPayrollSystemGUIv4/src/com/motorph/payroll/dao/FileAttendanceDao.java:99-104 | The one-day range query is empty exactly when no record has that key. Otherwise it starts with the first record that has it. |
| AttendanceDaoModel.CountWithoutKey | motoPHPayrollSystemGUIv4/src/com/motorph/payroll/dao/FileAttendanceDao.java:112-117 | `removeIf` leaves no record with the key and keeps every other key's count. |
| AttendanceDaoModel.WithoutKeyLength | motoPHPayrollSystemGUIv4/src/com/motorph/payroll/dao/FileAttendanceDao.java:143-148 | `removeIf` shortens the list by exactly the number of matching records. |
| AttendanceDaoModel.CountKeyReplace | motoPHPayrollSystemGUIv4/src/com/motorph/payroll/dao/FileAttendanceDao.java:129-131 | Overwriting a record with one of the same key keeps every key's count. |
| AttendanceDaoModel.OnePerKeyDistinct | motoPHPayrollSystemGUIv4/src/com/motorph/payroll/dao/FileAttendanceDao.java:107-120 | Under the one-record-per-key invariant, no two positions share a key. |
| AttendanceDaoModel.FileAttendanceDao.constructor | motoPHPayrollSystemGUIv4/src/com/motorph/payroll/dao/FileAttendanceDao.java:23-27 | The store starts with the loaded records. |
| AttendanceDaoModel.FileAttendanceDao.GetAllAttendance | motoPHPayrollSystemGUIv4/src/com/motorph/payroll/dao/FileAttendanceDao.java:87-89 | It returns all stored records in order. |
| AttendanceDaoModel.FileAttendanceDao.AttendanceByEmployeeId | motoPHPayrollSystemGUIv4/src/com/motorph/payroll/dao/FileAttendanceDao.java:92-96 | It returns exactly the stored records with the id, in stored order. |
| AttendanceDaoModel.FileAttendanceDao.AttendanceByDateRange | motoPHPayrollSystemGUIv4/src/com/motorph/payroll/dao/FileAttendanceDao.java:99-104 | It returns exactly the stored records with the id and a date from start to end inclusive. |
| AttendanceDaoModel.FileAttendanceDao.AddAttendance | motoPHPayrollSystemGUIv4/src/com/motorph/payroll/dao/FileAttendanceDao.java:107-120 | Records with the key are removed and the new one appended. That key then counts exactly once, other keys are unchanged, and one-record-per-key is preserved. |
| AttendanceDaoModel.FileAttendanceDao.UpdateAttendance | motoPHPayrollSystemGUIv4/src/com/motorph/payroll/dao/FileAttendanceDao.java:123-139 | The first record with the key is overwritten in place. With none, it fails with DataAccessException and nothing changes. Key counts and the invariant are preserved. |
| AttendanceDaoModel.FileAttendanceDao.DeleteAttendance | motoPHPayrollSystemGUIv4/src/com/motorph/payroll/dao/FileAttendanceDao.java:142-149 | It is the `removeIf` result: Done exactly when a record had the key, DataAccessException with no change otherwise, and afterwards no record has the key. |
| AttendanceDaoModel.ParseTime | motoPHPayrollSystemGUIv4/src/com/motorph/payroll/dao/FileAttendanceDao.java:204-234 | null and blank text give null. Any time it returns is on the minute or comes from the ISO fallback on the untrimmed text. |
| AttendanceDaoModel.ParseTimeAgreesOnTrimmed | motoPHPayrollSystemGUIv4/src/com/motorph/payroll/dao/FileAttendanceDao.java:204-234 | On text without surrounding blanks it agrees with `DateTimeUtil.parseTime`. |
| AttendanceDaoModel.ParseTimeUntrimmed | motoPHPayrollSystemGUIv4/src/com/motorph/payroll/dao/FileAttendanceDao.java:211-224 | A time with a leading blank, such as " 08:30", gives null here. |
| AttendanceDaoModel.ParseTimeUntrimmedUtil | motoPHPayrollSystemGUIv4/src/main/java/com/motorph/payroll/util/DateTimeUtil.java:45 | `DateTimeUtil.parseTime` parses that same text to the time. |
| AttendanceServiceModel.AttendanceServiceImpl.GetTodayAttendance | motoPHPayrollSystemGUIv4/src/com/motorph/payroll/service/AttendanceServiceImpl.java:91-97 | A record exists exactly when a record has (id, today). It is the first such record. |
| AttendanceServiceModel.AttendanceServiceImpl.HasCompletedAttendanceForToday | motoPHPayrollSystemGUIv4/src/com/motorph/payroll/service/AttendanceServiceImpl.java:85-88 | True exactly when today's record exists and has a clock-out. |
| AttendanceServiceModel.AttendanceServiceImpl.AddAttendance | motoPHPayrollSystemGUIv4/src/com/motorph/payroll/service/AttendanceServiceImpl.java:32-35 | A new record built from the values replaces any with its key and is appended. |
| AttendanceServiceModel.AttendanceServiceImpl.UpdateAttendance | motoPHPayrollSystemGUIv4/src/com/motorph/payroll/service/AttendanceServiceImpl.java:38-41 | A new record built from the values overwrites the first with its key. With none, it fails and nothing changes. |
| AttendanceServiceModel.AttendanceServiceImpl.DeleteAttendance | motoPHPayrollSystemGUIv4/src/com/motorph/payroll/service/AttendanceServiceImpl.java:44-46 | It forwards to the store's delete, with the same outcome. |
| AttendanceServiceModel.AttendanceServiceImpl.ClockIn | motoPHPayrollSystemGUIv4/src/com/motorph/payroll/service/AttendanceServiceImpl.java:49-64 | The date is read twice, as `today` for the record written and as `lookupDay` for the lookup. With no record for `lookupDay`, any record for `today` is removed and an open record clocked in now is appended. With a record for `lookupDay`, nothing changes. When both readings agree, the record is appended to the unchanged list and today has a record afterwards. The one-record-per-key invariant is kept. |
| AttendanceServiceModel.AttendanceServiceImpl.ClockOut | motoPHPayrollSystemGUIv4/src/com/motorph/payroll/service/AttendanceServiceImpl.java:67-82 | With the same two readings: an open record for `lookupDay` leads to an in-place update of the first record for `today`, keeping the looked-up clock-in and clocking out now. With no record for `today` that update fails with DataAccessException and nothing changes. Otherwise nothing changes. When both readings agree, it never fails. |
| AttendanceServiceModel.ClockInAcrossMidnight | motoPHPayrollSystemGUIv4/src/com/motorph/payroll/service/AttendanceServiceImpl.java:49-64 | When the two readings straddle midnight, the earlier day has a record and the later has none, the earlier day's record (complete or open) is replaced by one open record clocked in now. |
| AttendanceServiceModel.ClockInTwice | motoPHPayrollSystemGUIv4/src/com/motorph/payroll/service/AttendanceServiceImpl.java:59-63 | Two clock-ins on one day add at most one record, stamped with the first time. |
| AttendanceServiceModel.ClockInThenOut | motoPHPayrollSystemGUIv4/src/com/motorph/payroll/service/AttendanceServiceImpl.java:49-88 | On a day with no record, clock-in then clock-out leaves one complete record with both times, and today counts as completed. |
| EmployeeDaoModel.FirstWithId | motoPHPayrollSystemGUIv4/src/com/motorph/payroll/dao/FileEmployeeDao.java:99-104 | It names the first employee with the id, and is None exactly when none has it. |
| EmployeeDaoModel.WithoutId | motoPHPayrollSystemGUIv4/src/com/motorph/payroll/dao/FileEmployeeDao.java:128 | `removeIf` keeps exactly the employees without the id, taken from the list. |
| EmployeeDaoModel.WithoutIdShrinks | motoPHPayrollSystemGUIv4/src/com/motorph/payroll/dao/FileEmployeeDao.java:128-131 | `removeIf` removes something exactly when some employee has the id. Otherwise the list is unchanged. |
| EmployeeDaoModel.WithoutIdUnique | motoPHPayrollSystemGUIv4/src/com/motorph/payroll/dao/FileEmployeeDao.java:127-132 | Deleting keeps ids unique. |
| EmployeeDaoModel.FileEmployeeDao.constructor | motoPHPayrollSystemGUIv4/src/com/motorph/payroll/dao/FileEmployeeDao.java:16-20 | The store starts with the loaded employees. |
| EmployeeDaoModel.FileEmployeeDao.GetAllEmployees | motoPHPayrollSystemGUIv4/src/com/motorph/payroll/dao/FileEmployeeDao.java:94-96 | It returns all stored employees in order. |
| EmployeeDaoModel.FileEmployeeDao.GetEmployeeById | motoPHPayrollSystemGUIv4/src/com/motorph/payroll/dao/FileEmployeeDao.java:99-104 | null exactly when no employee has the id. Otherwise it is the first employee with the id. |
| EmployeeDaoModel.FileEmployeeDao.AddEmployee | motoPHPayrollSystemGUIv4/src/com/motorph/payroll/dao/FileEmployeeDao.java:107-113 | A present id fails with DataAccessException and no change. Otherwise the employee is appended. Unique ids are preserved. |
| EmployeeDaoModel.FileEmployeeDao.UpdateEmployee | motoPHPayrollSystemGUIv4/src/com/motorph/payroll/dao/FileEmployeeDao.java:116-124 | The first employee with the id is overwritten in place. With none, it fails and nothing changes. Unique ids are preserved. |
| EmployeeDaoModel.FileEmployeeDao.DeleteEmployee | motoPHPayrollSystemGUIv4/src/com/motorph/payroll/dao/FileEmployeeDao.java:127-132 | Every employee with the id is removed. It fails exactly when none was there, and unique ids are preserved. |
| EmployeeServiceModel.MaxId | motoPHPayrollSystemGUIv4/src/main/java/com/motorph/payroll/service/EmployeeServiceImpl.java:78-80 | The maximum bounds every id and is one of them. |
| EmployeeServiceModel.EmployeeServiceImpl.GetEmployeeById | motoPHPayrollSystemGUIv4/src/main/java/com/motorph/payroll/service/EmployeeServiceImpl.java:22-28 | EmployeeNotFoundException exactly when no employee has the id. Otherwise a stored employee with that id. |
| EmployeeServiceModel.EmployeeServiceImpl.AddEmployee | motoPHPayrollSystemGUIv4/src/main/java/com/motorph/payroll/service/EmployeeServiceImpl.java:31-33 | It forwards to the store, with the same outcome and new list. |
| EmployeeServiceModel.EmployeeServiceImpl.UpdateEmployee | motoPHPayrollSystemGUIv4/src/main/java/com/motorph/payroll/service/EmployeeServiceImpl.java:36-38 | It forwards to the store, with the same outcome and new list. |
| EmployeeServiceModel.EmployeeServiceImpl.DeleteEmployee | motoPHPayrollSystemGUIv4/src/main/java/com/motorph/payroll/service/EmployeeServiceImpl.java:41-43 | It forwards to the store, with the same outcome and new list. |
| EmployeeServiceModel.EmployeeServiceImpl.Login | motoPHPayrollSystemGUIv4/src/main/java/com/motorph/payroll/service/EmployeeServiceImpl.java:46-68 | It succeeds exactly when the username starts with "Employee", the rest parses as an int, the password equals that rest, and an employee has that id. That employee is returned. |
| EmployeeServiceModel.EmployeeServiceImpl.GenerateNewEmployeeId | motoPHPayrollSystemGUIv4/src/main/java/com/motorph/payroll/service/EmployeeServiceImpl.java:76-82 | 1 for an empty store. Below Integer.MAX_VALUE it is one more than the largest id, so it exceeds every stored id. At the maximum it wraps to Integer.MIN_VALUE. |
| EmployeeServiceModel.LoginWithOwnId | motoPHPayrollSystemGUIv4/src/main/java/com/motorph/payroll/service/EmployeeServiceImpl.java:50-59 | Username "Employee" + id with the id as password finds the stored employee with that id. |
| ValidationUtil.IsEmpty | motoPHPayrollSystemGUIv4/src/main/java/com/motorph/payroll/util/ValidationUtil.java:13-15 | True exactly for null or all-blank text. |
| ValidationUtil.IsValidPhoneNumber | motoPHPayrollSystemGUIv4/src/main/java/com/motorph/payroll/util/ValidationUtil.java:22-29 | True exactly for 10 or 11 ASCII digits and nothing else. The blank check never decides. |
| ValidationUtil.IsValidSssNumber | motoPHPayrollSystemGUIv4/src/main/java/com/motorph/payroll/util/ValidationUtil.java:54-61 | True exactly for ten digits, or ten digits laid out as dd-ddddddd-d. |
| ValidationUtil.SssPatternLayouts | motoPHPayrollSystemGUIv4/src/main/java/com/motorph/payroll/util/ValidationUtil.java:60 | The regular expression accepts exactly the two layouts, and nothing it accepts is blank. |
| ValidationUtil.SssDashesRemoved | motoPHPayrollSystemGUIv4/src/main/java/com/motorph/payroll/util/ValidationUtil.java:60 | A valid dashed number without its dashes is a valid ten-digit number, and putting the dashes back restores it. |
| ValidationUtil.TruncateString | motoPHPayrollSystemGUIv4/src/main/java/com/motorph/payroll/util/ValidationUtil.java:69-74 | null or short text is returned unchanged. Longer text with maxLength >= 3 becomes its first maxLength-3 characters plus "...", exactly maxLength long. Longer text with maxLength < 3 throws StringIndexOutOfBoundsException. |
| ValidationUtil.TruncateIdempotent | motoPHPayrollSystemGUIv4/src/main/java/com/motorph/payroll/util/ValidationUtil.java:69-74 | A result is never longer than a non-negative maxLength, so truncating again changes nothing. |

## Left out

- Payroll computation (`PayrollServiceImpl`, government deductions and tax): it works on floating-point amounts and is outside the attendance and employee core.
- Console, Swing and GUI code (controllers, views, payslip printing): it is presentation only.
- Reading and writing the CSV files (`loadAttendance`, `saveAttendance`, `loadEmployees`, `saveEmployees` and the file operations of `FileUtil`): file I/O. The stores are built from an already loaded list.
- `DaoFactory`, and the DAO and service interfaces: they only wire the classes together.
- `FileEmployeeDao.parseAmount`, `ValidationUtil.isPositiveNumber` and `DateTimeUtil.parseDate`: they parse floating-point numbers and dates with java.time formatters, which are not modelled.
- The service getters that only forward a list (`getAllAttendance`, `getAttendanceByEmployeeId`, `getAttendanceByDateRange`, `getAllEmployees`), and `saveAttendance`/`saveEmployees`: they are the store members modelled above, called unchanged.
- `toString` of `Attendance` and `Employee`: it only formats text for display.
- The wall clock is a parameter, and the ISO fallback of `LocalTime.parse` is the parameter `iso`: neither is computed by the model.
- Nanoseconds of `LocalTime` are not modelled. Times are whole seconds since midnight.
- The SMART resolver's acceptance of "24:00" is not modelled: the strict formatter model rejects hour 24.
- ValidationUtil.TruncateString: lengths and cut points count Unicode scalar values, whereas Java's `length()` and `substring` count UTF-16 code units. So text with characters outside the Basic Multilingual Plane is cut at a different point. A cut through a surrogate pair cannot be represented at all.
- Strings are sequences of Unicode scalar values throughout, not UTF-16 code units. Every length and index in the model agrees with Java's only on text within the Basic Multilingual Plane.
- Case folding, `\d` and `Integer.parseInt` cover ASCII only. Non-ASCII letters and digits are not modelled.
- `Attendance.TotalHours` and `Attendance.OvertimeHours` are exact reals: `double` rounding is not modelled.
- Null string fields of `Employee`, and null username or password in `login`, are not modelled: the fields are plain strings.
- Aliasing between a stored `Employee` and later setter calls is not modelled: `setEmployeeId` on a stored employee can break the store's unique-id invariant.
- ValidationUtil.TruncateString: only states the `maxLength - 3` wrap-around path for `maxLength` from `Integer.MIN_VALUE + 3` upward; below that the wrapped end index is not described by its contract.
- Java strings are at most `Integer.MAX_VALUE` characters long: the model's strings are unbounded.
