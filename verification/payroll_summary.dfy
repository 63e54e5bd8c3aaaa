/** `PayrollSummary`: the immutable result of one payroll run for one
    employee over one inclusive date range, and the status it shows per
    attendance record. */
module PayrollSummaryModel {
  import opened Wrappers
  import opened Temporal
  import opened AttendanceModel
  import opened EmployeeModel

  /** A `PayrollSummary`. Every field is set once, by the constructor, and
      read back unchanged by its getter; there are no setters. Money and
      hours are Java `double`s, modelled as exact reals. */
  class PayrollSummary {
    const employee: Employee
    const attendanceRecords: seq<Attendance>
    const totalHours: real
    const overtimeHours: real
    const grossPay: real
    const sssDeduction: real
    const philhealthDeduction: real
    const pagibigDeduction: real
    const totalDeductions: real
    const netPay: real
    const startDate: Date
    const endDate: Date
    const lateMinutes: real
    const daysPresent: int

    constructor (employee: Employee, attendanceRecords: seq<Attendance>,
                 totalHours: real, overtimeHours: real, grossPay: real,
                 sssDeduction: real, philhealthDeduction: real, pagibigDeduction: real,
                 totalDeductions: real, netPay: real,
                 startDate: Date, endDate: Date, lateMinutes: real, daysPresent: int)
      ensures this.employee == employee && this.attendanceRecords == attendanceRecords
      ensures this.totalHours == totalHours && this.overtimeHours == overtimeHours && this.grossPay == grossPay
      ensures this.sssDeduction == sssDeduction && this.philhealthDeduction == philhealthDeduction
      ensures this.pagibigDeduction == pagibigDeduction && this.totalDeductions == totalDeductions
      ensures this.netPay == netPay && this.startDate == startDate && this.endDate == endDate
      ensures this.lateMinutes == lateMinutes && this.daysPresent == daysPresent
    {
      this.employee := employee;
      this.attendanceRecords := attendanceRecords;
      this.totalHours := totalHours;
      this.overtimeHours := overtimeHours;
      this.grossPay := grossPay;
      this.sssDeduction := sssDeduction;
      this.philhealthDeduction := philhealthDeduction;
      this.pagibigDeduction := pagibigDeduction;
      this.totalDeductions := totalDeductions;
      this.netPay := netPay;
      this.startDate := startDate;
      this.endDate := endDate;
      this.lateMinutes := lateMinutes;
      this.daysPresent := daysPresent;
    }
  }
  /** `determineStatus(record)`: the status shown in the attendance tables,
      derived from the missing times and the stored late minutes. */
  function DetermineStatus(record: Attendance): (s: AttendanceStatus)
    ensures s == Absent <==> !record.IsComplete()
    ensures s == Late <==> record.IsComplete() && record.lateMinutes > 0
    ensures s == Present <==> record.IsComplete() && record.lateMinutes <= 0
  {
    if record.timeIn.None? || record.timeOut.None? then Absent
    else if record.lateMinutes > 0 then Late
    else Present
  }

  /** For a clock-in on the minute, the summary's status equals the record's own `getStatus()`. */
  lemma DetermineStatusAgrees(record: Attendance)
    requires record.Valid()
    requires record.timeIn.Some? ==> OnMinute(record.timeIn.value)
    ensures DetermineStatus(record) == record.GetStatus()
  {
    if record.IsComplete() {
      LateMinutesPastStart(record.timeIn.value, record.timeOut.value);
    }
  }

  /** The two derivations differ exactly on complete records clocked in
      during the first minute after 08:00, such as 08:00:30 (a clock-in taken
      from the wall clock): `getStatus()` says LATE, the summary PRESENT. */
  lemma DetermineStatusDiffers(record: Attendance)
    requires record.Valid()
    ensures DetermineStatus(record) != record.GetStatus() <==>
      record.IsComplete() && StandardStart < record.timeIn.value < StandardStart + 60
    ensures DetermineStatus(record) != record.GetStatus() ==>
      record.GetStatus() == Late && DetermineStatus(record) == Present
  {
    if record.IsComplete() {
      LateMinutesPastStart(record.timeIn.value, record.timeOut.value);
    }
  }
}
