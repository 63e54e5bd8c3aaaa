/** `Employee`: a mutable record of one employee's identity, government
    numbers, employment status and pay rates. */
module EmployeeModel {
  import opened Wrappers
  import opened JavaLang
  import opened EmployeeStatusEnum

  /** The values of all of an employee's fields at one moment. */
  datatype EmployeeRecord = EmployeeRecord(
    employeeId: Int32,
    lastName: string,
    firstName: string,
    birthday: string,
    address: string,
    phoneNumber: string,
    sssNumber: string,
    philhealthNumber: string,
    tinNumber: string,
    pagibigNumber: string,
    status: EmployeeStatus,
    position: string,
    supervisor: string,
    basicSalary: real,
    riceSubsidy: real,
    phoneAllowance: real,
    clothingAllowance: real,
    grossSemiMonthlyRate: real,
    hourlyRate: real)

  /** Each field is read by its getter and overwritten, alone, by its setter. */
  class Employee {
    var employeeId: Int32
    var lastName: string
    var firstName: string
    var birthday: string
    var address: string
    var phoneNumber: string
    var sssNumber: string
    var philhealthNumber: string
    var tinNumber: string
    var pagibigNumber: string
    var status: EmployeeStatus
    var position: string
    var supervisor: string
    var basicSalary: real
    var riceSubsidy: real
    var phoneAllowance: real
    var clothingAllowance: real
    var grossSemiMonthlyRate: real
    var hourlyRate: real

    /** The current values of every field. */
    function Fields(): EmployeeRecord
      reads this
    {
      EmployeeRecord(employeeId, lastName, firstName, birthday, address, phoneNumber,
        sssNumber, philhealthNumber, tinNumber, pagibigNumber, status, position,
        supervisor, basicSalary, riceSubsidy, phoneAllowance, clothingAllowance,
        grossSemiMonthlyRate, hourlyRate)
    }

    /** Every argument is stored as given, except the status text, which is
        stored as the status `fromString` reads from it. */
    constructor (employeeId: Int32, lastName: string, firstName: string, birthday: string,
                 address: string, phoneNumber: string, sssNumber: string,
                 philhealthNumber: string, tinNumber: string, pagibigNumber: string,
                 status: Option<string>, position: string, supervisor: string, basicSalary: real,
                 riceSubsidy: real, phoneAllowance: real, clothingAllowance: real,
                 grossSemiMonthlyRate: real, hourlyRate: real)
      ensures Fields() == EmployeeRecord(employeeId, lastName, firstName, birthday, address,
        phoneNumber, sssNumber, philhealthNumber, tinNumber, pagibigNumber, FromString(status),
        position, supervisor, basicSalary, riceSubsidy, phoneAllowance, clothingAllowance,
        grossSemiMonthlyRate, hourlyRate)
    {
      this.employeeId := employeeId;
      this.lastName := lastName;
      this.firstName := firstName;
      this.birthday := birthday;
      this.address := address;
      this.phoneNumber := phoneNumber;
      this.sssNumber := sssNumber;
      this.philhealthNumber := philhealthNumber;
      this.tinNumber := tinNumber;
      this.pagibigNumber := pagibigNumber;
      this.status := FromString(status);
      this.position := position;
      this.supervisor := supervisor;
      this.basicSalary := basicSalary;
      this.riceSubsidy := riceSubsidy;
      this.phoneAllowance := phoneAllowance;
      this.clothingAllowance := clothingAllowance;
      this.grossSemiMonthlyRate := grossSemiMonthlyRate;
      this.hourlyRate := hourlyRate;
    }

    /** `getStatus()`: the display name of the stored status, from which
        `fromString` recovers that status. */
    function GetStatus(): (r: string)
      reads this
      ensures r == status.DisplayName()
      ensures FromString(Some(r)) == status
    {
      FromStringRoundTrip(status);
      status.DisplayName()
    }

    /** `getFullName()`: the first name, one space, the last name. */
    function GetFullName(): (r: string)
      reads this
      ensures |r| == |firstName| + 1 + |lastName|
      ensures r[..|firstName|] == firstName && r[|firstName|] == ' ' && r[|firstName| + 1..] == lastName
    {
      firstName + " " + lastName
    }

    method SetBirthday(birthday: string)
      modifies this
      ensures Fields() == old(Fields()).(birthday := birthday)
    {
      this.birthday := birthday;
    }

    method SetEmployeeId(employeeId: Int32)
      modifies this
      ensures Fields() == old(Fields()).(employeeId := employeeId)
    {
      this.employeeId := employeeId;
    }

    method SetLastName(lastName: string)
      modifies this
      ensures Fields() == old(Fields()).(lastName := lastName)
    {
      this.lastName := lastName;
    }

    method SetFirstName(firstName: string)
      modifies this
      ensures Fields() == old(Fields()).(firstName := firstName)
    {
      this.firstName := firstName;
    }

    method SetAddress(address: string)
      modifies this
      ensures Fields() == old(Fields()).(address := address)
    {
      this.address := address;
    }

    method SetPhoneNumber(phoneNumber: string)
      modifies this
      ensures Fields() == old(Fields()).(phoneNumber := phoneNumber)
    {
      this.phoneNumber := phoneNumber;
    }

    method SetSssNumber(sssNumber: string)
      modifies this
      ensures Fields() == old(Fields()).(sssNumber := sssNumber)
    {
      this.sssNumber := sssNumber;
    }

    method SetPhilhealthNumber(philhealthNumber: string)
      modifies this
      ensures Fields() == old(Fields()).(philhealthNumber := philhealthNumber)
    {
      this.philhealthNumber := philhealthNumber;
    }

    method SetTinNumber(tinNumber: string)
      modifies this
      ensures Fields() == old(Fields()).(tinNumber := tinNumber)
    {
      this.tinNumber := tinNumber;
    }

    method SetPagibigNumber(pagibigNumber: string)
      modifies this
      ensures Fields() == old(Fields()).(pagibigNumber := pagibigNumber)
    {
      this.pagibigNumber := pagibigNumber;
    }

    /** `setStatus(String)`: stores the status `fromString` reads from the text. */
    method SetStatusText(status: Option<string>)
      modifies this
      ensures Fields() == old(Fields()).(status := FromString(status))
    {
      this.status := FromString(status);
    }

    /** `setStatus(EmployeeStatus)`. */
    method SetStatus(status: EmployeeStatus)
      modifies this
      ensures Fields() == old(Fields()).(status := status)
    {
      this.status := status;
    }

    method SetPosition(position: string)
      modifies this
      ensures Fields() == old(Fields()).(position := position)
    {
      this.position := position;
    }

    method SetSupervisor(supervisor: string)
      modifies this
      ensures Fields() == old(Fields()).(supervisor := supervisor)
    {
      this.supervisor := supervisor;
    }

    method SetBasicSalary(basicSalary: real)
      modifies this
      ensures Fields() == old(Fields()).(basicSalary := basicSalary)
    {
      this.basicSalary := basicSalary;
    }

    method SetRiceSubsidy(riceSubsidy: real)
      modifies this
      ensures Fields() == old(Fields()).(riceSubsidy := riceSubsidy)
    {
      this.riceSubsidy := riceSubsidy;
    }

    method SetPhoneAllowance(phoneAllowance: real)
      modifies this
      ensures Fields() == old(Fields()).(phoneAllowance := phoneAllowance)
    {
      this.phoneAllowance := phoneAllowance;
    }

    method SetClothingAllowance(clothingAllowance: real)
      modifies this
      ensures Fields() == old(Fields()).(clothingAllowance := clothingAllowance)
    {
      this.clothingAllowance := clothingAllowance;
    }

    method SetGrossSemiMonthlyRate(grossSemiMonthlyRate: real)
      modifies this
      ensures Fields() == old(Fields()).(grossSemiMonthlyRate := grossSemiMonthlyRate)
    {
      this.grossSemiMonthlyRate := grossSemiMonthlyRate;
    }

    method SetHourlyRate(hourlyRate: real)
      modifies this
      ensures Fields() == old(Fields()).(hourlyRate := hourlyRate)
    {
      this.hourlyRate := hourlyRate;
    }
  }
}
