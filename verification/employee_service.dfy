/** `EmployeeServiceImpl`: lookup that throws on a missing employee, the
    employee login ("Employee<id>" with the id as password) and the choice
    of a new employee id. */
module EmployeeServiceModel {
  import opened Wrappers
  import opened JavaLang
  import opened EmployeeModel
  import opened EmployeeDaoModel

  /** `EMPLOYEE_USERNAME_PREFIX`. */
  const EmployeeUsernamePrefix: string := "Employee"

  /** `String.startsWith`. */
  predicate StartsWith(s: string, prefix: string)
  {
    |prefix| <= |s| && s[..|prefix|] == prefix
  }

  /** The largest id in a non-empty list (`mapToInt(..).max()`). */
  function MaxId(es: seq<Employee>): (m: Int32)
    requires es != []
    reads es
    ensures forall i :: 0 <= i < |es| ==> es[i].employeeId <= m
    ensures exists i :: 0 <= i < |es| && es[i].employeeId == m
    decreases |es|
  {
    if |es| == 1 then es[0].employeeId
    else
      var m := MaxId(es[1..]);
      assert forall i :: 1 <= i < |es| ==> es[i] == es[1..][i - 1];
      if es[0].employeeId >= m then es[0].employeeId
      else
        var k :| 0 <= k < |es[1..]| && es[1..][k].employeeId == m;
        assert es[k + 1].employeeId == m;
        m
  }

  class EmployeeServiceImpl {
    const dao: FileEmployeeDao

    constructor (dao: FileEmployeeDao)
      ensures this.dao == dao
    {
      this.dao := dao;
    }

    /** `getEmployeeById(id)`: the stored employee, or EmployeeNotFoundException. */
    function GetEmployeeById(id: int): (r: Result<Employee>)
      reads dao, dao.employees
      ensures r.Err? <==> !HasId(dao.employees, id)
      ensures r.Err? ==> r.error == EmployeeNotFound(id)
      ensures r.Ok? ==> r.value in dao.employees && r.value.employeeId == id
    {
      match dao.GetEmployeeById(id)
      case None => Err(EmployeeNotFound(id))
      case Some(e) => Ok(e)
    }

    /** `addEmployee(employee)`: forwarded to the store. */
    method AddEmployee(employee: Employee) returns (outcome: Outcome)
      modifies dao
      ensures old(HasId(dao.employees, employee.employeeId)) ==>
        outcome == Failed(EmployeeAlreadyExists(employee.employeeId)) && dao.employees == old(dao.employees)
      ensures !old(HasId(dao.employees, employee.employeeId)) ==>
        outcome == Done && dao.employees == old(dao.employees) + [employee]
      ensures old(UniqueIds(dao.employees)) ==> UniqueIds(dao.employees)
    {
      outcome := dao.AddEmployee(employee);
    }

    /** `updateEmployee(employee)`: forwarded to the store. */
    method UpdateEmployee(employee: Employee) returns (outcome: Outcome)
      modifies dao
      ensures var i := FirstWithId(old(dao.employees), employee.employeeId);
        && (i.Some? ==> outcome == Done && dao.employees == old(dao.employees)[i.value := employee])
        && (i.None? ==> outcome == Failed(EmployeeNotFoundForUpdate(employee.employeeId)) && dao.employees == old(dao.employees))
      ensures old(UniqueIds(dao.employees)) ==> UniqueIds(dao.employees)
    {
      outcome := dao.UpdateEmployee(employee);
    }

    /** `deleteEmployee(id)`: forwarded to the store. */
    method DeleteEmployee(id: Int32) returns (outcome: Outcome)
      modifies dao
      ensures dao.employees == WithoutId(old(dao.employees), id)
      ensures outcome == Done <==> old(HasId(dao.employees, id))
      ensures outcome.Failed? ==> outcome.error == EmployeeNotFoundForDeletion(id)
      ensures old(UniqueIds(dao.employees)) ==> UniqueIds(dao.employees)
    {
      outcome := dao.DeleteEmployee(id);
    }

    /** `login(username, password)`: a username "Employee" followed by text
        that `Integer.parseInt` accepts, with that same text as password,
        logs in as the stored employee with the parsed id; everything else
        (another prefix, a malformed number, a wrong password, an unknown
        id) yields `None` (null). */
    function Login(username: string, password: string): (r: Option<Employee>)
      reads dao, dao.employees
      ensures r.Some? <==>
        && StartsWith(username, EmployeeUsernamePrefix)
        && var idText := username[|EmployeeUsernamePrefix|..];
           && ParseInt(idText).Some?
           && password == idText
           && HasId(dao.employees, ParseInt(idText).value)
      ensures r.Some? ==>
        r.value in dao.employees && r.value.employeeId == ParseInt(username[|EmployeeUsernamePrefix|..]).value
    {
      if StartsWith(username, EmployeeUsernamePrefix) then
        var idText := username[|EmployeeUsernamePrefix|..];
        match ParseInt(idText)
        case None => None
        case Some(employeeId) =>
          if password == idText then dao.GetEmployeeById(employeeId) else None
      else None
    }

    /** `generateNewEmployeeId()`: one more than the largest id, 1 for an
        empty store, with `int` wrap-around when the largest id is
        Integer.MAX_VALUE. Below that bound the new id is larger than,
        hence different from, every stored id. */
    function GenerateNewEmployeeId(): (r: Int32)
      reads dao, dao.employees
      ensures dao.employees == [] ==> r == 1
      ensures dao.employees != [] && MaxId(dao.employees) < IntMax ==>
        && (forall i :: 0 <= i < |dao.employees| ==> dao.employees[i].employeeId < r)
        && (exists i :: 0 <= i < |dao.employees| && dao.employees[i].employeeId == r - 1)
      ensures dao.employees != [] && MaxId(dao.employees) == IntMax ==> r == IntMin
    {
      var max := if dao.employees == [] then 0 else MaxId(dao.employees);
      Wrap32(max + 1)
    }
  }

  /** An employee logs in with username "Employee" followed by their id and
      the id as password. */
  lemma LoginWithOwnId(service: EmployeeServiceImpl, id: Int32)
    ensures service.Login(EmployeeUsernamePrefix + IntToString(id), IntToString(id)) ==
      service.dao.GetEmployeeById(id)
  {
    var username := EmployeeUsernamePrefix + IntToString(id);
    assert username[..|EmployeeUsernamePrefix|] == EmployeeUsernamePrefix;
    assert username[|EmployeeUsernamePrefix|..] == IntToString(id);
    ParseIntToString(id);
  }
}
