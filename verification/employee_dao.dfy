/** `FileEmployeeDao`: the in-memory list of employees behind the employee
    file, looked up by employee id, with in-place add, update and delete. */
module EmployeeDaoModel {
  import opened Wrappers
  import opened JavaLang
  import opened EmployeeModel

  /** Some employee in the list has the id. */
  ghost predicate HasId(es: seq<Employee>, id: int)
    reads es
  {
    exists i :: 0 <= i < |es| && es[i].employeeId == id
  }

  /** The store's invariant: no two employees share an id. */
  ghost predicate UniqueIds(es: seq<Employee>)
    reads es
  {
    forall i, j :: 0 <= i < j < |es| ==> es[i].employeeId != es[j].employeeId
  }

  /** The position of the first employee with the id (`filter(..).findFirst()`). */
  function FirstWithId(es: seq<Employee>, id: int): (r: Option<nat>)
    reads es
    ensures r.Some? ==> r.value < |es| && es[r.value].employeeId == id
    ensures r.Some? ==> forall j :: 0 <= j < r.value ==> es[j].employeeId != id
    ensures r.None? <==> !HasId(es, id)
    decreases |es|
  {
    if es == [] then None
    else if es[0].employeeId == id then Some(0)
    else
      var r := FirstWithId(es[1..], id);
      if r.None? then
        assert forall i :: 0 < i < |es| ==> es[i] == es[1..][i - 1];
        None
      else Some(r.value + 1)
  }

  /** `removeIf` on the id: the employees without it, in order. */
  function WithoutId(es: seq<Employee>, id: int): (r: seq<Employee>)
    reads es
    ensures |r| <= |es|
    ensures forall i :: 0 <= i < |r| ==> r[i] in es && r[i].employeeId != id
    ensures forall i :: 0 <= i < |es| && es[i].employeeId != id ==> es[i] in r
    decreases |es|
  {
    if es == [] then []
    else (if es[0].employeeId == id then [] else [es[0]]) + WithoutId(es[1..], id)
  }

  lemma {:induction false} WithoutAbsentId(es: seq<Employee>, id: int)
    requires !HasId(es, id)
    ensures WithoutId(es, id) == es
    decreases |es|
  {
    if es != [] {
      assert es[0].employeeId != id;
      assert forall i :: 0 <= i < |es[1..]| ==> es[1..][i] == es[i + 1];
      WithoutAbsentId(es[1..], id);
    }
  }

  lemma {:induction false} WithoutPresentId(es: seq<Employee>, id: int)
    requires HasId(es, id)
    ensures |WithoutId(es, id)| < |es|
    decreases |es|
  {
    if es[0].employeeId != id {
      var i :| 0 <= i < |es| && es[i].employeeId == id;
      assert es[1..][i - 1].employeeId == id;
      WithoutPresentId(es[1..], id);
    }
  }

  /** `removeIf` removes something exactly when some employee has the id. */
  lemma WithoutIdShrinks(es: seq<Employee>, id: int)
    ensures |WithoutId(es, id)| < |es| <==> HasId(es, id)
    ensures !HasId(es, id) ==> WithoutId(es, id) == es
  {
    if HasId(es, id) {
      WithoutPresentId(es, id);
    } else {
      WithoutAbsentId(es, id);
    }
  }

  /** Removing employees keeps the ids unique: what is left is a subsequence. */
  lemma {:induction false} WithoutIdUnique(es: seq<Employee>, id: int)
    requires UniqueIds(es)
    ensures UniqueIds(WithoutId(es, id))
    decreases |es|
  {
    if es != [] {
      var tail := es[1..];
      assert UniqueIds(tail) by {
        forall i, j | 0 <= i < j < |tail| ensures tail[i].employeeId != tail[j].employeeId {
          assert tail[i] == es[i + 1] && tail[j] == es[j + 1];
        }
      }
      WithoutIdUnique(tail, id);
      var rest := WithoutId(tail, id);
      if es[0].employeeId != id {
        var r := [es[0]] + rest;
        forall j | 0 < j < |r| ensures r[0].employeeId != r[j].employeeId {
          assert r[j] == rest[j - 1] && rest[j - 1] in tail;
          var k :| 0 <= k < |tail| && tail[k] == rest[j - 1];
          assert es[k + 1] == tail[k];
        }
        assert WithoutId(es, id) == r;
      }
    }
  }

  class FileEmployeeDao {
    /** `employees`. */
    var employees: seq<Employee>

    /** The employees as loaded from the file; reading the file is not modelled. */
    constructor (loaded: seq<Employee>)
      ensures employees == loaded
    {
      employees := loaded;
    }

    /** `getAllEmployees()`: a copy of the list. */
    method GetAllEmployees() returns (r: seq<Employee>)
      ensures r == employees
    {
      r := employees;
    }

    /** `getEmployeeById(id)`: the first employee with the id, `None` (null) if none has it. */
    function GetEmployeeById(id: int): (r: Option<Employee>)
      reads this, employees
      ensures r.None? <==> !HasId(employees, id)
      ensures r.Some? ==> r.value.employeeId == id && r.value == employees[FirstWithId(employees, id).value]
    {
      var i := FirstWithId(employees, id);
      if i.None? then None else Some(employees[i.value])
    }

    /** `addEmployee(employee)`: an id already present is refused with
        DataAccessException and no change; otherwise the employee is appended. */
    method AddEmployee(employee: Employee) returns (outcome: Outcome)
      modifies this
      ensures old(HasId(employees, employee.employeeId)) ==>
        outcome == Failed(EmployeeAlreadyExists(employee.employeeId)) && employees == old(employees)
      ensures !old(HasId(employees, employee.employeeId)) ==>
        outcome == Done && employees == old(employees) + [employee]
      ensures old(UniqueIds(employees)) ==> UniqueIds(employees)
    {
      if GetEmployeeById(employee.employeeId).Some? {
        return Failed(EmployeeAlreadyExists(employee.employeeId));
      }
      employees := employees + [employee];
      outcome := Done;
    }

    /** `updateEmployee(employee)`: the first employee with the same id is
        overwritten in place; with none, DataAccessException and no change. */
    method UpdateEmployee(employee: Employee) returns (outcome: Outcome)
      modifies this
      ensures var i := FirstWithId(old(employees), employee.employeeId);
        && (i.Some? ==> outcome == Done && employees == old(employees)[i.value := employee])
        && (i.None? ==> outcome == Failed(EmployeeNotFoundForUpdate(employee.employeeId)) && employees == old(employees))
      ensures old(UniqueIds(employees)) ==> UniqueIds(employees)
    {
      var i := 0;
      while i < |employees|
        invariant 0 <= i <= |employees|
        invariant employees == old(employees)
        invariant forall j :: 0 <= j < i ==> employees[j].employeeId != employee.employeeId
      {
        if employees[i].employeeId == employee.employeeId {
          assert FirstWithId(employees, employee.employeeId) == Some(i);
          employees := employees[i := employee];
          return Done;
        }
        i := i + 1;
      }
      outcome := Failed(EmployeeNotFoundForUpdate(employee.employeeId));
    }

    /** `deleteEmployee(id)`: every employee with the id is removed, the rest
        keep their order; if none was removed, DataAccessException. */
    method DeleteEmployee(id: Int32) returns (outcome: Outcome)
      modifies this
      ensures employees == WithoutId(old(employees), id)
      ensures !HasId(employees, id)
      ensures outcome == Done <==> old(HasId(employees, id))
      ensures outcome.Failed? ==> outcome.error == EmployeeNotFoundForDeletion(id) && employees == old(employees)
      ensures old(UniqueIds(employees)) ==> UniqueIds(employees)
    {
      ghost var before := employees;
      var size := |employees|;
      employees := WithoutId(employees, id);
      WithoutIdShrinks(before, id);
      if UniqueIds(before) {
        WithoutIdUnique(before, id);
      }
      if |employees| == size {
        outcome := Failed(EmployeeNotFoundForDeletion(id));
      } else {
        outcome := Done;
      }
    }
  }
}
