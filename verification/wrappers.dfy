/** Optional values and error results.
    `None` stands for Java's `null`; `Err` stands for a thrown exception. */
module Wrappers {

  datatype Option<+T> = None | Some(value: T)

  /** The exceptions the modelled code throws, one constructor per throw site. */
  datatype Error =
    | AttendanceNotFoundForUpdate          // DataAccessException in updateAttendance
    | AttendanceNotFoundForDeletion        // DataAccessException in deleteAttendance
    | EmployeeAlreadyExists(id: int)       // DataAccessException in addEmployee
    | EmployeeNotFoundForUpdate(id: int)   // DataAccessException in updateEmployee
    | EmployeeNotFoundForDeletion(id: int) // DataAccessException in deleteEmployee
    | EmployeeNotFound(id: int)            // EmployeeNotFoundException
    | StringIndexOutOfBounds               // String.substring with a negative end

  datatype Result<+T> = Ok(value: T) | Err(error: Error)

  /** The result of a `void` method: it returned, or it threw. */
  datatype Outcome = Done | Failed(error: Error)
}
