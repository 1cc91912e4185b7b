/** Small value types shared by every module of the model. */
module Common {

  /** An optional value, standing in for the C library's NULL-or-pointer results. */
  datatype Option<+T> = None | Some(value: T)

  /** Severity of an entry that an operation pushes onto the status object. */
  datatype Severity = Warning | Error
}
