/** Stand-in for the two result constructors the option library uses from its
    companion result package. Only construction is modelled: an option never
    inspects a result after building it. */
module Results {

  /** `Ok(value)` is the success result, `Err(error)` the failure result. */
  datatype Result<+T, +E> = Ok(value: T) | Err(error: E)
}
