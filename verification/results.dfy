/** The failure vocabulary of the progress bar: the two exceptions the
    controller throws, and the Option/Result wrappers that carry them. */
module Results {

  /** The two `Exception` messages the controller raises. */
  datatype Error = MessageOverflow | IllegalProgressMode

  datatype Option<+T> = None | Some(value: T)

  datatype Result<+T> = Ok(value: T) | Err(error: Error) {
    predicate IsFailure() { Err? }

    function PropagateFailure<U>(): Result<U>
      requires Err?
    {
      Err(error)
    }

    function Extract(): T
      requires Ok?
    {
      value
    }
  }
}
