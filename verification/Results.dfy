/** The error classes of the ink format crate and the result type its functions return. */
module Results {
  datatype Error = InvalidData | Unsupported | ResourceLimit | Compression

  datatype Result<+T> = Ok(value: T) | Err(error: Error) {
    predicate IsFailure() {
      Err?
    }
    function PropagateFailure<U>(): (r: Result<U>)
      requires Err?
    {
      Err(error)
    }
    function Extract(): (t: T)
      requires Ok?
    {
      value
    }
  }

  datatype Option<+T> = None | Some(value: T)

}
