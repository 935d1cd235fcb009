/** Failure-carrying values shared by every module: `None` stands for
    Python's `None`, `Err` for an exception the source raises. */
module Results {

  datatype Option<T> = None | Some(value: T)

  datatype Result<T, E> = Ok(value: T) | Err(error: E)
}
