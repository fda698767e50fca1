/** The answer of a query that may find nothing, and of a transaction that may roll back. */
module Results {
  datatype Option<+T> = None | Some(value: T)

  datatype Result<+T, +E> = Ok(value: T) | Err(error: E)
}
