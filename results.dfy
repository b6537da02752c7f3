/** Optional values and results with an error, for the arguments the source
    tests for truthiness and for the exceptions it raises. */
module Results {

  datatype Option<+T> = None | Some(value: T)

  datatype Result<+R, +E> = Success(value: R) | Failure(error: E)
}
