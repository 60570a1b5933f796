/** The one failure the percolation engines report: a coordinate outside the grid. */
module Wrappers {

  /** IndexOutOfBoundsException, carrying the offending coordinate as the
      exception message does. */
  datatype Error = IndexOutOfBounds(row: int, col: int)

  /** Either the value of a call that returned normally, or the exception it threw.
      A call that throws performs no mutation, so the caller keeps its old state. */
  datatype Result<+T> = Success(value: T) | Failure(error: Error)
}
