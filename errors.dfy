/** The failure kinds the containers raise, and the result shapes that carry them.
    Each kind stands for one error class of the library; callers tell them apart by
    the constructor (the `e.EmptyCollection?` test plays the part of the library's
    `isEmptyCollectionError`). Messages are not modelled. */
module Errors {

  datatype Error =
    | EmptyCollection                           // EmptyCollectionError
    | NoSuchElement                             // NoSuchElementError
    | IndexOutOfBounds(index: int, bound: int)  // StringIndexOutOfBoundsError(index, bound)
    | IllegalArgument                           // IllegalArgumentError
    | Implementation                            // ImplementationError: a broken internal invariant

  /** The value an operation returns, or the error it throws. */
  datatype Result<+T> = Success(value: T) | Failure(error: Error)

  /** What an operation that returns nothing (or `this`, for chaining) does: it returns or throws. */
  datatype Outcome = Pass | Fail(error: Error)
}
