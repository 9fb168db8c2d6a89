/** Failure-compatible result types shared by the data-access model. */
module Wrappers {

  datatype Option<+T> = None | Some(value: T)

  datatype Result<+R, +E> = Success(value: R) | Failure(error: E)

  /**
   * The errors `DatabaseService` throws, one constructor per message of its
   * own.  `NotFound(id)` also stands for the backend's failure to save a
   * document that is no longer stored, which in the source is a different
   * error from findById's "record with id ... not found".
   */
  datatype Error =
    | PageTooSmall        // "Page cannot be smaller than 1"
    | PerPageTooSmall     // "perPage cannot be smaller than 1"
    | InvalidId           // "id is invalid"
    | NotFound(id: string) // "record with id ... not found"
}
