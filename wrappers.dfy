/** Option and Result, and the error kinds the pipeline can end in. */
module Wrappers {

  datatype Option<+T> = None | Some(value: T)

  datatype Result<+T, +E> = Success(value: T) | Failure(error: E)

  /** What can go wrong in fetching, normalising, reading and aggregating. */
  datatype Error =
    | PayloadFormat                 // `str.index` found no "allRecords" marker
    | Decode                        // the cleaned text is not JSON with a "datas" array
    | FieldMapping(fund: nat)       // the fund at this position has fewer than 11 comma fields
    | MissingSnapshot(interval: int, day: int)    // no file for this key
    | MalformedSnapshot(interval: int, day: int)  // the file is empty or its rows are not readable
    | NoSnapshots                   // `pd.concat` was given an empty list of frames
}
