/** The exception kinds the managers raise or propagate. */
module Errors {

  datatype Error =
    | ValidationError    // pydantic rejected the input (bad JSON, schema mismatch, extra key, bad version)
    | FileNotFoundError  // the path does not exist
    | IsADirectoryError  // the path exists but is not a regular file
    | FileDataLoadError  // the pydantic_storage wrapper around a failed decode
    | TypeError          // a validator applied a dict operation to a value that is not a dict
}
