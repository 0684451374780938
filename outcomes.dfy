/** Optional values, results, and the Java exceptions the marshaller can raise. */
module Outcomes {

  datatype Option<+T> = None | Some(value: T)

  /** A computation that either yields a value or raises (throws) an error. */
  datatype Result<+T, +E> = Ok(value: T) | Fail(error: E)

  /** The exceptions thrown by the Java code and the JSON library beneath it. */
  datatype Thrown =
    | JSONException              // a json-lib accessor found a missing key or a value of the wrong kind
    | NullPointerException
    | GetterFailed               // an entity getter that throws (its field is missing from the model's map)
    | ClassCastException
    | IllegalArgumentException   // Preconditions.checkArgument
    | CannotEncode(msg: string)  // the encoder's own `new Exception(...)`
    | NotModelled                // json-lib behaviour this model does not reproduce (see README)
}
