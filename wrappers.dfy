/** Option and Result, and the exceptions the modelled Python code raises. */
module Wrappers {

  datatype Option<+T> = None | Some(value: T)

  datatype Result<+R, +E> = Success(value: R) | Failure(error: E)

  /** Why a ValueError was raised. */
  datatype Reason =
    | EmptyQuery              // blank query text
    | MissingCollection       // the configured collection is not listed by the store
    | MissingEmbeddingKey     // no embedding-provider credential
    | EmbeddingFailed         // the query embedding call raised
    | MissingStoreUrl         // no vector-store URL configured
    | InvalidField(field: string)  // a record constructor rejected this field

  /** The Python exceptions that leave the modelled functions. */
  datatype Failure =
    | ValueError(reason: Reason)
    | ConnectionError
    | ServiceError(detail: string)   // raised by an external service and propagated as is
    | NotInitialized                 // "client not initialized"
}
