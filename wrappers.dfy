/** Option and Result, and the exceptions that the modelled code raises or lets through. */
module Wrappers {

  datatype Option<+T> = None | Some(value: T)

  /** The PostgreSQL errors the modelled statements can end with (SQLSTATE in the comment). */
  datatype DbError =
    | ConnectionFailed       // psycopg2.OperationalError raised by connect
    | UndefinedTable         // 42P01
    | SyntaxError            // 42601, e.g. "DO UPDATE SET" followed by nothing
    | DuplicateColumn        // 42701, a column named twice in the INSERT list
    | ArityMismatch          // 42601, a VALUES tuple of the wrong length
    | NoMatchingConstraint   // 42P10, ON CONFLICT column is not the table's unique key
    | NotNullViolation       // 23502, a NULL natural key
    | CardinalityViolation   // 21000, one statement affects the same row twice
    | InFailedTransaction    // 25P02, a statement after an error and before rollback
    | ConnectionClosed       // psycopg2.InterfaceError, any use of a closed connection

  /** Python exceptions, by class; the message is kept where the code chooses it. */
  datatype Error =
    | KeyError(key: string)
    | AttributeError(name: string)
    | TypeError(message: string)
    | ValueError(message: string)
    | EnvironmentError(message: string)
    | PlaidError(code: string)      // plaid.ApiException or a transport failure
    | Database(kind: DbError)
    | S3Error(code: string)         // botocore ClientError or a transport failure
    | RepliesExhausted              // the modelled reply sequence ran out (see README)

  datatype Result<+T> = Ok(value: T) | Err(error: Error) {
    predicate IsFailure() { Err? }

    function PropagateFailure<U>(): Result<U>
      requires Err?
    {
      Err(error)
    }

    function Extract(): T
      requires Ok?
    {
      value
    }
  }

  /** Python truthiness of an optional string: None and "" are false. */
  predicate Truthy(s: Option<string>) {
    s.Some? && s.value != ""
  }
}
