/** How a Python call ends: it returns a value or raises an exception.
    The core's exceptions are modelled by their class only. */
module Outcomes {

  datatype Option<+T> = None | Some(value: T)

  /** The exception classes the core raises, catches or lets through. */
  datatype Exc =
    | TypeError             // an operation got a value of the wrong Python type
    | KeyError              // a dict lookup found no such key
    | RedisError            // redis.exceptions.RedisError: the store could not be reached
    | StoreKeyNotFound      // store.StoreKeyNotFound: no usable value under a key
    | Other(name: string)   // any other exception a wrapped call may raise

  datatype Outcome<+T> = Returned(value: T) | Raised(exc: Exc)
}
