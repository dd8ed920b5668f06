/** The exception classes the backend raises and catches, with their
    inheritance: the built-in ones and those of the OpenAI SDK. An `except C`
    clause catches an exception exactly when its class is C or inherits from
    C (`issubclass`). */
module Exceptions {
  import opened Wrappers

  datatype Class =
    | Exception
    | ValueError          // Exception
    | JSONDecodeError     // ValueError
    | KeyError            // Exception (through LookupError)
    | TypeError           // Exception
    | APIError            // Exception (through the SDK's base error)
    | APIStatusError      // APIError: the service answered with an error status
    | AuthenticationError // APIStatusError: 401
    | RateLimitError      // APIStatusError: 429
    | BadRequestError     // APIStatusError: 400
    | APIConnectionError  // APIError: the service could not be reached
    | APITimeoutError     // APIConnectionError

  /** The direct base class; `Exception` has none here. */
  function Base(c: Class): (b: Option<Class>)
    ensures b.Some? <==> c != Exception
    ensures b.Some? ==> b.value != c
  {
    match c
    case Exception => None
    case ValueError => Some(Exception)
    case KeyError => Some(Exception)
    case TypeError => Some(Exception)
    case APIError => Some(Exception)
    case JSONDecodeError => Some(ValueError)
    case APIStatusError => Some(APIError)
    case APIConnectionError => Some(APIError)
    case AuthenticationError => Some(APIStatusError)
    case RateLimitError => Some(APIStatusError)
    case BadRequestError => Some(APIStatusError)
    case APITimeoutError => Some(APIConnectionError)
  }

  /** `issubclass(c, d)`: d is c or one of its ancestors. */
  predicate IsSubclass(c: Class, d: Class) {
    match c
    case Exception => d == Exception
    case ValueError => d == ValueError || d == Exception
    case KeyError => d == KeyError || d == Exception
    case TypeError => d == TypeError || d == Exception
    case APIError => d == APIError || d == Exception
    case JSONDecodeError => d == JSONDecodeError || d == ValueError || d == Exception
    case APIStatusError => d == APIStatusError || d == APIError || d == Exception
    case APIConnectionError => d == APIConnectionError || d == APIError || d == Exception
    case AuthenticationError => d == AuthenticationError || d == APIStatusError || d == APIError || d == Exception
    case RateLimitError => d == RateLimitError || d == APIStatusError || d == APIError || d == Exception
    case BadRequestError => d == BadRequestError || d == APIStatusError || d == APIError || d == Exception
    case APITimeoutError => d == APITimeoutError || d == APIConnectionError || d == APIError || d == Exception
  }

  /** A class is a subclass of d iff it is d or its base class is. */
  lemma SubclassFollowsBase(c: Class, d: Class)
    ensures IsSubclass(c, d) <==> c == d || (c != Exception && IsSubclass(Base(c).value, d))
  {
  }

  /** Every class is an `Exception`, so `except Exception` catches everything. */
  lemma EveryClassIsException(c: Class)
    ensures IsSubclass(c, Exception)
  {
  }

  /** An exception: its class and `str(e)`. */
  datatype Raised = Raised(cls: Class, message: string)
}
