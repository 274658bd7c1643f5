/** The failures the library reports. Each kind carries the names the exception message
    is built from; the message text itself is not modelled. */
module Errors {
  datatype Error =
    /** A referenced class or interface is not declared (ParseException / InvalidTypeException::classNotFound). */
    | ClassNotFound(className: string)
    /** A type string or type name that no property type accepts (InvalidTypeException). */
    | InvalidType(typeName: string)
    /** Two property types that cannot be merged, given by their renderings. */
    | TypeConflict(left: string, right: string)
    /** Two traversable classes of which neither is a subclass of the other. */
    | TraversableMismatch(left: string, right: string)
    /** A serialized name that already names a property of the class. */
    | PropertyAlreadyExists(property: string, className: string)
    /** A class reference for which no metadata was built. */
    | ClassNotParsed(missing: string, className: string, property: string)
    /** A class that would appear a third time on one path. */
    | Recursion(className: string, path: string)
    /** A lookup by name that found nothing (UnexpectedValueException / InvalidArgumentException). */
    | NotFound(name: string)
    /** renameProperty onto the collection it starts from (LogicException). */
    | SameProperty(name: string)
    /** A class type whose metadata was never attached (BadMethodCallException). */
    | MissingClassMetadata(className: string)
    /** A second raw record for an already registered class (BadMethodCallException). */
    | AlreadyRegistered(className: string)
    /** The default value of a required constructor parameter (BadMethodCallException). */
    | RequiredParameter(name: string)
    /** The traversable class of an iterable type that has none. */
    | NotTraversable(rendering: string)
    /** A failure a model parser raises of its own (ParseException: an unsupported
        annotation, a non-public accessor method, a type string it cannot parse). */
    | ParseError(className: string, message: string)
}

/** Option and Result, the latter failure-compatible so that `:-` propagates an Error. */
module Wrappers {
  import opened Errors

  datatype Option<+T> = None | Some(value: T) {
    function GetOr(default: T): T {
      match this
      case None => default
      case Some(v) => v
    }
  }

  datatype Result<+T> = Ok(value: T) | Err(error: Error) {
    predicate IsFailure() {
      Err?
    }

    function PropagateFailure<U>(): Result<U>
      requires Err?
    {
      Err(error)
    }

    function Extract(): T
      requires Ok?
    {
      value
    }
  }

  /** The result of an operation that returns nothing but may throw. */
  datatype Outcome = Pass | Fail(error: Error)
}
