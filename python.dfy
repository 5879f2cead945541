/** The few Python runtime notions the model needs: `None`, raised
    exceptions and their `str()`. */
module PyRuntime {

  datatype Option<+T> = None | Some(value: T)

  /** The class of a raised exception. `NonException` stands for the
      `BaseException` subclasses that are not `Exception`s
      (`KeyboardInterrupt`, `SystemExit`, `GeneratorExit`): an
      `except Exception` clause does not catch them. */
  datatype ExceptionKind =
    | ValueError
    | KeyError
    | TypeError
    | AttributeError
    | OtherException(name: string)
    | NonException(name: string)

  /** A raised exception; `message` is what `str(error)` gives. */
  datatype Error = Error(kind: ExceptionKind, message: string)

  /** Whether `except Exception` catches the error. */
  predicate IsException(e: Error)
  {
    !e.kind.NonException?
  }

  /** Either a returned value or a raised exception. */
  datatype Result<+T> = Ok(value: T) | Err(error: Error)

  /** `repr(s)` for a string without quotes or backslashes in it. */
  function StrRepr(s: string): string
  {
    "'" + s + "'"
  }

  /** `str(KeyError(key))` is the `repr` of the missing key. */
  function MissingKey(keyRepr: string): Error
  {
    Error(KeyError, keyRepr)
  }

  /** `str(o)` for a value that is either a string or `None`. */
  function StrOrNone(o: Option<string>): string
  {
    match o
    case None => "None"
    case Some(s) => s
  }
}
