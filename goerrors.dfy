/**
 * Go's error values as far as the server uses them: errors built from a
 * fixed text (`fmt.Errorf` without a verb, `errors.New`) and errors that wrap
 * another one behind a text prefix (`fmt.Errorf("prefix: %w", err)`).
 */
module GoErrors {
  import opened Wrappers

  datatype Error =
    | Plain(text: string)
    | Wrapped(prefix: string, cause: Error)

  /** The text `Error()` returns: a wrapping error prints its prefix, then its cause. */
  function Message(e: Error): string {
    match e
    case Plain(text) => text
    case Wrapped(prefix, cause) => prefix + Message(cause)
  }

  /** `errors.Unwrap`: the cause of a wrapping error, nothing for a plain one. */
  function Unwrap(e: Error): Option<Error> {
    match e
    case Plain(_) => None
    case Wrapped(_, cause) => Some(cause)
  }
}
