/**
  The program's errors are `anyhow::Error` values: a root cause wrapped in
  zero or more context messages. `main` tells causes apart by downcasting, so
  the model keeps the kind of the root cause and the context chain.
 */
module Errors {
  import opened Wrappers

  /** The root cause of an error. */
  datatype Cause =
    | BrokenPipe                 // an io::Error of kind BrokenPipe
    | OtherIo(ioMessage: string) // any other io::Error
    | Usage(clapMessage: string) // a clap::Error (misuse or --help)
    | Message(text: string)      // bail!/anyhow!, Option::context, or an error from a library
    | Panic(panicMessage: string) // a panic (an `unwrap` that failed); it ends the process by itself

  /** A root cause and the context messages added to it, outermost first. */
  datatype Error = Error(cause: Cause, context: seq<string>)

  /** The outcome of a fallible operation: `anyhow::Result<T>`. */
  type Outcome<T> = Result<T, Error>

  /** `bail!(text)`, `anyhow!(text)` and `Option::context(text)`: an error made of one message. */
  function Fail(text: string): Error
  {
    Error(Message(text), [])
  }

  /** A panic: the process stops with exit code 101 whatever the caller does. */
  function Panicked(message: string): Error
  {
    Error(Panic(message), [])
  }

  /** `.context(msg)` on a `Result`: wrap the error, keep a success. */
  function WithContext<T>(r: Outcome<T>, msg: string): (r': Outcome<T>)
    ensures r'.Ok? <==> r.Ok?
    ensures r.Ok? ==> r' == r
    ensures r.Err? ==> r'.error.cause == r.error.cause && r'.error.context == [msg] + r.error.context
  {
    match r
    case Ok(v) => Ok(v)
    case Err(e) => Err(Error(e.cause, [msg] + e.context))
  }
}
