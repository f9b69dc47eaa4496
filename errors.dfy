/** The exceptions the calculator raises or lets through (src/rpnpy/errors.py plus the
    host-level exceptions the core reacts to), and a result type for operations that
    can raise one. */
module Errors {

  datatype Exc =
    /** UnknownModifiersError(*letters): the distinct unknown modifier letters, sorted. */
    | UnknownModifiersError(letters: seq<char>)
    /** IncompatibleModifiersError(message) */
    | IncompatibleModifiersError(message: string)
    /** CalculatorError(*messages): one message per line printed on the error channel. */
    | CalculatorError(messages: seq<string>)
    /** StackError(message): a failed search of the stack. */
    | StackError(message: string)
    /** Any other exception raised by host code (TypeError, KeyError, ...), with str(e). */
    | HostException(message: string)
    /** EOFError, raised by the quit command to end the session. */
    | EndOfSession

  datatype Result<+T> = Ok(value: T) | Err(error: Exc)

  /** str(e): the text an enclosing handler puts into its own message. An exception with
      exactly one argument prints as that argument. */
  function ExcText(e: Exc): string {
    match e
    case UnknownModifiersError(letters) =>
      if |letters| == 0 then "" else if |letters| == 1 then letters else TupleText(Singletons(letters))
    case IncompatibleModifiersError(m) => m
    case CalculatorError(ms) => if |ms| == 0 then "" else if |ms| == 1 then ms[0] else TupleText(ms)
    case StackError(m) => m
    case HostException(m) => m
    case EndOfSession => ""
  }

  /** str() of an exception with several string arguments: their tuple. */
  function TupleText(ms: seq<string>): string {
    "(" + QuotedList(ms) + ")"
  }

  function Singletons(cs: seq<char>): (r: seq<string>)
    ensures |r| == |cs|
  {
    if cs == [] then [] else [[cs[0]]] + Singletons(cs[1..])
  }

  function QuotedList(ms: seq<string>): string {
    if ms == [] then ""
    else if |ms| == 1 then "'" + ms[0] + "'"
    else "'" + ms[0] + "', " + QuotedList(ms[1..])
  }
}
