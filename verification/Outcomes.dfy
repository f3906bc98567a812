/** How a computation of the parser ends.

The source has two kinds of panic: a parse error for the user (`panicf`), which `parse` turns
into an error, and a failed assertion about the lexer or the parser itself (`bug`), which is
re-raised. */
module Outcomes {

  // The assertions of the parser.
  datatype Site =
    | UnexpectedToken   // p.assertEqual, and the default cases of topLevel, keyString and value
    | NoKeyStart        // the key start of a pair of an inline table
    | NotABool
    | NotAnInteger
    | DanglingEscape    // replaceEscapes and asciiEscapeToUnicode
    | NoContext         // setValue: the context has not been established
    | NotAHash          // setValue: the context is not a table
    | NoElement         // t[len(t)-1] of an empty array of tables
    | PastEnd           // a call of the lexer's nil state

  datatype Outcome<+T> = Ok(value: T) | Rejected | Bug(site: Site) {
    predicate IsFailure() {
      !Ok?
    }

    function PropagateFailure<U>(): Outcome<U>
      requires IsFailure()
    {
      if Rejected? then Rejected else Bug(site)
    }

    function Extract(): T
      requires Ok?
    {
      value
    }
  }
}
