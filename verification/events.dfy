/** What the interpreters write to their output channel, as abstract events
    rather than formatted text. All three phases share these. */
module Events {

  /** The diagnostics the interpreters print as "Error: ..." lines. */
  datatype Fault =
    | NeedsItems(word: string, count: nat)   // "<word> requires <count> items"
    | StackUnderflow                        // `pop` on an empty stack
    | StackOverflow                         // capacity-checked `push` on a full stack
    | DivisionByZero
    | InvalidStore(addr: int)
    | InvalidFetch(addr: int)
    | MaxVariables                          // VARIABLE when the variable table is full
    | VariableNeedsName
    | ConstantNeedsValue                    // CONSTANT on an empty stack
    | InvalidConstant                       // CONSTANT without a name, or table full
    | ThreadOverflow                        // no room left in the threaded-code store
    | ColonNeedsName

  datatype Event =
    | Printed(value: int)                   // `.`
    | StackShown(cells: seq<int>)           // `.S`, bottom to top
    | WordsShown(names: seq<string>)        // WORDS, latest definition first
    | Emitted(byte: int)                    // EMIT, the value narrowed to one byte
    | Error(fault: Fault)
    | Unknown(token: string)                // "? <token>"

  /** The events that report a failure. */
  predicate IsDiagnostic(e: Event) {
    e.Error? || e.Unknown?
  }
}
