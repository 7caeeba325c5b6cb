# A Dafny model of a small Forth for the Raspberry Pi Pico

The repository holds a Forth interpreter that grew in three phases. This
project models each phase as a pure state machine and proves what each
phase promises.

- **The threaded-code engine** (`src/forth_core.c`). This is the main phase. Its machine has:
  - a value stack;
  - 1024 memory cells;
  - an append-only dictionary whose entries are primitives, variables,
    constants or colon definitions;
  - a flat thread store holding the compiled bodies of colon definitions;
  - a compiling flag that carries over from line to line.

  Tokens are evaluated one at a time, with the rest of the line available,
  because `:`, `VARIABLE` and `CONSTANT` take the next token as a name.
  Colon bodies are compiled into `LIT v`, dictionary indices and `EXIT`. A
  threaded runner executes them.
- **The second phase** (`pico-examples2/src/forth_core.c`). It has:
  - thirteen fixed words over a stack and the same memory;
  - case-insensitive lookup;
  - literals that must be a whole token.
- **The first phase** (`pico-examples2/hello_world/usb/hello_usb.c`). It has:
  - eleven stack words;
  - a push that checks capacity;
  - literals read from the start of a token, so `12abc` pushes 12.

Cells are unbounded integers. Output is a log of abstract events (printed
value, stack listing, word list, emitted byte, error, unknown token), not
formatted text. An input line is a list of tokens that has already been
split.

Modules:
- `Cells`: the stack and the memory.
- `CDiv`: C's truncating division and the floored division of ANS Forth.
- `CText`: `strtol`, `toupper`, the 32-byte word buffer and decimal
  rendering.
- `Events`: the output events.
- `ForthState`: the machine, the primitives table, first-match lookup, and
  the variable and constant side tables.
- `ForthPrims`: the primitive words.
- `ForthExec`: `compile_word`, `colon_dispatch` and `eval`.
- `ForthCompile`: compiled code agrees with interpreted tokens.
- `ForthInvariant`: well-formedness; the runner never reads outside the thread store.
- `ForthFuel`: fuel monotonicity.
- `ForthWords`: properties of single words and tokens.
- `ForthExamples`: colon definitions, including those loaded at start-up.
- `FixedDict`: the first-match lookup in the fixed tables of the earlier two phases.
- `PicoForth`: the second phase.
- `UsbForth`: the first phase.
- `Phases`: where the three phases differ on the same input.

Running a colon body may recurse forever, because a word may call itself.
Execution therefore takes `fuel`: the number of colon bodies that may still
be entered. A run ends with one of three statuses:
- `Ok`;
- `OutOfFuel`;
- `Stuck`: the C code would read outside the thread store or the
  dictionary. `ForthInvariant.NeverStuck` shows this never happens from
  start-up.

Points where the code's behaviour is easy to misread:
- With a zero divisor, `/` pops only the divisor and pushes 0 back, so the
  stack is left exactly as it was. It is not left as `[0]`.
- `MOD` and `/MOD` with a zero divisor consume both operands. They do not
  leave the stack unchanged.
- A `:` typed inside a definition is not a syntax error. It is compiled like
  any other token, so it is reported as unknown and the definition goes on.
- Lookup in the main phase is case-sensitive. The earlier two phases
  upper-case the token first.

## Model

| member | source | states |
|---|---|---|
| Cells.Pop | src/forth_core.c:65-75 | on a non-empty stack the value handed back and the stack left behind recompose the stack; on an empty stack the result is 0 with underflow and an empty stack |
| Cells.PopPush | src/forth_core.c:57-75 | popping right after a push returns the pushed value and the original stack |
| Cells.Store | src/forth_core.c:325-336 | a store to a valid address sets that cell and leaves every other cell alone |
| Cells.Push | src/forth_core.c:57-63 | a push adds exactly one item on top and leaves the items below as they were |
| CDiv.TruncDivision | src/forth_core.c:157-174 | C's `/` and `%`: a == b*q + r, \|r\| < \|b\|, r carries the dividend's sign, q carries the product of the signs |
| CDiv.FlooredDivMod | src/forth_core.c:157-174 | the adjusted pair satisfies the ANS floored rule: a == b*q + r, \|r\| < \|b\|, r is zero or has the divisor's sign |
| CDiv.FlooredUnique | src/forth_core.c:157-174 | any pair meeting the floored rule is the pair `floored_divmod` returns |
| CDiv.FlooredPositiveDivisor | src/forth_core.c:157-174 | for a positive divisor the floored pair equals Euclidean division, an independent reference |
| CDiv.FlooredVersusTruncated | src/forth_core.c:164-171 | the floored pair equals C's pair exactly when C's remainder is zero or already has the divisor's sign |
| CDiv.SignedExamples | tests/test_forth.py:153-170 | the four sign combinations of ±10 by ±3, and exact multiples, give the expected floored pairs |
| CText.Strtol | src/forth_core.c:514-516 | nothing converts exactly when no digit follows the leading white space and optional sign; a conversion ends right after a digit, at the end of the run of digits |
| CText.StrtolValue | src/forth_core.c:514-516 | white space, an optional sign, leading zeros and the digits of n, followed by a non-digit, convert to ±n and stop right after the digits |
| CText.StrtolKey | src/forth_core.c:514-516 | the upper-cased, truncated key of any token `strtol` converts starts with white space, a digit, or a sign followed by a digit |
| CText.WholeNumber | src/forth_core.c:514-520 | a token reads as a number only if `strtol` consumes all of it; the empty token reads as 0 |
| CText.NumberPrefix | pico-examples2/hello_world/usb/hello_usb.c:116-123 | a token reads as a number exactly when `strtol` converts some leading part of it, and then as the converted value |
| CText.Truncate | src/forth_core.c:460-465 | the word buffer keeps a prefix of the token: a short token whole, a long one cut to exactly 31 characters |
| CText.Upcase | pico-examples2/src/forth_core.c:176-182 | same length, each character passed through C-locale `toupper` |
| CText.KeyUpcase | pico-examples2/src/forth_core.c:176-182 | upper-casing a token first does not change the key it is looked up under |
| CText.StrtolDecimal | src/forth_core.c:514-516 | a rendered number followed by text not starting with a digit converts back to that number and stops right after it |
| CText.WholeNumberDecimal | src/forth_core.c:514-520 | a rendered number reads back whole as itself |
| CText.PrefixVersusWhole | pico-examples2/hello_world/usb/hello_usb.c:116-123 | `12abc`-shaped tokens are a number by prefix and not a number whole |
| ForthState.Init | src/forth_core.c:432-456 | at start-up the stack, thread store and output are empty, memory is zero, and the dictionary is the primitives in registration order |
| ForthState.LookupFirst | src/forth_core.c:490-491 | lookup finds the earliest entry carrying the name, and finds nothing exactly when no entry carries it |
| ForthState.LookupAppend | src/forth_core.c:490-491 | appending entries never changes a name that already resolves; a new name resolves to its first new occurrence |
| ForthState.PrimitivesResolve | src/forth_core.c:432-456 | in any dictionary that starts with the primitives, each primitive's name finds that primitive: user words never shadow one |
| ForthState.TablesAppend | src/forth_core.c:350-395 | declaring a variable or a constant appends one row to its own side table and leaves the other table as it was |
| ForthState.SideTablesAgree | src/forth_core.c:496-507 | the first row of the variable or constant table with the resolved name holds exactly the address or value the dictionary entry carries |
| ForthState.Lookup | src/forth_core.c:490-491 | an index found names an entry carrying the name |
| ForthState.PopPushM | src/forth_core.c:57-75 | popping right after a push gives back the value and the machine as it was |
| ForthState.PopM | src/forth_core.c:65-75 | pop takes the top item; on an empty stack it reports underflow and yields 0 |
| ForthPrims.Binary | src/forth_core.c:177-200 | `+ - * = < >` replace the top two items a, b by a+b, a-b, a*b or the flag -1/0 of the comparison; with fewer items only an error is reported |
| ForthPrims.Divide | src/forth_core.c:202-213 | `/` replaces a, b by the quotient truncated toward zero; a zero divisor leaves the stack as it was and reports; too few items only reports |
| ForthPrims.Modulo | src/forth_core.c:284-322 | `MOD` leaves the floored remainder, `/MOD` the remainder under the quotient; a zero divisor consumes both and pushes nothing |
| ForthPrims.Dot | src/forth_core.c:215-221 | `.` pops the top item and prints it |
| ForthPrims.EmitWord | src/forth_core.c:397-403 | `EMIT` pops the top item and emits its low byte |
| ForthPrims.WordsWord | src/forth_core.c:276-281 | `WORDS` lists every dictionary name, latest first, changing nothing else |
| ForthPrims.DupWord | src/forth_core.c:231-237 | `DUP` turns [x] into [x, x], everything below untouched |
| ForthPrims.DropWord | src/forth_core.c:239-245 | `DROP` removes the top item, everything below untouched |
| ForthPrims.SwapWord | src/forth_core.c:247-255 | `SWAP` turns [a, b] into [b, a], everything below untouched |
| ForthPrims.OverWord | src/forth_core.c:257-263 | `OVER` turns [a, b] into [a, b, a], everything below untouched |
| ForthPrims.RotWord | src/forth_core.c:265-274 | `ROT` turns [a, b, c] into [b, c, a], everything below untouched |
| ForthPrims.StoreWord | src/forth_core.c:325-336 | `!` with an in-range address writes exactly that cell; otherwise it reports the address; both operands are consumed either way |
| ForthPrims.FetchWord | src/forth_core.c:337-347 | `@` replaces an in-range address by the cell's content; otherwise it consumes it, reports it and pushes nothing |
| ForthPrims.VariableWord | src/forth_core.c:350-367 | the k-th `VARIABLE` gets address 100+k and consumes the name; a full table or a missing name only reports |
| ForthPrims.ConstantWord | src/forth_core.c:380-395 | `CONSTANT` needs a value, then a name, then room; only then does it move the value into a new entry |
| ForthPrims.ExecPrim | src/forth_core.c:432-456 | a primitive never touches the thread store or compiling flag, only grows the dictionary and output, and reads at most one token of the line |
| ForthExec.Execute | src/forth_core.c:490-512 | running an entry only grows the dictionary and output and never gives back tokens already read |
| ForthExec.Walk | src/forth_core.c:115-152 | the threaded runner leaves the thread store and compiling flag as they were and never gives back tokens already read |
| ForthExec.CompileToken | src/forth_core.c:78-104 | while compiling, a whole-number token appends LIT v, whatever the dictionary holds; otherwise a known word appends its first-match index; an unknown word appends nothing and is reported; when LIT v or the index does not fit the thread store, only ThreadOverflow is reported |
| ForthExec.EvalSuffix | src/forth_core.c:459-521 | what is left of the line after a token is a tail of what was there: tokens are consumed only from the front |
| ForthExec.WalkSuffix | src/forth_core.c:115-152 | running a thread consumes tokens only from the front of the line |
| ForthExec.EvalTokens | src/forth_core.c:593-598 | the tokens of a line only ever grow the dictionary, the output and the thread store |
| ForthExec.EvalLines | src/forth_core.c:593-598 | a sequence of lines only ever grows the dictionary, the output and the thread store |
| ForthExec.Eval | src/forth_core.c:459-521 | in compile mode only `;` is special and closes with EXIT; outside it `:` followed by a name opens a colon entry at the end of the thread store, while `:` at the end of a line only reports that a name is needed and changes nothing else; nothing else changes the mode or the thread store |
| ForthFuel.EvalLinesFuel | src/forth_core.c:115-152 | a session that finished with some fuel finishes identically with any larger amount |
| ForthInvariant.NeverStuck | src/forth_core.c:115-152 | from start-up, whatever lines are typed, the runner never reads outside its thread store or dictionary, and the machine stays well formed |
| ForthInvariant.EvalSafe | src/forth_core.c:459-521 | every token keeps a well-formed machine well formed |
| ForthInvariant.WalkSafe | src/forth_core.c:115-152 | running a finished body from a well-formed machine never gets stuck |
| ForthCompile.InterpretPieces | src/forth_core.c:490-520 | interpreting tokens that each mean a literal or a non-reading word performs those pieces in order and consumes the line |
| ForthCompile.CompileTokens | src/forth_core.c:78-104 | while compiling, tokens that are whole numbers or names of entries append exactly LIT v or the index, one after another, whatever other entries exist |
| ForthCompile.MeansCompiles | src/forth_core.c:81-94 | a token that interprets as a literal or a plain word compiles to the same piece |
| ForthCompile.CallPieces | src/forth_core.c:115-152 | calling a colon entry whose code is literals and non-reading words performs them in order, one nesting level down |
| ForthCompile.RunPlain | src/forth_core.c:115-152 | running the compiled code of such tokens up to EXIT has the same effect as interpreting the tokens |
| ForthCompile.DefinePlain | src/forth_core.c:467-488 | `: name body ;` adds a colon entry at the old end of the thread store, whose code is the body's code then EXIT |
| ForthWords.DepthCheck | src/forth_core.c:178-181 | every primitive with too few items reports its name and count and changes nothing else, not even the rest of the line |
| ForthWords.SwapTwice | src/forth_core.c:247-255 | SWAP is undone by SWAP |
| ForthWords.RotThrice | src/forth_core.c:265-274 | three ROTs restore the machine |
| ForthWords.DupDrop | src/forth_core.c:231-245 | DROP undoes DUP |
| ForthWords.OverDrop | src/forth_core.c:257-263 | OVER copies the second item, and DROP undoes it |
| ForthWords.StoreFetch | src/forth_core.c:325-347 | `v addr !` changes exactly memory[addr] to v and leaves the stack as it was; `addr @` then pushes v |
| ForthWords.StoreFetchOutside | src/forth_core.c:325-347 | with an out-of-range address, `!` and `@` consume their operands, report, and write and push nothing |
| ForthWords.ModuloIsFloored | src/forth_core.c:284-322 | `/MOD` leaves a pair meeting the ANS floored rule, and `MOD` leaves the same remainder |
| ForthWords.ZeroDivisor | src/forth_core.c:207-210 | a zero divisor leaves the stack exactly as it was for `/` and consumes both operands for `MOD` and `/MOD` |
| ForthWords.PrimitiveToken | src/forth_core.c:490-497 | outside a definition, a primitive's name runs that primitive, whatever was defined later |
| ForthWords.NumberToken | src/forth_core.c:514-518 | outside a definition, any whole-number token (`5`, `+5`, `007`, `-12`) that names no entry pushes its value |
| ForthWords.DecimalToken | src/forth_core.c:514-518 | corollary: a rendered number that names no entry pushes its value |
| ForthWords.UnknownToken | src/forth_core.c:514-520 | a token that is neither a name nor a whole number is reported and changes nothing else |
| ForthWords.ModesDisagree | src/forth_core.c:81-94 | if an entry is named like a number, interpreting runs the entry while compiling emits the literal |
| ForthWords.NestedColon | src/forth_core.c:467-476 | `:` inside a definition is reported unknown and the definition stays open |
| ForthWords.VariableToken | src/forth_core.c:350-367 | `VARIABLE name` appends a variable entry at 100+k and a row at the end of the variable table, and consumes the name |
| ForthWords.ConstantToken | src/forth_core.c:380-395 | `v CONSTANT name` moves v into a new entry and a row at the end of the constant table, and consumes the name |
| ForthWords.FirstDeclarationWins | src/forth_core.c:490-491 | a later entry with the same name is never found |
| ForthWords.DataToken | src/forth_core.c:370-378 | a variable's name pushes its address and a constant's name pushes its value |
| ForthWords.DeclaredName | src/forth_core.c:370-378 | a name declared more than once pushes the address or value of its first declaration |
| ForthWords.VariableThenName | src/forth_core.c:350-367 | after `VARIABLE name`, typing the name pushes 100+k for the k-th variable |
| ForthWords.ConstantTwice | src/forth_core.c:380-395 | `a CONSTANT X b CONSTANT X X` consumes both values and leaves a |
| ForthExamples.Definition | src/forth_core.c:478-488 | a definition line ends normally and adds a colon entry whose code then EXIT begins at the old end of the thread store; the name finds the new entry when no earlier entry has it |
| ForthExamples.CallColon | src/forth_core.c:115-152 | calling a colon entry with a plain body has the effect of typing its body one nesting level down; with no fuel the call is abandoned |
| ForthExamples.SquareLine | src/forth_core.c:539 | `: SQR DUP * ;` adds SQR with the code DUP, *, EXIT; SQR finds it unless an earlier entry has that name |
| ForthExamples.Square | src/forth_core.c:539 | calling SQR replaces the top item n by n*n |
| ForthExamples.NegateCompiles | src/forth_core.c:530 | inside a definition, `0 SWAP -` compiles to LIT 0, SWAP, - whatever user entries exist |
| ForthExamples.Negate | src/forth_core.c:530 | calling NEGATE replaces the top item n by -n, whatever user entries exist |
| ForthExamples.HalfLineAsWritten | src/forth_core.c:529 | the start-up line for 2/ compiles to DUP, LIT 2, /, EXIT, whatever user entries exist |
| ForthExamples.HalfAsWritten | src/forth_core.c:529 | as written, 2/ leaves n and n/2: the stack is one item deeper |
| ForthExamples.HalfLine | src/forth_core.c:529 | the corrected line compiles to LIT 2, /, EXIT, whatever user entries exist |
| ForthExamples.Half | src/forth_core.c:529 | corrected, 2/ replaces n by n/2 truncated, keeping the depth |
| ForthExamples.BootLinesDiffer | src/forth_core.c:523-556 | the corrected start-up script differs from the one as written only in the body of 2/ |
| ForthExamples.Startup | src/forth_core.c:523-556 | after the start-up definitions, as written and as corrected, whatever is typed never makes the runner read outside its thread store, and the machine stays well formed |
| FixedDict.LookupFrom | pico-examples2/src/forth_core.c:183-190 | a name is found exactly when some row of the fixed table carries it, and the word found is that row's |
| PicoForth.Arith | pico-examples2/src/forth_core.c:40-63 | `+ - *` replace the top two items by a op b, one item fewer; with fewer items only an error is reported |
| PicoForth.Divide | pico-examples2/src/forth_core.c:64-76 | `/` pops both operands and pushes the truncated quotient, or 0 with a report on a zero divisor |
| PicoForth.Print | pico-examples2/src/forth_core.c:79-89 | `.` pops and prints the top item |
| PicoForth.DupWord | pico-examples2/src/forth_core.c:91-97 | `DUP` turns [x] into [x, x], everything below untouched; with no item only an error is reported |
| PicoForth.DropWord | pico-examples2/src/forth_core.c:98-104 | `DROP` removes the top item, everything below untouched; with no item only an error is reported |
| PicoForth.SwapWord | pico-examples2/src/forth_core.c:105-113 | `SWAP` turns [a, b] into [b, a], everything below untouched; with fewer items only an error is reported |
| PicoForth.OverWord | pico-examples2/src/forth_core.c:114-120 | `OVER` turns [a, b] into [a, b, a], everything below untouched; with fewer items only an error is reported |
| PicoForth.RotWord | pico-examples2/src/forth_core.c:91-130 | `ROT` turns [a, b, c] into [b, c, a], everything below untouched |
| PicoForth.StoreWord | pico-examples2/src/forth_core.c:133-161 | `!` writes exactly one in-range cell; out of range it reports and writes nothing |
| PicoForth.FetchWord | pico-examples2/src/forth_core.c:133-161 | `@` pushes an in-range cell; out of range it consumes the address and pushes nothing |
| PicoForth.Eval | pico-examples2/src/forth_core.c:176-201 | a token naming a word runs it; otherwise a whole number is pushed; otherwise only an unknown-token report is added |
| PicoForth.EvalLine | pico-examples2/src/forth_core.c:222-226 | an empty line changes nothing and a one-token line is that token's evaluation |
| PicoForth.EvalLineAppend | pico-examples2/src/forth_core.c:222-226 | the tokens of a line are evaluated left to right: the line is its first part followed by the rest |
| PicoForth.UnderflowLeavesState | pico-examples2/src/forth_core.c:41-44 | every word with too few items reports and changes nothing else |
| PicoForth.WordFrame | pico-examples2/src/forth_core.c:91-130 | every word leaves the items below the ones it uses untouched |
| PicoForth.StoreFetch | pico-examples2/src/forth_core.c:133-161 | storing into a valid cell and fetching it back yields the value over the old stack |
| PicoForth.StoreChangesOneCell | pico-examples2/src/forth_core.c:133-146 | a store changes no other cell |
| PicoForth.NumberIsNoWord | pico-examples2/src/forth_core.c:166-172 | no word of the fixed table starts like a number, so the empty token and any token `strtol` converts name no word |
| PicoForth.WholeNumberPushes | pico-examples2/src/forth_core.c:176-201 | any whole-number token pushes its value |
| PicoForth.TrailingTextIsUnknown | pico-examples2/src/forth_core.c:193-200 | a number followed by text that does not start with a digit is reported unknown |
| PicoForth.NumberPushes | pico-examples2/src/forth_core.c:193-200 | a rendered number pushes itself |
| PicoForth.CaseInsensitive | pico-examples2/src/forth_core.c:176-191 | a token and its upper-cased form run the same word, before any number parsing |
| PicoForth.LowerCaseWords | pico-examples2/src/forth_core.c:166-191 | `.s` and `dup` resolve |
| PicoForth.MemoryExamples | pico-examples2/tests/test_forth.py:78-93 | `42 100 ! 100 @` leaves 42, a fresh cell reads 0, a negative address pushes nothing |
| UsbForth.Push | pico-examples2/hello_world/usb/hello_usb.c:16-19 | below 64 items a push appends; at 64 it reports overflow and leaves the stack |
| UsbForth.Pop | pico-examples2/hello_world/usb/hello_usb.c:20-24 | pop takes the top item; on an empty stack it yields 0, reports and leaves the stack empty |
| UsbForth.Print | pico-examples2/hello_world/usb/hello_usb.c:45-48 | `.` pops and prints the top item; with no item only an error is reported |
| UsbForth.DropWord | pico-examples2/hello_world/usb/hello_usb.c:60-63 | `DROP` removes the top item; with no item only an error is reported |
| UsbForth.Exec | pico-examples2/hello_world/usb/hello_usb.c:27-75 | every word keeps the stack within 64 items |
| UsbForth.EvalLine | pico-examples2/hello_world/usb/hello_usb.c:144-145 | a line keeps the stack within 64 items; an empty line changes nothing and a one-token line is that token's evaluation |
| UsbForth.EvalLineAppend | pico-examples2/hello_world/usb/hello_usb.c:144-145 | the tokens of a line are evaluated left to right: the line is its first part followed by the rest |
| UsbForth.Arith | pico-examples2/hello_world/usb/hello_usb.c:27-38 | `+ - *` replace the top two items by a op b and keep the depth within 64 |
| UsbForth.Divide | pico-examples2/hello_world/usb/hello_usb.c:39-44 | `/` pops both operands and pushes the truncated quotient, or 0 with a report on a zero divisor |
| UsbForth.Copy | pico-examples2/hello_world/usb/hello_usb.c:56-71 | `DUP`/`OVER` copy an item to the top, or report overflow on a full stack and leave it unchanged |
| UsbForth.SwapWord | pico-examples2/hello_world/usb/hello_usb.c:64-67 | `SWAP` turns [a, b] into [b, a] |
| UsbForth.RotWord | pico-examples2/hello_world/usb/hello_usb.c:72-75 | `ROT` turns [a, b, c] into [b, c, a] |
| UsbForth.Eval | pico-examples2/hello_world/usb/hello_usb.c:101-124 | every token keeps the stack within 64 items |
| UsbForth.PushOnFullStack | pico-examples2/hello_world/usb/hello_usb.c:16-19 | a push on a full stack leaves it unchanged and reports overflow |
| UsbForth.PopEmpty | pico-examples2/hello_world/usb/hello_usb.c:20-24 | pop on an empty stack yields 0 and leaves it empty |
| UsbForth.UnderflowLeavesStack | pico-examples2/hello_world/usb/hello_usb.c:27-75 | every word with too few items reports and leaves the stack as it was |
| UsbForth.NumberIsNoWord | pico-examples2/hello_world/usb/hello_usb.c:81-97 | no word of the fixed table starts like a number, so any token `strtol` converts names no word |
| UsbForth.NumberPrefixPushes | pico-examples2/hello_world/usb/hello_usb.c:101-124 | any token with a numeric prefix pushes that prefix's value and ignores the rest, when the stack has room |
| UsbForth.DecimalPrefixPushes | pico-examples2/hello_world/usb/hello_usb.c:116-123 | corollary: a rendered number followed by text not starting with a digit pushes the number |
| UsbForth.UnknownOnlyWithoutNumber | pico-examples2/hello_world/usb/hello_usb.c:116-123 | a non-word token is reported unknown exactly when it has no leading number |
| UsbForth.TwelveAbc | pico-examples2/hello_world/usb/hello_usb.c:116-123 | `12abc` pushes 12 |
| UsbForth.CaseInsensitive | pico-examples2/hello_world/usb/hello_usb.c:101-114 | a token and its upper-cased form run the same word, before any number parsing |
| Phases.DivisionByZeroPhases | src/forth_core.c:202-213 | with a zero divisor the main phase leaves the stack as it was, while the earlier phases replace both operands by 0, one item fewer |
| Phases.CasePhases | src/forth_core.c:490-491 | `dup` is unknown to the main phase on the primitives, and runs DUP in both earlier phases |
| Phases.LiteralPhases | src/forth_core.c:514-520 | `12abc`-shaped tokens are unknown to the main and second phases and push the number in the first |

## Left out

- Terminal I/O, echo, line editing and the 128-byte line buffer are not modelled. A line is a list of tokens that has already been split. `strtok` is modelled as taking the head of the remaining tokens.
- Device start-up and the read loops are left out: `main` in `hello_usb.c` and `src/pico_main.c`.
- `.`, `.S`, `WORDS` and `EMIT` produce abstract output events. Their text formatting is not modelled.
- `FORTH_DEBUG` prints and assertions are left out.
- C `long` overflow, and the `(int)` narrowing of literals stored in the thread store, are left out. Cells are unbounded integers.
- Text is a sequence of characters. The C code works on bytes: the word buffer keeps 31 bytes and `toupper` works one byte at a time. The model matches the C code for ASCII tokens only.
- A name of 32 bytes or more after `VARIABLE` or `CONSTANT` is undefined behaviour in C: `strncpy` at src/forth_core.c:360 and 390 leaves such a name without a terminator, and the constant's dictionary name is that buffer (line 394). The model keeps the name whole instead.
- `strtol` saturates on overflow. The model does not: `CText.Strtol` returns the exact integer.
- ForthState.PushM: the main phase's push has no capacity check, and neither has PicoForth.PushM. Going past 64 items is undefined behaviour in C. The model lets the stack grow without bound instead of excluding such states by a precondition. Every contract therefore also covers states the C code cannot reach safely.
- The main phase does not check that the dictionary and the colon-start table (128 entries each) have room. The model's dictionary is unbounded. The `EXIT` stored by `;` is likewise unchecked, and the model always appends it.
- C pointer aliasing of names is left out: a variable's name points into the input buffer, and colon names are copied. Names are compared by value.
- The `current_lookup_word` global is replaced by passing the dictionary index. `colon_dispatch` looks for its body by searching for the name. This finds the same entry, because every index that is run or compiled is the first entry of its name.
- The "unresolved word" branch for a variable is unreachable in the model and is not modelled. Each variable entry carries its address, and `ForthState.SideTablesAgree` shows that the side-table scan returns that same address.
- Recursion without end (a word that calls itself) is not modelled. The model stops it with the `fuel` bound (`OutOfFuel`). In C it runs until the C stack overflows.
- The `CONSTANT`/`VARIABLE` tests of the second phase target words that its source does not define. They are not modelled.

## Findings

| source | as written | input that shows it | evidently intended | confidence | as-written member | corrected member |
|---|---|---|---|---|---|---|
| src/forth_core.c:529 | `: 2/ DUP 2 / ;` keeps the operand under its half | `7 2/` leaves 7 3 instead of 3 | `2/` replaces n by its half, as `2*` (`DUP +`) replaces n by its double | high; not executed | ForthExamples.HalfAsWritten | ForthExamples.Half |

`ForthExamples.BootLines` is the start-up script with this line corrected.
`ForthExamples.BootLinesAsWritten` keeps the original line.
`ForthExamples.Startup` is stated about both.
