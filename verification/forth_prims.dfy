/** The primitive words of the threaded-code interpreter. Each checks the
    stack depth it needs first; when the check fails it reports an error and
    changes nothing else. */
module ForthPrims {

  import opened Events
  import opened Cells
  import opened CDiv
  import opened ForthState

  /** The name a primitive uses in its depth-check message. */
  function OpName(op: Op): string {
    match op
    case Add => "+" case Sub => "-" case Mul => "*" case Div => "/"
    case Dot => "." case DotS => ".S" case Dup => "DUP" case Drop => "DROP"
    case Swap => "SWAP" case Over => "OVER" case Rot => "ROT" case Store => "!"
    case Fetch => "@" case Variable => "VARIABLE" case Constant => "CONSTANT"
    case Mod => "MOD" case DivMod => "/MOD" case Words => "WORDS" case Emit => "EMIT"
    case Equal => "=" case Less => "<" case Greater => ">"
  }

  /** The depth-check failure: an error and nothing else. */
  function TooFew(m: Machine, op: Op, n: nat): Machine {
    Report(m, Error(NeedsItems(OpName(op), n)))
  }

  /** Running words never touches the thread store or the compiling flag,
      and the dictionary and the output only grow. */
  predicate Grows(m: Machine, r: Machine) {
    r.thread == m.thread && r.compiling == m.compiling && m.dict <= r.dict && m.out <= r.out
  }

  /** What a word may change besides the stack and memory: it adds output
      after what is already there and leaves the dictionary, thread store
      and compiling flag alone. */
  predicate Framed(m: Machine, r: Machine) {
    && r.thread == m.thread && r.compiling == m.compiling && r.dict == m.dict
    && |r.out| >= |m.out| && r.out[..|m.out|] == m.out
  }

  predicate IsBinary(op: Op) {
    op == Add || op == Sub || op == Mul || op == Equal || op == Less || op == Greater
  }

  /** What `+ - * = < >` compute from the second item a and the top item b. */
  function Combine(op: Op, a: int, b: int): int
    requires IsBinary(op)
  {
    match op
    case Add => a + b
    case Sub => a - b
    case Mul => a * b
    case Equal => Flag(a == b)
    case Less => Flag(a < b)
    case Greater => Flag(a > b)
  }

  /** `+ - * = < >`: the top two items become one. */
  function Binary(m: Machine, op: Op): (r: Machine)
    ensures Framed(m, r)
    requires IsBinary(op)
    ensures |m.stack| >= 2 ==> Replaced(m, r, 2, [Combine(op, Nos(m), Tos(m))])
    ensures |m.stack| < 2 ==> r == TooFew(m, op, 2)
  {
    if |m.stack| < 2 then TooFew(m, op, 2)
    else
      var b := PopM(m);
      var a := PopM(b.m);
      PushM(a.m, Combine(op, a.value, b.value))
  }

  /** `/`: the truncated quotient. A zero divisor is popped, reported and
      replaced by 0, which leaves the stack exactly as it was. */
  function Divide(m: Machine): (r: Machine)
    ensures Framed(m, r)
    ensures |m.stack| >= 2 && Tos(m) != 0 ==> Replaced(m, r, 2, [TruncDiv(Nos(m), Tos(m))])
    ensures |m.stack| >= 2 && Tos(m) == 0 ==> r == Report(m, Error(DivisionByZero))
    ensures |m.stack| < 2 ==> r == TooFew(m, Div, 2)
  {
    if |m.stack| < 2 then TooFew(m, Div, 2)
    else
      var b := PopM(m);
      if b.value == 0 then
        assert b.m.stack + [0] == m.stack;
        PushM(Report(b.m, Error(DivisionByZero)), 0)
      else
        var a := PopM(b.m);
        PushM(a.m, TruncDiv(a.value, b.value))
  }

  /** `MOD` and `/MOD`: the floored remainder, or the remainder under the
      quotient. A zero divisor consumes both operands and pushes nothing. */
  function Modulo(m: Machine, withQuotient: bool): (r: Machine)
    ensures Framed(m, r)
    ensures |m.stack| >= 2 && Tos(m) != 0 ==>
      var d := FlooredDivMod(Nos(m), Tos(m));
      Replaced(m, r, 2, if withQuotient then [d.r, d.q] else [d.r])
    ensures |m.stack| >= 2 && Tos(m) == 0 ==>
      r == Report(m.(stack := m.stack[..|m.stack| - 2]), Error(DivisionByZero))
    ensures |m.stack| < 2 ==> r == TooFew(m, if withQuotient then DivMod else Mod, 2)
  {
    if |m.stack| < 2 then TooFew(m, if withQuotient then DivMod else Mod, 2)
    else
      var b := PopM(m);
      var a := PopM(b.m);
      if b.value == 0 then Report(a.m, Error(DivisionByZero))
      else
        var d := FlooredDivMod(a.value, b.value);
        if withQuotient then PushM(PushM(a.m, d.r), d.q) else PushM(a.m, d.r)
  }

  /** `.`: pops the top item and prints it. */
  function Dot(m: Machine): (r: Machine)
    ensures Framed(m, r)
    ensures |m.stack| >= 1 ==> r == Report(m.(stack := m.stack[..|m.stack| - 1]), Printed(Tos(m)))
    ensures |m.stack| < 1 ==> r == TooFew(m, Op.Dot, 1)
  {
    if |m.stack| < 1 then TooFew(m, Op.Dot, 1)
    else
      var a := PopM(m);
      Report(a.m, Printed(a.value))
  }

  /** `EMIT`: pops the top item and sends its low byte. */
  function EmitWord(m: Machine): (r: Machine)
    ensures Framed(m, r)
    ensures |m.stack| >= 1 ==> r.stack == m.stack[..|m.stack| - 1]
    ensures |m.stack| >= 1 ==> r.out == m.out + [Emitted(Tos(m) % 256)] && 0 <= Tos(m) % 256 < 256
    ensures |m.stack| < 1 ==> r == TooFew(m, Emit, 1)
  {
    if |m.stack| < 1 then TooFew(m, Emit, 1)
    else
      var a := PopM(m);
      Report(a.m, Emitted(a.value % 256))
  }

  /** `WORDS`: lists the names, latest definition first. */
  function WordsWord(m: Machine): (r: Machine)
    ensures Framed(m, r)
    ensures r.stack == m.stack && r.dict == m.dict
    ensures |r.out| == |m.out| + 1 && r.out[|m.out|].WordsShown?
    ensures |r.out[|m.out|].names| == |m.dict|
    ensures forall k :: 0 <= k < |m.dict| ==> r.out[|m.out|].names[k] == m.dict[|m.dict| - 1 - k].name
  {
    Report(m, WordsShown(Names(m.dict)))
  }

  function Names(d: seq<Entry>): (ns: seq<string>)
    ensures |ns| == |d|
    ensures forall k :: 0 <= k < |d| ==> ns[k] == d[|d| - 1 - k].name
  {
    if |d| == 0 then [] else [d[|d| - 1].name] + Names(d[..|d| - 1])
  }

  function DupWord(m: Machine): (r: Machine)
    ensures Framed(m, r)
    ensures |m.stack| >= 1 ==> Replaced(m, r, 1, [Tos(m), Tos(m)])
    ensures |m.stack| < 1 ==> r == TooFew(m, Dup, 1)
  {
    if |m.stack| < 1 then TooFew(m, Dup, 1) else PushM(m, m.stack[|m.stack| - 1])
  }

  function DropWord(m: Machine): (r: Machine)
    ensures Framed(m, r)
    ensures |m.stack| >= 1 ==> Replaced(m, r, 1, [])
    ensures |m.stack| < 1 ==> r == TooFew(m, Drop, 1)
  {
    if |m.stack| < 1 then TooFew(m, Drop, 1) else m.(stack := m.stack[..|m.stack| - 1])
  }

  function SwapWord(m: Machine): (r: Machine)
    ensures Framed(m, r)
    ensures |m.stack| >= 2 ==> Replaced(m, r, 2, [Tos(m), Nos(m)])
    ensures |m.stack| < 2 ==> r == TooFew(m, Swap, 2)
  {
    if |m.stack| < 2 then TooFew(m, Swap, 2)
    else
      var a := PopM(m);
      var b := PopM(a.m);
      PushM(PushM(b.m, a.value), b.value)
  }

  function OverWord(m: Machine): (r: Machine)
    ensures Framed(m, r)
    ensures |m.stack| >= 2 ==> Replaced(m, r, 2, [Nos(m), Tos(m), Nos(m)])
    ensures |m.stack| < 2 ==> r == TooFew(m, Over, 2)
  {
    if |m.stack| < 2 then TooFew(m, Over, 2) else PushM(m, m.stack[|m.stack| - 2])
  }

  function RotWord(m: Machine): (r: Machine)
    ensures Framed(m, r)
    ensures |m.stack| >= 3 ==> Replaced(m, r, 3, [Nos(m), Tos(m), Third(m)])
    ensures |m.stack| < 3 ==> r == TooFew(m, Rot, 3)
  {
    if |m.stack| < 3 then TooFew(m, Rot, 3)
    else
      var a := PopM(m);
      var b := PopM(a.m);
      var c := PopM(b.m);
      PushM(PushM(PushM(c.m, b.value), a.value), c.value)
  }

  /** `!` ( value addr -- ): an in-range address changes exactly that
      cell; any other address is reported and nothing is written. Both
      operands are consumed either way. */
  function StoreWord(m: Machine): (r: Machine)
    ensures Framed(m, r)
    ensures |m.stack| >= 2 && ValidAddress(Tos(m)) ==>
      r == m.(stack := m.stack[..|m.stack| - 2], memory := m.memory[Tos(m) := Nos(m)])
    ensures |m.stack| >= 2 && !ValidAddress(Tos(m)) ==>
      r == Report(m.(stack := m.stack[..|m.stack| - 2]), Error(InvalidStore(Tos(m))))
    ensures |m.stack| < 2 ==> r == TooFew(m, Store, 2)
  {
    if |m.stack| < 2 then TooFew(m, Store, 2)
    else
      var addr := PopM(m);
      var val := PopM(addr.m);
      if ValidAddress(addr.value) then val.m.(memory := Cells.Store(val.m.memory, addr.value, val.value))
      else Report(val.m, Error(InvalidStore(addr.value)))
  }

  /** `@` ( addr -- value ). */
  function FetchWord(m: Machine): (r: Machine)
    ensures Framed(m, r)
    ensures |m.stack| >= 1 && ValidAddress(Tos(m)) ==> Replaced(m, r, 1, [m.memory[Tos(m)]])
    ensures |m.stack| >= 1 && !ValidAddress(Tos(m)) ==>
      r == Report(m.(stack := m.stack[..|m.stack| - 1]), Error(InvalidFetch(Tos(m))))
    ensures |m.stack| < 1 ==> r == TooFew(m, Fetch, 1)
  {
    if |m.stack| < 1 then TooFew(m, Fetch, 1)
    else
      var addr := PopM(m);
      if ValidAddress(addr.value) then PushM(addr.m, addr.m.memory[addr.value])
      else Report(addr.m, Error(InvalidFetch(addr.value)))
  }

  /** A machine together with the tokens still to be read on the line. */
  datatype Next = Next(m: Machine, rest: seq<string>)

  /** `VARIABLE name`: the k-th variable gets address VarBase + k. The limit
      is checked before the name is read, so a refused declaration leaves
      the name in the input. */
  function VariableWord(m: Machine, rest: seq<string>): (n: Next)
    ensures Grows(m, n.m)
    ensures |VarsOf(m.dict)| >= VarLimit ==> n == Next(Report(m, Error(MaxVariables)), rest)
    ensures |VarsOf(m.dict)| < VarLimit && rest == [] ==>
      n == Next(Report(m, Error(VariableNeedsName)), rest)
    ensures |VarsOf(m.dict)| < VarLimit && rest != [] ==>
      && n.rest == rest[1..]
      && n.m.stack == m.stack && n.m.memory == m.memory && n.m.out == m.out
      && n.m.dict == m.dict + [Entry(rest[0], Var(VarBase + |VarsOf(m.dict)|))]
  {
    var count := |VarsOf(m.dict)|;
    if count >= VarLimit then Next(Report(m, Error(MaxVariables)), rest)
    else if rest == [] then Next(Report(m, Error(VariableNeedsName)), rest)
    else Next(m.(dict := m.dict + [Entry(rest[0], Var(VarBase + count))]), rest[1..])
  }

  /** `value CONSTANT name`: needs a value first, then a name and room in
      the constant table. A refused declaration consumes the name but leaves
      the value on the stack. */
  function ConstantWord(m: Machine, rest: seq<string>): (n: Next)
    ensures Grows(m, n.m)
    ensures |m.stack| < 1 ==> n == Next(Report(m, Error(ConstantNeedsValue)), rest)
    ensures |m.stack| >= 1 && rest == [] ==> n == Next(Report(m, Error(InvalidConstant)), rest)
    ensures |m.stack| >= 1 && rest != [] && |ConstsOf(m.dict)| >= ConstLimit ==>
      n == Next(Report(m, Error(InvalidConstant)), rest[1..])
    ensures |m.stack| >= 1 && rest != [] && |ConstsOf(m.dict)| < ConstLimit ==>
      && n.rest == rest[1..]
      && n.m.stack == m.stack[..|m.stack| - 1] && n.m.memory == m.memory && n.m.out == m.out
      && n.m.dict == m.dict + [Entry(rest[0], Const(Tos(m)))]
  {
    if |m.stack| < 1 then Next(Report(m, Error(ConstantNeedsValue)), rest)
    else if rest == [] then Next(Report(m, Error(InvalidConstant)), rest)
    else if |ConstsOf(m.dict)| >= ConstLimit then Next(Report(m, Error(InvalidConstant)), rest[1..])
    else
      var v := PopM(m);
      Next(v.m.(dict := m.dict + [Entry(rest[0], Const(v.value))]), rest[1..])
  }

  /** Dispatch of a primitive. Only VARIABLE and CONSTANT read the input. */
  function ExecPrim(m: Machine, op: Op, rest: seq<string>): (n: Next)
    ensures Grows(m, n.m)
    ensures op != Variable && op != Constant ==> n.rest == rest && Framed(m, n.m)
    ensures n.rest == rest || (|rest| > 0 && n.rest == rest[1..])
  {
    match op
    case Variable =>
      VariableWord(m, rest)
    case Constant =>
      ConstantWord(m, rest)
    case Div => Next(Divide(m), rest)
    case Dot => Next(Dot(m), rest)
    case DotS => Next(Report(m, StackShown(m.stack)), rest)
    case Dup => Next(DupWord(m), rest)
    case Drop => Next(DropWord(m), rest)
    case Swap => Next(SwapWord(m), rest)
    case Over => Next(OverWord(m), rest)
    case Rot => Next(RotWord(m), rest)
    case Store => Next(StoreWord(m), rest)
    case Fetch => Next(FetchWord(m), rest)
    case Mod => Next(Modulo(m, false), rest)
    case DivMod => Next(Modulo(m, true), rest)
    case Words => Next(WordsWord(m), rest)
    case Emit => Next(EmitWord(m), rest)
    case Add | Sub | Mul | Equal | Less | Greater => Next(Binary(m, op), rest)
  }
}
