/** Properties of single words and single tokens of the threaded-code
    interpreter: depth checks, stack shuffles, memory, the floored
    remainder, variables and constants, and how a token is resolved. */
module ForthWords {

  import opened Options
  import opened Events
  import opened CText
  import opened Cells
  import opened CDiv
  import opened ForthState
  import opened ForthPrims
  import opened ForthExec

  // ---------------------------------------------------------------------
  // Depth checks.

  /** How many items a primitive needs; 0 for the words without a depth
      check (CONSTANT has a check of its own, with its own message). */
  function Needs(op: Op): nat {
    match op
    case Add => 2 case Sub => 2 case Mul => 2 case Div => 2
    case Dot => 1 case DotS => 0 case Dup => 1 case Drop => 1
    case Swap => 2 case Over => 2 case Rot => 3
    case Store => 2 case Fetch => 1 case Variable => 0 case Constant => 0
    case Mod => 2 case DivMod => 2 case Words => 0 case Emit => 1
    case Equal => 2 case Less => 2 case Greater => 2
  }

  /** Every primitive that finds fewer items than it needs reports the word
      and the count and changes nothing else: stack, memory, dictionary,
      thread store and the rest of the line are as they were. */
  lemma DepthCheck(m: Machine, op: Op, rest: seq<string>)
    requires |m.stack| < Needs(op)
    ensures ExecPrim(m, op, rest) == Next(Report(m, Error(NeedsItems(OpName(op), Needs(op)))), rest)
  {
  }

  // ---------------------------------------------------------------------
  // Stack shuffles: each is undone by a partner.

  /** SWAP undoes itself. */
  lemma SwapTwice(m: Machine)
    requires |m.stack| >= 2
    ensures SwapWord(SwapWord(m)) == m
  {
    var n := |m.stack|;
    var r := SwapWord(m);
    assert r.stack[..n - 2] == m.stack[..n - 2];
    assert r.stack[..n - 2] + [Tos(r), Nos(r)] == m.stack;
  }

  /** Three ROTs bring the top three items back into place. */
  lemma RotThrice(m: Machine)
    requires |m.stack| >= 3
    ensures RotWord(RotWord(RotWord(m))) == m
  {
    var n := |m.stack|;
    var below := m.stack[..n - 3];
    var r1 := RotWord(m);
    assert r1.stack == below + [Nos(m), Tos(m), Third(m)];
    assert r1.stack[..n - 3] == below;
    var r2 := RotWord(r1);
    assert r2.stack == below + [Tos(m), Third(m), Nos(m)];
    assert r2.stack[..n - 3] == below;
    var r3 := RotWord(r2);
    assert r3.stack == below + [Third(m), Nos(m), Tos(m)];
    assert r3.stack == m.stack;
  }

  /** DROP undoes DUP. */
  lemma DupDrop(m: Machine)
    requires |m.stack| >= 1
    ensures DropWord(DupWord(m)) == m
  {
    var n := |m.stack|;
    assert DupWord(m).stack[..n] == m.stack;
  }

  /** OVER then DROP changes nothing, and OVER copies the second item. */
  lemma OverDrop(m: Machine)
    requires |m.stack| >= 2
    ensures Tos(OverWord(m)) == Nos(m)
    ensures DropWord(OverWord(m)) == m
  {
    var n := |m.stack|;
    assert OverWord(m).stack[..n] == m.stack;
  }

  // ---------------------------------------------------------------------
  // Memory.

  /** `v addr !` then `addr @`: the value comes back, the store changed that
      one cell, and the stack below is as it was. */
  lemma StoreFetch(m: Machine, v: int, addr: int)
    requires ValidAddress(addr)
    ensures var m1 := StoreWord(PushM(PushM(m, v), addr));
      && m1.stack == m.stack && m1.out == m.out
      && m1.memory[addr] == v
      && (forall a :: 0 <= a < MemSize && a != addr ==> m1.memory[a] == m.memory[a])
      && FetchWord(PushM(m1, addr)) == PushM(m1, v)
  {
    var s := PushM(PushM(m, v), addr);
    assert s.stack[..|s.stack| - 2] == m.stack;
    var m1 := StoreWord(s);
    assert PushM(m1, addr).stack[..|m1.stack|] == m1.stack;
  }

  /** An address outside memory consumes both operands, reports the
      address, and neither writes nor pushes anything. */
  lemma StoreFetchOutside(m: Machine, v: int, addr: int)
    requires !ValidAddress(addr)
    ensures StoreWord(PushM(PushM(m, v), addr)) == Report(m, Error(InvalidStore(addr)))
    ensures FetchWord(PushM(m, addr)) == Report(m, Error(InvalidFetch(addr)))
  {
    var s := PushM(PushM(m, v), addr);
    assert s.stack[..|s.stack| - 2] == m.stack;
    assert PushM(m, addr).stack[..|m.stack|] == m.stack;
  }

  // ---------------------------------------------------------------------
  // Division words.

  /** /MOD leaves the pair the ANS floored-division rule demands (a == b *
      q + r, r smaller than b and of b's sign), and MOD leaves the same
      remainder as /MOD. */
  lemma ModuloIsFloored(m: Machine, withQuotient: bool)
    requires |m.stack| >= 2 && Tos(m) != 0
    ensures var r := Modulo(m, withQuotient); var n := |m.stack|;
      && r.stack[..n - 2] == m.stack[..n - 2]
      && |r.stack| == (if withQuotient then n else n - 1)
      && (withQuotient ==> Floored(Nos(m), Tos(m), QuotRem(r.stack[n - 1], r.stack[n - 2])))
      && (!withQuotient ==> r.stack[n - 2] == Modulo(m, true).stack[n - 2])
  {
    var d := FlooredDivMod(Nos(m), Tos(m));
    var n := |m.stack|;
    var r := Modulo(m, withQuotient);
    if withQuotient {
      assert r.stack == m.stack[..n - 2] + [d.r, d.q];
    } else {
      assert r.stack == m.stack[..n - 2] + [d.r];
      assert Modulo(m, true).stack == m.stack[..n - 2] + [d.r, d.q];
    }
  }

  /** `/` with a zero divisor leaves the stack exactly as it was and only
      reports; MOD and /MOD with a zero divisor consume both operands. */
  lemma ZeroDivisor(m: Machine)
    requires |m.stack| >= 2 && Tos(m) == 0
    ensures Divide(m).stack == m.stack && Divide(m).memory == m.memory
    ensures Modulo(m, false).stack == m.stack[..|m.stack| - 2]
    ensures Modulo(m, true).stack == m.stack[..|m.stack| - 2]
  {
  }

  // ---------------------------------------------------------------------
  // Resolving a token outside a definition.

  /** The dictionary starts with the primitives, as it does from start-up
      on. */
  predicate HasPrimitives(d: seq<Entry>) {
    |Primitives| <= |d| && d[..|Primitives|] == Primitives
  }

  /** A primitive's name, as the word buffer holds it, finds that
      primitive, whatever was defined after it. */
  lemma PrimitiveKey(d: seq<Entry>, k: nat)
    requires HasPrimitives(d) && k < |Primitives|
    ensures Lookup(d, Truncate(Primitives[k].name)) == Some(k)
    ensures Primitives[k].name != ":" && d[k] == Primitives[k]
  {
    PrimitivesResolve(d, k);
    assert d[k] == Primitives[k];
    assert |Primitives[k].name| <= 8;
  }

  /** Outside a definition a primitive's name runs that primitive: a user
      definition never shadows a primitive. */
  lemma PrimitiveToken(m: Machine, k: nat, rest: seq<string>, fuel: nat)
    requires HasPrimitives(m.dict) && !m.compiling && k < |Primitives|
    ensures Eval(m, Primitives[k].name, rest, fuel) == Execute(m, k, rest, fuel)
    ensures var n := ExecPrim(m, Primitives[k].kind.op, rest);
      Execute(m, k, rest, fuel) == Step(n.m, n.rest, Ok)
  {
    PrimitiveKey(m.dict, k);
  }

  /** The VARIABLE token runs its primitive, which reads the rest of the
      line. */
  lemma VariableRuns(m: Machine, rest: seq<string>, fuel: nat)
    requires HasPrimitives(m.dict) && !m.compiling
    ensures var n := VariableWord(m, rest); Eval(m, "VARIABLE", rest, fuel) == Step(n.m, n.rest, Ok)
  {
    PrimitiveKey(m.dict, 14);
    assert m.dict[14].kind == Prim(Variable);
    var n := VariableWord(m, rest);
    assert Execute(m, 14, rest, fuel) == Step(n.m, n.rest, Ok);
  }

  /** The CONSTANT token runs its primitive, which reads the rest of the
      line. */
  lemma ConstantRuns(m: Machine, rest: seq<string>, fuel: nat)
    requires HasPrimitives(m.dict) && !m.compiling
    ensures var n := ConstantWord(m, rest); Eval(m, "CONSTANT", rest, fuel) == Step(n.m, n.rest, Ok)
  {
    PrimitiveKey(m.dict, 15);
    assert m.dict[15].kind == Prim(Constant);
    var n := ConstantWord(m, rest);
    assert Execute(m, 15, rest, fuel) == Step(n.m, n.rest, Ok);
  }

  /** Outside a definition, a whole-number token that names no entry
      pushes its value: `5`, `+5`, `007` and `-12` alike. */
  lemma NumberToken(m: Machine, tok: string, v: int, rest: seq<string>, fuel: nat)
    requires !m.compiling && Lookup(m.dict, Truncate(tok)).None? && WholeNumber(tok) == Some(v)
    ensures Eval(m, tok, rest, fuel) == Step(PushM(m, v), rest, Ok)
  {
    ColonIsNoNumber();
  }

  /** `:` is not a number, so it never reaches the number branch. */
  lemma ColonIsNoNumber()
    ensures WholeNumber(":").None?
  {
    assert SkipSpace(":", 0) == 0;
  }

  /** Outside a definition, a rendered number that names no entry pushes
      its value. */
  lemma DecimalToken(m: Machine, n: int, rest: seq<string>, fuel: nat)
    requires !m.compiling && Lookup(m.dict, Truncate(Decimal(n))).None?
    ensures Eval(m, Decimal(n), rest, fuel) == Step(PushM(m, n), rest, Ok)
  {
    WholeNumberDecimal(n);
    NumberToken(m, Decimal(n), n, rest, fuel);
  }

  /** A token that names no entry and is not a whole number is reported
      and changes nothing else. */
  lemma UnknownToken(m: Machine, tok: string, rest: seq<string>, fuel: nat)
    requires !m.compiling && tok != ":"
    requires Lookup(m.dict, Truncate(tok)).None? && WholeNumber(tok).None?
    ensures Eval(m, tok, rest, fuel) == Step(Report(m, Unknown(tok)), rest, Ok)
  {
  }

  /** The two modes resolve a token in opposite orders. If an entry carries
      a number's name, interpreting runs that entry while compiling emits
      the literal. */
  lemma ModesDisagree(m: Machine, n: int, rest: seq<string>, fuel: nat)
    requires Decimal(n) != ";" && |Decimal(n)| < WordBuf && |m.thread| + 2 < ThreadMax
    requires Lookup(m.dict, Decimal(n)).Some?
    ensures !m.compiling ==>
      Eval(m, Decimal(n), rest, fuel) == Execute(m, Lookup(m.dict, Decimal(n)).value, rest, fuel)
    ensures m.compiling ==>
      Eval(m, Decimal(n), rest, fuel) == Step(m.(thread := m.thread + [OpLit, n]), rest, Ok)
  {
    WholeNumberDecimal(n);
    assert Decimal(n) != ":" by {
      assert IsDigit(Decimal(n)[|Decimal(n)| - 1]);
    }
  }

  /** `:` inside a definition is not special: it is compiled like any
      other token, so unless an entry is called ":" it is reported unknown
      and the definition goes on. */
  lemma NestedColon(m: Machine, rest: seq<string>, fuel: nat)
    requires m.compiling && Lookup(m.dict, ":").None?
    ensures Eval(m, ":", rest, fuel) == Step(Report(m, Unknown(":")), rest, Ok)
    ensures Eval(m, ":", rest, fuel).m.compiling
  {
    assert SkipSpace(":", 0) == 0;
    assert DigitRunEnd(":", 0) == 0;
    assert Strtol(":").None?;
  }

  // ---------------------------------------------------------------------
  // Variables and constants.

  /** `VARIABLE name` with room left: the k-th variable gets the address
      VarBase + k, the table gains that row at its end, and the name is
      consumed from the line. */
  lemma VariableToken(m: Machine, name: string, rest: seq<string>, fuel: nat)
    requires HasPrimitives(m.dict) && !m.compiling && |VarsOf(m.dict)| < VarLimit
    ensures var k := |VarsOf(m.dict)|; var r := Eval(m, "VARIABLE", [name] + rest, fuel);
      && r == Step(m.(dict := m.dict + [Entry(name, Var(VarBase + k))]), rest, Ok)
      && VarsOf(r.m.dict) == VarsOf(m.dict) + [(name, VarBase + k)]
  {
    VariableRuns(m, [name] + rest, fuel);
    assert ([name] + rest)[1..] == rest;
    TablesAppend(m.dict, Entry(name, Var(VarBase + |VarsOf(m.dict)|)));
  }

  /** `value CONSTANT name` with room left: the value moves from the stack
      into a new constant entry, and the table gains that row at its end. */
  lemma ConstantToken(m: Machine, name: string, rest: seq<string>, fuel: nat)
    requires HasPrimitives(m.dict) && !m.compiling
    requires |m.stack| >= 1 && |ConstsOf(m.dict)| < ConstLimit
    ensures var r := Eval(m, "CONSTANT", [name] + rest, fuel);
      && r == Step(m.(stack := m.stack[..|m.stack| - 1], dict := m.dict + [Entry(name, Const(Tos(m)))]), rest, Ok)
      && ConstsOf(r.m.dict) == ConstsOf(m.dict) + [(name, Tos(m))]
  {
    ConstantRuns(m, [name] + rest, fuel);
    assert ([name] + rest)[1..] == rest;
    TablesAppend(m.dict, Entry(name, Const(Tos(m))));
  }

  /** The first entry of a name stays in force: a later entry of the same
      name is never found. */
  lemma FirstDeclarationWins(d: seq<Entry>, e: Entry, later: seq<Entry>)
    requires Lookup(d, e.name).None?
    ensures Lookup(d + [e] + later, e.name) == Some(|d|)
  {
    LookupAppend(d, [e], e.name);
    LookupAppend(d + [e], later, e.name);
  }

  /** Typing the name of a variable or constant pushes the address or
      value its entry carries. */
  lemma DataToken(m: Machine, tok: string, rest: seq<string>, fuel: nat)
    requires !m.compiling && tok != ":" && Lookup(m.dict, Truncate(tok)).Some?
    ensures var k := m.dict[Lookup(m.dict, Truncate(tok)).value].kind;
      && (k.Var? ==> Eval(m, tok, rest, fuel) == Step(PushM(m, k.addr), rest, Ok))
      && (k.Const? ==> Eval(m, tok, rest, fuel) == Step(PushM(m, k.value), rest, Ok))
  {
  }

  /** Entries appended to a dictionary that starts with the primitives
      leave the primitives in front. */
  lemma HasPrimitivesGrow(d: seq<Entry>, more: seq<Entry>)
    requires HasPrimitives(d)
    ensures HasPrimitives(d + more)
  {
    assert (d + more)[..|Primitives|] == d[..|Primitives|];
  }

  /** The name of a declared variable or constant, declared once or more,
      pushes the address or value of its first declaration. */
  lemma DeclaredName(x: Machine, d: seq<Entry>, e: Entry, later: seq<Entry>, rest: seq<string>, fuel: nat)
    requires !x.compiling && x.dict == d + [e] + later
    requires Lookup(d, e.name).None? && |e.name| < WordBuf && e.name != ":"
    requires e.kind.Var? || e.kind.Const?
    ensures Eval(x, e.name, rest, fuel) == Step(PushM(x, if e.kind.Var? then e.kind.addr else e.kind.value), rest, Ok)
  {
    FirstDeclarationWins(d, e, later);
    assert x.dict[|d|] == e;
  }

  /** `VARIABLE name` and then `name`: the address pushed is VarBase + k for
      the k-th variable. */
  lemma VariableThenName(m: Machine, name: string, r1: seq<string>, r2: seq<string>, fuel: nat)
    requires HasPrimitives(m.dict) && !m.compiling && |VarsOf(m.dict)| < VarLimit
    requires Lookup(m.dict, name).None? && |name| < WordBuf && name != ":"
    ensures var m1 := Eval(m, "VARIABLE", [name] + r1, fuel).m;
      Eval(m1, name, r2, fuel) == Step(PushM(m1, VarBase + |VarsOf(m.dict)|), r2, Ok)
  {
    VariableToken(m, name, r1, fuel);
    var e := Entry(name, Var(VarBase + |VarsOf(m.dict)|));
    var m1 := Eval(m, "VARIABLE", [name] + r1, fuel).m;
    assert m1.dict == m.dict + [e] + [];
    DeclaredName(m1, m.dict, e, [], r2, fuel);
  }

  /** `a CONSTANT X b CONSTANT X X` leaves a: both declarations consume
      their values, and the name keeps its first value. */
  lemma ConstantTwice(m: Machine, name: string, a: int, b: int, r1: seq<string>, r2: seq<string>, r3: seq<string>, fuel: nat)
    requires HasPrimitives(m.dict) && !m.compiling && |ConstsOf(m.dict)| + 2 <= ConstLimit
    requires Lookup(m.dict, name).None? && |name| < WordBuf && name != ":"
    ensures var m1 := Eval(PushM(m, a), "CONSTANT", [name] + r1, fuel).m;
      var m2 := Eval(PushM(m1, b), "CONSTANT", [name] + r2, fuel).m;
      && m2.stack == m.stack
      && Eval(m2, name, r3, fuel) == Step(PushM(m2, a), r3, Ok)
  {
    var x1 := PushM(m, a);
    assert x1.stack[..|x1.stack| - 1] == m.stack;
    ConstantToken(x1, name, r1, fuel);
    var m1 := Eval(x1, "CONSTANT", [name] + r1, fuel).m;
    var e1 := Entry(name, Const(a));
    assert m1.dict == m.dict + [e1];
    HasPrimitivesGrow(m.dict, [e1]);
    var x2 := PushM(m1, b);
    assert x2.stack[..|x2.stack| - 1] == m1.stack;
    ConstantToken(x2, name, r2, fuel);
    var m2 := Eval(x2, "CONSTANT", [name] + r2, fuel).m;
    assert m2.dict == m.dict + [e1] + [Entry(name, Const(b))];
    DeclaredName(m2, m.dict, e1, [Entry(name, Const(b))], r3, fuel);
  }
}
