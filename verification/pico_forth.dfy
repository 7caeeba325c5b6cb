/** The second phase: thirteen fixed words over a value stack and the
    1024-cell memory, case-insensitive lookup, and number parsing that
    accepts only tokens that are entirely a number. Its push has no
    capacity check, so the stack here is unbounded. */
module PicoForth {

  import opened Options
  import FixedDict
  import opened Events
  import opened CText
  import opened Cells
  import CDiv

  datatype Word = Add | Sub | Mul | Div | Dot | DotS | Dup | Drop | Swap | Over | Rot | Store | Fetch

  /** The fixed dictionary, in declaration order. */
  const Dict: seq<(string, Word)> := [
    ("+", Add), ("-", Sub), ("*", Mul), ("/", Div),
    (".", Dot), (".S", DotS),
    ("DUP", Dup), ("DROP", Drop), ("SWAP", Swap), ("OVER", Over), ("ROT", Rot),
    ("!", Store), ("@", Fetch)
  ]

  function Lookup(name: string): Option<Word> {
    FixedDict.Lookup(Dict, name)
  }

  datatype Machine = Machine(stack: seq<int>, memory: Memory, out: seq<Event>)

  function Init(): (m: Machine)
    ensures m.stack == [] && m.out == []
    ensures forall a :: 0 <= a < MemSize ==> m.memory[a] == 0
  {
    Machine([], ZeroMemory(), [])
  }

  function Report(m: Machine, e: Event): Machine {
    m.(out := m.out + [e])
  }

  function PushM(m: Machine, v: int): Machine {
    m.(stack := Push(m.stack, v))
  }

  datatype PoppedM = PoppedM(value: int, m: Machine)

  /** `pop`: on an empty stack, reports underflow and yields 0. The same
      routine as the main phase's, rebuilt over this phase's machine, which
      has no dictionary or thread store. */
  function PopM(m: Machine): (p: PoppedM)
    ensures |m.stack| > 0 ==> p.m == m.(stack := m.stack[..|m.stack| - 1]) && p.value == m.stack[|m.stack| - 1]
    ensures |m.stack| == 0 ==> p == PoppedM(0, Report(m, Error(StackUnderflow)))
  {
    var c := Pop(m.stack);
    var m1 := m.(stack := c.stack);
    PoppedM(c.value, if c.underflow then Report(m1, Error(StackUnderflow)) else m1)
  }

  /** The top n items are replaced by `results`; memory and output are
      unchanged. */
  predicate Replaced(m: Machine, r: Machine, n: nat, results: seq<int>) {
    n <= |m.stack| && r == m.(stack := m.stack[..|m.stack| - n] + results)
  }

  function Nos(m: Machine): int requires |m.stack| >= 2 { m.stack[|m.stack| - 2] }
  function Tos(m: Machine): int requires |m.stack| >= 1 { m.stack[|m.stack| - 1] }

  function Name(w: Word): string {
    match w
    case Add => "+" case Sub => "-" case Mul => "*" case Div => "/"
    case Dot => "." case DotS => ".S" case Dup => "DUP" case Drop => "DROP"
    case Swap => "SWAP" case Over => "OVER" case Rot => "ROT"
    case Store => "!" case Fetch => "@"
  }

  /** How many items a word needs on the stack. */
  function Depth(w: Word): nat {
    match w
    case Add => 2 case Sub => 2 case Mul => 2 case Div => 2
    case Dot => 1 case DotS => 0 case Dup => 1 case Drop => 1
    case Swap => 2 case Over => 2 case Rot => 3
    case Store => 2 case Fetch => 1
  }

  function Refuse(m: Machine, w: Word): Machine {
    Report(m, Error(NeedsItems(Name(w), Depth(w))))
  }

  function Apply(w: Word, a: int, b: int): int
    requires w == Add || w == Sub || w == Mul
  {
    match w
    case Add => a + b
    case Sub => a - b
    case Mul => a * b
  }

  /** `+ - *`: pop b, pop a, push a op b; the depth drops by one. */
  function Arith(m: Machine, w: Word): (r: Machine)
    requires w == Add || w == Sub || w == Mul
    ensures |m.stack| < 2 ==> r == Refuse(m, w)
    ensures |m.stack| >= 2 ==> Replaced(m, r, 2, [Apply(w, Nos(m), Tos(m))])
  {
    if |m.stack| < 2 then Refuse(m, w)
    else
      var b := PopM(m);
      var a := PopM(b.m);
      PushM(a.m, Apply(w, a.value, b.value))
  }

  /** `/`: pops both operands; a zero divisor is reported and 0 pushed,
      otherwise the quotient truncated toward zero. */
  function Divide(m: Machine): (r: Machine)
    ensures |m.stack| < 2 ==> r == Refuse(m, Div)
    ensures |m.stack| >= 2 && Tos(m) == 0 ==>
      r == Report(m, Error(DivisionByZero)).(stack := m.stack[..|m.stack| - 2] + [0])
    ensures |m.stack| >= 2 && Tos(m) != 0 ==> Replaced(m, r, 2, [CDiv.TruncDiv(Nos(m), Tos(m))])
  {
    if |m.stack| < 2 then Refuse(m, Div)
    else
      var b := PopM(m);
      var a := PopM(b.m);
      if b.value == 0 then PushM(Report(a.m, Error(DivisionByZero)), 0)
      else PushM(a.m, CDiv.TruncDiv(a.value, b.value))
  }

  /** `.`: pops the top item and prints it. */
  function Print(m: Machine): (r: Machine)
    ensures |m.stack| < 1 ==> r == Refuse(m, Dot)
    ensures |m.stack| >= 1 ==> r == Report(m.(stack := m.stack[..|m.stack| - 1]), Printed(Tos(m)))
  {
    if |m.stack| < 1 then Refuse(m, Dot)
    else
      var p := PopM(m);
      Report(p.m, Printed(p.value))
  }

  /** `DUP`: copies the top item. */
  function DupWord(m: Machine): (r: Machine)
    ensures |m.stack| < 1 ==> r == Refuse(m, Dup)
    ensures |m.stack| >= 1 ==> Replaced(m, r, 1, [Tos(m), Tos(m)])
  {
    if |m.stack| < 1 then Refuse(m, Dup) else PushM(m, m.stack[|m.stack| - 1])
  }

  /** `DROP`: discards the top item. */
  function DropWord(m: Machine): (r: Machine)
    ensures |m.stack| < 1 ==> r == Refuse(m, Drop)
    ensures |m.stack| >= 1 ==> Replaced(m, r, 1, [])
  {
    if |m.stack| < 1 then Refuse(m, Drop) else m.(stack := m.stack[..|m.stack| - 1])
  }

  /** `SWAP`: exchanges the top two items. */
  function SwapWord(m: Machine): (r: Machine)
    ensures |m.stack| < 2 ==> r == Refuse(m, Swap)
    ensures |m.stack| >= 2 ==> Replaced(m, r, 2, [Tos(m), Nos(m)])
  {
    if |m.stack| < 2 then Refuse(m, Swap)
    else
      var a := PopM(m);
      var b := PopM(a.m);
      PushM(PushM(b.m, a.value), b.value)
  }

  /** `OVER`: copies the second item to the top. */
  function OverWord(m: Machine): (r: Machine)
    ensures |m.stack| < 2 ==> r == Refuse(m, Over)
    ensures |m.stack| >= 2 ==> Replaced(m, r, 2, [Nos(m), Tos(m), Nos(m)])
  {
    if |m.stack| < 2 then Refuse(m, Over) else PushM(m, m.stack[|m.stack| - 2])
  }

  /** `ROT`: brings the third item to the top. */
  function RotWord(m: Machine): (r: Machine)
    ensures |m.stack| < 3 ==> r == Refuse(m, Rot)
    ensures |m.stack| >= 3 ==> Replaced(m, r, 3, [Nos(m), Tos(m), m.stack[|m.stack| - 3]])
  {
    if |m.stack| < 3 then Refuse(m, Rot)
    else
      var a := PopM(m);
      var b := PopM(a.m);
      var c := PopM(b.m);
      PushM(PushM(PushM(c.m, b.value), a.value), c.value)
  }

  /** `!`: pops the address, then the value; only an address inside memory
      is written, and only that cell changes. */
  function StoreWord(m: Machine): (r: Machine)
    ensures |m.stack| < 2 ==> r == Refuse(m, Store)
    ensures |m.stack| >= 2 && ValidAddress(Tos(m)) ==>
      r == m.(stack := m.stack[..|m.stack| - 2], memory := m.memory[Tos(m) := Nos(m)])
    ensures |m.stack| >= 2 && !ValidAddress(Tos(m)) ==>
      r == Report(m.(stack := m.stack[..|m.stack| - 2]), Error(InvalidStore(Tos(m))))
  {
    if |m.stack| < 2 then Refuse(m, Store)
    else
      var addr := PopM(m);
      var val := PopM(addr.m);
      if ValidAddress(addr.value) then val.m.(memory := Cells.Store(val.m.memory, addr.value, val.value))
      else Report(val.m, Error(InvalidStore(addr.value)))
  }

  /** `@`: pops the address and pushes the cell's content when it is inside
      memory; otherwise nothing is pushed. */
  function FetchWord(m: Machine): (r: Machine)
    ensures |m.stack| < 1 ==> r == Refuse(m, Fetch)
    ensures |m.stack| >= 1 && ValidAddress(Tos(m)) ==>
      Replaced(m, r, 1, [m.memory[Tos(m)]])
    ensures |m.stack| >= 1 && !ValidAddress(Tos(m)) ==>
      r == Report(m.(stack := m.stack[..|m.stack| - 1]), Error(InvalidFetch(Tos(m))))
  {
    if |m.stack| < 1 then Refuse(m, Fetch)
    else
      var addr := PopM(m);
      if ValidAddress(addr.value) then PushM(addr.m, addr.m.memory[addr.value])
      else Report(addr.m, Error(InvalidFetch(addr.value)))
  }

  function Exec(m: Machine, w: Word): Machine {
    match w
    case Add => Arith(m, w)
    case Sub => Arith(m, w)
    case Mul => Arith(m, w)
    case Div => Divide(m)
    case Dot => Print(m)
    case DotS => Report(m, StackShown(m.stack))
    case Store => StoreWord(m)
    case Fetch => FetchWord(m)
    case Dup => DupWord(m)
    case Drop => DropWord(m)
    case Swap => SwapWord(m)
    case Over => OverWord(m)
    case Rot => RotWord(m)
  }

  /** `eval`: a dictionary word first (matched upper-cased), then a whole
      token number, otherwise the token is reported unknown. */
  function Eval(m: Machine, tok: string): (r: Machine)
    ensures Lookup(Key(tok)).Some? ==> r == Exec(m, Lookup(Key(tok)).value)
    ensures Lookup(Key(tok)).None? && WholeNumber(tok).Some? ==>
      r == m.(stack := m.stack + [WholeNumber(tok).value])
    ensures Lookup(Key(tok)).None? && WholeNumber(tok).None? ==>
      r == m.(out := m.out + [Unknown(tok)])
  {
    match Lookup(Key(tok))
    case Some(w) => Exec(m, w)
    case None =>
      match WholeNumber(tok)
      case Some(v) => PushM(m, v)
      case None => Report(m, Unknown(tok))
  }

  /** One input line, already split into tokens. */
  function EvalLine(m: Machine, toks: seq<string>): (r: Machine)
    ensures |toks| == 0 ==> r == m
    ensures |toks| == 1 ==> r == Eval(m, toks[0])
    decreases |toks|
  {
    if |toks| == 0 then m else EvalLine(Eval(m, toks[0]), toks[1..])
  }

  /** The tokens of a line are evaluated left to right: a line is its
      first part followed by the rest. */
  lemma {:induction false} EvalLineAppend(m: Machine, a: seq<string>, b: seq<string>)
    ensures EvalLine(m, a + b) == EvalLine(EvalLine(m, a), b)
    decreases |a|
  {
    if |a| == 0 {
      assert a + b == b;
    } else {
      assert (a + b)[0] == a[0] && (a + b)[1..] == a[1..] + b;
      EvalLineAppend(Eval(m, a[0]), a[1..], b);
    }
  }

  // ---------------------------------------------------------------------
  // Properties

  /** A word with too few items reports it and changes nothing else. */
  lemma UnderflowLeavesState(m: Machine, w: Word)
    requires |m.stack| < Depth(w)
    ensures Exec(m, w) == Refuse(m, w)
  {
  }

  /** Every word leaves the items below the ones it uses untouched. */
  lemma WordFrame(m: Machine, w: Word)
    requires |m.stack| >= Depth(w)
    ensures var r := Exec(m, w);
      |r.stack| >= |m.stack| - Depth(w) && r.stack[..|m.stack| - Depth(w)] == m.stack[..|m.stack| - Depth(w)]
  {
    if w == Add || w == Sub || w == Mul || w == Div || w == Dot || w == DotS {
      ArithFrame(m, w);
    } else if w == Store || w == Fetch {
      MemoryFrame(m, w);
    } else {
      ShuffleFrame(m, w);
    }
  }

  predicate KeepsBelow(m: Machine, w: Word)
    requires |m.stack| >= Depth(w)
  {
    var r := Exec(m, w);
    |r.stack| >= |m.stack| - Depth(w) && r.stack[..|m.stack| - Depth(w)] == m.stack[..|m.stack| - Depth(w)]
  }

  lemma ArithFrame(m: Machine, w: Word)
    requires w == Add || w == Sub || w == Mul || w == Div || w == Dot || w == DotS
    requires |m.stack| >= Depth(w)
    ensures KeepsBelow(m, w)
  {
    match w
    case Add => case Sub => case Mul => case Div => case Dot => case DotS =>
  }

  lemma MemoryFrame(m: Machine, w: Word)
    requires w == Store || w == Fetch
    requires |m.stack| >= Depth(w)
    ensures KeepsBelow(m, w)
  {
    match w
    case Store => case Fetch =>
  }

  lemma ShuffleFrame(m: Machine, w: Word)
    requires w == Dup || w == Drop || w == Swap || w == Over || w == Rot
    requires |m.stack| >= Depth(w)
    ensures KeepsBelow(m, w)
  {
    match w
    case Dup => case Drop => case Swap => case Over => case Rot =>
  }

  /** Storing a value in a valid cell and fetching it back yields that
      value and leaves the rest of the stack as it was. */
  lemma StoreFetch(m: Machine, v: int, addr: int)
    requires ValidAddress(addr)
    ensures var m1 := StoreWord(PushM(PushM(m, v), addr));
      FetchWord(PushM(m1, addr)).stack == m.stack + [v]
  {
    var s := PushM(PushM(m, v), addr);
    assert s.stack[..|s.stack| - 2] == m.stack;
  }

  /** A store to a valid cell changes exactly that cell. */
  lemma StoreChangesOneCell(m: Machine, v: int, addr: int, other: int)
    requires ValidAddress(addr) && ValidAddress(other) && other != addr
    ensures StoreWord(PushM(PushM(m, v), addr)).memory[other] == m.memory[other]
  {
  }

  /** No word of the table starts like a number, so a token `strtol`
      converts, and the empty token, name no word. */
  lemma NumberIsNoWord(tok: string)
    requires Strtol(tok).Some? || tok == ""
    ensures Lookup(Key(tok)).None?
  {
    if tok != "" {
      StrtolKey(tok);
    }
    assert forall k :: 0 <= k < |Dict| ==> !NumberLike(Dict[k].0) && Dict[k].0 != "";
  }

  /** Any whole-number token pushes its value. */
  lemma WholeNumberPushes(m: Machine, tok: string, v: int)
    requires WholeNumber(tok) == Some(v)
    ensures Eval(m, tok) == PushM(m, v)
  {
    NumberIsNoWord(tok);
  }

  /** The whole-token rule: a number followed by other text is unknown. */
  lemma TrailingTextIsUnknown(m: Machine, n: int, rest: string)
    requires |rest| > 0 && !IsDigit(rest[0])
    ensures Eval(m, Decimal(n) + rest) == Report(m, Unknown(Decimal(n) + rest))
  {
    PrefixVersusWhole(n, rest);
    NumberIsNoWord(Decimal(n) + rest);
  }

  /** A rendered number is read back as itself. */
  lemma NumberPushes(m: Machine, n: int)
    ensures Eval(m, Decimal(n)) == PushM(m, n)
  {
    WholeNumberDecimal(n);
    WholeNumberPushes(m, Decimal(n), n);
  }

  /** Lookup ignores case. */
  lemma CaseInsensitive(m: Machine, tok: string)
    requires Lookup(Key(tok)).Some?
    ensures Eval(m, tok) == Eval(m, Upcase(tok)) == Exec(m, Lookup(Key(tok)).value)
  {
    KeyUpcase(tok);
  }

  lemma LowerCaseWords()
    ensures Lookup(Key(".s")) == Some(DotS)
    ensures Lookup(Key("dup")) == Some(Dup)
  {
    KeyExamples();
  }

  /** The memory tests: `42 100 ! 100 @` leaves 42, a fresh cell reads 0,
      and an out-of-range fetch consumes its operand and pushes nothing. */
  lemma MemoryExamples()
    ensures var m := StoreWord(PushM(PushM(Init(), 42), 100));
      FetchWord(PushM(m, 100)).stack == [42]
    ensures FetchWord(PushM(Init(), 300)).stack == [0]
    ensures FetchWord(PushM(Init(), -5)) == Report(Init(), Error(InvalidFetch(-5)))
  {
    StoreFetch(Init(), 42, 100);
  }
}
