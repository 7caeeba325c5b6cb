/** The first phase: a stack-only interpreter with eleven fixed words,
    case-insensitive lookup, a capacity-checked push, and number parsing
    that accepts any token starting with a number. */
module UsbForth {

  import opened Options
  import FixedDict
  import opened Events
  import opened CText
  import CDiv
  import Cells

  datatype Word = Add | Sub | Mul | Div | Dot | DotS | Dup | Drop | Swap | Over | Rot

  /** The fixed dictionary, in declaration order; every name is upper case. */
  const Dict: seq<(string, Word)> := [
    ("+", Add), ("-", Sub), ("*", Mul), ("/", Div),
    (".", Dot), (".S", DotS),
    ("DUP", Dup), ("DROP", Drop), ("SWAP", Swap), ("OVER", Over), ("ROT", Rot)
  ]

  function Lookup(name: string): Option<Word> {
    FixedDict.Lookup(Dict, name)
  }

  datatype Machine = Machine(stack: seq<int>, out: seq<Event>)

  /** The capacity the push check maintains. */
  predicate Valid(m: Machine) {
    |m.stack| <= Cells.StackSize
  }

  function Report(m: Machine, e: Event): Machine {
    m.(out := m.out + [e])
  }

  /** `push`: refuses, with an overflow report, once 64 items are held. */
  function Push(m: Machine, v: int): (r: Machine)
    ensures |m.stack| < Cells.StackSize ==> r == m.(stack := m.stack + [v])
    ensures |m.stack| >= Cells.StackSize ==> r == Report(m, Error(StackOverflow))
  {
    if |m.stack| < Cells.StackSize then m.(stack := Cells.Push(m.stack, v))
    else Report(m, Error(StackOverflow))
  }

  datatype Popped = Popped(value: int, m: Machine)

  /** `pop`: on an empty stack, reports underflow and yields 0. */
  function Pop(m: Machine): (p: Popped)
    ensures |m.stack| > 0 ==> p.m == m.(stack := m.stack[..|m.stack| - 1]) && p.value == m.stack[|m.stack| - 1]
    ensures |m.stack| == 0 ==> p == Popped(0, Report(m, Error(StackUnderflow)))
  {
    var c := Cells.Pop(m.stack);
    var m1 := m.(stack := c.stack);
    Popped(c.value, if c.underflow then Report(m1, Error(StackUnderflow)) else m1)
  }

  /** The stack effect "the top n items are replaced by `results`", with the
      output unchanged. */
  predicate Replaced(m: Machine, r: Machine, n: nat, results: seq<int>) {
    n <= |m.stack| && r == m.(stack := m.stack[..|m.stack| - n] + results)
  }

  /** Second item from the top, and the top. */
  function Nos(m: Machine): int requires |m.stack| >= 2 { m.stack[|m.stack| - 2] }
  function Tos(m: Machine): int requires |m.stack| >= 1 { m.stack[|m.stack| - 1] }

  /** `+ - *`: pop b, pop a, push a op b. */
  function Arith(m: Machine, w: Word): (r: Machine)
    requires Valid(m)
    requires w == Add || w == Sub || w == Mul
    ensures Valid(r)
    ensures |m.stack| < 2 ==> r == Report(m, Error(NeedsItems(Name(w), 2)))
    ensures |m.stack| >= 2 ==> Replaced(m, r, 2, [Apply(w, Nos(m), Tos(m))])
  {
    if |m.stack| < 2 then Report(m, Error(NeedsItems(Name(w), 2)))
    else
      var b := Pop(m);
      var a := Pop(b.m);
      Push(a.m, Apply(w, a.value, b.value))
  }

  function Apply(w: Word, a: int, b: int): int
    requires w == Add || w == Sub || w == Mul
  {
    match w
    case Add => a + b
    case Sub => a - b
    case Mul => a * b
  }

  function Name(w: Word): string {
    match w
    case Add => "+" case Sub => "-" case Mul => "*" case Div => "/"
    case Dot => "." case DotS => ".S" case Dup => "DUP" case Drop => "DROP"
    case Swap => "SWAP" case Over => "OVER" case Rot => "ROT"
  }

  /** `/`: pops both operands; a zero divisor is reported and 0 pushed in
      place of the quotient, otherwise the quotient truncated toward zero. */
  function Divide(m: Machine): (r: Machine)
    requires Valid(m)
    ensures Valid(r)
    ensures |m.stack| < 2 ==> r == Report(m, Error(NeedsItems("/", 2)))
    ensures |m.stack| >= 2 && Tos(m) == 0 ==>
      r == Report(m.(stack := m.stack[..|m.stack| - 2] + [0]), Error(DivisionByZero))
    ensures |m.stack| >= 2 && Tos(m) != 0 ==> Replaced(m, r, 2, [CDiv.TruncDiv(Nos(m), Tos(m))])
  {
    if |m.stack| < 2 then Report(m, Error(NeedsItems("/", 2)))
    else
      var b := Pop(m);
      var a := Pop(b.m);
      if b.value == 0 then Push(Report(a.m, Error(DivisionByZero)), 0)
      else Push(a.m, CDiv.TruncDiv(a.value, b.value))
  }

  /** `.`: pops the top item and prints it. */
  function Print(m: Machine): (r: Machine)
    requires Valid(m)
    ensures Valid(r)
    ensures |m.stack| < 1 ==> r == Report(m, Error(NeedsItems(".", 1)))
    ensures |m.stack| >= 1 ==> r == Report(m.(stack := m.stack[..|m.stack| - 1]), Printed(Tos(m)))
  {
    if |m.stack| < 1 then Report(m, Error(NeedsItems(".", 1)))
    else
      var p := Pop(m);
      Report(p.m, Printed(p.value))
  }

  /** `DUP`, `OVER`: copy an item to the top, subject to the capacity
      check. */
  function Copy(m: Machine, w: Word): (r: Machine)
    requires Valid(m)
    requires w == Dup || w == Over
    ensures Valid(r)
    ensures |m.stack| < Depth(w) ==> r == Report(m, Error(NeedsItems(Name(w), Depth(w))))
    ensures Depth(w) <= |m.stack| < Cells.StackSize ==>
      r == m.(stack := m.stack + [m.stack[|m.stack| - Depth(w)]])
    ensures Depth(w) <= |m.stack| && |m.stack| >= Cells.StackSize ==>
      r == Report(m, Error(StackOverflow))
  {
    if |m.stack| < Depth(w) then Report(m, Error(NeedsItems(Name(w), Depth(w))))
    else Push(m, m.stack[|m.stack| - Depth(w)])
  }

  /** How many items a word needs on the stack. */
  function Depth(w: Word): nat {
    match w
    case Add => 2 case Sub => 2 case Mul => 2 case Div => 2
    case Dot => 1 case DotS => 0 case Dup => 1 case Drop => 1
    case Swap => 2 case Over => 2 case Rot => 3
  }

  /** `DROP`: discards the top item. */
  function DropWord(m: Machine): (r: Machine)
    requires Valid(m)
    ensures Valid(r)
    ensures |m.stack| < 1 ==> r == Report(m, Error(NeedsItems("DROP", 1)))
    ensures |m.stack| >= 1 ==> Replaced(m, r, 1, [])
  {
    if |m.stack| < 1 then Report(m, Error(NeedsItems("DROP", 1)))
    else m.(stack := m.stack[..|m.stack| - 1])
  }

  /** `SWAP`: exchanges the top two items. */
  function SwapWord(m: Machine): (r: Machine)
    requires Valid(m)
    ensures Valid(r)
    ensures |m.stack| < 2 ==> r == Report(m, Error(NeedsItems("SWAP", 2)))
    ensures |m.stack| >= 2 ==> Replaced(m, r, 2, [Tos(m), Nos(m)])
  {
    if |m.stack| < 2 then Report(m, Error(NeedsItems("SWAP", 2)))
    else
      var a := Pop(m);
      var b := Pop(a.m);
      Push(Push(b.m, a.value), b.value)
  }

  /** `ROT`: brings the third item to the top. */
  function RotWord(m: Machine): (r: Machine)
    requires Valid(m)
    ensures Valid(r)
    ensures |m.stack| < 3 ==> r == Report(m, Error(NeedsItems("ROT", 3)))
    ensures |m.stack| >= 3 ==> Replaced(m, r, 3, [Nos(m), Tos(m), m.stack[|m.stack| - 3]])
  {
    if |m.stack| < 3 then Report(m, Error(NeedsItems("ROT", 3)))
    else
      var a := Pop(m);
      var b := Pop(a.m);
      var c := Pop(b.m);
      Push(Push(Push(c.m, b.value), a.value), c.value)
  }

  /** Runs one word; every word keeps the stack within capacity. */
  function Exec(m: Machine, w: Word): (r: Machine)
    requires Valid(m)
    ensures Valid(r)
  {
    match w
    case Add => Arith(m, w)
    case Sub => Arith(m, w)
    case Mul => Arith(m, w)
    case Div => Divide(m)
    case Dot => Print(m)
    case DotS => Report(m, StackShown(m.stack))
    case Dup => Copy(m, w)
    case Over => Copy(m, w)
    case Drop => DropWord(m)
    case Swap => SwapWord(m)
    case Rot => RotWord(m)
  }

  /** `eval`: a dictionary word first (matched upper-cased), then a number
      prefix, otherwise the token is reported unknown. */
  function Eval(m: Machine, tok: string): (r: Machine)
    requires Valid(m)
    ensures Valid(r)
  {
    match Lookup(Key(tok))
    case Some(w) => Exec(m, w)
    case None =>
      match NumberPrefix(tok)
      case Some(v) => Push(m, v)
      case None => Report(m, Unknown(tok))
  }

  /** One input line, already split into tokens. */
  function EvalLine(m: Machine, toks: seq<string>): (r: Machine)
    requires Valid(m)
    ensures Valid(r)
    ensures |toks| == 0 ==> r == m
    ensures |toks| == 1 ==> r == Eval(m, toks[0])
    decreases |toks|
  {
    if |toks| == 0 then m else EvalLine(Eval(m, toks[0]), toks[1..])
  }

  /** The tokens of a line are evaluated left to right: a line is its
      first part followed by the rest. */
  lemma {:induction false} EvalLineAppend(m: Machine, a: seq<string>, b: seq<string>)
    requires Valid(m)
    ensures EvalLine(m, a + b) == EvalLine(EvalLine(m, a), b)
    decreases |a|
  {
    if |a| == 0 {
      assert a + b == b;
    } else {
      assert (a + b)[0] == a[0] && (a + b)[1..] == a[1..] + b;
      EvalLineAppend(Eval(m, a[0]), a[1..], b);
    }
  }

  // ---------------------------------------------------------------------
  // Properties

  /** On a full stack a push is refused and the stack is left as it was. */
  lemma PushOnFullStack(m: Machine, v: int)
    requires |m.stack| == Cells.StackSize
    ensures Push(m, v).stack == m.stack
    ensures Push(m, v).out == m.out + [Error(StackOverflow)]
  {
  }

  /** `pop` on an empty stack yields 0 and leaves it empty. */
  lemma PopEmpty(m: Machine)
    requires m.stack == []
    ensures Pop(m).value == 0 && Pop(m).m.stack == []
    ensures Pop(m).m.out == m.out + [Error(StackUnderflow)]
  {
  }

  /** Every word with too few items reports it and leaves the stack as it
      was. */
  lemma UnderflowLeavesStack(m: Machine, w: Word)
    requires Valid(m) && |m.stack| < Depth(w)
    ensures Exec(m, w) == Report(m, Error(NeedsItems(Name(w), Depth(w))))
  {
  }

  /** No word of the table starts like a number, so a token `strtol`
      converts names no word. */
  lemma NumberIsNoWord(tok: string)
    requires Strtol(tok).Some?
    ensures Lookup(Key(tok)).None?
  {
    StrtolKey(tok);
    assert forall k :: 0 <= k < |Dict| ==> !NumberLike(Dict[k].0);
  }

  /** Any token that starts with a number pushes that number, ignoring the
      rest: `+12abc` pushes 12, `007x` pushes 7. */
  lemma NumberPrefixPushes(m: Machine, tok: string, v: int)
    requires NumberPrefix(tok) == Some(v) && |m.stack| < Cells.StackSize
    ensures Eval(m, tok) == m.(stack := m.stack + [v])
  {
    NumberIsNoWord(tok);
  }

  /** A rendered number followed by text that does not start with a digit
      pushes the number. */
  lemma DecimalPrefixPushes(m: Machine, n: int, rest: string)
    requires |rest| == 0 || !IsDigit(rest[0])
    requires |m.stack| < Cells.StackSize
    ensures Eval(m, Decimal(n) + rest) == m.(stack := m.stack + [n])
  {
    StrtolDecimal(n, rest);
    NumberPrefixPushes(m, Decimal(n) + rest, n);
  }

  /** Only a token with no leading number is reported unknown. */
  lemma UnknownOnlyWithoutNumber(m: Machine, tok: string)
    requires Valid(m) && Lookup(Key(tok)).None?
    ensures Eval(m, tok) == Report(m, Unknown(tok)) <==> Strtol(tok).None?
  {
    if Strtol(tok).Some? {
      var r := Eval(m, tok);
      if |m.stack| < Cells.StackSize {
        assert |r.out| == |m.out|;
      } else {
        assert r.out[|m.out|] == Error(StackOverflow);
      }
    }
  }

  lemma TwelveAbc(m: Machine)
    requires |m.stack| < Cells.StackSize
    ensures Eval(m, "12abc") == m.(stack := m.stack + [12])
  {
    assert Lookup(Key("12abc")).None?;
    assert Decimal(12) + "abc" == "12abc";
    DecimalPrefixPushes(m, 12, "abc");
  }

  /** Lookup ignores case: a token and its upper-cased form select the same
      word, and a word token is executed before any number parsing. */
  lemma CaseInsensitive(m: Machine, tok: string)
    requires Valid(m) && Lookup(Key(tok)).Some?
    ensures Eval(m, tok) == Eval(m, Upcase(tok)) == Exec(m, Lookup(Key(tok)).value)
  {
    KeyUpcase(tok);
  }

  lemma LowerCaseWords()
    ensures Lookup(Key("dup")) == Some(Dup)
    ensures Lookup(Key(".s")) == Some(DotS)
    ensures Lookup(Key("Rot")) == Some(Rot)
  {
    KeyExamples();
    assert Dict[5] == (".S", DotS) && Dict[6] == ("DUP", Dup) && Dict[10] == ("ROT", Rot);
  }
}
