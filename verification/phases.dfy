/** Where the three interpreters part ways: the same input, evaluated by
    each, gives results that differ in division by zero, in letter case and
    in how much of a token must be a number. */
module Phases {

  import opened Options
  import opened Events
  import opened CText
  import opened ForthState
  import opened ForthPrims
  import opened ForthExec
  import opened ForthWords
  import PicoForth
  import UsbForth
  import Cells

  /** `/` with a zero divisor: the threaded interpreter pops only the
      divisor and pushes 0 back, so the stack is as it was; the two earlier
      interpreters pop both operands and push 0, one item fewer. */
  lemma DivisionByZeroPhases(m: Machine, p: PicoForth.Machine, u: UsbForth.Machine)
    requires |m.stack| >= 2 && Tos(m) == 0
    requires p.stack == m.stack && u.stack == m.stack && UsbForth.Valid(u)
    ensures var s := m.stack; var n := |s|;
      && Divide(m).stack == s
      && PicoForth.Divide(p).stack == s[..n - 2] + [0]
      && UsbForth.Divide(u).stack == s[..n - 2] + [0]
      && |Divide(m).stack| == |PicoForth.Divide(p).stack| + 1
  {
  }

  /** The threaded interpreter compares names as typed, the earlier two
      upper-case the token first: `dup` is unknown to the former on a
      dictionary of primitives and runs DUP in the latter. */
  lemma CasePhases(m: Machine, p: PicoForth.Machine, u: UsbForth.Machine, rest: seq<string>, fuel: nat)
    requires m.dict == Primitives && !m.compiling && UsbForth.Valid(u)
    ensures Eval(m, "dup", rest, fuel) == Step(Report(m, Unknown("dup")), rest, Ok)
    ensures PicoForth.Eval(p, "dup") == PicoForth.Exec(p, PicoForth.Dup)
    ensures UsbForth.Eval(u, "dup") == UsbForth.Exec(u, UsbForth.Dup)
  {
    LowerCaseUnknown(m, rest, fuel);
    PicoForth.LowerCaseWords();
    UsbForth.LowerCaseWords();
  }

  /** Outside a definition, on a dictionary of primitives, `dup` is
      reported unknown. */
  lemma LowerCaseUnknown(m: Machine, rest: seq<string>, fuel: nat)
    requires m.dict == Primitives && !m.compiling
    ensures Eval(m, "dup", rest, fuel) == Step(Report(m, Unknown("dup")), rest, Ok)
  {
    DupIsNoPrimitive();
  }

  /** `dup` names no primitive and is not a number. */
  lemma DupIsNoPrimitive()
    ensures Lookup(Primitives, Truncate("dup")).None? && WholeNumber("dup").None?
  {
    LookupFirst(Primitives, "dup");
    assert forall j :: 0 <= j < |Primitives| ==> Primitives[j].name != "dup";
    assert Truncate("dup") == "dup";
    assert SkipSpace("dup", 0) == 0;
  }

  /** A number followed by other text, such as `12abc`, naming no word: the
      first interpreter pushes the leading number, the later two report the
      token unknown and leave the stack alone. */
  lemma LiteralPhases(m: Machine, p: PicoForth.Machine, u: UsbForth.Machine, n: int, rest: string, fuel: nat)
    requires |rest| > 0 && !IsDigit(rest[0])
    requires !m.compiling && Lookup(m.dict, Truncate(Decimal(n) + rest)).None?
    requires |u.stack| < Cells.StackSize
    ensures var tok := Decimal(n) + rest;
      && Eval(m, tok, [], fuel) == Step(Report(m, Unknown(tok)), [], Ok)
      && PicoForth.Eval(p, tok) == PicoForth.Report(p, Unknown(tok))
      && UsbForth.Eval(u, tok) == u.(stack := u.stack + [n])
  {
    var tok := Decimal(n) + rest;
    PrefixVersusWhole(n, rest);
    assert tok[0] == Decimal(n)[0];
    assert tok != ":";
    PicoForth.TrailingTextIsUnknown(p, n, rest);
    UsbForth.DecimalPrefixPushes(u, n, rest);
  }
}
