/** Fuel only bounds colon nesting: a run that finished with some fuel
    finishes the same way with any larger amount. */
module ForthFuel {

  import opened CText
  import opened ForthState
  import opened ForthExec

  lemma ExecuteFuel(m: Machine, i: nat, rest: seq<string>, f: nat, g: nat)
    requires i < |m.dict| && f <= g
    requires Execute(m, i, rest, f).status != OutOfFuel
    ensures Execute(m, i, rest, g) == Execute(m, i, rest, f)
    decreases f, 0, 0
  {
    match m.dict[i].kind
    case Prim(op) =>
    case Var(addr) =>
    case Const(value) =>
    case Colon(start) => WalkFuel(m, start, rest, f - 1, g - 1);
  }

  lemma WalkFuel(m: Machine, ip: int, rest: seq<string>, f: nat, g: nat)
    requires f <= g
    requires Walk(m, ip, rest, f).status != OutOfFuel
    ensures Walk(m, ip, rest, g) == Walk(m, ip, rest, f)
    decreases f, 1, if 0 <= ip <= |m.thread| then |m.thread| - ip else 0
  {
    if ip < 0 || ip >= |m.thread| {
    } else if m.thread[ip] == OpExit {
    } else if m.thread[ip] == OpLit {
      if ip + 1 < |m.thread| {
        WalkFuel(PushM(m, m.thread[ip + 1]), ip + 2, rest, f, g);
      }
    } else if 0 <= m.thread[ip] < |m.dict| {
      var s := Execute(m, m.thread[ip], rest, f);
      ExecuteFuel(m, m.thread[ip], rest, f, g);
      if s.status == Ok {
        WalkFuel(s.m, ip + 1, s.rest, f, g);
      }
    }
  }

  lemma EvalFuel(m: Machine, tok: string, rest: seq<string>, f: nat, g: nat)
    requires f <= g && Eval(m, tok, rest, f).status != OutOfFuel
    ensures Eval(m, tok, rest, g) == Eval(m, tok, rest, f)
  {
    if !m.compiling && tok != ":" {
      match Lookup(m.dict, Truncate(tok))
      case Some(i) => ExecuteFuel(m, i, rest, f, g);
      case None =>
    }
  }

  lemma {:induction false} EvalTokensFuel(m: Machine, toks: seq<string>, f: nat, g: nat)
    requires f <= g && EvalTokens(m, toks, f).status != OutOfFuel
    ensures EvalTokens(m, toks, g) == EvalTokens(m, toks, f)
    decreases |toks|
  {
    if toks != [] {
      var s := Eval(m, toks[0], toks[1..], f);
      EvalFuel(m, toks[0], toks[1..], f, g);
      if s.status == Ok {
        EvalTokensFuel(s.m, s.rest, f, g);
      }
    }
  }

  /** Whole sessions: more fuel changes nothing once a session finishes. */
  lemma {:induction false} EvalLinesFuel(m: Machine, lines: seq<seq<string>>, f: nat, g: nat)
    requires f <= g && EvalLines(m, lines, f).status != OutOfFuel
    ensures EvalLines(m, lines, g) == EvalLines(m, lines, f)
    decreases |lines|
  {
    if lines != [] {
      var s := EvalTokens(m, lines[0], f);
      EvalTokensFuel(m, lines[0], f, g);
      if s.status == Ok {
        EvalLinesFuel(s.m, lines[1..], f, g);
      }
    }
  }
}
