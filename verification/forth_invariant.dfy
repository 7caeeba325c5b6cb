/** The well-formedness invariant of the threaded-code interpreter, its
    preservation by every token, and what it buys: a well-formed machine
    never reads outside its thread store or dictionary. Also: more fuel
    never changes a run that finished. */
module ForthInvariant {

  import opened Options
  import opened Events
  import opened CText
  import opened ForthState
  import opened ForthPrims
  import opened ForthExec

  // ---------------------------------------------------------------------
  // The shape of compiled code.

  /** From ip the thread holds a finished body: literals (LIT and a value)
      and indices below n, ending in EXIT. */
  predicate ClosedFrom(t: seq<int>, ip: nat, n: nat)
    decreases |t| - ip
  {
    ip < |t| &&
    (|| t[ip] == OpExit
     || (t[ip] == OpLit && ip + 1 < |t| && ClosedFrom(t, ip + 2, n))
     || (0 <= t[ip] < n && ClosedFrom(t, ip + 1, n)))
  }

  /** From ip the thread holds a body still being compiled: literals and
      indices below n, running to the end of the thread. */
  predicate OpenFrom(t: seq<int>, ip: nat, n: nat)
    decreases |t| - ip
  {
    || ip == |t|
    || (ip < |t| &&
        (|| (t[ip] == OpLit && ip + 1 < |t| && OpenFrom(t, ip + 2, n))
         || (0 <= t[ip] < n && OpenFrom(t, ip + 1, n))))
  }

  /** A finished body stays finished when code is appended after it and
      when the dictionary grows. */
  lemma {:induction false} ClosedGrow(t: seq<int>, x: seq<int>, ip: nat, n: nat, n': nat)
    requires ClosedFrom(t, ip, n) && n <= n'
    ensures ClosedFrom(t + x, ip, n')
    decreases |t| - ip
  {
    assert (t + x)[ip] == t[ip];
    if t[ip] == OpExit {
    } else if t[ip] == OpLit && ip + 1 < |t| && ClosedFrom(t, ip + 2, n) {
      ClosedGrow(t, x, ip + 2, n, n');
    } else {
      ClosedGrow(t, x, ip + 1, n, n');
    }
  }

  /** An open body stays open when a literal or a known index is appended. */
  lemma {:induction false} OpenAppend(t: seq<int>, x: seq<int>, ip: nat, n: nat)
    requires OpenFrom(t, ip, n)
    requires x == [] || (|x| == 2 && x[0] == OpLit) || (|x| == 1 && 0 <= x[0] < n)
    ensures OpenFrom(t + x, ip, n)
    decreases |t| - ip
  {
    if ip == |t| {
      if |x| == 2 {
        assert OpenFrom(t + x, ip + 2, n);
      } else if |x| == 1 {
        assert OpenFrom(t + x, ip + 1, n);
      }
    } else {
      assert (t + x)[ip] == t[ip];
      if t[ip] == OpLit && ip + 1 < |t| && OpenFrom(t, ip + 2, n) {
        OpenAppend(t, x, ip + 2, n);
      } else {
        OpenAppend(t, x, ip + 1, n);
      }
    }
  }

  /** Appending EXIT finishes an open body. */
  lemma {:induction false} OpenClose(t: seq<int>, ip: nat, n: nat)
    requires OpenFrom(t, ip, n)
    ensures ClosedFrom(t + [OpExit], ip, n)
    decreases |t| - ip
  {
    if ip < |t| {
      assert (t + [OpExit])[ip] == t[ip];
      if t[ip] == OpLit && ip + 1 < |t| && OpenFrom(t, ip + 2, n) {
        OpenClose(t, ip + 2, n);
      } else {
        OpenClose(t, ip + 1, n);
      }
    }
  }

  // ---------------------------------------------------------------------
  // The invariant.

  /** The body of colon entry i is finished, unless it is the definition
      being compiled, whose body is open. */
  predicate BodyOk(m: Machine, i: nat)
    requires i < |m.dict| && m.dict[i].kind.Colon?
  {
    var s := m.dict[i].kind.start;
    0 <= s <= |m.thread| &&
    if m.compiling && i == |m.dict| - 1 then OpenFrom(m.thread, s, |m.dict|)
    else ClosedFrom(m.thread, s, |m.dict|)
  }

  /** The dictionary starts with the primitives, variables are numbered in
      order from VarBase, the definition being compiled is the latest entry,
      and every colon body is well formed. */
  predicate WF(m: Machine) {
    && |Primitives| <= |m.dict| && m.dict[..|Primitives|] == Primitives
    && VarsNumbered(m.dict)
    && (m.compiling ==> m.dict[|m.dict| - 1].kind.Colon?)
    && forall i :: 0 <= i < |m.dict| && m.dict[i].kind.Colon? ==> BodyOk(m, i)
  }

  /** A dictionary without variable entries has an empty variable table. */
  lemma {:induction false} NoVars(d: seq<Entry>)
    requires forall k :: 0 <= k < |d| ==> !d[k].kind.Var?
    ensures VarsOf(d) == []
  {
    if |d| > 0 {
      NoVars(d[..|d| - 1]);
    }
  }

  /** The machine at start-up is well formed. */
  lemma InitWF()
    ensures WF(Init())
  {
    NoVars(Primitives);
  }

  /** Changes to the stack, memory and output keep the invariant. */
  lemma SameShapeWF(m: Machine, r: Machine)
    requires WF(m) && r.dict == m.dict && r.thread == m.thread && r.compiling == m.compiling
    ensures WF(r)
  {
    forall i | 0 <= i < |r.dict| && r.dict[i].kind.Colon? ensures BodyOk(r, i) {
      assert BodyOk(m, i);
    }
  }

  /** Outside a definition, adding variables and constants keeps the
      invariant, as long as variables stay numbered. */
  lemma DictGrowWF(m: Machine, r: Machine)
    requires WF(m) && !m.compiling && !r.compiling && r.thread == m.thread && m.dict <= r.dict
    requires forall k :: |m.dict| <= k < |r.dict| ==> !r.dict[k].kind.Colon?
    requires VarsNumbered(r.dict)
    ensures WF(r)
  {
    assert r.dict[..|Primitives|] == m.dict[..|Primitives|];
    forall i | 0 <= i < |r.dict| && r.dict[i].kind.Colon? ensures BodyOk(r, i) {
      assert i < |m.dict| && r.dict[i] == m.dict[i];
      assert BodyOk(m, i);
      var s := m.dict[i].kind.start;
      ClosedGrow(m.thread, [], s, |m.dict|, |r.dict|);
      assert m.thread + [] == m.thread;
    }
  }

  /** Every primitive keeps the invariant. */
  lemma PrimWF(m: Machine, op: Op, rest: seq<string>)
    requires WF(m) && !m.compiling
    ensures WF(ExecPrim(m, op, rest).m)
  {
    if op == Variable {
      VariableWF(m, rest);
    } else if op == Constant {
      ConstantWF(m, rest);
    } else {
      SameShapeWF(m, ExecPrim(m, op, rest).m);
    }
  }

  /** `VARIABLE` keeps the invariant: the new entry takes the next address. */
  lemma VariableWF(m: Machine, rest: seq<string>)
    requires WF(m) && !m.compiling
    ensures WF(VariableWord(m, rest).m)
  {
    var n := VariableWord(m, rest).m;
    if |VarsOf(m.dict)| < VarLimit && rest != [] {
      var e := Entry(rest[0], Var(VarBase + |VarsOf(m.dict)|));
      TablesAppend(m.dict, e);
      DictGrowWF(m, n);
    } else {
      SameShapeWF(m, n);
    }
  }

  /** `CONSTANT` keeps the invariant: the new entry is no variable. */
  lemma ConstantWF(m: Machine, rest: seq<string>)
    requires WF(m) && !m.compiling
    ensures WF(ConstantWord(m, rest).m)
  {
    var n := ConstantWord(m, rest).m;
    if |m.stack| >= 1 && rest != [] && |ConstsOf(m.dict)| < ConstLimit {
      var e := Entry(rest[0], Const(Tos(m)));
      TablesAppend(m.dict, e);
      DictGrowWF(m, n);
    } else {
      SameShapeWF(m, n);
    }
  }

  /** Running an entry from a well-formed machine outside a definition
      never gets stuck and leaves the machine well formed. */
  lemma ExecuteSafe(m: Machine, i: nat, rest: seq<string>, fuel: nat)
    requires WF(m) && !m.compiling && i < |m.dict|
    ensures Execute(m, i, rest, fuel).status != Stuck
    ensures WF(Execute(m, i, rest, fuel).m)
    decreases fuel, 0, 0
  {
    match m.dict[i].kind
    case Prim(op) => PrimWF(m, op, rest);
    case Var(addr) => SameShapeWF(m, PushM(m, addr));
    case Const(value) => SameShapeWF(m, PushM(m, value));
    case Colon(start) =>
      if fuel > 0 {
        assert BodyOk(m, i);
        WalkSafe(m, start, rest, fuel - 1);
      }
  }

  /** Running a finished body never gets stuck. */
  lemma WalkSafe(m: Machine, ip: nat, rest: seq<string>, fuel: nat)
    requires WF(m) && !m.compiling && ClosedFrom(m.thread, ip, |m.dict|)
    ensures Walk(m, ip, rest, fuel).status != Stuck
    ensures WF(Walk(m, ip, rest, fuel).m)
    decreases fuel, 1, |m.thread| - ip
  {
    var t := m.thread;
    if t[ip] == OpExit {
    } else if t[ip] == OpLit {
      SameShapeWF(m, PushM(m, t[ip + 1]));
      WalkSafe(PushM(m, t[ip + 1]), ip + 2, rest, fuel);
    } else {
      var s := Execute(m, t[ip], rest, fuel);
      ExecuteSafe(m, t[ip], rest, fuel);
      if s.status == Ok {
        ClosedGrow(t, [], ip + 1, |m.dict|, |s.m.dict|);
        assert t + [] == t;
        WalkSafe(s.m, ip + 1, s.rest, fuel);
      }
    }
  }

  /** Appending code while compiling keeps the invariant when what is
      appended is a literal, a known index, or nothing. */
  lemma CompileAppendWF(m: Machine, r: Machine, x: seq<int>)
    requires WF(m) && m.compiling
    requires r.dict == m.dict && r.compiling && r.thread == m.thread + x
    requires x == [] || (|x| == 2 && x[0] == OpLit) || (|x| == 1 && 0 <= x[0] < |m.dict|)
    ensures WF(r)
  {
    var n := |m.dict|;
    forall i | 0 <= i < n && r.dict[i].kind.Colon? ensures BodyOk(r, i) {
      assert BodyOk(m, i);
      var st := m.dict[i].kind.start;
      if i == n - 1 {
        OpenAppend(m.thread, x, st, n);
      } else {
        ClosedGrow(m.thread, x, st, n, n);
      }
    }
  }

  lemma CompileTokenWF(m: Machine, tok: string)
    requires WF(m) && m.compiling
    ensures WF(CompileToken(m, tok))
  {
    var r := CompileToken(m, tok);
    match WholeNumber(tok)
    case Some(v) =>
      if |m.thread| + 2 >= ThreadMax {
        SameShapeWF(m, r);
      } else {
        CompileAppendWF(m, r, [OpLit, v]);
      }
    case None =>
      match Lookup(m.dict, tok)
      case Some(i) =>
        if |m.thread| >= ThreadMax {
          SameShapeWF(m, r);
        } else {
          CompileAppendWF(m, r, [i]);
        }
      case None => SameShapeWF(m, r);
  }

  /** `;` finishes the open body. */
  lemma CloseColonWF(m: Machine)
    requires WF(m) && m.compiling
    ensures WF(CloseColon(m))
  {
    var r := CloseColon(m);
    var n := |m.dict|;
    forall i | 0 <= i < n && r.dict[i].kind.Colon? ensures BodyOk(r, i) {
      assert BodyOk(m, i);
      var st := m.dict[i].kind.start;
      if i == n - 1 {
        OpenClose(m.thread, st, n);
      } else {
        ClosedGrow(m.thread, [OpExit], st, n, n);
      }
    }
  }

  /** `:` opens an empty body at the end of the thread store. */
  lemma OpenColonWF(m: Machine, name: string)
    requires WF(m) && !m.compiling
    ensures WF(OpenColon(m, name))
  {
    var r := OpenColon(m, name);
    var n := |m.dict|;
    TablesAppend(m.dict, Entry(name, Colon(|m.thread|)));
    assert r.dict[..|Primitives|] == m.dict[..|Primitives|];
    forall i | 0 <= i < n + 1 && r.dict[i].kind.Colon? ensures BodyOk(r, i) {
      if i < n {
        OpenColonKeeps(m, name, i);
      }
    }
  }

  /** Opening a colon entry leaves every earlier body closed. */
  lemma OpenColonKeeps(m: Machine, name: string, i: nat)
    requires WF(m) && !m.compiling && i < |m.dict| && m.dict[i].kind.Colon?
    ensures BodyOk(OpenColon(m, name), i)
  {
    var r := OpenColon(m, name);
    assert r.dict[i] == m.dict[i] && BodyOk(m, i);
    ClosedGrow(m.thread, [], m.dict[i].kind.start, |m.dict|, |m.dict| + 1);
    assert m.thread + [] == m.thread;
  }

  /** Every token keeps a well-formed machine well formed and never gets
      stuck. */
  lemma EvalSafe(m: Machine, tok: string, rest: seq<string>, fuel: nat)
    requires WF(m)
    ensures Eval(m, tok, rest, fuel).status != Stuck
    ensures WF(Eval(m, tok, rest, fuel).m)
  {
    if m.compiling {
      if tok == ";" {
        CloseColonWF(m);
      } else {
        CompileTokenWF(m, tok);
      }
    } else if tok == ":" {
      if rest == [] {
        SameShapeWF(m, Report(m, Error(ColonNeedsName)));
      } else {
        OpenColonWF(m, rest[0]);
      }
    } else {
      match Lookup(m.dict, Truncate(tok))
      case Some(i) => ExecuteSafe(m, i, rest, fuel);
      case None =>
        match WholeNumber(tok)
        case Some(v) => SameShapeWF(m, PushM(m, v));
        case None => SameShapeWF(m, Report(m, Unknown(tok)));
    }
  }

  lemma {:induction false} EvalTokensSafe(m: Machine, toks: seq<string>, fuel: nat)
    requires WF(m)
    ensures EvalTokens(m, toks, fuel).status != Stuck
    ensures WF(EvalTokens(m, toks, fuel).m)
    decreases |toks|
  {
    if toks != [] {
      var s := Eval(m, toks[0], toks[1..], fuel);
      EvalSafe(m, toks[0], toks[1..], fuel);
      if s.status == Ok {
        EvalTokensSafe(s.m, s.rest, fuel);
      }
    }
  }

  lemma {:induction false} EvalLinesSafe(m: Machine, lines: seq<seq<string>>, fuel: nat)
    requires WF(m)
    ensures EvalLines(m, lines, fuel).status != Stuck
    ensures WF(EvalLines(m, lines, fuel).m)
    decreases |lines|
  {
    if lines != [] {
      var s := EvalTokens(m, lines[0], fuel);
      EvalTokensSafe(m, lines[0], fuel);
      if s.status == Ok {
        EvalLinesSafe(s.m, lines[1..], fuel);
      }
    }
  }

  /** Whatever lines are typed from start-up, the interpreter never reads
      outside its thread store or dictionary: a run ends normally or runs
      out of nesting fuel. */
  lemma NeverStuck(lines: seq<seq<string>>, fuel: nat)
    ensures EvalLines(Init(), lines, fuel).status != Stuck
    ensures WF(EvalLines(Init(), lines, fuel).m)
  {
    InitWF();
    EvalLinesSafe(Init(), lines, fuel);
  }
}
