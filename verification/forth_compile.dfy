/** Compiling and running agree with interpreting. For a body made of
    numbers and of words that neither read the input nor enter another
    colon body, `compile_word` emits exactly one piece of code per token,
    and running that code has the same effect as typing the tokens in
    interpret mode. */
module ForthCompile {

  import opened Options
  import opened CText
  import opened ForthState
  import opened ForthPrims
  import opened ForthExec

  /** Entries whose run may read the input (VARIABLE, CONSTANT) or enter a
      colon body. */
  predicate Reads(k: Kind) {
    k.Colon? || k == Prim(Variable) || k == Prim(Constant)
  }

  /** How both modes read a token they treat alike: a number no entry is
      called, or a short name of an entry that does not read the input. */
  datatype Piece = Lit(value: int) | Word(index: nat)

  predicate Means(d: seq<Entry>, tok: string, p: Piece) {
    && tok != ";" && tok != ":"
    && match p
       case Lit(v) => WholeNumber(tok) == Some(v) && Lookup(d, Truncate(tok)).None?
       case Word(i) =>
         WholeNumber(tok).None? && |tok| < WordBuf && Lookup(d, tok) == Some(i) && !Reads(d[i].kind)
  }

  predicate MeansAll(d: seq<Entry>, toks: seq<string>, ps: seq<Piece>) {
    && |toks| == |ps|
    && (toks == [] || (Means(d, toks[0], ps[0]) && MeansAll(d, toks[1..], ps[1..])))
  }

  /** How `compile_word` reads a token inside a definition: a whole number
      is a literal whatever the dictionary holds, since the number is tried
      first; anything else is the index its full text finds. */
  predicate Compiles(d: seq<Entry>, tok: string, p: Piece) {
    && tok != ";"
    && match p
       case Lit(v) => WholeNumber(tok) == Some(v)
       case Word(i) => WholeNumber(tok).None? && Lookup(d, tok) == Some(i)
  }

  predicate CompilesAll(d: seq<Entry>, toks: seq<string>, ps: seq<Piece>) {
    && |toks| == |ps|
    && (toks == [] || (Compiles(d, toks[0], ps[0]) && CompilesAll(d, toks[1..], ps[1..])))
  }

  /** A token both modes treat alike compiles to its piece. */
  lemma {:induction false} MeansCompiles(d: seq<Entry>, toks: seq<string>, ps: seq<Piece>)
    requires MeansAll(d, toks, ps)
    ensures CompilesAll(d, toks, ps)
    decreases |toks|
  {
    if toks != [] {
      MeansCompiles(d, toks[1..], ps[1..]);
    }
  }

  /** The code `compile_word` emits for a piece: LIT and the value, or the
      index. */
  function CodeOf(p: Piece): (c: seq<int>)
    ensures 1 <= |c| <= 2
  {
    match p
    case Lit(v) => [OpLit, v]
    case Word(i) => [i]
  }

  function CodeOfAll(ps: seq<Piece>): (c: seq<int>)
    ensures |c| <= 2 * |ps|
  {
    if ps == [] then [] else CodeOf(ps[0]) + CodeOfAll(ps[1..])
  }

  /** While compiling, a token that reads as a piece appends the piece's
      code. */
  lemma CompileOne(c: Machine, toks: seq<string>, p: Piece, fuel: nat)
    requires c.compiling && toks != [] && Compiles(c.dict, toks[0], p) && |c.thread| + 2 < ThreadMax
    ensures EvalTokens(c, toks, fuel) == EvalTokens(c.(thread := c.thread + CodeOf(p)), toks[1..], fuel)
  {
    assert Eval(c, toks[0], toks[1..], fuel) == Step(c.(thread := c.thread + CodeOf(p)), toks[1..], Ok);
  }

  /** A non-reading entry runs the same whatever follows it on the line and
      whatever the fuel, consumes none of the line, and keeps the dictionary
      and thread store. */
  lemma ExecPlain(x: Machine, i: nat, r1: seq<string>, r2: seq<string>, f1: nat, f2: nat)
    requires i < |x.dict| && !Reads(x.dict[i].kind)
    ensures Execute(x, i, r1, f1) == Step(Execute(x, i, r2, f2).m, r1, Ok)
    ensures Execute(x, i, r1, f1).m.dict == x.dict
    ensures Execute(x, i, r1, f1).m.thread == x.thread
    ensures Execute(x, i, r1, f1).m.compiling == x.compiling
  {
  }

  /** What a piece does in interpret mode. An index outside the
      dictionary does nothing; no piece that a token means has one. */
  function Perform(x: Machine, p: Piece): Machine {
    match p
    case Lit(v) => PushM(x, v)
    case Word(i) => if i < |x.dict| then Execute(x, i, [], 0).m else x
  }

  /** The pieces performed one after the other. */
  function PerformAll(x: Machine, ps: seq<Piece>): Machine
    decreases |ps|
  {
    if ps == [] then x else PerformAll(Perform(x, ps[0]), ps[1..])
  }

  /** Every word among the pieces names a non-reading entry of d. */
  predicate PlainAll(d: seq<Entry>, ps: seq<Piece>) {
    ps == [] || ((ps[0].Word? ==> ps[0].index < |d| && !Reads(d[ps[0].index].kind)) && PlainAll(d, ps[1..]))
  }

  /** Outside a definition, a token that reads as a piece performs it. */
  lemma InterpretStep(x: Machine, tok: string, p: Piece, rest: seq<string>, fuel: nat)
    requires !x.compiling && Means(x.dict, tok, p)
    ensures Perform(x, p).dict == x.dict && Perform(x, p).thread == x.thread && !Perform(x, p).compiling
    ensures EvalTokens(x, [tok] + rest, fuel) == EvalTokens(Perform(x, p), rest, fuel)
  {
    assert ([tok] + rest)[1..] == rest;
    match p
    case Lit(v) =>
      assert Eval(x, tok, rest, fuel) == Step(PushM(x, v), rest, Ok);
    case Word(i) =>
      assert Truncate(tok) == tok;
      ExecPlain(x, i, rest, [], fuel, 0);
      assert Eval(x, tok, rest, fuel) == Execute(x, i, rest, fuel);
  }

  /** Interpreting tokens that read as pieces performs the pieces and
      consumes the whole line. */
  lemma {:induction false} InterpretPieces(x: Machine, toks: seq<string>, ps: seq<Piece>, fuel: nat)
    requires !x.compiling && MeansAll(x.dict, toks, ps)
    ensures EvalTokens(x, toks, fuel) == Step(PerformAll(x, ps), [], Ok)
    ensures PlainAll(x.dict, ps)
    decreases |toks|
  {
    if toks != [] {
      assert toks == [toks[0]] + toks[1..];
      InterpretStep(x, toks[0], ps[0], toks[1..], fuel);
      InterpretPieces(Perform(x, ps[0]), toks[1..], ps[1..], fuel);
    }
  }

  /** One step of running a thread at a literal. */
  lemma WalkLit(x: Machine, ip: nat, rest: seq<string>, fuel: nat)
    requires ip + 1 < |x.thread| && x.thread[ip] == OpLit
    ensures Walk(x, ip, rest, fuel) == Walk(PushM(x, x.thread[ip + 1]), ip + 2, rest, fuel)
  {
  }

  /** One step of running a thread at the index of a non-reading entry. */
  lemma WalkWord(x: Machine, ip: nat, rest: seq<string>, fuel: nat)
    requires ip < |x.thread| && 0 <= x.thread[ip] < |x.dict| && !Reads(x.dict[x.thread[ip]].kind)
    ensures Walk(x, ip, rest, fuel) == Walk(Perform(x, Word(x.thread[ip])), ip + 1, rest, fuel)
  {
    var i := x.thread[ip];
    ExecPlain(x, i, rest, [], fuel, 0);
    WalkEntry(x, ip, rest, fuel);
  }

  /** At the index of an entry that finishes, the runner goes on after it. */
  lemma WalkEntry(x: Machine, ip: nat, rest: seq<string>, fuel: nat)
    requires ip < |x.thread| && 0 <= x.thread[ip] < |x.dict|
    requires Execute(x, x.thread[ip], rest, fuel).status == Ok
    ensures var s := Execute(x, x.thread[ip], rest, fuel);
      Walk(x, ip, rest, fuel) == Walk(s.m, ip + 1, s.rest, fuel)
  {
  }

  /** The thread holds code c at ip. */
  predicate At(t: seq<int>, ip: nat, c: seq<int>) {
    ip + |c| <= |t| && forall k :: 0 <= k < |c| ==> t[ip + k] == c[k]
  }

  lemma AtSplit(t: seq<int>, ip: nat, a: seq<int>, b: seq<int>)
    requires At(t, ip, a + b)
    ensures At(t, ip, a) && At(t, ip + |a|, b)
  {
    forall k | 0 <= k < |a| ensures t[ip + k] == a[k] {
      assert (a + b)[k] == a[k];
    }
    forall k | 0 <= k < |b| ensures t[ip + |a| + k] == b[k] {
      assert (a + b)[|a| + k] == b[k];
    }
  }

  lemma AtHead(t: seq<int>, ip: nat, c: seq<int>)
    requires At(t, ip, c) && |c| > 0
    ensures t[ip] == c[0]
    ensures |c| > 1 ==> t[ip + 1] == c[1]
  {
    assert t[ip + 0] == c[0];
  }

  /** Running the code of one plain piece performs it and moves past it. */
  lemma WalkPiece(x: Machine, ip: nat, p: Piece, rest: seq<string>, fuel: nat)
    requires At(x.thread, ip, CodeOf(p)) && ip + |CodeOf(p)| < |x.thread|
    requires p.Word? ==> p.index < |x.dict| && !Reads(x.dict[p.index].kind)
    ensures Perform(x, p).dict == x.dict && Perform(x, p).thread == x.thread
    ensures Walk(x, ip, rest, fuel) == Walk(Perform(x, p), ip + |CodeOf(p)|, rest, fuel)
  {
    AtHead(x.thread, ip, CodeOf(p));
    if p.Lit? {
      assert CodeOf(p) == [OpLit, p.value];
      WalkLit(x, ip, rest, fuel);
    } else {
      assert CodeOf(p) == [p.index];
      WalkWord(x, ip, rest, fuel);
      ExecPlain(x, p.index, [], [], 0, 0);
    }
  }

  lemma CodeOfAllCons(ps: seq<Piece>)
    requires ps != []
    ensures CodeOfAll(ps) + [OpExit] == CodeOf(ps[0]) + (CodeOfAll(ps[1..]) + [OpExit])
  {
  }

  /** Running the code of plain pieces from ip up to its EXIT performs
      the pieces and leaves the line untouched. */
  lemma {:induction false} RunPieces(x: Machine, ip: nat, ps: seq<Piece>, rest: seq<string>, fuel: nat)
    requires PlainAll(x.dict, ps)
    requires At(x.thread, ip, CodeOfAll(ps) + [OpExit])
    ensures Walk(x, ip, rest, fuel) == Step(PerformAll(x, ps), rest, Ok)
    decreases |ps|
  {
    var t := x.thread;
    if ps == [] {
      AtHead(t, ip, CodeOfAll(ps) + [OpExit]);
      WalkExit(x, ip, rest, fuel);
    } else {
      RunPiecesStep(x, ip, ps, rest, fuel);
      RunPieces(Perform(x, ps[0]), ip + |CodeOf(ps[0])|, ps[1..], rest, fuel);
    }
  }

  /** One step of RunPieces: the first piece runs and the rest of the code
      follows it. */
  lemma RunPiecesStep(x: Machine, ip: nat, ps: seq<Piece>, rest: seq<string>, fuel: nat)
    requires ps != [] && PlainAll(x.dict, ps)
    requires At(x.thread, ip, CodeOfAll(ps) + [OpExit])
    ensures PlainAll(Perform(x, ps[0]).dict, ps[1..])
    ensures At(Perform(x, ps[0]).thread, ip + |CodeOf(ps[0])|, CodeOfAll(ps[1..]) + [OpExit])
    ensures Walk(x, ip, rest, fuel) == Walk(Perform(x, ps[0]), ip + |CodeOf(ps[0])|, rest, fuel)
    ensures PerformAll(x, ps) == PerformAll(Perform(x, ps[0]), ps[1..])
  {
    var p := ps[0];
    CodeOfAllCons(ps);
    AtSplit(x.thread, ip, CodeOf(p), CodeOfAll(ps[1..]) + [OpExit]);
    WalkPiece(x, ip, p, rest, fuel);
  }

  /** At EXIT the runner stops and hands back the machine untouched. */
  lemma WalkExit(x: Machine, ip: nat, rest: seq<string>, fuel: nat)
    requires ip < |x.thread| && x.thread[ip] == OpExit
    ensures Walk(x, ip, rest, fuel) == Step(x, rest, Ok)
  {
  }

  /** Calling a colon entry whose code is made of plain pieces performs
      them, one nesting level down, and leaves the line untouched. */
  lemma CallPieces(x: Machine, i: nat, start: nat, ps: seq<Piece>, rest: seq<string>, fuel: nat)
    requires i < |x.dict| && x.dict[i].kind == Colon(start)
    requires PlainAll(x.dict, ps) && At(x.thread, start, CodeOfAll(ps) + [OpExit])
    ensures Execute(x, i, rest, fuel + 1) == Step(PerformAll(x, ps), rest, Ok)
  {
    RunPieces(x, start, ps, rest, fuel);
  }

  /** Running compiled code from ip up to its EXIT does what interpreting
      the tokens it was compiled from does, and leaves the line untouched. */
  lemma RunPlain(x: Machine, ip: nat, toks: seq<string>, ps: seq<Piece>, rest: seq<string>, fuel: nat)
    requires !x.compiling && MeansAll(x.dict, toks, ps)
    requires At(x.thread, ip, CodeOfAll(ps) + [OpExit])
    ensures EvalTokens(x, toks, fuel).status == Ok
    ensures Walk(x, ip, rest, fuel) == Step(EvalTokens(x, toks, fuel).m, rest, Ok)
  {
    InterpretPieces(x, toks, ps, fuel);
    RunPieces(x, ip, ps, rest, fuel);
  }

  /** While compiling, tokens that read as pieces append the pieces' code
      one after the other, as long as the thread store has room. */
  lemma ThreadAppend(t: seq<int>, ps: seq<Piece>)
    requires ps != []
    ensures t + CodeOf(ps[0]) + CodeOfAll(ps[1..]) == t + CodeOfAll(ps)
  {
  }

  lemma {:induction false} CompileTokens(c: Machine, toks: seq<string>, ps: seq<Piece>, after: seq<string>, fuel: nat)
    requires c.compiling && CompilesAll(c.dict, toks, ps)
    requires |c.thread| + 2 * |toks| < ThreadMax
    ensures EvalTokens(c, toks + after, fuel) ==
      EvalTokens(c.(thread := c.thread + CodeOfAll(ps)), after, fuel)
    decreases |toks|
  {
    if toks == [] {
      assert toks + after == after;
      assert c.thread + CodeOfAll(ps) == c.thread;
    } else {
      var c1 := c.(thread := c.thread + CodeOf(ps[0]));
      CompileOne(c, toks + after, ps[0], fuel);
      assert (toks + after)[1..] == toks[1..] + after;
      assert EvalTokens(c, toks + after, fuel) == EvalTokens(c1, toks[1..] + after, fuel);
      CompileTokens(c1, toks[1..], ps[1..], after, fuel);
      ThreadAppend(c.thread, ps);
      var c2 := c1.(thread := c1.thread + CodeOfAll(ps[1..]));
      assert c2 == c.(thread := c.thread + CodeOfAll(ps));
    }
  }

  /** `: name body ;` outside a definition: the name is added as a colon
      entry whose body is the code of the body's pieces and EXIT. */
  lemma DefinePlain(m: Machine, name: string, body: seq<string>, ps: seq<Piece>, more: seq<string>, fuel: nat)
    requires !m.compiling
    requires CompilesAll(m.dict + [Entry(name, Colon(|m.thread|))], body, ps)
    requires |m.thread| + 2 * |body| < ThreadMax
    ensures EvalTokens(m, [":", name] + body + [";"] + more, fuel) ==
      EvalTokens(m.(dict := m.dict + [Entry(name, Colon(|m.thread|))],
                    thread := m.thread + CodeOfAll(ps) + [OpExit]), more, fuel)
  {
    var toks := [":", name] + body + [";"] + more;
    var c := OpenColon(m, name);
    assert Eval(m, ":", toks[1..], fuel) == Step(c, toks[2..], Ok);
    assert toks[2..] == body + ([";"] + more);
    CompileTokens(c, body, ps, [";"] + more, fuel);
    var c2 := c.(thread := c.thread + CodeOfAll(ps));
    assert ([";"] + more)[1..] == more;
    assert EvalTokens(c2, [";"] + more, fuel) == EvalTokens(CloseColon(c2), more, fuel);
  }
}
