/** Colon definitions at work: a definition line adds one entry and its
    code, calling the entry has the effect of typing its body, and the
    definitions the interpreter loads at start-up behave as their names
    say. */
module ForthExamples {

  import opened Options
  import opened Events
  import opened CText
  import opened CDiv
  import opened ForthState
  import opened ForthPrims
  import opened ForthExec
  import opened ForthCompile
  import opened ForthWords
  import opened ForthInvariant

  // ---------------------------------------------------------------------
  // Defining and calling.

  /** A name that neither starts a number nor has a sign followed by a
      digit is not read as a number. */
  lemma NotNumber(tok: string)
    requires |tok| > 0 && !IsSpace(tok[0]) && !IsDigit(tok[0])
    requires tok[0] == '-' || tok[0] == '+' ==> |tok| == 1 || !IsDigit(tok[1])
    ensures WholeNumber(tok).None?
  {
    assert SkipSpace(tok, 0) == 0;
  }

  /** The code of a definition sits at the end of the thread store. */
  lemma AtEnd(t: seq<int>, c: seq<int>)
    ensures At(t + c, |t|, c)
  {
  }

  /** `: name body ;`: the line ends normally, the name is added as a new
      entry, and the body's code followed by EXIT starts where the thread
      store used to end. The new entry is what the name finds when no
      earlier entry has that name and the name fits the word buffer. */
  lemma Definition(m: Machine, name: string, body: seq<string>, ps: seq<Piece>, fuel: nat)
    requires !m.compiling
    requires CompilesAll(m.dict + [Entry(name, Colon(|m.thread|))], body, ps)
    requires |m.thread| + 2 * |body| < ThreadMax
    ensures var r := EvalTokens(m, [":", name] + body + [";"], fuel);
      && r == Step(m.(dict := m.dict + [Entry(name, Colon(|m.thread|))], thread := m.thread + (CodeOfAll(ps) + [OpExit])), [], Ok)
      && At(r.m.thread, |m.thread|, CodeOfAll(ps) + [OpExit])
      && (Lookup(m.dict, name).None? && |name| < WordBuf ==> Lookup(r.m.dict, Truncate(name)) == Some(|m.dict|))
  {
    DefinePlain(m, name, body, ps, [], fuel);
    assert [":", name] + body + [";"] + [] == [":", name] + body + [";"];
    assert m.thread + CodeOfAll(ps) + [OpExit] == m.thread + (CodeOfAll(ps) + [OpExit]);
    if Lookup(m.dict, name).None? {
      FirstDeclarationWins(m.dict, Entry(name, Colon(|m.thread|)), []);
      assert m.dict + [Entry(name, Colon(|m.thread|))] + [] == m.dict + [Entry(name, Colon(|m.thread|))];
    }
    AtEnd(m.thread, CodeOfAll(ps) + [OpExit]);
  }

  /** Calling a colon entry whose body is plain has the effect of typing
      the body, one nesting level down; with no fuel left the call is
      abandoned. */
  lemma CallColon(x: Machine, i: nat, start: nat, body: seq<string>, ps: seq<Piece>, rest: seq<string>, fuel: nat)
    requires !x.compiling && i < |x.dict| && x.dict[i].kind == Colon(start)
    requires MeansAll(x.dict, body, ps)
    requires At(x.thread, start, CodeOfAll(ps) + [OpExit])
    ensures EvalTokens(x, body, fuel).status == Ok
    ensures Execute(x, i, rest, fuel + 1) == Step(EvalTokens(x, body, fuel).m, rest, Ok)
    ensures Execute(x, i, rest, 0) == Step(x, rest, OutOfFuel)
  {
    RunPlain(x, start, body, ps, rest, fuel);
  }

  /** Calling a colon entry with a plain body performs the body's pieces. */
  lemma CallPlain(x: Machine, i: nat, start: nat, body: seq<string>, ps: seq<Piece>, rest: seq<string>, fuel: nat)
    requires !x.compiling && i < |x.dict| && x.dict[i].kind == Colon(start)
    requires MeansAll(x.dict, body, ps)
    requires At(x.thread, start, CodeOfAll(ps) + [OpExit])
    ensures Execute(x, i, rest, fuel + 1) == Step(PerformAll(x, ps), rest, Ok)
  {
    CallColon(x, i, start, body, ps, rest, fuel);
    InterpretPieces(x, body, ps, fuel);
  }

  /** A primitive that does not read the input is a piece of any body. */
  lemma PrimitiveMeans(d: seq<Entry>, k: nat)
    requires HasPrimitives(d) && k < |Primitives| && k != 14 && k != 15
    requires WholeNumber(Primitives[k].name).None?
    ensures Means(d, Primitives[k].name, Word(k))
  {
    PrimitiveKey(d, k);
    assert |Primitives[k].name| <= 8;
  }

  /** Two and three pieces performed in order. */
  lemma PerformTwo(x: Machine, p: Piece, q: Piece)
    ensures PerformAll(x, [p, q]) == Perform(Perform(x, p), q)
  {
    var y := Perform(x, p);
    assert [p, q][1..] == [q];
    assert PerformAll(x, [p, q]) == PerformAll(y, [q]);
    assert [q][1..] == [];
    assert PerformAll(y, [q]) == PerformAll(Perform(y, q), []);
  }

  lemma PerformThree(x: Machine, p: Piece, q: Piece, r: Piece)
    ensures PerformAll(x, [p, q, r]) == Perform(Perform(Perform(x, p), q), r)
  {
    assert [p, q, r][1..] == [q, r];
    assert PerformAll(x, [p, q, r]) == PerformAll(Perform(x, p), [q, r]);
    PerformTwo(Perform(x, p), q, r);
  }

  /** Performing a primitive's piece runs its word on an empty rest of
      line. */
  lemma PerformPrimitive(x: Machine, k: nat, op: Op)
    requires HasPrimitives(x.dict) && k < |Primitives| && Primitives[k].kind == Prim(op)
    ensures Perform(x, Word(k)) == ExecPrim(x, op, []).m
  {
    assert x.dict[k] == Primitives[k];
  }

  lemma PerformDup(x: Machine)
    requires HasPrimitives(x.dict)
    ensures Perform(x, Word(7)) == DupWord(x)
  {
    PerformPrimitive(x, 7, Dup);
  }

  lemma PerformSwap(x: Machine)
    requires HasPrimitives(x.dict)
    ensures Perform(x, Word(9)) == SwapWord(x)
  {
    PerformPrimitive(x, 9, Swap);
  }

  lemma PerformSub(x: Machine)
    requires HasPrimitives(x.dict)
    ensures Perform(x, Word(1)) == Binary(x, Sub)
  {
    PerformPrimitive(x, 1, Sub);
  }

  lemma PerformMul(x: Machine)
    requires HasPrimitives(x.dict)
    ensures Perform(x, Word(2)) == Binary(x, Mul)
  {
    PerformPrimitive(x, 2, Mul);
  }

  lemma PerformDiv(x: Machine)
    requires HasPrimitives(x.dict)
    ensures Perform(x, Word(3)) == Divide(x)
  {
    PerformPrimitive(x, 3, Div);
  }

  // ---------------------------------------------------------------------
  // `: SQR DUP * ;`

  const SquareBody: seq<string> := ["DUP", "*"]
  const SquarePieces: seq<Piece> := [Word(7), Word(2)]

  lemma SquareMeans(d: seq<Entry>)
    requires HasPrimitives(d)
    ensures MeansAll(d, SquareBody, SquarePieces)
    ensures CodeOfAll(SquarePieces) + [OpExit] == [7, 2, OpExit]
  {
    NotNumber("DUP");
    NotNumber("*");
    PrimitiveMeans(d, 7);
    PrimitiveMeans(d, 2);
  }

  /** The line `: SQR DUP * ;` adds SQR with the code DUP, *, EXIT; SQR
      then finds the new entry unless an earlier one has that name. */
  lemma SquareLine(m: Machine, fuel: nat)
    requires HasPrimitives(m.dict) && !m.compiling
    requires |m.thread| + 4 < ThreadMax
    ensures var r := EvalTokens(m, [":", "SQR"] + SquareBody + [";"], fuel);
      && r == Step(m.(dict := m.dict + [Entry("SQR", Colon(|m.thread|))], thread := m.thread + [7, 2, OpExit]), [], Ok)
      && (Lookup(m.dict, "SQR").None? ==> Lookup(r.m.dict, "SQR") == Some(|m.dict|))
  {
    var d := m.dict + [Entry("SQR", Colon(|m.thread|))];
    assert d[..|Primitives|] == m.dict[..|Primitives|];
    SquareMeans(d);
    MeansCompiles(d, SquareBody, SquarePieces);
    Definition(m, "SQR", SquareBody, SquarePieces, fuel);
  }

  /** Calling SQR replaces the top item n by n * n. */
  lemma Square(x: Machine, i: nat, start: nat, rest: seq<string>, fuel: nat)
    requires HasPrimitives(x.dict) && !x.compiling && i < |x.dict| && x.dict[i].kind == Colon(start)
    requires At(x.thread, start, [7, 2, OpExit]) && |x.stack| >= 1
    ensures Execute(x, i, rest, fuel + 1) ==
      Step(x.(stack := x.stack[..|x.stack| - 1] + [Tos(x) * Tos(x)]), rest, Ok)
  {
    SquareMeans(x.dict);
    CallPlain(x, i, start, SquareBody, SquarePieces, rest, fuel);
    SquarePerform(x);
  }

  lemma SquarePerform(x: Machine)
    requires HasPrimitives(x.dict) && |x.stack| >= 1
    ensures PerformAll(x, SquarePieces) == x.(stack := x.stack[..|x.stack| - 1] + [Tos(x) * Tos(x)])
  {
    PerformTwo(x, Word(7), Word(2));
    PerformDup(x);
    PerformMul(DupWord(x));
    SquareWords(x);
  }

  /** The words SQR's body runs: DUP, *. */
  lemma SquareWords(x: Machine)
    requires |x.stack| >= 1
    ensures Binary(DupWord(x), Mul) == x.(stack := x.stack[..|x.stack| - 1] + [Tos(x) * Tos(x)])
  {
    var n := |x.stack|;
    var y := DupWord(x);
    assert y.stack == x.stack + [Tos(x)];
    assert y.stack[..n - 1] == x.stack[..n - 1];
  }

  // ---------------------------------------------------------------------
  // `: NEGATE 0 SWAP - ;`

  const NegateBody: seq<string> := ["0", "SWAP", "-"]
  const NegatePieces: seq<Piece> := [Lit(0), Word(9), Word(1)]

  /** Inside a definition the body of NEGATE compiles to LIT 0, SWAP, -,
      whatever the dictionary holds after the primitives. */
  lemma NegateCompiles(d: seq<Entry>)
    requires HasPrimitives(d)
    ensures CompilesAll(d, NegateBody, NegatePieces)
    ensures PlainAll(d, NegatePieces)
    ensures CodeOfAll(NegatePieces) + [OpExit] == [OpLit, 0, 9, 1, OpExit]
  {
    NegateTail(d);
    WholeNumberDecimal(0);
    assert Decimal(0) == "0";
  }

  /** SWAP and - compile to the primitives' indices. */
  lemma NegateTail(d: seq<Entry>)
    requires HasPrimitives(d)
    ensures CompilesAll(d, NegateBody[1..], NegatePieces[1..])
    ensures PlainAll(d, NegatePieces[1..])
  {
    NotNumber("SWAP");
    NotNumber("-");
    PrimitiveMeans(d, 9);
    PrimitiveMeans(d, 1);
    assert CompilesAll(d, NegateBody[2..], NegatePieces[2..]);
  }

  /** Calling NEGATE replaces the top item n by -n. The code holds LIT 0,
      so an entry named "0" plays no part. */
  lemma Negate(x: Machine, i: nat, start: nat, rest: seq<string>, fuel: nat)
    requires HasPrimitives(x.dict) && i < |x.dict| && x.dict[i].kind == Colon(start)
    requires At(x.thread, start, [OpLit, 0, 9, 1, OpExit]) && |x.stack| >= 1
    ensures Execute(x, i, rest, fuel + 1) ==
      Step(x.(stack := x.stack[..|x.stack| - 1] + [-Tos(x)]), rest, Ok)
  {
    NegateCompiles(x.dict);
    CallPieces(x, i, start, NegatePieces, rest, fuel);
    NegatePerform(x);
  }

  lemma NegatePerform(x: Machine)
    requires HasPrimitives(x.dict) && |x.stack| >= 1
    ensures PerformAll(x, NegatePieces) == x.(stack := x.stack[..|x.stack| - 1] + [-Tos(x)])
  {
    PerformThree(x, Lit(0), Word(9), Word(1));
    var y := PushM(x, 0);
    assert Perform(x, Lit(0)) == y;
    PerformSwap(y);
    PerformSub(SwapWord(y));
    NegateWords(x);
  }

  /** The words NEGATE's body runs: 0, SWAP, -. */
  lemma NegateWords(x: Machine)
    requires |x.stack| >= 1
    ensures Binary(SwapWord(PushM(x, 0)), Sub) == x.(stack := x.stack[..|x.stack| - 1] + [-Tos(x)])
  {
    var n := |x.stack|;
    var below := x.stack[..n - 1];
    var y := PushM(x, 0);
    assert y.stack == below + [Tos(x), 0];
    var z := SwapWord(y);
    assert z.stack == below + [0, Tos(x)];
    assert z.stack[..n - 1] == below;
  }

  // ---------------------------------------------------------------------
  // `: 2/ DUP 2 / ;` -- the start-up definition leaves the item it halves
  // under the half.

  const HalfBodyAsWritten: seq<string> := ["DUP", "2", "/"]
  const HalfPiecesAsWritten: seq<Piece> := [Word(7), Lit(2), Word(3)]

  lemma HalfCompilesAsWritten(d: seq<Entry>)
    requires HasPrimitives(d)
    ensures CompilesAll(d, HalfBodyAsWritten, HalfPiecesAsWritten)
    ensures PlainAll(d, HalfPiecesAsWritten)
    ensures CodeOfAll(HalfPiecesAsWritten) + [OpExit] == [7, OpLit, 2, 3, OpExit]
  {
    NotNumber("DUP");
    NotNumber("/");
    WholeNumberDecimal(2);
    assert Decimal(2) == "2";
    PrimitiveMeans(d, 7);
    PrimitiveMeans(d, 3);
    assert CompilesAll(d, HalfBodyAsWritten[2..], HalfPiecesAsWritten[2..]);
    assert CompilesAll(d, HalfBodyAsWritten[1..], HalfPiecesAsWritten[1..]);
    assert PlainAll(d, HalfPiecesAsWritten[1..]);
  }

  /** The start-up line `: 2/ DUP 2 / ;` compiles to DUP, LIT 2, /, EXIT,
      whatever the dictionary holds after the primitives. */
  lemma HalfLineAsWritten(m: Machine, fuel: nat)
    requires HasPrimitives(m.dict) && !m.compiling
    requires |m.thread| + 6 < ThreadMax
    ensures EvalTokens(m, [":", "2/"] + HalfBodyAsWritten + [";"], fuel) ==
      Step(m.(dict := m.dict + [Entry("2/", Colon(|m.thread|))], thread := m.thread + [7, OpLit, 2, 3, OpExit]), [], Ok)
  {
    var d := m.dict + [Entry("2/", Colon(|m.thread|))];
    assert d[..|Primitives|] == m.dict[..|Primitives|];
    HalfCompilesAsWritten(d);
    Definition(m, "2/", HalfBodyAsWritten, HalfPiecesAsWritten, fuel);
  }

  /** As written, 2/ leaves the item and its half: n becomes n, n / 2, one
      item deeper than before. */
  lemma HalfAsWritten(x: Machine, i: nat, start: nat, rest: seq<string>, fuel: nat)
    requires HasPrimitives(x.dict) && i < |x.dict| && x.dict[i].kind == Colon(start)
    requires At(x.thread, start, [7, OpLit, 2, 3, OpExit]) && |x.stack| >= 1
    ensures Execute(x, i, rest, fuel + 1) ==
      Step(x.(stack := x.stack + [TruncDiv(Tos(x), 2)]), rest, Ok)
    ensures |Execute(x, i, rest, fuel + 1).m.stack| == |x.stack| + 1
  {
    HalfCompilesAsWritten(x.dict);
    CallPieces(x, i, start, HalfPiecesAsWritten, rest, fuel);
    HalfPerformAsWritten(x);
  }

  lemma HalfPerformAsWritten(x: Machine)
    requires HasPrimitives(x.dict) && |x.stack| >= 1
    ensures PerformAll(x, HalfPiecesAsWritten) == x.(stack := x.stack + [TruncDiv(Tos(x), 2)])
  {
    PerformThree(x, Word(7), Lit(2), Word(3));
    PerformDup(x);
    assert Perform(DupWord(x), Lit(2)) == PushM(DupWord(x), 2);
    PerformDiv(PushM(DupWord(x), 2));
    HalfWordsAsWritten(x);
  }

  /** The words the start-up body of 2/ runs: DUP, 2, /. */
  lemma HalfWordsAsWritten(x: Machine)
    requires |x.stack| >= 1
    ensures Divide(PushM(DupWord(x), 2)) == x.(stack := x.stack + [TruncDiv(Tos(x), 2)])
  {
    var n := |x.stack|;
    var y := DupWord(x);
    assert y.stack == x.stack + [Tos(x)];
    var z := PushM(y, 2);
    assert z.stack == x.stack + [Tos(x), 2];
    assert z.stack[..n] == x.stack;
  }

  const HalfBody: seq<string> := ["2", "/"]
  const HalfPieces: seq<Piece> := [Lit(2), Word(3)]

  lemma HalfCompiles(d: seq<Entry>)
    requires HasPrimitives(d)
    ensures CompilesAll(d, HalfBody, HalfPieces)
    ensures PlainAll(d, HalfPieces)
    ensures CodeOfAll(HalfPieces) + [OpExit] == [OpLit, 2, 3, OpExit]
  {
    NotNumber("/");
    WholeNumberDecimal(2);
    assert Decimal(2) == "2";
    PrimitiveMeans(d, 3);
    assert CompilesAll(d, HalfBody[1..], HalfPieces[1..]);
    assert PlainAll(d, HalfPieces[1..]);
  }

  /** The corrected line `: 2/ 2 / ;` compiles to LIT 2, /, EXIT, whatever
      the dictionary holds after the primitives. */
  lemma HalfLine(m: Machine, fuel: nat)
    requires HasPrimitives(m.dict) && !m.compiling
    requires |m.thread| + 4 < ThreadMax
    ensures EvalTokens(m, [":", "2/"] + HalfBody + [";"], fuel) ==
      Step(m.(dict := m.dict + [Entry("2/", Colon(|m.thread|))], thread := m.thread + [OpLit, 2, 3, OpExit]), [], Ok)
  {
    var d := m.dict + [Entry("2/", Colon(|m.thread|))];
    assert d[..|Primitives|] == m.dict[..|Primitives|];
    HalfCompiles(d);
    Definition(m, "2/", HalfBody, HalfPieces, fuel);
  }

  /** Corrected, 2/ replaces the top item n by its half, as the name says,
      and leaves the depth unchanged. */
  lemma Half(x: Machine, i: nat, start: nat, rest: seq<string>, fuel: nat)
    requires HasPrimitives(x.dict) && i < |x.dict| && x.dict[i].kind == Colon(start)
    requires At(x.thread, start, [OpLit, 2, 3, OpExit]) && |x.stack| >= 1
    ensures Execute(x, i, rest, fuel + 1) ==
      Step(x.(stack := x.stack[..|x.stack| - 1] + [TruncDiv(Tos(x), 2)]), rest, Ok)
    ensures |Execute(x, i, rest, fuel + 1).m.stack| == |x.stack|
  {
    HalfCompiles(x.dict);
    CallPieces(x, i, start, HalfPieces, rest, fuel);
    HalfPerform(x);
  }

  lemma HalfPerform(x: Machine)
    requires HasPrimitives(x.dict) && |x.stack| >= 1
    ensures PerformAll(x, HalfPieces) == x.(stack := x.stack[..|x.stack| - 1] + [TruncDiv(Tos(x), 2)])
  {
    PerformTwo(x, Lit(2), Word(3));
    assert Perform(x, Lit(2)) == PushM(x, 2);
    PerformDiv(PushM(x, 2));
    HalfWords(x);
  }

  /** The words the corrected body of 2/ runs: 2, /. */
  lemma HalfWords(x: Machine)
    requires |x.stack| >= 1
    ensures Divide(PushM(x, 2)) == x.(stack := x.stack[..|x.stack| - 1] + [TruncDiv(Tos(x), 2)])
  {
    var n := |x.stack|;
    var z := PushM(x, 2);
    assert z.stack == x.stack + [2];
    assert z.stack[..n - 1] == x.stack[..n - 1];
  }

  // ---------------------------------------------------------------------
  // Start-up.

  /** The definitions `bootstrap_phase4` evaluates before the first prompt,
      one token list per line, as written. */
  const BootLinesAsWritten: seq<seq<string>> := [
    [":", "1+", "1", "+", ";"], [":", "1-", "1", "-", ";"],
    [":", "2+", "2", "+", ";"], [":", "2-", "2", "-", ";"],
    [":", "2*", "DUP", "+", ";"], [":", "2/"] + HalfBodyAsWritten + [";"],
    [":", "NEGATE"] + NegateBody + [";"], [":", "NIP", "SWAP", "DROP", ";"],
    [":", "TUCK", "SWAP", "OVER", ";"], [":", "-ROT", "ROT", "ROT", ";"],
    ["4", "CONSTANT", "CELL"], [":", "CELLS", "CELL", "*", ";"],
    [":", "CELL+", "CELL", "+", ";"], ["-1", "CONSTANT", "TRUE"],
    ["0", "CONSTANT", "FALSE"], [":", "SQR"] + SquareBody + [";"],
    [":", "CUBE", "DUP", "DUP", "*", "*", ";"], [":", ".CR", "13", "EMIT", "10", "EMIT", ";"],
    [":", "2DROP", "DROP", "DROP", ";"], [":", "2DUP", "OVER", "OVER", ";"]
  ]

  /** The start-up definitions with 2/ corrected to halve in place. */
  const BootLines: seq<seq<string>> := BootLinesAsWritten[5 := [":", "2/"] + HalfBody + [";"]]

  /** The two start-up scripts differ only in the body of 2/. */
  lemma BootLinesDiffer()
    ensures |BootLines| == |BootLinesAsWritten| == 20
    ensures forall k :: 0 <= k < |BootLines| && k != 5 ==> BootLines[k] == BootLinesAsWritten[k]
    ensures BootLinesAsWritten[5] == [":", "2/", "DUP", "2", "/", ";"]
    ensures BootLines[5] == [":", "2/", "2", "/", ";"]
  {
  }

  /** Whatever the user types after start-up, the interpreter never reads
      outside its thread store or dictionary, and the machine stays well
      formed. */
  lemma Startup(lines: seq<seq<string>>, fuel: nat)
    ensures EvalLines(Init(), BootLinesAsWritten + lines, fuel).status != Stuck
    ensures WF(EvalLines(Init(), BootLinesAsWritten + lines, fuel).m)
    ensures EvalLines(Init(), BootLines + lines, fuel).status != Stuck
    ensures WF(EvalLines(Init(), BootLines + lines, fuel).m)
  {
    NeverStuck(BootLinesAsWritten + lines, fuel);
    NeverStuck(BootLines + lines, fuel);
  }
}
