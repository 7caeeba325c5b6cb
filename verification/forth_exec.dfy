/** The colon compiler, the threaded-code runner and the token evaluator.

    Running a colon body can recurse without bound (a word may call itself),
    so running takes fuel: the number of colon bodies that may still be
    entered, one level of nesting each. */
module ForthExec {

  import opened Options
  import opened Events
  import opened CText
  import opened ForthState
  import opened ForthPrims

  /** Ok: the token was handled. OutOfFuel: the nesting bound was reached.
      Stuck: the C code would read outside the thread store or the
      dictionary, which well-formed machines never do. */
  datatype Status = Ok | OutOfFuel | Stuck

  datatype Step = Step(m: Machine, rest: seq<string>, status: Status)

  /** Running a word consumes tokens only from the front of the line: what
      is left is a tail of what was there. */
  predicate Suffix(tail: seq<string>, line: seq<string>) {
    |tail| <= |line| && tail == line[|line| - |tail|..]
  }

  /** Runs dictionary entry i, as a primitive, a variable or constant, or a
      colon definition. */
  function Execute(m: Machine, i: nat, rest: seq<string>, fuel: nat): (r: Step)
    requires i < |m.dict|
    ensures Grows(m, r.m) && |r.rest| <= |rest|
    decreases fuel, 0, 0
  {
    match m.dict[i].kind
    case Prim(op) =>
      var n := ExecPrim(m, op, rest);
      Step(n.m, n.rest, Ok)
    case Var(addr) => Step(PushM(m, addr), rest, Ok)
    case Const(value) => Step(PushM(m, value), rest, Ok)
    case Colon(start) =>
      if fuel == 0 then Step(m, rest, OutOfFuel) else Walk(m, start, rest, fuel - 1)
  }

  /** `colon_dispatch`: runs the thread from ip, pushing literals and
      running dictionary entries, until EXIT. */
  function Walk(m: Machine, ip: int, rest: seq<string>, fuel: nat): (r: Step)
    ensures Grows(m, r.m) && |r.rest| <= |rest|
    decreases fuel, 1, if 0 <= ip <= |m.thread| then |m.thread| - ip else 0
  {
    if ip < 0 || ip >= |m.thread| then Step(m, rest, Stuck)
    else if m.thread[ip] == OpExit then Step(m, rest, Ok)
    else if m.thread[ip] == OpLit then
      if ip + 1 < |m.thread| then Walk(PushM(m, m.thread[ip + 1]), ip + 2, rest, fuel)
      else Step(m, rest, Stuck)
    else if 0 <= m.thread[ip] < |m.dict| then
      var s := Execute(m, m.thread[ip], rest, fuel);
      if s.status != Ok then s
      else
        Walk(s.m, ip + 1, s.rest, fuel)
    else Step(m, rest, Stuck)
  }

  /** Running an entry leaves a tail of the line. */
  lemma {:induction false} ExecuteSuffix(m: Machine, i: nat, rest: seq<string>, fuel: nat)
    requires i < |m.dict|
    ensures Suffix(Execute(m, i, rest, fuel).rest, rest)
    decreases fuel, 0, 0
  {
    match m.dict[i].kind
    case Prim(op) =>
    case Var(_) =>
    case Const(_) =>
    case Colon(start) =>
      if fuel > 0 {
        WalkSuffix(m, start, rest, fuel - 1);
      }
  }

  /** Running a thread leaves a tail of the line. */
  lemma {:induction false} WalkSuffix(m: Machine, ip: int, rest: seq<string>, fuel: nat)
    ensures Suffix(Walk(m, ip, rest, fuel).rest, rest)
    decreases fuel, 1, if 0 <= ip <= |m.thread| then |m.thread| - ip else 0
  {
    if ip < 0 || ip >= |m.thread| || m.thread[ip] == OpExit {
    } else if m.thread[ip] == OpLit {
      if ip + 1 < |m.thread| {
        WalkSuffix(PushM(m, m.thread[ip + 1]), ip + 2, rest, fuel);
      }
    } else if 0 <= m.thread[ip] < |m.dict| {
      var s := Execute(m, m.thread[ip], rest, fuel);
      ExecuteSuffix(m, m.thread[ip], rest, fuel);
      if s.status == Ok {
        WalkSuffix(s.m, ip + 1, s.rest, fuel);
        SuffixTrans(Walk(s.m, ip + 1, s.rest, fuel).rest, s.rest, rest);
      }
    }
  }

  lemma SuffixTrans(a: seq<string>, b: seq<string>, c: seq<string>)
    requires Suffix(a, b) && Suffix(b, c)
    ensures Suffix(a, c)
  {
    assert c[|c| - |b|..][|b| - |a|..] == c[|c| - |a|..];
  }

  /** `compile_word`: a token that is entirely a number becomes LIT and the
      value; otherwise a known word (looked up by its full text) becomes its
      dictionary index; anything else is reported and compiles nothing. */
  function CompileToken(m: Machine, tok: string): (r: Machine)
    ensures r.stack == m.stack && r.memory == m.memory && r.dict == m.dict
    ensures r.compiling == m.compiling && m.thread <= r.thread && m.out <= r.out
    ensures WholeNumber(tok).Some? && |m.thread| + 2 < ThreadMax ==>
      r.thread == m.thread + [OpLit, WholeNumber(tok).value] && r.out == m.out
    ensures WholeNumber(tok).None? && Lookup(m.dict, tok).Some? && |m.thread| < ThreadMax ==>
      r.thread == m.thread + [Lookup(m.dict, tok).value] && r.out == m.out
    ensures WholeNumber(tok).Some? && |m.thread| + 2 >= ThreadMax ==>
      r == Report(m, Error(ThreadOverflow))
    ensures WholeNumber(tok).None? && Lookup(m.dict, tok).Some? && |m.thread| >= ThreadMax ==>
      r == Report(m, Error(ThreadOverflow))
    ensures WholeNumber(tok).None? && Lookup(m.dict, tok).None? ==>
      r == Report(m, Unknown(tok))
    ensures r.thread == m.thread ==> |r.out| == |m.out| + 1
  {
    match WholeNumber(tok)
    case Some(v) =>
      if |m.thread| + 2 >= ThreadMax then Report(m, Error(ThreadOverflow))
      else m.(thread := m.thread + [OpLit, v])
    case None =>
      match Lookup(m.dict, tok)
      case Some(i) =>
        if |m.thread| >= ThreadMax then Report(m, Error(ThreadOverflow))
        else m.(thread := m.thread + [i])
      case None => Report(m, Unknown(tok))
  }

  /** Starts a colon definition named `name`: its body will begin at the
      current end of the thread store. */
  function OpenColon(m: Machine, name: string): Machine {
    m.(dict := m.dict + [Entry(name, Colon(|m.thread|))], compiling := true)
  }

  /** Ends a colon definition. */
  function CloseColon(m: Machine): Machine {
    m.(thread := m.thread + [OpExit], compiling := false)
  }

  /** `eval`: one token, with `rest` the tokens after it on the line. While
      compiling, only `;` is special. Otherwise `:` opens a definition; any
      other token is looked up (truncated to the word buffer) before it is
      read as a number. */
  function Eval(m: Machine, tok: string, rest: seq<string>, fuel: nat): (r: Step)
    ensures |r.rest| <= |rest| && m.dict <= r.m.dict && m.out <= r.m.out && m.thread <= r.m.thread
    ensures m.compiling ==> r.status == Ok && r.rest == rest && r.m.dict == m.dict
    ensures m.compiling && tok != ";" ==> r.m.compiling
    ensures m.compiling && tok == ";" ==> !r.m.compiling && r.m.thread == m.thread + [OpExit]
    ensures !m.compiling && tok == ":" && rest != [] ==>
      r.m.compiling && r.m.dict == m.dict + [Entry(rest[0], Colon(|m.thread|))] && r.rest == rest[1..]
    ensures !m.compiling && tok == ":" && rest == [] ==> r == Step(Report(m, Error(ColonNeedsName)), rest, Ok)
    ensures !m.compiling && tok != ":" ==> !r.m.compiling && r.m.thread == m.thread
  {
    if m.compiling then
      if tok == ";" then Step(CloseColon(m), rest, Ok)
      else Step(CompileToken(m, tok), rest, Ok)
    else if tok == ":" then
      if rest == [] then Step(Report(m, Error(ColonNeedsName)), rest, Ok)
      else Step(OpenColon(m, rest[0]), rest[1..], Ok)
    else
      match Lookup(m.dict, Truncate(tok))
      case Some(i) => Execute(m, i, rest, fuel)
      case None =>
        match WholeNumber(tok)
        case Some(v) => Step(PushM(m, v), rest, Ok)
        case None => Step(Report(m, Unknown(tok)), rest, Ok)
  }

  /** Evaluating a token leaves a tail of the line. */
  lemma EvalSuffix(m: Machine, tok: string, rest: seq<string>, fuel: nat)
    ensures Suffix(Eval(m, tok, rest, fuel).rest, rest)
  {
    if !m.compiling && tok != ":" {
      match Lookup(m.dict, Truncate(tok))
      case Some(i) => ExecuteSuffix(m, i, rest, fuel);
      case None =>
    }
  }

  /** The tokens of one line, left to right. A `:`, VARIABLE or CONSTANT
      takes the token after it as a name. Running out of fuel abandons the
      rest of the line. */
  function EvalTokens(m: Machine, toks: seq<string>, fuel: nat): (r: Step)
    ensures m.dict <= r.m.dict && m.out <= r.m.out && m.thread <= r.m.thread
    decreases |toks|
  {
    if toks == [] then Step(m, [], Ok)
    else
      var s := Eval(m, toks[0], toks[1..], fuel);
      if s.status != Ok then s else EvalTokens(s.m, s.rest, fuel)
  }

  /** Lines in order; the compiling flag carries over from one line to the
      next. */
  function EvalLines(m: Machine, lines: seq<seq<string>>, fuel: nat): (r: Step)
    ensures m.dict <= r.m.dict && m.out <= r.m.out && m.thread <= r.m.thread
    decreases |lines|
  {
    if lines == [] then Step(m, [], Ok)
    else
      var s := EvalTokens(m, lines[0], fuel);
      if s.status != Ok then s else EvalLines(s.m, lines[1..], fuel)
  }
}
