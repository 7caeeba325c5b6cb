/** The machine state of the threaded-code interpreter: value stack,
    memory, the append-only dictionary, the flat thread store that holds the
    bodies of colon definitions, and the compiling flag. */
module ForthState {

  import opened Options
  import opened Events
  import opened Cells

  const VarLimit := 32
  const ConstLimit := 32
  /** First memory cell handed to a VARIABLE. */
  const VarBase := 100
  /** Size of the thread store. */
  const ThreadMax := 512
  /** Thread marker: the next cell is a literal to push. */
  const OpLit := -1
  /** Thread marker: end of a colon body. */
  const OpExit := -2

  datatype Op =
    | Add | Sub | Mul | Div | Dot | DotS | Dup | Drop | Swap | Over | Rot
    | Store | Fetch | Variable | Constant | Mod | DivMod | Words | Emit
    | Equal | Less | Greater

  /** What a dictionary entry resolves to. A variable entry carries its
      memory address, a constant its value, a colon definition the offset of
      its body in the thread store. */
  datatype Kind = Prim(op: Op) | Var(addr: int) | Const(value: int) | Colon(start: int)

  datatype Entry = Entry(name: string, kind: Kind)

  /** The primitives, registered in this order at start-up. `.S` is also
      registered under the lower-case alias `.s`. */
  const Primitives: seq<Entry> := [
    Entry("+", Prim(Add)), Entry("-", Prim(Sub)), Entry("*", Prim(Mul)),
    Entry("/", Prim(Div)), Entry(".", Prim(Dot)), Entry(".S", Prim(DotS)),
    Entry(".s", Prim(DotS)), Entry("DUP", Prim(Dup)), Entry("DROP", Prim(Drop)),
    Entry("SWAP", Prim(Swap)), Entry("OVER", Prim(Over)), Entry("ROT", Prim(Rot)),
    Entry("!", Prim(Store)), Entry("@", Prim(Fetch)), Entry("VARIABLE", Prim(Variable)),
    Entry("CONSTANT", Prim(Constant)), Entry("MOD", Prim(Mod)), Entry("/MOD", Prim(DivMod)),
    Entry("WORDS", Prim(Words)), Entry("EMIT", Prim(Emit)), Entry("=", Prim(Equal)),
    Entry("<", Prim(Less)), Entry(">", Prim(Greater))
  ]

  datatype Machine = Machine(
    stack: seq<int>,
    memory: Memory,
    dict: seq<Entry>,
    thread: seq<int>,
    compiling: bool,
    out: seq<Event>)

  /** The machine after the primitives are registered and before any input. */
  function Init(): (m: Machine)
    ensures m.stack == [] && m.thread == [] && !m.compiling && m.out == []
    ensures m.dict == Primitives
    ensures forall a :: 0 <= a < MemSize ==> m.memory[a] == 0
  {
    Machine([], ZeroMemory(), Primitives, [], false, [])
  }

  // ---------------------------------------------------------------------
  // Dictionary lookup: a forward scan that stops at the first equal name.

  function LookupFrom(d: seq<Entry>, name: string, i: nat): (r: Option<nat>)
    requires i <= |d|
    ensures r.Some? ==> i <= r.value < |d| && d[r.value].name == name
    decreases |d| - i
  {
    if i == |d| then None
    else if d[i].name == name then Some(i)
    else LookupFrom(d, name, i + 1)
  }

  /** The index of the earliest entry called `name`. */
  function Lookup(d: seq<Entry>, name: string): (r: Option<nat>)
    ensures r.Some? ==> r.value < |d| && d[r.value].name == name
  {
    LookupFrom(d, name, 0)
  }

  /** The scan from i stops at the first entry from i on that carries the
      name, and finds nothing exactly when no entry from i on carries it. */
  lemma {:induction false} LookupFromFirst(d: seq<Entry>, name: string, i: nat)
    requires i <= |d|
    ensures LookupFrom(d, name, i).Some? ==>
      forall j :: i <= j < LookupFrom(d, name, i).value ==> d[j].name != name
    ensures LookupFrom(d, name, i).None? ==> forall j :: i <= j < |d| ==> d[j].name != name
    decreases |d| - i
  {
    if i < |d| && d[i].name != name {
      LookupFromFirst(d, name, i + 1);
    }
  }

  /** Lookup finds the earliest entry with the name, and finds nothing
      exactly when no entry carries it. */
  lemma LookupFirst(d: seq<Entry>, name: string)
    ensures Lookup(d, name).Some? ==> forall j :: 0 <= j < Lookup(d, name).value ==> d[j].name != name
    ensures Lookup(d, name).None? <==> forall j :: 0 <= j < |d| ==> d[j].name != name
  {
    LookupFromFirst(d, name, 0);
  }

  /** The first-match property determines the lookup result. */
  lemma LookupIsFirst(d: seq<Entry>, name: string, k: nat)
    requires k < |d| && d[k].name == name
    requires forall j :: 0 <= j < k ==> d[j].name != name
    ensures Lookup(d, name) == Some(k)
  {
    LookupFirst(d, name);
  }

  /** Appending entries never changes a name that already resolves: the
      earliest definition keeps winning. A name that did not resolve now
      resolves to its first occurrence among the new entries. */
  lemma LookupAppend(d: seq<Entry>, e: seq<Entry>, name: string)
    ensures Lookup(d, name).Some? ==> Lookup(d + e, name) == Lookup(d, name)
    ensures Lookup(d, name).None? && Lookup(e, name).Some? ==>
      Lookup(d + e, name) == Some(|d| + Lookup(e, name).value)
    ensures Lookup(d, name).None? && Lookup(e, name).None? ==> Lookup(d + e, name).None?
  {
    LookupFirst(d, name);
    LookupFirst(e, name);
    LookupFirst(d + e, name);
    if Lookup(d, name).Some? {
      LookupIsFirst(d + e, name, Lookup(d, name).value);
    } else if Lookup(e, name).Some? {
      var k := Lookup(e, name).value;
      assert (d + e)[|d| + k] == e[k];
      forall j | 0 <= j < |d| + k ensures (d + e)[j].name != name {
        if j >= |d| { assert (d + e)[j] == e[j - |d|]; }
      }
      LookupIsFirst(d + e, name, |d| + k);
    } else {
      forall j | 0 <= j < |d + e| ensures (d + e)[j].name != name {
        if j >= |d| { assert (d + e)[j] == e[j - |d|]; }
      }
    }
  }

  /** Every primitive name is distinct, so each resolves to its own entry
      in any dictionary that starts with the primitives: a user definition
      can never shadow a primitive. */
  lemma PrimitivesResolve(d: seq<Entry>, k: nat)
    requires |Primitives| <= |d| && d[..|Primitives|] == Primitives
    requires k < |Primitives|
    ensures Lookup(d, Primitives[k].name) == Some(k)
  {
    forall j | 0 <= j < k ensures d[j].name != Primitives[k].name {
      assert d[j] == Primitives[j];
      PrimitiveNamesDistinct(j, k);
    }
    assert d[k] == Primitives[k];
    LookupIsFirst(d, Primitives[k].name, k);
  }

  lemma PrimitiveNamesDistinct(i: nat, j: nat)
    requires i < j < |Primitives|
    ensures Primitives[i].name != Primitives[j].name
  {
    if j < 8 {
    } else if j < 16 {
    } else {
    }
  }

  // ---------------------------------------------------------------------
  // The side tables of variables and constants.

  /** The variable table: the names and addresses of the variable entries,
      in the order they were declared. */
  function VarsOf(d: seq<Entry>): (vs: seq<(string, int)>)
    ensures |vs| <= |d|
  {
    if |d| == 0 then []
    else VarsOf(d[..|d| - 1]) + (if d[|d| - 1].kind.Var? then [(d[|d| - 1].name, d[|d| - 1].kind.addr)] else [])
  }

  /** The constant table: the names and values of the constant entries, in
      the order they were declared. */
  function ConstsOf(d: seq<Entry>): (cs: seq<(string, int)>)
    ensures |cs| <= |d|
  {
    if |d| == 0 then []
    else ConstsOf(d[..|d| - 1]) + (if d[|d| - 1].kind.Const? then [(d[|d| - 1].name, d[|d| - 1].kind.value)] else [])
  }

  /** Declaring an entry adds a row to the table of its kind, at the end,
      and leaves the other table alone. */
  lemma TablesAppend(d: seq<Entry>, e: Entry)
    ensures e.kind.Var? ==> VarsOf(d + [e]) == VarsOf(d) + [(e.name, e.kind.addr)]
    ensures !e.kind.Var? ==> VarsOf(d + [e]) == VarsOf(d)
    ensures e.kind.Const? ==> ConstsOf(d + [e]) == ConstsOf(d) + [(e.name, e.kind.value)]
    ensures !e.kind.Const? ==> ConstsOf(d + [e]) == ConstsOf(d)
  {
    assert (d + [e])[..|d|] == d;
  }

  /** A side-table scan: the value of the first row called `name`. */
  function FindRow(rows: seq<(string, int)>, name: string): (r: Option<int>)
    ensures r.Some? ==> exists k :: 0 <= k < |rows| && rows[k] == (name, r.value)
    ensures r.None? ==> forall k :: 0 <= k < |rows| ==> rows[k].0 != name
  {
    if |rows| == 0 then None
    else if rows[0].0 == name then Some(rows[0].1)
    else FindRow(rows[1..], name)
  }

  lemma {:induction false} FindRowAppend(rows: seq<(string, int)>, more: seq<(string, int)>, name: string)
    ensures FindRow(rows, name).Some? ==> FindRow(rows + more, name) == FindRow(rows, name)
    ensures FindRow(rows, name).None? ==> FindRow(rows + more, name) == FindRow(more, name)
  {
    if |rows| > 0 {
      assert (rows + more)[1..] == rows[1..] + more;
      FindRowAppend(rows[1..], more, name);
    } else {
      assert rows + more == more;
    }
  }

  /** A name no entry carries has no row in either side table. */
  lemma {:induction false} AbsentFromTables(d: seq<Entry>, name: string)
    requires forall j :: 0 <= j < |d| ==> d[j].name != name
    ensures FindRow(VarsOf(d), name).None? && FindRow(ConstsOf(d), name).None?
  {
    if |d| > 0 {
      var p := d[..|d| - 1];
      AbsentFromTables(p, name);
      var vx := if d[|d| - 1].kind.Var? then [(d[|d| - 1].name, d[|d| - 1].kind.addr)] else [];
      var cx := if d[|d| - 1].kind.Const? then [(d[|d| - 1].name, d[|d| - 1].kind.value)] else [];
      FindRowAppend(VarsOf(p), vx, name);
      FindRowAppend(ConstsOf(p), cx, name);
    }
  }

  /** Scanning the variable and constant tables for the name of the entry
      lookup found gives exactly the address or value stored in that entry,
      so resolving through the entry is the same as the side-table scans. */
  lemma {:induction false} SideTablesAgree(d: seq<Entry>, name: string)
    requires Lookup(d, name).Some?
    ensures d[Lookup(d, name).value].kind.Var? ==>
      FindRow(VarsOf(d), name) == Some(d[Lookup(d, name).value].kind.addr)
    ensures d[Lookup(d, name).value].kind.Const? ==>
      FindRow(ConstsOf(d), name) == Some(d[Lookup(d, name).value].kind.value)
  {
    var i := Lookup(d, name).value;
    LookupFirst(d, name);
    var p := d[..|d| - 1];
    var e := d[|d| - 1];
    assert d == p + [e];
    var vx := if e.kind.Var? then [(e.name, e.kind.addr)] else [];
    var cx := if e.kind.Const? then [(e.name, e.kind.value)] else [];
    FindRowAppend(VarsOf(p), vx, name);
    FindRowAppend(ConstsOf(p), cx, name);
    if i < |p| {
      LookupIsFirst(p, name, i);
      SideTablesAgree(p, name);
    } else {
      AbsentFromTables(p, name);
    }
  }

  /** The variable table holds at most VarLimit rows, numbered from
      VarBase in declaration order. */
  predicate VarsNumbered(d: seq<Entry>) {
    && |VarsOf(d)| <= VarLimit
    && forall k :: 0 <= k < |VarsOf(d)| ==> VarsOf(d)[k].1 == VarBase + k
  }

  // ---------------------------------------------------------------------
  // Stack and output helpers.

  function Report(m: Machine, e: Event): (r: Machine)
    ensures |r.out| == |m.out| + 1 && r.out[..|m.out|] == m.out && r.out[|m.out|] == e
  {
    m.(out := m.out + [e])
  }

  /** `push`: appends without a capacity check. */
  function PushM(m: Machine, v: int): Machine {
    m.(stack := Push(m.stack, v))
  }

  datatype PoppedM = PoppedM(value: int, m: Machine)

  /** `pop`: on an empty stack, reports underflow and yields 0. */
  function PopM(m: Machine): (p: PoppedM)
    ensures |m.stack| > 0 ==> p.m == m.(stack := m.stack[..|m.stack| - 1]) && p.value == m.stack[|m.stack| - 1]
    ensures |m.stack| == 0 ==> p == PoppedM(0, Report(m, Error(StackUnderflow)))
  {
    var c := Pop(m.stack);
    var m1 := m.(stack := c.stack);
    PoppedM(c.value, if c.underflow then Report(m1, Error(StackUnderflow)) else m1)
  }

  /** Popping right after a push gives back the value and the machine as
      it was. */
  lemma PopPushM(m: Machine, v: int)
    ensures PopM(PushM(m, v)) == PoppedM(v, m)
  {
    PopPush(m.stack, v);
  }

  /** The top n items are replaced by `results` and nothing else changes. */
  predicate Replaced(m: Machine, r: Machine, n: nat, results: seq<int>) {
    n <= |m.stack| && r == m.(stack := m.stack[..|m.stack| - n] + results)
  }

  function Nos(m: Machine): int requires |m.stack| >= 2 { m.stack[|m.stack| - 2] }
  function Tos(m: Machine): int requires |m.stack| >= 1 { m.stack[|m.stack| - 1] }
  function Third(m: Machine): int requires |m.stack| >= 3 { m.stack[|m.stack| - 3] }

  /** The boolean convention: -1 for true, 0 for false. */
  function Flag(b: bool): int {
    if b then -1 else 0
  }
}
