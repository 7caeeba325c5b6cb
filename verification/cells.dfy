/** The value stack and the linear memory shared by every phase.
    A stack is a sequence whose last element is the top. */
module Cells {

  const StackSize := 64
  const MemSize := 1024

  /** The 1024-cell memory; it always has exactly MemSize cells. */
  type Memory = s: seq<int> | |s| == MemSize witness seq(MemSize, _ => 0)

  /** Memory as it is at start-up: static storage, zero-initialised. */
  function ZeroMemory(): (mem: Memory)
    ensures forall a :: 0 <= a < MemSize ==> mem[a] == 0
  {
    seq(MemSize, _ => 0)
  }

  predicate ValidAddress(addr: int) {
    0 <= addr < MemSize
  }

  /** The result of `pop`: the value handed to the caller, the stack left
      behind, and whether the stack was empty. */
  datatype Popped = Popped(value: int, stack: seq<int>, underflow: bool)

  /** `pop`: takes the top item; on an empty stack it reports underflow and
      yields 0, leaving the stack empty. */
  function Pop(s: seq<int>): (p: Popped)
    ensures |s| > 0 ==> !p.underflow && p.stack + [p.value] == s
    ensures |s| == 0 ==> p == Popped(0, [], true)
  {
    if |s| > 0 then Popped(s[|s| - 1], s[..|s| - 1], false)
    else Popped(0, [], true)
  }

  /** `push` without a capacity check, as in the phases whose push writes
      unconditionally. */
  function Push(s: seq<int>, v: int): (t: seq<int>)
    ensures |t| == |s| + 1 && t[..|s|] == s && t[|s|] == v
  {
    s + [v]
  }

  /** Popping what was just pushed gives back the value and the old stack. */
  lemma PopPush(s: seq<int>, v: int)
    ensures Pop(Push(s, v)) == Popped(v, s, false)
  {
    assert Push(s, v)[..|s|] == s;
  }

  /** Pushing back what was popped restores a non-empty stack. */
  lemma PushPop(s: seq<int>)
    requires |s| > 0
    ensures Push(Pop(s).stack, Pop(s).value) == s
  {
  }

  /** A store into a valid cell changes that cell and nothing else. */
  function Store(mem: Memory, addr: int, v: int): (m2: Memory)
    requires ValidAddress(addr)
    ensures m2[addr] == v
    ensures forall a :: 0 <= a < MemSize && a != addr ==> m2[a] == mem[a]
  {
    mem[addr := v]
  }
}
