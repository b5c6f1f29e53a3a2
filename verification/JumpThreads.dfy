/** Jump lists threaded through the offsets of unpatched jumps. */
module JumpThreads {
  import opened Common
  import opened LuaValues
  import opened LuaVm
  import opened SymbolicCode
  import opened CodeSpec
  import opened CodeInvariant

  /** End of a jump list. */
  const NO_JUMP: int := -1

  /** What the offset of the i-th jump of list L holds: a link to the next one. */
  function Link(L: seq<nat>, i: nat): int
    requires i < |L|
  {
    if i + 1 < |L| then L[i + 1] - (L[i] + 1) else NO_JUMP
  }

  function Head(L: seq<nat>): int {
    if L == [] then NO_JUMP else L[0]
  }

  ghost predicate Apart(L1: seq<nat>, L2: seq<nat>) {
    forall j :: j in L1 ==> j !in L2
  }

  /** From its i-th jump on, each jump of L links to the next. */
  ghost predicate Chained(code: seq<Instr<int>>, L: seq<nat>, i: nat) {
    forall j: nat {:trigger Link(L, j)} :: i <= j < |L| ==> L[j] < |code| && code[L[j]] == JMP(Link(L, j))
  }

  /** `head` starts a chain through the code that visits exactly the jumps of L. */
  ghost predicate Threads(code: seq<Instr<int>>, head: int, L: seq<nat>) {
    && head == Head(L) && NoRepeats(L) && Chained(code, L, 0)
    && forall j :: j in L ==> j < |code| && code[j].JMP?
  }

  lemma At(code: seq<Instr<int>>, L: seq<nat>, from: nat, i: nat)
    requires Chained(code, L, from) && from <= i < |L| && NoRepeats(L)
    ensures L[i] < |code| && code[L[i]] == JMP(Link(L, i))
    ensures code[L[i]].target == NO_JUMP <==> i + 1 == |L|
    ensures i + 1 < |L| ==> L[i] + 1 + code[L[i]].target == L[i + 1]
  {
  }

  /** The jumps that leave an expression. */
  function Exits(d: ExpDesc): seq<nat> {
    d.t + d.f
  }

  /** The jumps an expression owns: its exits and its own jump. */
  function Own(d: ExpDesc): seq<nat> {
    Exits(d) + (if d.k.VJmp? then [d.k.pc] else [])
  }

  /** A generator operation touches only the jumps to the current position and those its
      expression owns; what they lead to afterwards is old or new code. */
  ghost predicate Stepped(c0: seq<Instr<int>>, s0: Gen, own0: seq<nat>, c1: seq<Instr<int>>, s1: Gen, own1: seq<nat>) {
    && |c0| <= |c1|
    && (forall j: nat :: j < |c0| && c0[j].JMP? && j !in s0.jpc && j !in own0 ==>
          c1[j] == c0[j] && (OpenAt(s0.code, j) ==> OpenAt(s1.code, j)))
    && (forall j :: j in s1.jpc || j in own1 ==> j in s0.jpc || j in own0 || j >= |c0|)
  }

  lemma SteppedTrans(c0: seq<Instr<int>>, s0: Gen, o0: seq<nat>, c1: seq<Instr<int>>, s1: Gen, o1: seq<nat>,
                     c2: seq<Instr<int>>, s2: Gen, o2: seq<nat>)
    requires Stepped(c0, s0, o0, c1, s1, o1) && Stepped(c1, s1, o1, c2, s2, o2)
    ensures Stepped(c0, s0, o0, c2, s2, o2)
  {
  }

  lemma ThreadsUnmoved(c0: seq<Instr<int>>, c1: seq<Instr<int>>, head: int, L: seq<nat>)
    requires Threads(c0, head, L) && |c0| <= |c1| && forall j :: j in L ==> c1[j] == c0[j]
    ensures Threads(c1, head, L)
  {
    forall j: nat | j < |L| ensures L[j] < |c1| && c1[L[j]] == JMP(Link(L, j)) {
      At(c0, L, 0, j);
      assert L[j] in L;
    }
  }

  /** A list nobody touched is still threaded and open. */
  lemma ThreadsKept(c0: seq<Instr<int>>, s0: Gen, own0: seq<nat>, c1: seq<Instr<int>>, s1: Gen, own1: seq<nat>,
        head: int, L: seq<nat>)
    requires Stepped(c0, s0, own0, c1, s1, own1) && Threads(c0, head, L)
    requires Apart(L, s0.jpc) && Apart(L, own0) && forall j :: j in L ==> OpenAt(s0.code, j)
    ensures Threads(c1, head, L) && (forall j :: j in L ==> OpenAt(s1.code, j))
    ensures Apart(L, s1.jpc) && Apart(L, own1)
  {
    forall j: nat | j < |L| ensures L[j] < |c1| && c1[L[j]] == JMP(Link(L, j)) {
      At(c0, L, 0, j);
      assert L[j] in L;
    }
  }

  lemma DistinctConcat(L1: seq<nat>, L2: seq<nat>)
    requires NoRepeats(L1) && NoRepeats(L2) && Apart(L1, L2)
    ensures NoRepeats(L1 + L2)
  {
    forall i, j | 0 <= i < j < |L1 + L2| ensures (L1 + L2)[i] != (L1 + L2)[j] {
      if i < |L1| { assert L1[i] in L1; }
      if j >= |L1| { assert L2[j - |L1|] in L2; }
    }
  }

  /** Patching one more jump of a list. */
  lemma PatchSnoc(C: seq<Sym>, L: seq<nat>, j: nat, vt: nat, reg: int, dt: nat)
    requires j !in L && j < |C| && C[j].JMP? && forall i :: i in L ==> i < |C| && C[i].JMP?
    ensures PatchList(C, L + [j], vt, reg, dt) == PatchList(PatchList(C, L, vt, reg, dt), [j], vt, reg, dt)
    ensures HasTestSet(PatchList(C, L, vt, reg, dt), j) == HasTestSet(C, j)
  {
  }

  // ----- what an expression descriptor represents -----

  ghost predicate AllOpen(s: Gen, L: seq<nat>) {
    forall j :: j in L ==> OpenAt(s.code, j)
  }

  /** The two exit lists of an expression, threaded from `t` and `f`. */
  ghost predicate Held(code: seq<Instr<int>>, s: Gen, t: int, f: int, d: ExpDesc) {
    && Threads(code, t, d.t) && Threads(code, f, d.f)
    && AllOpen(s, d.t) && AllOpen(s, d.f)
    && Apart(d.t, d.f) && Apart(d.t, s.jpc) && Apart(d.f, s.jpc)
  }

  /** A list of open jumps that is on no list of the generator or the expression. */
  ghost predicate FreeList(code: seq<Instr<int>>, s: Gen, d: ExpDesc, head: int, L: seq<nat>) {
    Threads(code, head, L) && AllOpen(s, L) && Apart(d.t, L) && Apart(d.f, L) && Apart(L, s.jpc)
  }

  /** The pending instruction of an expression: its own jump, or one without a register. */
  ghost predicate Pending(code: seq<Instr<int>>, s: Gen, d: ExpDesc) {
    && (d.k.VJmp? ==>
          var pc := d.k.pc;
          1 <= pc < |code| && code[pc] == JMP(NO_JUMP) && code[pc - 1].CMP? && OpenAt(s.code, pc)
          && pc !in d.t && pc !in d.f && pc !in s.jpc)
    && (d.k.VReloc? ==> d.k.pc == |code| - 1 && Relocatable(code[d.k.pc]))
  }

  /** The exits of an expression survive a step that does not own them. */
  lemma HeldKept(c0: seq<Instr<int>>, s0: Gen, own0: seq<nat>, c1: seq<Instr<int>>, s1: Gen, own1: seq<nat>, t: int,
        f: int, d: ExpDesc)
    requires Stepped(c0, s0, own0, c1, s1, own1) && Held(c0, s0, t, f, d)
    requires Apart(d.t, own0) && Apart(d.f, own0)
    ensures Held(c1, s1, t, f, d)
    ensures Apart(d.t, own1) && Apart(d.f, own1)
  {
    ThreadsKept(c0, s0, own0, c1, s1, own1, t, d.t);
    ThreadsKept(c0, s0, own0, c1, s1, own1, f, d.f);
  }

  /** A step also owns what it leaves alone. */
  lemma SteppedMore(c0: seq<Instr<int>>, s0: Gen, own0: seq<nat>, c1: seq<Instr<int>>, s1: Gen, own1: seq<nat>,
        more: seq<nat>)
    requires Stepped(c0, s0, own0, c1, s1, own1)
    ensures Stepped(c0, s0, own0 + more, c1, s1, own1 + more)
  {
  }
}
