/** What the single calls of the code generator add up to. */
module CodeGenSteps {
  import opened Common
  import opened LuaValues
  import opened LuaVm
  import opened SymbolicCode
  import opened CodeInvariant
  import opened JumpThreads
  import S = CodeSpec

  /** Two operands of `and` or `or` become one expression. */
  lemma JoinedStep(c0: seq<Instr<int>>, s0: S.Gen, own0: seq<nat>, c1: seq<Instr<int>>, s1: S.Gen, own1: seq<nat>,
        L: seq<nat>, c2: seq<Instr<int>>, s2: S.Gen, own2: seq<nat>)
    requires Stepped(c0, s0, own0, c1, s1, own1) && Stepped(c1, s1, own1 + L, c2, s2, own2)
    ensures Stepped(c0, s0, L + own0, c2, s2, own2)
  {
  }

  function Swapped(n: S.GE): S.GE {
    S.GE(n.s.(code := S.RemoveValues(S.RemoveValues(n.s.code, n.e.t), n.e.f)), n.e.(t := n.e.f, f := n.e.t))
  }

  /** A unary operation whose operand is in a register. */
  function Applied(op: UnaryOp, x: S.GE, r: nat): S.GE {
    var s1 := S.FreeExp(x.s, x.e);
    S.GE(S.Code(s1, UNARY(op, 0, r)), x.e.(k := S.VReloc(|s1.code|)))
  }

  lemma UnarySteps(s: S.Gen, op: UnaryOp, e: S.ExpDesc, r: nat)
    requires !(op != Len && S.IsNumeral(e) && s.m.foldUnary(op, e.k.v).Some?)
    requires S.Exp2AnyReg(s, e).e.k == S.VNonReloc(r)
    ensures S.CodeUnary(s, op, e) == Applied(op, S.Exp2AnyReg(s, e), r)
  {
  }

  /** An arithmetic operation whose operands are in place. */
  function Operated(op: ArithOp, x1: S.GO, x2: S.GO): S.GE {
    var s1 := S.FreeBoth(x1.s, x1.e, x1.o, x2.e, x2.o);
    S.GE(S.Code(s1, ARITH(op, 0, x1.o, x2.o)), x1.e.(k := S.VReloc(|s1.code|)))
  }

  lemma ArithSteps(s: S.Gen, op: ArithOp, e1: S.ExpDesc, e2: S.ExpDesc)
    requires !(S.IsNumeral(e1) && S.IsNumeral(e2) && s.m.foldArith(op, e1.k.v, e2.k.v).Some?)
    ensures var x2 := S.Exp2RK(s, e2); S.CodeArith(s, op, e1, e2) == Operated(op, S.Exp2RK(x2.s, e1), x2)
  {
  }

  /** A concatenation whose operands are in place. */
  function Concatenated(s: S.Gen, e1: S.ExpDesc, e2: S.ExpDesc): S.GE
    requires e1.k.VNonReloc? && e2.k.VNonReloc?
  {
    var s1 := S.FreeBoth(s, e1, Reg(e1.k.r), e2, Reg(e2.k.r));
    S.GE(S.Code(s1, CONCAT(0, e1.k.r, e2.k.r)), e1.(k := S.VReloc(|s1.code|)))
  }

  lemma ConcatSteps(s: S.Gen, e1: S.ExpDesc, e2: S.ExpDesc)
    requires e1.k.VNonReloc? && !S.JoinsConcat(s, e2)
    ensures S.Exp2NextReg(s, e2).e.k.VNonReloc?
    ensures S.ConcatWith(s, e1, e2) == Concatenated(S.Exp2NextReg(s, e2).s, e1, S.Exp2NextReg(s, e2).e)
  {
  }

  /** A comparison whose operands are in place. */
  function Compared(s: S.Gen, op: CmpOp, cond: bool, x1: S.GO, x2: S.GO): S.GE {
    var s1 := S.FreeExp(S.FreeExp(s, x2.e), x1.e);
    var test := if !cond && op != Eq then CMP(op, true, x2.o, x1.o) else CMP(op, cond, x1.o, x2.o);
    S.GE(S.CondJump(s1, test), x1.e.(k := S.VJmp(S.CondJumpPc(s1))))
  }

  /** An operand stays where it is. */
  lemma OperandSame(s: S.Gen, d: S.ExpDesc)
    requires !S.HasJumps(d) && (d.k.VNonReloc? || (d.k.VK? && d.k.k <= S.MAXINDEXRK))
    ensures S.Exp2RK(s, d).s == s && S.Exp2RK(s, d).e == d
  {
  }

  lemma RemoveKeeps(C: seq<Sym>, L: seq<nat>)
    ensures forall j :: OpenAt(C, j) ==> OpenAt(S.RemoveValues(C, L), j)
  {
  }

  lemma ThreadsCut(code: seq<Instr<int>>, head: int, L: seq<nat>)
    requires Threads(code, head, L) && |code| > 0 && !code[|code| - 1].JMP?
    ensures Threads(code[..|code| - 1], head, L)
  {
    forall j: nat | j < |L| ensures L[j] < |code| - 1 && code[..|code| - 1][L[j]] == JMP(Link(L, j)) {
      At(code, L, 0, j);
    }
  }

  /** A step that adds one jump, beside jumps it leaves alone. */
  lemma Emitted(c0: seq<Instr<int>>, s0: S.Gen, c1: seq<Instr<int>>, s1: S.Gen, pc: nat, own: seq<nat>)
    requires Stepped(c0, s0, [], c1, s1, [pc])
    ensures Stepped(c0, s0, own, c1, s1, own + [pc])
  {
  }

  function Joined(s: S.Gen, d: S.ExpDesc, reg: nat): S.GE {
    var t := if d.k.VJmp? then d.t + [d.k.pc] else d.t;
    S.GE(if t != [] || d.f != [] then S.CloseLists(s, d.k.VJmp?, t, d.f, reg) else s, S.Plain(S.VNonReloc(reg)))
  }

  lemma Exp2RegJoins(s: S.Gen, e: S.ExpDesc, reg: nat)
    ensures var d := S.Discharge2Reg(s, e, reg); S.Exp2Reg(s, e, reg) == Joined(d.s, d.e, reg)
  {
  }

  function Jumped(s: S.Gen, isJump: bool): S.Gen {
    if isJump then s else S.EmitJump(s)
  }

  function Loaded(s: S.Gen, isJump: bool, reg: nat): S.Gen {
    S.PatchToHere(S.LoadBools(Jumped(s, isJump), reg), if isJump then [] else S.EmitJumpList(s))
  }

  function Ended(s: S.Gen, t: seq<nat>, f: seq<nat>, reg: nat, pf: int, pt: int): S.Gen
    requires pf >= NO_JUMP && pt >= NO_JUMP
  {
    var final := |s.code|;
    var df, dt := if pf == NO_JUMP then final else pf, if pt == NO_JUMP then final else pt;
    S.GetLabel(s).(code := S.PatchList(S.PatchList(s.code, f, final, reg, df), t, final, reg, dt))
  }

  lemma ClosedWithLoads(s: S.Gen, isJump: bool, t: seq<nat>, f: seq<nat>, reg: nat)
    requires S.NeedValue(s.code, t) || S.NeedValue(s.code, f)
    ensures var pf := |Jumped(s, isJump).code|;
      S.CloseLists(s, isJump, t, f, reg) == Ended(Loaded(s, isJump, reg), t, f, reg, pf, pf + 1)
  {
  }

  lemma ClosedWithoutLoads(s: S.Gen, isJump: bool, t: seq<nat>, f: seq<nat>, reg: nat)
    requires !S.NeedValue(s.code, t) && !S.NeedValue(s.code, f)
    ensures S.CloseLists(s, isJump, t, f, reg) == Ended(s, t, f, reg, NO_JUMP, NO_JUMP)
  {
  }

  lemma HeadsApart(L1: seq<nat>, L2: seq<nat>)
    requires Apart(L1, L2)
    ensures Head(L1) == Head(L2) <==> L1 == [] && L2 == []
  {
    if L1 != [] && L2 != [] { assert L1[0] in L1 && L2[0] in L2; }
  }

  /** Patching one list leaves the open jumps that are not on it, and what they carry. */
  lemma PatchKeeps(C: seq<Sym>, L: seq<nat>, vt: nat, reg: int, dt: nat)
    ensures var D := S.PatchList(C, L, vt, reg, dt);
      && (forall j :: OpenAt(C, j) && j !in L ==> OpenAt(D, j))
      && (forall M :: Apart(M, L) && !S.NeedValue(C, M) ==> !S.NeedValue(D, M))
  {
  }

  lemma CodeKeepsOpen(s: S.Gen, x: Sym)
    ensures forall j :: OpenAt(s.code, j) && j !in s.jpc ==> OpenAt(S.Code(s, x).code, j)
  {
  }

  lemma EncodedMore(C: seq<Sym>, D: seq<Instr<int>>, x: Sym, i: Instr<int>)
    requires Encodes(C, D) && EncodedAs(|D|, x, i)
    ensures Encodes(C + [x], D + [i])
  {
  }

  lemma Relinked(C: seq<Sym>, before: seq<Instr<int>>, after: seq<Instr<int>>, x: nat, offset: int)
    requires Encodes(C, before) && OpenAt(C, x) && after == before[x := JMP(offset)]
    ensures Encodes(C, after)
  {
  }

  lemma RemoveNothing(C: seq<Sym>)
    ensures S.RemoveValues(C, []) == C
  {
  }

  lemma PatchNothing(C: seq<Sym>, vt: nat, reg: int, dt: nat)
    ensures S.PatchList(C, [], vt, reg, dt) == C
  {
  }

  lemma RemoveOne(C: seq<Sym>, L: seq<nat>, i: nat, before: seq<Instr<int>>, after: seq<Instr<int>>)
    requires i < |L| && NoRepeats(L) && Encodes(S.RemoveValues(C, L[..i]), before) && L[i] < |before|
    requires after == if L[i] >= 1 && before[L[i] - 1].TESTSET?
                      then before[L[i] - 1 := TEST(before[L[i] - 1].b, before[L[i] - 1].cond)] else before
    ensures Encodes(S.RemoveValues(C, L[..i + 1]), after)
  {
  }

  lemma PatchCarries(C: seq<Sym>, L: seq<nat>, i: nat, vt: nat, reg: int, dt: nat, before: seq<Instr<int>>)
    requires i < |L| && NoRepeats(L) && (forall j :: j in L ==> OpenAt(C, j))
    requires Encodes(S.PatchList(C, L[..i], vt, reg, dt), before)
    ensures L[i] < |before| && (S.HasTestSet(C, L[i]) <==> L[i] >= 1 && before[L[i] - 1].TESTSET?)
  {
    assert L[i] !in L[..i];
    assert OpenAt(C, L[i]);
    forall j | j in L[..i] ensures j < |C| && C[j].JMP? { assert j in L && OpenAt(C, j); }
    PatchSnoc(C, L[..i], L[i], vt, reg, dt);
    var P := S.PatchList(C, L[..i], vt, reg, dt);
    if L[i] >= 1 { assert EncodedAs(L[i] - 1, P[L[i] - 1], before[L[i] - 1]); }
  }

  lemma PatchOne(C: seq<Sym>, L: seq<nat>, i: nat, vt: nat, reg: int, dt: nat,
                 before: seq<Instr<int>>, middle: seq<Instr<int>>, after: seq<Instr<int>>)
    requires i < |L| && NoRepeats(L) && (forall j :: j in L ==> OpenAt(C, j))
    requires Encodes(S.PatchList(C, L[..i], vt, reg, dt), before) && L[i] < |before| == |middle|
    requires var x := L[i]; var carries := x >= 1 && before[x - 1].TESTSET?;
      && middle == (if carries then
                      before[x - 1 := if reg != NO_REG
                        && reg != before[x - 1].b then TESTSET(reg, before[x - 1].b, before[x - 1].cond)
                                      else TEST(before[x - 1].b, before[x - 1].cond)]
                    else before)
      && after == middle[x := JMP((if carries then vt else dt) - (x + 1))]
    ensures Encodes(S.PatchList(C, L[..i + 1], vt, reg, dt), after)
  {
    assert L[i] !in L[..i];
    assert OpenAt(C, L[i]);
    forall j | j in L[..i] ensures j < |C| && C[j].JMP? { assert j in L && OpenAt(C, j); }
    PatchSnoc(C, L[..i], L[i], vt, reg, dt);
    assert L[..i] + [L[i]] == L[..i + 1];
    var P, Q := S.PatchList(C, L[..i], vt, reg, dt), S.PatchList(C, L[..i + 1], vt, reg, dt);
    if L[i] >= 1 { assert EncodedAs(L[i] - 1, P[L[i] - 1], before[L[i] - 1]); }
    assert P[L[i]] == JMP(Open);
    forall j: nat | j < |C| ensures EncodedAs(j, Q[j], after[j]) {
      assert Q[j] == S.PatchAt(P, [L[i]], vt, reg, dt, j);
      assert EncodedAs(j, P[j], before[j]);
    }
  }

  lemma ChainedFrom(code: seq<Instr<int>>, L: seq<nat>, i: nat)
    requires Chained(code, L, i) && NoRepeats(L)
    ensures Chained(code, L, i + 1)
  {
    forall j: nat | i + 1 <= j < |L| ensures L[j] < |code| && code[L[j]] == JMP(Link(L, j)) {
      At(code, L, i, j);
    }
  }

  /** Patching earlier jumps leaves the rest of a list alone. */
  lemma ChainedKept(before: seq<Instr<int>>, after: seq<Instr<int>>, L: seq<nat>, i: nat)
    requires NoRepeats(L) && Chained(before, L, i) && |before| <= |after|
    requires forall j: nat :: j < |before| && before[j].JMP? && j !in L[..if i < |L| then i else |L|] ==>
      after[j] == before[j]
    ensures Chained(after, L, i)
  {
  }

  /** Redirecting the last jump of one list to the head of another joins the lists. */
  lemma Linked(before: seq<Instr<int>>, after: seq<Instr<int>>, L1: seq<nat>, L2: seq<nat>, x: nat, offset: int)
    requires L1 != [] && L2 != [] && Apart(L1, L2)
    requires Threads(before, L1[0], L1) && Threads(before, L2[0], L2)
    requires x == L1[|L1| - 1] && offset == L2[0] - (x + 1) && x < |before|
    requires after == before[x := JMP(offset)]
    ensures Threads(after, L1[0], L1 + L2)
  {
    var L := L1 + L2;
    DistinctConcat(L1, L2);
    forall i: nat | i < |L| ensures L[i] < |after| && after[L[i]] == JMP(Link(L, i)) {
      if i < |L1| {
        LinkedLeft(before, after, L1, L2, x, offset, i);
      } else {
        LinkedRight(before, after, L1, L2, x, offset, i - |L1|);
      }
    }
  }

  lemma LinkedLeft(before: seq<Instr<int>>, after: seq<Instr<int>>, L1: seq<nat>, L2: seq<nat>, x: nat, offset: int,
        i: nat)
    requires i < |L1| && L2 != [] && Threads(before, L1[0], L1)
    requires x == L1[|L1| - 1] && offset == L2[0] - (x + 1) && x < |before|
    requires after == before[x := JMP(offset)]
    ensures L1[i] < |after| && after[L1[i]] == JMP(Link(L1 + L2, i))
  {
    At(before, L1, 0, i);
    assert i < |L1| - 1 ==> L1[i] != L1[|L1| - 1];
  }

  lemma LinkedRight(before: seq<Instr<int>>, after: seq<Instr<int>>, L1: seq<nat>, L2: seq<nat>, x: nat, offset: int,
        i: nat)
    requires i < |L2| && x in L1 && Apart(L1, L2) && Threads(before, L2[0], L2) && x < |before|
    requires after == before[x := JMP(offset)]
    ensures L2[i] < |after| && after[L2[i]] == JMP(Link(L1 + L2, |L1| + i))
  {
    assert L2[i] in L2;
    At(before, L2, 0, i);
  }
}
