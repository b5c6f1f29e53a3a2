/** Comparisons and concatenation. */
module CodeCompareConcat {
  import opened LuaValues
  import opened LuaVm
  import opened SymbolicCode
  import opened CodeSpec
  import opened CodeInvariant
  import opened CodeEmit
  import opened CodeDischarge
  import opened CodeExp2Reg
  import opened CodeOperands
  import opened CodeBranch
  import opened CodeOperators

  // ----- comparisons -----

  function CompareTest(op: CmpOp, flip: bool, o1: RK, o2: RK): Sym {
    if flip && op != Eq then CMP(op, true, o2, o1) else CMP(op, !flip, o1, o2)
  }

  lemma CompareEmitOk(c: Entry, o0: Out, base: nat, s0: Gen, s: Gen, op: CmpOp, flip: bool, o1: RK, o2: RK, v1: Res,
        v2: Res, r: GE)
    requires Grows(s0, s) && s.freereg == base && s.nactvar <= base && Ready(c, o0, base, s, o1, o2, v1, v2)
    requires c.p <= s0.lasttarget && OldExit(o0, |s0.code|)
    requires r == GE(CondJump(s, CompareTest(op, flip, o1, o2)), Plain(VJmp(CondJumpPc(s))))
    ensures Good(c, o0, base, s0, r, StrictRes(c.rt.m, Compare(op, flip), v1, v2))
  {
    var test := CompareTest(op, flip, o1, o2);
    hide Exec;
    CondJumpGrows(s, test);
    GrowsTrans(s0, s, r.s);
    assert Body(r.s, r.e) == Close(s);
  }

  lemma CodeCompOk(c: Entry, o0: Out, base: nat, s0: Gen, i: GE, o1: RK, v1: Res, x: GE, v2: Res, op: CmpOp,
        flip: bool, r: GE)
    requires FirstDone(c, o0, base, s0, i, v1) && OperandOf(i.s, i.e, o1) && SecondDone(c, i, x, v2)
    requires r == CodeComp(x.s, op, !flip, i.e, x.e) && r.s.k <= c.rt.k
    ensures Good(c, o0, base, s0, r, StrictRes(c.rt.m, Compare(op, flip), v1, v2)) && r.e.k.VJmp?
  {
    assert i.s.k <= x.s.k;
    Exp2RKAgain(x.s, i.e, o1);
    var x2 := Exp2RK(x.s, x.e);
    Exp2RKOk(c, From(c, Close(i.s)), i.s.freereg, i.s, x.s, x.e, v2);
    SecondReady(c, o0, base, s0, i, o1, v1, GE(x2.s, x2.e), x2.o, v2);
    var s1 := FreeExp(FreeExp(x2.s, x2.e), i.e);
    ReleaseBoth(c, o0, base, s0, i, o1, v1, x2, v2, s1);
    CompareEmitOk(c, o0, base, s0, s1, op, flip, o1, x2.o, v1, v2, r);
  }

  lemma ReleaseBoth(c: Entry, o0: Out, base: nat, s0: Gen, i: GE, o1: RK, v1: Res, x2: GO, v2: Res, s1: Gen)
    requires FirstDone(c, o0, base, s0, i, v1) && OperandOf(i.s, i.e, o1)
    requires SecondDone(c, i, GE(x2.s, x2.e), v2) && OperandOf(x2.s, x2.e, x2.o)
    requires Ready(c, o0, base, x2.s, o1, x2.o, v1, v2) && Grows(s0, x2.s)
    requires s1 == FreeExp(FreeExp(x2.s, x2.e), i.e)
    ensures s1 == x2.s.(freereg := base) && Grows(s0, s1) && Ready(c, o0, base, s1, o1, x2.o, v1, v2)
  {
    NextStart(c, o0, base, s0, i, v1);
    assert Close(s1) == Close(x2.s);
  }

  // ----- concatenation -----

  lemma JoinConcatOk(c: Entry, o0: Out, base: nat, s0: Gen, i: GE, v1: Res, y: GE, v2: Res, r: GE)
    requires Good(c, o0, base, s0, i, v1) && i.e == Plain(VNonReloc(base)) && i.s.freereg == base + 1
    requires SecondDone(c, i, y, v2) && !HasJumps(y.e) && JoinsConcat(y.s, y.e)
    requires var s1 := FreeExp(y.s, i.e);
      r == GE(s1.(code := s1.code[y.e.k.pc := SetB(s1.code[y.e.k.pc], base)]), Plain(VReloc(y.e.k.pc)))
    ensures Good(c, o0, base, s0, r, StrictRes(c.rt.m, Concat, v1, v2))
  {
    JoinConcatShape(s0, base, i, y, r);
    JoinConcatHolds(c, o0, base, s0, i, v1, y, v2, r);
  }

  lemma JoinConcatShape(s0: Gen, base: nat, i: GE, y: GE, r: GE)
    requires Shape(s0, base, i.s, i.e) && i.e == Plain(VNonReloc(base)) && i.s.freereg == base + 1
    requires Shape(i.s, base + 1, y.s, y.e) && !HasJumps(y.e) && JoinsConcat(y.s, y.e)
    requires var s1 := FreeExp(y.s, i.e);
      r == GE(s1.(code := s1.code[y.e.k.pc := SetB(s1.code[y.e.k.pc], base)]), Plain(VReloc(y.e.k.pc)))
    ensures Shape(s0, base, r.s, r.e)
  {
  }

  lemma JoinConcatHolds(c: Entry, o0: Out, base: nat, s0: Gen, i: GE, v1: Res, y: GE, v2: Res, r: GE)
    requires Good(c, o0, base, s0, i, v1) && i.e == Plain(VNonReloc(base)) && i.s.freereg == base + 1
    requires SecondDone(c, i, y, v2) && !HasJumps(y.e) && JoinsConcat(y.s, y.e)
    requires r.s.code == y.s.code[y.e.k.pc := SetB(y.s.code[y.e.k.pc], base)] && r.e == Plain(VReloc(y.e.k.pc))
    ensures Holds(c, o0, base, -1, r.s, r.e, StrictRes(c.rt.m, Concat, v1, v2))
  {
    var pc := y.e.k.pc;
    assert r.s.code[..pc] == y.s.code[..pc];
    var o := From(c, Body(y.s, y.e));
    if o.End? { ConcatStep(c.rt, o.R, base, y.s.code[pc].c); }
  }

  lemma ConcatStep(rt: Runtime, R: Regs, b: nat, c: nat)
    requires b < c
    ensures ConcatRange(rt, R, b, c) ==
      match ConcatRange(rt, R, b + 1, c) case Error => Error case Ok(v) => ToRes(rt.m.concat(Get(R, b), v))
  {
  }

  lemma PlainConcatOk(c: Entry, o0: Out, base: nat, s0: Gen, i: GE, v1: Res, z: GE, v2: Res, r: GE)
    requires Good(c, o0, base, s0, i, v1) && i.e == Plain(VNonReloc(base)) && i.s.freereg == base + 1
    requires SecondDone(c, i, z, v2) && z.e == Plain(VNonReloc(base + 1))
    requires var s1 := FreeBoth(z.s, i.e, Reg(base), z.e, Reg(base + 1));
      r == GE(Code(s1, CONCAT(0, base, base + 1)), Plain(VReloc(|s1.code|)))
    ensures Good(c, o0, base, s0, r, StrictRes(c.rt.m, Concat, v1, v2))
  {
    var s1 := FreeBoth(z.s, i.e, Reg(base), z.e, Reg(base + 1));
    assert FirstDone(c, o0, base, s0, i, v1) by { assert OperandOf(i.s, i.e, Reg(base)); }
    SecondReady(c, o0, base, s0, i, Reg(base), v1, z, Reg(base + 1), v2);
    FreeBothOk(z.s, base, i.e, Reg(base), z.e, Reg(base + 1), s1);
    ConcatComputes(c, o0, base, s1, v1, v2);
    AppendRelocOk(c, o0, base, s0, s1, CONCAT(0, base, base + 1), StrictRes(c.rt.m, Concat, v1, v2));
  }

  lemma ConcatComputes(c: Entry, o0: Out, base: nat, s: Gen, v1: Res, v2: Res)
    requires Ready(c, o0, base, s, Reg(base), Reg(base + 1), v1, v2)
    ensures Computes(c, o0, base, s, CONCAT(0, base, base + 1), StrictRes(c.rt.m, Concat, v1, v2))
  {
    var o := From(c, Close(s));
    if o.End? { ConcatStep(c.rt, o.R, base, base + 1); }
  }

  lemma CodeConcatOk(c: Entry, o0: Out, base: nat, s0: Gen, i: GE, v1: Res, x: GE, v2: Res, r: GE)
    requires Good(c, o0, base, s0, i, v1) && i.e == Plain(VNonReloc(base)) && i.s.freereg == base + 1
    requires SecondDone(c, i, x, v2)
    requires r == CodeConcat(x.s, i.e, x.e) && r.s.k <= c.rt.k
    ensures Good(c, o0, base, s0, r, StrictRes(c.rt.m, Concat, v1, v2)) && r.e.k.VReloc?
  {
    var y := Exp2Val(x.s, x.e);
    ConcatWithPool(y.s, i.e, y.e);
    Exp2ValOk(c, From(c, Close(i.s)), base + 1, i.s, x.s, x.e, v2);
    ConcatWithOk(c, o0, base, s0, i, v1, y, v2, r);
  }

  lemma ConcatWithPool(s: Gen, e1: ExpDesc, e2: ExpDesc)
    ensures s.k <= ConcatWith(s, e1, e2).s.k
  {
    Exp2NextRegPool(s, e2);
  }

  lemma ConcatWithOk(c: Entry, o0: Out, base: nat, s0: Gen, i: GE, v1: Res, y: GE, v2: Res, r: GE)
    requires Good(c, o0, base, s0, i, v1) && i.e == Plain(VNonReloc(base)) && i.s.freereg == base + 1
    requires SecondDone(c, i, y, v2) && !HasJumps(y.e) && !IsVar(y.e.k)
    requires r == ConcatWith(y.s, i.e, y.e) && r.s.k <= c.rt.k
    ensures Good(c, o0, base, s0, r, StrictRes(c.rt.m, Concat, v1, v2)) && r.e.k.VReloc?
  {
    if JoinsConcat(y.s, y.e) {
      JoinConcatOk(c, o0, base, s0, i, v1, y, v2, r);
    } else {
      var z := Exp2NextReg(y.s, y.e);
      Exp2NextRegOk(c, From(c, Close(i.s)), base + 1, i.s, y.s, y.e, v2);
      PlainConcatOk(c, o0, base, s0, i, v1, z, v2, r);
    }
  }
}
