/** Operators that need the values of their operands. */
module CodeOperators {
  import opened Common
  import opened LuaValues
  import opened LuaVm
  import opened SymbolicCode
  import opened CodeSpec
  import opened CodeInvariant
  import opened CodeEmit
  import opened CodeDischarge
  import opened CodeExp2Reg
  import opened CodeOperands
  import opened CodeBranch

  /** The code of s ends in a state where `i` would compute `v`. */
  ghost predicate Computes(c: Entry, o0: Out, base: nat, s: Gen, i: Sym, v: Res)
    requires Relocatable(i)
  {
    match o0
    case End(R1) =>
      (match From(c, Close(s))
       case End(R2) => Agree(R1, R2, base, -1) && ResultOf(c.rt, i, R2) == v
       case Fail => v.Error?
       case _ => false)
    case Stuck => true
    case _ => From(c, Close(s)) == o0
  }

  lemma AppendRelocOk(c: Entry, o0: Out, base: nat, s0: Gen, s: Gen, i: Sym, v: Res)
    requires Relocatable(i) && Grows(s0, s) && s.freereg == base && s.nactvar <= base
    requires i.CONCAT? ==> i.b == base <= i.c
    requires c.p <= s0.lasttarget && OldExit(o0, |s0.code|) && Computes(c, o0, base, s, i, v)
    ensures Good(c, o0, base, s0, GE(Code(s, i), Plain(VReloc(|s.code|))), v)
  {
    var s' := Code(s, i);
    CodeGrows(s, i);
    GrowsTrans(s0, s, s');
    CloseCode(s, i);
    CloseNone(s');
    assert Body(s', Plain(VReloc(|s.code|))) == Close(s);
  }

  function UnaryRes(m: Machine, op: UnaryOp, v: Res): Res {
    match v
    case Error => Error
    case Ok(x) => ToRes(m.unary(op, x))
  }

  lemma CodeUnaryOk(c: Entry, o0: Out, base: nat, s0: Gen, s: Gen, op: UnaryOp, e: ExpDesc, v: Res)
    requires Good(c, o0, base, s0, GE(s, e), v) && FoldsSoundly(s.m) && c.rt.m == s.m
    requires CodeUnary(s, op, e).s.k <= c.rt.k
    ensures Good(c, o0, base, s0, CodeUnary(s, op, e), UnaryRes(s.m, op, v)) && !CodeUnary(s, op, e).e.k.VK?
  {
    if op != Len && IsNumeral(e) && s.m.foldUnary(op, e.k.v).Some? {
      FoldUnaryOk(c, o0, base, s0, s, op, e, v);
    } else {
      var x := Exp2AnyReg(s, e);
      Exp2AnyRegOk(c, o0, base, s0, s, e, v);
      FreeOk(c, o0, base, -1, s0, x.s, x.e, v, x.e);
      var s1 := FreeExp(x.s, x.e);
      UnaryComputes(c, o0, base, s1, op, x.e, v);
      AppendRelocOk(c, o0, base, s0, s1, UNARY(op, 0, x.e.k.r), UnaryRes(s.m, op, v));
    }
  }

  lemma FoldUnaryOk(c: Entry, o0: Out, base: nat, s0: Gen, s: Gen, op: UnaryOp, e: ExpDesc, v: Res)
    requires Good(c, o0, base, s0, GE(s, e), v) && FoldsSoundly(s.m)
    requires IsNumeral(e) && s.m.foldUnary(op, e.k.v).Some?
    ensures Good(c, o0, base, s0, GE(s, e.(k := VNumber(s.m.foldUnary(op, e.k.v).value))), UnaryRes(s.m, op, v))
  {
  }

  lemma UnaryComputes(c: Entry, o0: Out, base: nat, s: Gen, op: UnaryOp, e: ExpDesc, v: Res)
    requires Holds(c, o0, base, -1, s, e, v) && e.k.VNonReloc? && !HasJumps(e)
    ensures Computes(c, o0, base, s, UNARY(op, 0, e.k.r), UnaryRes(c.rt.m, op, v))
  {
  }

  // ----- two operands -----

  /** The first operand's value survives the evaluation of the second. */
  ghost predicate FirstDone(c: Entry, o0: Out, base: nat, s0: Gen, i: GE, v1: Res) {
    && Good(c, o0, base, s0, i, v1)
    && !HasJumps(i.e) && (i.e.k.VNumber? || exists o :: OperandOf(i.s, i.e, o))
  }

  /** The second operand, compiled in the state the first one left. */
  ghost predicate SecondDone(c: Entry, i: GE, x: GE, v2: Res) {
    Good(c, From(c, Close(i.s)), i.s.freereg, i.s, x, v2)
  }

  /** Both operand values are where o1 and o2 say. */
  ghost predicate Ready(c: Entry, o0: Out, base: nat, s: Gen, o1: RK, o2: RK, v1: Res, v2: Res) {
    match o0
    case End(R1) =>
      (match From(c, Close(s))
       case End(R2) => Agree(R1, R2, base, -1) && v1 == Ok(RKVal(c.rt, R2, o1)) && v2 == Ok(RKVal(c.rt, R2, o2))
       case Fail => v1.Error? || v2.Error?
       case _ => false)
    case Stuck => true
    case _ => From(c, Close(s)) == o0
  }

  /** An operand that is already in place is left alone. */
  lemma Exp2RKAgain(s: Gen, e: ExpDesc, o: RK)
    requires OperandOf(s, e, o)
    ensures Exp2RK(s, e) == GO(s, e, o)
  {
  }

  lemma NextStart(c: Entry, o0: Out, base: nat, s0: Gen, i: GE, v1: Res)
    requires FirstDone(c, o0, base, s0, i, v1)
    ensures c.p <= i.s.lasttarget && OldExit(From(c, Close(i.s)), |i.s.code|)
    ensures Body(i.s, i.e) == Close(i.s)
    ensures base <= i.s.freereg <= base + 1
    ensures i.e.k.VNonReloc? ==> i.e.k.r < i.s.freereg
  {
    ExitFacts(c.rt, Close(i.s), c.p, c.R);
  }

  lemma SecondReady(c: Entry, o0: Out, base: nat, s0: Gen, i: GE, o1: RK, v1: Res, x: GE, o2: RK, v2: Res)
    requires FirstDone(c, o0, base, s0, i, v1) && OperandOf(i.s, i.e, o1)
    requires SecondDone(c, i, x, v2) && OperandOf(x.s, x.e, o2)
    ensures Ready(c, o0, base, x.s, o1, o2, v1, v2)
    ensures Grows(s0, x.s)
  {
    NextStart(c, o0, base, s0, i, v1);
    GrowsTrans(s0, i.s, x.s);
  }

  /** A numeral kept aside while the second operand was compiled becomes an operand now. */
  lemma NumeralReady(c: Entry, o0: Out, base: nat, s0: Gen, i: GE, v1: Res, x: GE, o2: RK, v2: Res, y: GO)
    requires FirstDone(c, o0, base, s0, i, v1) && i.e.k.VNumber?
    requires SecondDone(c, i, x, v2) && OperandOf(x.s, x.e, o2)
    requires y == Exp2RK(x.s, i.e) && y.s.k <= c.rt.k
    ensures Ready(c, o0, base, y.s, y.o, o2, v1, v2) && OperandOf(y.s, y.e, y.o)
    ensures Grows(s0, y.s) && Shape(x.s, x.s.freereg, y.s, y.e)
  {
    NumeralGood(c, i, v1, x, v2, y);
    ThirdReady(c, o0, base, s0, i, v1, x, o2, v2, y);
  }

  lemma NumeralGood(c: Entry, i: GE, v1: Res, x: GE, v2: Res, y: GO)
    requires SecondDone(c, i, x, v2) && Shape(i.s, i.s.freereg, i.s, i.e) && i.e.k.VNumber? && !HasJumps(i.e)
    requires y == Exp2RK(x.s, i.e) && y.s.k <= c.rt.k
    ensures Good(c, From(c, Close(x.s)), x.s.freereg, x.s, GE(y.s, y.e), Ok(i.e.k.v)) && OperandOf(y.s, y.e, y.o)
  {
    ExitFacts(c.rt, Close(x.s), c.p, c.R);
    GrowsRefl(x.s);
    Exp2RKOk(c, From(c, Close(x.s)), x.s.freereg, x.s, x.s, i.e, Ok(i.e.k.v));
  }

  lemma ThirdReady(c: Entry, o0: Out, base: nat, s0: Gen, i: GE, v1: Res, x: GE, o2: RK, v2: Res, y: GO)
    requires FirstDone(c, o0, base, s0, i, v1) && i.e.k.VNumber?
    requires SecondDone(c, i, x, v2) && OperandOf(x.s, x.e, o2)
    requires Good(c, From(c, Close(x.s)), x.s.freereg, x.s, GE(y.s, y.e), Ok(i.e.k.v)) && OperandOf(y.s, y.e, y.o)
    ensures Ready(c, o0, base, y.s, y.o, o2, v1, v2) && Grows(s0, y.s)
  {
    NextStart(c, o0, base, s0, i, v1);
    GrowsTrans(s0, i.s, x.s);
    GrowsTrans(s0, x.s, y.s);
  }

  function StrictRes(m: Machine, op: BinOp, v1: Res, v2: Res): Res {
    if v1.Error? || v2.Error? then Error else EvalStrict(m, op, v1.v, v2.v)
  }

  lemma ReadyComputes(c: Entry, o0: Out, base: nat, s: Gen, aop: ArithOp, o1: RK, o2: RK, v1: Res, v2: Res)
    requires Ready(c, o0, base, s, o1, o2, v1, v2)
    ensures Computes(c, o0, base, s, ARITH(aop, 0, o1, o2), StrictRes(c.rt.m, Arith(aop), v1, v2))
  {
  }

  /** At most two temporaries are in use, and both are released. */
  lemma FreeBothOk(s: Gen, base: nat, e1: ExpDesc, o1: RK, e2: ExpDesc, o2: RK, s1: Gen)
    requires s.nactvar <= base && s1 == FreeBoth(s, e1, o1, e2, o2)
    requires s.freereg == base + (if e1.k.VNonReloc? && e1.k.r >= s.nactvar then 1 else 0)
                               + (if e2.k.VNonReloc? && e2.k.r >= s.nactvar then 1 else 0)
    ensures s1 == s.(freereg := base) && Close(s1) == Close(s)
  {
  }

  lemma ArithEmitOk(c: Entry, o0: Out, base: nat, s0: Gen, s: Gen, aop: ArithOp, e1: ExpDesc, o1: RK, e2: ExpDesc,
        o2: RK, v1: Res, v2: Res, r: GE)
    requires Grows(s0, s) && s.nactvar <= base && Ready(c, o0, base, s, o1, o2, v1, v2)
    requires s.freereg == base + (if e1.k.VNonReloc? && e1.k.r >= s.nactvar then 1 else 0)
                               + (if e2.k.VNonReloc? && e2.k.r >= s.nactvar then 1 else 0)
    requires c.p <= s0.lasttarget && OldExit(o0, |s0.code|) && !HasJumps(e1)
    requires var s1 := FreeBoth(s, e1, o1, e2, o2);
      r == GE(Code(s1, ARITH(aop, 0, o1, o2)), e1.(k := VReloc(|s1.code|)))
    ensures Good(c, o0, base, s0, r, StrictRes(c.rt.m, Arith(aop), v1, v2)) && r.e.k.VReloc?
  {
    var s1 := FreeBoth(s, e1, o1, e2, o2);
    FreeBothOk(s, base, e1, o1, e2, o2, s1);
    ReadyComputes(c, o0, base, s1, aop, o1, o2, v1, v2);
    AppendRelocOk(c, o0, base, s0, s1, ARITH(aop, 0, o1, o2), StrictRes(c.rt.m, Arith(aop), v1, v2));
    assert r.e == Plain(VReloc(|s1.code|));
  }

  lemma FoldArithOk(c: Entry, o0: Out, base: nat, s0: Gen, i: GE, v1: Res, x: GE, v2: Res, aop: ArithOp, n: Value)
    requires FirstDone(c, o0, base, s0, i, v1) && SecondDone(c, i, x, v2) && FoldsSoundly(x.s.m) && c.rt.m == x.s.m
    requires IsNumeral(i.e) && IsNumeral(x.e) && x.s.m.foldArith(aop, i.e.k.v, x.e.k.v) == Some(n)
    ensures Good(c, o0, base, s0, GE(x.s, i.e.(k := VNumber(n))), StrictRes(c.rt.m, Arith(aop), v1, v2))
  {
  }

  lemma CodeArithOk(c: Entry, o0: Out, base: nat, s0: Gen, i: GE, v1: Res, x: GE, v2: Res, aop: ArithOp, r: GE)
    requires FirstDone(c, o0, base, s0, i, v1) && SecondDone(c, i, x, v2) && FoldsSoundly(x.s.m) && c.rt.m == x.s.m
    requires r == CodeArith(x.s, aop, i.e, x.e) && r.s.k <= c.rt.k
    ensures Good(c, o0, base, s0, r, StrictRes(c.rt.m, Arith(aop), v1, v2)) && !r.e.k.VK?
  {
    hide *;
    var folded := ArithCases(x.s, aop, i.e, x.e);
    if folded.Some? {
      FoldArithOk(c, o0, base, s0, i, v1, x, v2, aop, folded.value);
    } else {
      var x2 := Exp2RK(x.s, x.e);
      SecondOperand(c, i, x, v2, x2);
      ArithOperandsEmit(c, o0, base, s0, i, v1, x2, v2, aop, r);
    }
  }

  /** Two numerals that can be folded, or an instruction. */
  lemma ArithCases(s: Gen, op: ArithOp, e1: ExpDesc, e2: ExpDesc) returns (folded: Option<Value>)
    ensures folded.Some? ==>
      && IsNumeral(e1) && IsNumeral(e2) && s.m.foldArith(op, e1.k.v, e2.k.v) == folded
      && CodeArith(s, op, e1, e2) == GE(s, e1.(k := VNumber(folded.value)))
    ensures folded.None? ==>
      var x2 := Exp2RK(s, e2); var x1 := Exp2RK(x2.s, e1); var s1 := FreeBoth(x1.s, x1.e, x1.o, x2.e, x2.o);
      && CodeArith(s, op, e1, e2) == GE(Code(s1, ARITH(op, 0, x1.o, x2.o)), x1.e.(k := VReloc(|s1.code|)))
      && CodeArith(s, op, e1, e2).s.k == x1.s.k
  {
    folded := if IsNumeral(e1) && IsNumeral(e2) then s.m.foldArith(op, e1.k.v, e2.k.v) else None;
  }

  lemma SecondOperand(c: Entry, i: GE, x: GE, v2: Res, x2: GO)
    requires SecondDone(c, i, x, v2) && x2 == Exp2RK(x.s, x.e) && Exp2RK(x2.s, i.e).s.k <= c.rt.k
    ensures SecondDone(c, i, GE(x2.s, x2.e), v2) && OperandOf(x2.s, x2.e, x2.o)
  {
    hide Exec;
    Exp2RKPool(x2.s, i.e);
    Exp2RKOk(c, From(c, Close(i.s)), i.s.freereg, i.s, x.s, x.e, v2);
  }

  lemma ArithOperandsEmit(c: Entry, o0: Out, base: nat, s0: Gen, i: GE, v1: Res, x2: GO, v2: Res, aop: ArithOp, r: GE)
    requires FirstDone(c, o0, base, s0, i, v1)
    requires SecondDone(c, i, GE(x2.s, x2.e), v2) && OperandOf(x2.s, x2.e, x2.o)
    requires var x1 := Exp2RK(x2.s, i.e); var s1 := FreeBoth(x1.s, x1.e, x1.o, x2.e, x2.o);
      r == GE(Code(s1, ARITH(aop, 0, x1.o, x2.o)), x1.e.(k := VReloc(|s1.code|)))
    requires r.s.k <= c.rt.k
    ensures Good(c, o0, base, s0, r, StrictRes(c.rt.m, Arith(aop), v1, v2)) && r.e.k.VReloc?
  {
    var x1 := Exp2RK(x2.s, i.e);
    ArithOperandsOk(c, o0, base, s0, i, v1, x2, v2, x1);
    ArithEmitOk(c, o0, base, s0, x1.s, aop, x1.e, x1.o, x2.e, x2.o, v1, v2, r);
  }

  lemma ArithOperandsOk(c: Entry, o0: Out, base: nat, s0: Gen, i: GE, v1: Res, x2: GO, v2: Res, x1: GO)
    requires FirstDone(c, o0, base, s0, i, v1)
    requires SecondDone(c, i, GE(x2.s, x2.e), v2) && OperandOf(x2.s, x2.e, x2.o)
    requires x1 == Exp2RK(x2.s, i.e) && x1.s.k <= c.rt.k
    ensures Grows(s0, x1.s) && Ready(c, o0, base, x1.s, x1.o, x2.o, v1, v2) && !HasJumps(x1.e)
    ensures x1.s.freereg == base + (if x1.e.k.VNonReloc? && x1.e.k.r >= x1.s.nactvar then 1 else 0)
                                 + (if x2.e.k.VNonReloc? && x2.e.k.r >= x1.s.nactvar then 1 else 0)
  {
    if i.e.k.VNumber? {
      NumeralReady(c, o0, base, s0, i, v1, GE(x2.s, x2.e), x2.o, v2, x1);
    } else {
      var o1 :| OperandOf(i.s, i.e, o1);
      SecondReady(c, o0, base, s0, i, o1, v1, GE(x2.s, x2.e), x2.o, v2);
      Exp2RKAgain(x2.s, i.e, o1);
    }
  }

  lemma Exp2RKPool(s: Gen, e: ExpDesc)
    ensures s.k <= Exp2RK(s, e).s.k
  {
    if HasJumps(e) { Exp2AnyRegPool(s, e); }
    var x := Exp2Val(s, e);
    ToRKPool(x.s, x.e);
  }
}
