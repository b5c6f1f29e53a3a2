/** Compiled expressions compute what direct evaluation gives. */
module CodeCorrect {
  import opened LuaValues
  import opened LuaVm
  import opened SymbolicCode
  import opened CodeSpec
  import opened CodeInvariant
  import opened CodeEmit
  import opened CodeDischarge
  import opened CodeExp2Reg
  import opened CodeOperands
  import opened CodeBranch
  import opened CodeNegation
  import opened CodeOperators
  import opened CodeCompareConcat

  // ----- and, or -----

  function AndRes(v1: Res, v2: Res): Res {
    if v1.Error? || IsFalse(v1.v) then v1 else v2
  }

  function OrRes(v1: Res, v2: Res): Res {
    if v1.Error? || !IsFalse(v1.v) then v1 else v2
  }

  /** The exits of the first operand join those of the second. */
  ghost predicate Joined(e1: ExpDesc, d: ExpDesc, e: ExpDesc, isAnd: bool) {
    e == if isAnd then d.(f := d.f + e1.f) else d.(t := d.t + e1.t)
  }

  lemma JoinShape(s0: Gen, base: nat, s2: Gen, e1: ExpDesc, d: GE, e: ExpDesc, isAnd: bool)
    requires Grows(s0, s2) && Lists(s2, |s0.code|, e1) && Shape(s2, base, d.s, d.e)
    requires Joined(e1, d.e, e, isAnd)
    ensures Shape(s0, base, d.s, e)
  {
  }

  lemma JoinHolds(c: Entry, o0: Out, base: nat, s0: Gen, s2: Gen, e1: ExpDesc, d: GE, e: ExpDesc, isAnd: bool, v1: Res,
        v2: Res)
    requires CondState(c, o0, base, s0, s2, e1, v1, isAnd) && (if isAnd then e1.t == [] else e1.f == [])
    requires Good(c, From(c, Close(s2)), base, s2, d, v2) && Joined(e1, d.e, e, isAnd)
    ensures Holds(c, o0, base, -1, d.s, e, if isAnd then AndRes(v1, v2) else OrRes(v1, v2))
  {
    assert Body(d.s, e) == Body(d.s, d.e);
    var o, o2 := From(c, Body(d.s, d.e)), From(c, Close(s2));
    if o0.End? && o2.Exit? {
      assert OpenAt(s2.code, o2.jump) && IsTest(s2.code[o2.jump - 1]);
      assert HasTestSet(d.s.code, o2.jump) == HasTestSet(s2.code, o2.jump);
    }
  }

  lemma JoinOk(c: Entry, o0: Out, base: nat, s0: Gen, s2: Gen, e1: ExpDesc, x: GE, isAnd: bool, v1: Res, v2: Res, r: GE)
    requires CondState(c, o0, base, s0, s2, e1, v1, isAnd) && (if isAnd then e1.t == [] else e1.f == [])
    requires Good(c, From(c, Close(s2)), base, s2, x, v2)
    requires r == Posfix(if isAnd then And else Or, x.s, e1, x.e)
    ensures Good(c, o0, base, s0, r, if isAnd then AndRes(v1, v2) else OrRes(v1, v2))
    ensures r.e.k.VK? ==> r.e.k == x.e.k
  {
    var d := DischargeVars(x.s, x.e);
    DischargeVarsOk(c, From(c, Close(s2)), base, s2, x.s, x.e, v2);
    JoinShape(s0, base, s2, e1, d, r.e, isAnd);
    JoinHolds(c, o0, base, s0, s2, e1, d, r.e, isAnd, v1, v2);
  }

  // ----- the constant pool -----

  lemma CodeNotPool(s: Gen, e: ExpDesc)
    ensures s.k <= CodeNot(s, e).s.k
  {
    var d := DischargeVars(s, e);
    DischargePool(Reserve(d.s, 1), d.e, d.s.freereg);
  }

  lemma JumpOnCondPool(s: Gen, e: ExpDesc, cond: bool)
    ensures s.k <= JumpOnCond(s, e, cond).s.k
  {
    DischargePool(Reserve(s, 1), e, s.freereg);
  }

  lemma InfixPool(op: BinOp, s: Gen, e: ExpDesc)
    ensures s.k <= Infix(op, s, e).s.k
  {
    var d := DischargeVars(s, e);
    match op
    case And => JumpOnCondPool(d.s, d.e, false);
    case Or => JumpOnCondPool(d.s, d.e, true);
    case Concat => Exp2NextRegPool(s, e);
    case Arith(_) => Exp2RKPool(s, e);
    case Compare(_, _) => Exp2RKPool(s, e);
  }

  lemma PosfixPool(op: BinOp, s: Gen, e1: ExpDesc, e2: ExpDesc)
    ensures s.k <= Posfix(op, s, e1, e2).s.k
  {
    hide Exp2RK, ConcatWith, Close;
    match op
    case And =>
    case Or =>
    case Concat =>
      if HasJumps(e2) { Exp2AnyRegPool(s, e2); }
      var x := Exp2Val(s, e2);
      ConcatWithPool(x.s, e1, x.e);
    case Arith(_) =>
      Exp2RKPool(s, e2);
      Exp2RKPool(Exp2RK(s, e2).s, e1);
    case Compare(_, _) =>
      Exp2RKPool(s, e1);
      Exp2RKPool(Exp2RK(s, e1).s, e2);
  }

  lemma {:induction false} CompilePool(s: Gen, x: Expr)
    ensures s.k <= Compile(s, x).s.k
    decreases x
  {
    match x
    case EParen(y) => CompilePool(s, y);
    case ENot(y) =>
      CompilePool(s, y);
      CodeNotPool(Compile(s, y).s, Compile(s, y).e);
    case EUnary(op, y) =>
      CompilePool(s, y);
      Exp2AnyRegPool(Compile(s, y).s, Compile(s, y).e);
    case EBinary(op, l, r) =>
      CompilePool(s, l);
      var c1 := Compile(s, l);
      InfixPool(op, c1.s, c1.e);
      var i := Infix(op, c1.s, c1.e);
      CompilePool(i.s, r);
      var c2 := Compile(i.s, r);
      PosfixPool(op, c2.s, i.e, c2.e);
    case _ =>
  }

  // ----- the theorem -----

  /** Evaluation only looks at active locals. */
  lemma {:induction false} EvalAgrees(m: Machine, up: seq<Value>, x: Expr, nactvar: nat, R1: Regs, R2: Regs)
    requires WellFormed(x, nactvar) && Agree(R1, R2, nactvar, -1)
    ensures Eval(m, up, x, R1) == Eval(m, up, x, R2)
    decreases x
  {
    match x
    case EParen(y) => EvalAgrees(m, up, y, nactvar, R1, R2);
    case ENot(y) => EvalAgrees(m, up, y, nactvar, R1, R2);
    case EUnary(_, y) => EvalAgrees(m, up, y, nactvar, R1, R2);
    case EBinary(_, l, r) => EvalAgrees(m, up, l, nactvar, R1, R2); EvalAgrees(m, up, r, nactvar, R1, R2);
    case _ =>
  }

  /** The value of x where a run has got to. */
  function ValueAt(c: Entry, x: Expr, o: Out): Res {
    if o.End? then Eval(c.rt.m, c.rt.up, x, o.R) else Error
  }

  /** String constants are the only ones an expression can be. */
  ghost predicate StringK(k: seq<Value>, e: ExpDesc) {
    e.k.VK? ==> e.k.k < |k| && k[e.k.k].Str?
  }

  ghost predicate Start(c: Entry, s0: Gen, x: Expr) {
    && Wf(s0) && WellFormed(x, s0.nactvar) && c.p <= s0.lasttarget
    && FoldsSoundly(s0.m) && c.rt.m == s0.m
  }

  /** The main invariant: from any earlier entry point, the code of x computes x. */
  lemma {:induction false} CompileOk(c: Entry, s0: Gen, x: Expr)
    requires Start(c, s0, x) && Compile(s0, x).s.k <= c.rt.k
    ensures var o0 := From(c, Close(s0));
      && Good(c, o0, s0.freereg, s0, Compile(s0, x), ValueAt(c, x, o0))
      && StringK(c.rt.k, Compile(s0, x).e)
    decreases x
  {
    var o0, base := From(c, Close(s0)), s0.freereg;
    ExitFacts(c.rt, Close(s0), c.p, c.R);
    hide Exec;
    match x
    case EParen(y) =>
      CompileOk(c, s0, y);
      var k := Compile(s0, y);
      DischargeVarsOk(c, o0, base, s0, k.s, k.e, ValueAt(c, y, o0));
    case ENot(y) =>
      CodeNotPool(Compile(s0, y).s, Compile(s0, y).e);
      CompileOk(c, s0, y);
      var k := Compile(s0, y);
      CodeNotOk(c, o0, base, s0, k.s, k.e, ValueAt(c, y, o0));
    case EUnary(op, y) =>
      Exp2AnyRegPool(Compile(s0, y).s, Compile(s0, y).e);
      CompileOk(c, s0, y);
      var k := Compile(s0, y);
      CodeUnaryOk(c, o0, base, s0, k.s, op, k.e, ValueAt(c, y, o0));
    case EBinary(op, l, r) =>
      if op.And? || op.Or? { LogicalOk(c, s0, op, l, r); }
      else { StrictOk(c, s0, op, l, r); }
    case EString(str) => AddKFacts(s0, Str(str)); LeafOk(c, s0, x);
    case _ => LeafOk(c, s0, x);
  }

  lemma LeafOk(c: Entry, s0: Gen, x: Expr)
    requires Start(c, s0, x) && Compile(s0, x).s.k <= c.rt.k
    requires !x.EParen? && !x.ENot? && !x.EUnary? && !x.EBinary?
    ensures var o0 := From(c, Close(s0));
      && Good(c, o0, s0.freereg, s0, Compile(s0, x), ValueAt(c, x, o0))
      && StringK(c.rt.k, Compile(s0, x).e)
  {
    hide *;
    LeafGood(c, s0, x);
    LeafString(c, s0, x);
  }

  lemma LeafGood(c: Entry, s0: Gen, x: Expr)
    requires Start(c, s0, x) && Compile(s0, x).s.k <= c.rt.k
    requires !x.EParen? && !x.ENot? && !x.EUnary? && !x.EBinary?
    ensures var o0 := From(c, Close(s0)); Good(c, o0, s0.freereg, s0, Compile(s0, x), ValueAt(c, x, o0))
  {
    hide Exec, Close, Shape, Holds, Compile, ValueAt;
    LeafShape(c, s0, x);
    LeafHolds(c, s0, x);
    ExitFacts(c.rt, Close(s0), c.p, c.R);
    ClosedLength(s0);
  }

  lemma LeafShape(c: Entry, s0: Gen, x: Expr)
    requires Start(c, s0, x)
    requires !x.EParen? && !x.ENot? && !x.EUnary? && !x.EBinary?
    ensures Shape(s0, s0.freereg, Compile(s0, x).s, Compile(s0, x).e)
  {
    hide Exec, Close;
    GrowsRefl(s0);
  }

  lemma LeafHolds(c: Entry, s0: Gen, x: Expr)
    requires Start(c, s0, x) && Compile(s0, x).s.k <= c.rt.k
    requires !x.EParen? && !x.ENot? && !x.EUnary? && !x.EBinary?
    ensures var o0 := From(c, Close(s0));
      Holds(c, o0, s0.freereg, -1, Compile(s0, x).s, Compile(s0, x).e, ValueAt(c, x, o0))
  {
    hide Exec, Close;
    LeafCode(s0, x);
  }

  lemma ClosedLength(s: Gen)
    ensures |Close(s)| == |s.code|
  {
  }

  lemma LeafCode(s0: Gen, x: Expr)
    requires !x.EParen? && !x.ENot? && !x.EUnary? && !x.EBinary?
    ensures Close(Compile(s0, x).s) == Close(s0)
  {
  }

  lemma LeafString(c: Entry, s0: Gen, x: Expr)
    requires Start(c, s0, x) && Compile(s0, x).s.k <= c.rt.k
    requires !x.EParen? && !x.ENot? && !x.EUnary? && !x.EBinary?
    ensures StringK(c.rt.k, Compile(s0, x).e)
  {
  }

  lemma {:induction false} LogicalOk(c: Entry, s0: Gen, op: BinOp, l: Expr, r: Expr)
    requires Start(c, s0, EBinary(op, l, r)) && Compile(s0, EBinary(op, l, r)).s.k <= c.rt.k
    requires op.And? || op.Or?
    ensures var o0 := From(c, Close(s0)); var x := EBinary(op, l, r);
      && Good(c, o0, s0.freereg, s0, Compile(s0, x), ValueAt(c, x, o0))
      && StringK(c.rt.k, Compile(s0, x).e)
    decreases EBinary(op, l, r), 0
  {
    hide Infix, Posfix;
    var o0, base := From(c, Close(s0)), s0.freereg;
    var c1 := Compile(s0, l);
    var i := Infix(op, c1.s, c1.e);
    var c2 := Compile(i.s, r);
    InfixPool(op, c1.s, c1.e);
    CompilePool(i.s, r);
    PosfixPool(op, c2.s, i.e, c2.e);
    CompileOk(c, s0, l);
    var v1 := ValueAt(c, l, o0);
    InfixBranchOk(c, o0, base, s0, op, c1, v1, i);
    CompileOk(c, i.s, r);
    var o2 := From(c, Close(i.s));
    var v2 := ValueAt(c, r, o2);
    JoinOk(c, o0, base, s0, i.s, i.e, c2, op.And?, v1, v2, Compile(s0, EBinary(op, l, r)));
    if o0.End? && o2.End? { EvalAgrees(c.rt.m, c.rt.up, r, s0.nactvar, o0.R, o2.R); }
  }

  lemma InfixBranchOk(c: Entry, o0: Out, base: nat, s0: Gen, op: BinOp, k: GE, v1: Res, i: GE)
    requires Good(c, o0, base, s0, k, v1) && StringK(c.rt.k, k.e) && (op.And? || op.Or?)
    requires i == Infix(op, k.s, k.e) && i.s.k <= c.rt.k
    ensures CondState(c, o0, base, s0, i.s, i.e, v1, op.And?) && (if op.And? then i.e.t == [] else i.e.f == [])
  {
    if op.And? { GoIfTrueOk(c, o0, base, s0, k.s, k.e, v1); } else { GoIfFalseOk(c, o0, base, s0, k.s, k.e, v1); }
  }

  lemma InfixStrictOk(c: Entry, o0: Out, base: nat, s0: Gen, op: BinOp, k: GE, v1: Res, i: GE)
    requires Good(c, o0, base, s0, k, v1) && i == Infix(op, k.s, k.e) && i.s.k <= c.rt.k && !op.And? && !op.Or?
    ensures FirstDone(c, o0, base, s0, i, v1)
    ensures op.Concat? ==> i.e == Plain(VNonReloc(base)) && i.s.freereg == base + 1
    ensures op.Compare? ==> exists o :: OperandOf(i.s, i.e, o)
  {
    if op.Concat? {
      Exp2NextRegOk(c, o0, base, s0, k.s, k.e, v1);
      assert OperandOf(i.s, i.e, Reg(base));
    } else if op.Compare? || !IsNumeral(k.e) {
      Exp2RKOk(c, o0, base, s0, k.s, k.e, v1);
      assert OperandOf(i.s, i.e, Exp2RK(k.s, k.e).o);
    }
  }

  lemma PosfixStrictOk(c: Entry, o0: Out, base: nat, s0: Gen, op: BinOp, i: GE, v1: Res, x: GE, v2: Res, r: GE)
    requires FirstDone(c, o0, base, s0, i, v1) && SecondDone(c, i, x, v2) && FoldsSoundly(x.s.m) && c.rt.m == x.s.m
    requires !op.And? && !op.Or?
    requires op.Concat? ==> i.e == Plain(VNonReloc(base)) && i.s.freereg == base + 1
    requires op.Compare? ==> exists o :: OperandOf(i.s, i.e, o)
    requires r == Posfix(op, x.s, i.e, x.e) && r.s.k <= c.rt.k
    ensures Good(c, o0, base, s0, r, StrictRes(c.rt.m, op, v1, v2)) && !r.e.k.VK?
  {
    match op
    case Arith(aop) => CodeArithOk(c, o0, base, s0, i, v1, x, v2, aop, r);
    case Concat => CodeConcatOk(c, o0, base, s0, i, v1, x, v2, r);
    case Compare(cop, flip) =>
      var o1 :| OperandOf(i.s, i.e, o1);
      CodeCompOk(c, o0, base, s0, i, o1, v1, x, v2, cop, flip, r);
  }

  lemma {:induction false} StrictOk(c: Entry, s0: Gen, op: BinOp, l: Expr, r: Expr)
    requires Start(c, s0, EBinary(op, l, r)) && Compile(s0, EBinary(op, l, r)).s.k <= c.rt.k
    requires !op.And? && !op.Or?
    ensures var o0 := From(c, Close(s0)); var x := EBinary(op, l, r);
      && Good(c, o0, s0.freereg, s0, Compile(s0, x), ValueAt(c, x, o0))
      && StringK(c.rt.k, Compile(s0, x).e)
    decreases EBinary(op, l, r), 0
  {
    hide Infix, Posfix;
    var o0, base := From(c, Close(s0)), s0.freereg;
    var c1 := Compile(s0, l);
    var i := Infix(op, c1.s, c1.e);
    var c2 := Compile(i.s, r);
    InfixPool(op, c1.s, c1.e);
    CompilePool(i.s, r);
    PosfixPool(op, c2.s, i.e, c2.e);
    CompileOk(c, s0, l);
    var v1 := ValueAt(c, l, o0);
    InfixStrictOk(c, o0, base, s0, op, c1, v1, i);
    NextStart(c, o0, base, s0, i, v1);
    CompileOk(c, i.s, r);
    var o2 := From(c, Close(i.s));
    var v2 := ValueAt(c, r, o2);
    PosfixStrictOk(c, o0, base, s0, op, i, v1, c2, v2, Compile(s0, EBinary(op, l, r)));
    if o0.End? && o2.End? { EvalAgrees(c.rt.m, c.rt.up, r, s0.nactvar, o0.R, o2.R); }
  }
}
