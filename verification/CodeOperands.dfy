/** Operands: next register, any register, register or constant. */
module CodeOperands {
  import opened LuaValues
  import opened LuaVm
  import opened SymbolicCode
  import opened CodeSpec
  import opened CodeInvariant
  import opened CodeEmit
  import opened CodeDischarge
  import opened CodeExp2Reg

  /** Everything known about an expression compiled from s0 on. */
  ghost predicate Good(c: Entry, o0: Out, base: nat, s0: Gen, x: GE, v: Res) {
    && Shape(s0, base, x.s, x.e) && Holds(c, o0, base, -1, x.s, x.e, v)
    && c.p <= s0.lasttarget && OldExit(o0, |s0.code|)
  }

  // ----- the constant pool only grows -----

  lemma DischargePool(s: Gen, e: ExpDesc, reg: nat)
    ensures s.k <= Discharge2Reg(s, e, reg).s.k && s.k <= DischargeVars(s, e).s.k
  {
  }

  lemma Exp2RegPool(s: Gen, e: ExpDesc, reg: nat)
    ensures s.k <= Exp2Reg(s, e, reg).s.k
  {
    DischargePool(s, e, reg);
    CloseListsKeepsPool(s, Discharge2Reg(s, e, reg).s, e, reg);
  }

  lemma Exp2NextRegPool(s: Gen, e: ExpDesc)
    ensures s.k <= Exp2NextReg(s, e).s.k
  {
    hide *;
    var d := DischargeVars(s, e);
    var s1 := Reserve(FreeExp(d.s, d.e), 1);
    NextRegParts(s, e);
    Exp2RegPool(s1, d.e, s1.freereg - 1);
  }

  lemma NextRegParts(s: Gen, e: ExpDesc)
    ensures var d := DischargeVars(s, e); var s1 := Reserve(FreeExp(d.s, d.e), 1);
      && s.k <= d.s.k == s1.k && s1.freereg > 0 && Exp2NextReg(s, e) == Exp2Reg(s1, d.e, s1.freereg - 1)
  {
    DischargePool(s, e, 0);
    hide Exp2Reg, Discharge2Reg;
  }

  lemma Exp2AnyRegPool(s: Gen, e: ExpDesc)
    ensures s.k <= Exp2AnyReg(s, e).s.k
  {
    var d := DischargeVars(s, e);
    if d.e.k.VNonReloc? { Exp2RegPool(d.s, d.e, d.e.k.r); }
    Exp2NextRegPool(d.s, d.e);
  }

  lemma ToRKPool(s: Gen, e: ExpDesc)
    ensures s.k <= ToRK(s, e).s.k
  {
    Exp2AnyRegPool(s, e);
    if e.k.VNumber? {
      var r := AsK(s, e, e.k.v);
      Exp2AnyRegPool(r.s, r.e);
    }
  }

  // ----- what the operations do -----

  lemma Exp2NextRegOk(c: Entry, o0: Out, base: nat, s0: Gen, s: Gen, e: ExpDesc, v: Res)
    requires Good(c, o0, base, s0, GE(s, e), v)
    requires Exp2NextReg(s, e).s.k <= c.rt.k
    ensures Good(c, o0, base, s0, Exp2NextReg(s, e), v)
    ensures Exp2NextReg(s, e).e == Plain(VNonReloc(base))
  {
    var d := DischargeVars(s, e);
    DischargeVarsOk(c, o0, base, s0, s, e, v);
    IntoNextReg(c, o0, base, s0, d.s, d.e, v, Exp2NextReg(s, e));
  }

  lemma PrepareNext(c: Entry, o0: Out, base: nat, s0: Gen, s: Gen, e: ExpDesc, v: Res, s2: Gen)
    requires Good(c, o0, base, s0, GE(s, e), v)
    requires s2 == Reserve(FreeExp(s, e), 1)
    ensures Grows(s0, s2) && KindOk(s2, |s0.code|, base, e) && Lists(s2, |s0.code|, e)
    ensures Holds(c, o0, base, -1, s2, e, v) && s2.freereg == base + 1 && FreeExp(s, e).freereg == base
  {
    FreeOk(c, o0, base, -1, s0, s, e, v, e);
    ReserveOk(c, o0, base, -1, s0, FreeExp(s, e), e, v, 1);
  }

  lemma IntoNextReg(c: Entry, o0: Out, base: nat, s0: Gen, s: Gen, e: ExpDesc, v: Res, r: GE)
    requires Good(c, o0, base, s0, GE(s, e), v) && !IsVar(e.k)
    requires r == Exp2Reg(Reserve(FreeExp(s, e), 1), e, FreeExp(s, e).freereg) && r.s.k <= c.rt.k
    ensures Good(c, o0, base, s0, r, v) && r.e == Plain(VNonReloc(base))
  {
    var s2 := Reserve(FreeExp(s, e), 1);
    PrepareNext(c, o0, base, s0, s, e, v, s2);
    IntoBase(c, o0, base, s0, s2, e, v, r);
  }

  /** Putting an expression into the first free register. */
  lemma IntoBase(c: Entry, o0: Out, base: nat, s0: Gen, s: Gen, e: ExpDesc, v: Res, r: GE)
    requires Grows(s0, s) && KindOk(s, |s0.code|, base, e) && Lists(s, |s0.code|, e) && s.nactvar <= base
    requires c.p <= s0.lasttarget && OldExit(o0, |s0.code|) && !IsVar(e.k)
    requires Holds(c, o0, base, -1, s, e, v) && s.freereg == base + 1
    requires r == Exp2Reg(s, e, base) && r.s.k <= c.rt.k
    ensures Good(c, o0, base, s0, r, v) && r.e == Plain(VNonReloc(base))
  {
    Exp2RegOk(c, o0, base, s0, s, e, base, v);
    HoldsAbove(c, o0, base, base, r.s, r.e, v);
  }

  lemma Exp2AnyRegOk(c: Entry, o0: Out, base: nat, s0: Gen, s: Gen, e: ExpDesc, v: Res)
    requires Good(c, o0, base, s0, GE(s, e), v)
    requires Exp2AnyReg(s, e).s.k <= c.rt.k
    ensures Good(c, o0, base, s0, Exp2AnyReg(s, e), v)
    ensures Exp2AnyReg(s, e).e.k.VNonReloc? && !HasJumps(Exp2AnyReg(s, e).e)
  {
    var d := DischargeVars(s, e);
    DischargeVarsOk(c, o0, base, s0, s, e, v);
    if d.e.k.VNonReloc? && !HasJumps(d.e) {
    } else if d.e.k.VNonReloc? && d.e.k.r >= d.s.nactvar {
      IntoBase(c, o0, base, s0, d.s, d.e, v, Exp2AnyReg(s, e));
    } else {
      Exp2NextRegOk(c, o0, base, s0, d.s, d.e, v);
    }
  }

  lemma Exp2ValOk(c: Entry, o0: Out, base: nat, s0: Gen, s: Gen, e: ExpDesc, v: Res)
    requires Good(c, o0, base, s0, GE(s, e), v)
    requires Exp2Val(s, e).s.k <= c.rt.k
    ensures Good(c, o0, base, s0, Exp2Val(s, e), v)
    ensures !HasJumps(Exp2Val(s, e).e) && !IsVar(Exp2Val(s, e).e.k)
  {
    if HasJumps(e) { Exp2AnyRegOk(c, o0, base, s0, s, e, v); }
    else { DischargeVarsOk(c, o0, base, s0, s, e, v); }
  }

  /** `o` names the place where the value of `e` is. */
  ghost predicate OperandOf(s: Gen, e: ExpDesc, o: RK) {
    match o
    case Reg(r) => e == Plain(VNonReloc(r))
    case Const(k) => e == Plain(VK(k)) && k < |s.k| && k <= MAXINDEXRK
  }

  lemma AsKOk(c: Entry, o0: Out, base: nat, s0: Gen, s: Gen, e: ExpDesc, n: Value, v: Res)
    requires Good(c, o0, base, s0, GE(s, e), v) && !HasJumps(e)
    requires e.k == VNumber(n) || (e.k == VNil && n == Nil) || (e.k == VTrue && n == Boolean(true))
      || (e.k == VFalse && n == Boolean(false))
    requires AddK(s, n).k <= c.rt.k
    ensures var r := AsK(s, e, n); Good(c, o0, base, s0, GE(r.s, r.e), v) && r.e == Plain(VK(r.o.k)) && r.o.k < |r.s.k|
    ensures |s.k| <= MAXINDEXRK ==> AsK(s, e, n).o.k <= MAXINDEXRK
  {
    AddKFacts(s, n);
    assert Close(AddK(s, n)) == Close(s);
  }

  lemma ToRKOk(c: Entry, o0: Out, base: nat, s0: Gen, s: Gen, e: ExpDesc, v: Res)
    requires Good(c, o0, base, s0, GE(s, e), v) && !HasJumps(e) && !IsVar(e.k)
    requires ToRK(s, e).s.k <= c.rt.k
    ensures var r := ToRK(s, e); Good(c, o0, base, s0, GE(r.s, r.e), v) && OperandOf(r.s, r.e, r.o)
  {
    match e.k
    case VTrue => if |s.k| <= MAXINDEXRK { AsKOk(c, o0, base, s0, s, e, Boolean(true), v); }
      else { Exp2AnyRegOk(c, o0, base, s0, s, e, v); }
    case VFalse => if |s.k| <= MAXINDEXRK { AsKOk(c, o0, base, s0, s, e, Boolean(false), v); }
      else { Exp2AnyRegOk(c, o0, base, s0, s, e, v); }
    case VNil => if |s.k| <= MAXINDEXRK { AsKOk(c, o0, base, s0, s, e, Nil, v); }
      else { Exp2AnyRegOk(c, o0, base, s0, s, e, v); }
    case VNumber(n) => NumberRKOk(c, o0, base, s0, s, e, n, v);
    case VK(i) => if i > MAXINDEXRK { Exp2AnyRegOk(c, o0, base, s0, s, e, v); }
    case _ => Exp2AnyRegOk(c, o0, base, s0, s, e, v);
  }

  lemma NumberRKOk(c: Entry, o0: Out, base: nat, s0: Gen, s: Gen, e: ExpDesc, n: Value, v: Res)
    requires Good(c, o0, base, s0, GE(s, e), v) && !HasJumps(e) && e.k == VNumber(n)
    requires ToRK(s, e).s.k <= c.rt.k
    ensures var r := ToRK(s, e); Good(c, o0, base, s0, GE(r.s, r.e), v) && OperandOf(r.s, r.e, r.o)
  {
    var a := AsK(s, e, n);
    Exp2AnyRegPool(a.s, a.e);
    AsKOk(c, o0, base, s0, s, e, n, v);
    if a.o.k > MAXINDEXRK { Exp2AnyRegOk(c, o0, base, s0, a.s, a.e, v); }
  }

  lemma Exp2RKOk(c: Entry, o0: Out, base: nat, s0: Gen, s: Gen, e: ExpDesc, v: Res)
    requires Good(c, o0, base, s0, GE(s, e), v)
    requires Exp2RK(s, e).s.k <= c.rt.k
    ensures var r := Exp2RK(s, e); Good(c, o0, base, s0, GE(r.s, r.e), v) && OperandOf(r.s, r.e, r.o)
  {
    var x := Exp2Val(s, e);
    ToRKPool(x.s, x.e);
    Exp2ValOk(c, o0, base, s0, s, e, v);
    ToRKOk(c, o0, base, s0, x.s, x.e, v);
  }
}
