/** Bringing an expression into a register. */
module CodeDischarge {
  import opened LuaValues
  import opened LuaVm
  import opened SymbolicCode
  import opened CodeSpec
  import opened CodeInvariant
  import opened CodeEmit

  predicate IsVar(k: Kind) {
    k.VLocal? || k.VUpval?
  }

  lemma DischargeVarsOk(c: Entry, o0: Out, base: nat, s0: Gen, s: Gen, e: ExpDesc, v: Res)
    requires Shape(s0, base, s, e) && Holds(c, o0, base, -1, s, e, v)
    ensures var d := DischargeVars(s, e);
      && Shape(s0, base, d.s, d.e) && !IsVar(d.e.k) && d.s.k == s.k && d.e.t == e.t && d.e.f == e.f
      && Holds(c, o0, base, -1, d.s, d.e, v)
  {
    if e.k.VUpval? {
      var d := DischargeVars(s, e);
      CodeGrows(s, GETUPVAL(0, e.k.u));
      GrowsTrans(s0, s, d.s);
      ListsGrow(s, d.s, |s0.code|, e);
      CloseCode(s, GETUPVAL(0, e.k.u));
      CloseNone(d.s);
      assert Body(d.s, d.e) == Close(s);
    }
  }

  lemma Discharge2RegOk(c: Entry, o0: Out, base: nat, s0: Gen, s: Gen, e: ExpDesc, reg: nat, v: Res)
    requires Grows(s0, s) && KindOk(s, |s0.code|, base, e) && Lists(s, |s0.code|, e) && c.p <= s0.lasttarget
    requires !IsVar(e.k) && Discharge2Reg(s, e, reg).s.k <= c.rt.k
    requires Holds(c, o0, base, -1, s, e, v)
    ensures var d := Discharge2Reg(s, e, reg);
      && Grows(s0, d.s) && Lists(d.s, |s0.code|, d.e) && d.e.t == e.t && d.e.f == e.f && d.s.freereg == s.freereg
      && (if e.k.VJmp? then d == GE(s, e) else d.e.k == VNonReloc(reg) && Holds(c, o0, base, reg, d.s, d.e, v))
  {
    if !e.k.VJmp? {
      LoadIntoOk(c, o0, base, |s0.code|, s, e, reg, v);
      GrowsTrans(s0, s, LoadInto(s, e.k, reg));
      ListsGrow(s, LoadInto(s, e.k, reg), |s0.code|, e);
    }
  }

  /** Ignoring a register at or above `base` changes nothing. */
  lemma HoldsAbove(c: Entry, o0: Out, base: nat, x: int, s: Gen, e: ExpDesc, v: Res)
    requires Holds(c, o0, base, x, s, e, v) && (x >= base || x < 0)
    ensures Holds(c, o0, base, -1, s, e, v)
  {
  }

  lemma ReserveOk(c: Entry, o0: Out, base: nat, x: int, s0: Gen, s: Gen, e: ExpDesc, v: Res, n: nat)
    requires Grows(s0, s) && KindOk(s, |s0.code|, base, e) && Lists(s, |s0.code|, e) && Holds(c, o0, base, x, s, e, v)
    ensures var s' := Reserve(s, n);
      Grows(s0, s') && KindOk(s', |s0.code|, base, e) && Lists(s', |s0.code|, e) && Holds(c, o0, base, x, s', e, v)
  {
    assert Close(Reserve(s, n)) == Close(s);
  }

  lemma FreeOk(c: Entry, o0: Out, base: nat, x: int, s0: Gen, s: Gen, e: ExpDesc, v: Res, e1: ExpDesc)
    requires Grows(s0, s) && KindOk(s, |s0.code|, base, e) && Lists(s, |s0.code|, e) && Holds(c, o0, base, x, s, e, v)
    requires RegsOk(s, base, e1) && s.nactvar <= base
    ensures var s' := FreeExp(s, e1);
      && Grows(s0, s') && KindOk(s', |s0.code|, base, e) && Lists(s', |s0.code|, e) && Holds(c, o0, base, x, s', e, v)
      && s'.freereg == base
  {
    assert Close(FreeExp(s, e1)) == Close(s);
  }

  lemma Discharge2AnyRegOk(c: Entry, o0: Out, base: nat, s0: Gen, s: Gen, e: ExpDesc, v: Res)
    requires Shape(s0, base, s, e) && c.p <= s0.lasttarget && !IsVar(e.k) && !e.k.VJmp?
    requires Discharge2AnyReg(s, e).s.k <= c.rt.k
    requires Holds(c, o0, base, -1, s, e, v)
    ensures var d := Discharge2AnyReg(s, e);
      Shape(s0, base, d.s, d.e) && d.e.k.VNonReloc? && d.e.t == e.t && d.e.f == e.f
        && Holds(c, o0, base, -1, d.s, d.e, v)
  {
    if !e.k.VNonReloc? {
      ReserveOk(c, o0, base, -1, s0, s, e, v, 1);
      Discharge2RegOk(c, o0, base, s0, Reserve(s, 1), e, s.freereg, v);
      var d := Discharge2AnyReg(s, e);
      HoldsAbove(c, o0, base, s.freereg, d.s, d.e, v);
    }
  }
}
