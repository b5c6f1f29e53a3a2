/** `exp2reg` and the operations built on it. */
module CodeExp2Reg {
  import opened LuaValues
  import opened LuaVm
  import opened SymbolicCode
  import opened CodeSpec
  import opened CodeInvariant
  import opened CodeEmit
  import opened CodeDischarge
  import opened CodeClose

  /** The exit lists of an expression, before they are closed. */
  ghost predicate Pending(s: Gen, lo: nat, isJump: bool, t: seq<nat>, f: seq<nat>) {
    && Wf(s) && Lists(s, lo, ExpDesc(VNil, t, f)) && (t != [] || f != [])
    && (isJump ==> s.jpc == [] && NeedValue(s.code, t))
  }

  /** The code before patching: the expression, perhaps a jump, and the two LOADBOOLs. */
  function WithBools(s: Gen, isJump: bool, reg: nat): seq<Sym> {
    s.code + (if isJump then [] else [JMP(Open)]) + [LOADBOOL(reg, false, true), LOADBOOL(reg, true, false)]
  }

  lemma LoadBoolsCode(s: Gen, isJump: bool, reg: nat)
    requires isJump ==> s.jpc == []
    ensures LoadBools(if isJump then s else EmitJump(s), reg).code == WithBools(s, isJump, reg)
    ensures LoadBools(if isJump then s else EmitJump(s), reg).jpc == []
  {
  }

  /** Patching three disjoint lists, instruction by instruction. */
  function Thrice(E: seq<Sym>, f: seq<nat>, t: seq<nat>, here: seq<nat>, reg: int, pf: nat, pt: nat, i: nat): Sym
    requires i < |E|
  {
    if E[i].JMP? then
      if i in f then JMP(To(if HasTestSet(E, i) then |E| else pf))
      else if i in t then JMP(To(if HasTestSet(E, i) then |E| else pt))
      else if i in here then JMP(To(|E|))
      else E[i]
    else if E[i].TESTSET? then
      if i + 1 in f || i + 1 in t then TestReg(E[i], reg)
      else if i + 1 in here then TestReg(E[i], NO_REG)
      else E[i]
    else E[i]
  }

  ghost predicate Disjoint3(f: seq<nat>, t: seq<nat>, here: seq<nat>) {
    && (forall j :: j in t ==> j !in f)
    && (forall j :: j in t || j in f ==> j !in here)
  }

  lemma PatchThrice(E: seq<Sym>, f: seq<nat>, t: seq<nat>, here: seq<nat>, reg: int, pf: nat, pt: nat)
    requires Disjoint3(f, t, here)
    ensures var D := PatchList(PatchList(PatchList(E, f, |E|, reg, pf), t, |E|, reg, pt), here, |E|, NO_REG, |E|);
      |D| == |E| && forall i: nat :: i < |E| ==> D[i] == Thrice(E, f, t, here, reg, pf, pt, i)
  {
  }

  /** The code in front of the two LOADBOOLs is patched list by list. */
  lemma ThriceCloses(C: seq<Sym>, E: seq<Sym>, D: seq<Sym>, here: seq<nat>, t: seq<nat>, f: seq<nat>, fj: seq<nat>,
        reg: nat)
    requires |C| + 2 <= |E| == |D| && E[..|C|] == C
    requires forall i: nat :: i < |E| ==> D[i] == Thrice(E, f, t, fj, reg, |E| - 2, |E| - 1, i)
    requires Disjoint3(f, t, here) && (forall j: nat :: j < |C| ==> (j in fj <==> j in here)) && |C| !in t && |C| !in f
    requires forall j :: j in here || j in t || j in f ==> OpenAt(C, j)
    requires forall j :: j in fj ==> j == |C| || j in here
    requires |C| in fj ==> |C| < |E| && E[|C|].JMP?
    requires TestsPaired(C)
    requires E[|E| - 2] == LOADBOOL(reg, false, true) && E[|E| - 1] == LOADBOOL(reg, true, false)
    ensures Closed(C, D, here, t, f, reg, |E| - 2)
  {
  }

  /** The state once the LOADBOOLs are there and both lists are patched. */
  ghost predicate BoolsPatched(s: Gen, r: Gen, isJump: bool, t: seq<nat>, f: seq<nat>, reg: nat) {
    var E := WithBools(s, isJump, reg);
      && r.code == PatchList(PatchList(E, f, |E|, reg, |E| - 2), t, |E|, reg, |E| - 1)
      && r.jpc == (if isJump then [] else EmitJumpList(s))
      && r == s.(code := r.code, jpc := r.jpc, lasttarget := |E|)
  }

  lemma CloseListsCode(s: Gen, isJump: bool, t: seq<nat>, f: seq<nat>, reg: nat, r: Gen)
    requires NeedValue(s.code, t) || NeedValue(s.code, f)
    requires isJump ==> s.jpc == []
    requires r == CloseLists(s, isJump, t, f, reg)
    ensures BoolsPatched(s, r, isJump, t, f, reg)
  {
    LoadBoolsCode(s, isJump, reg);
  }

  ghost predicate ClosedBy(s: Gen, r: Gen, isJump: bool, t: seq<nat>, f: seq<nat>, reg: nat, pf: nat) {
    Closed(s.code, Close(r), s.jpc, t, f, reg, pf) && Landing(s.code, Close(r), isJump, reg)
  }

  lemma CloseListsNeeded(s: Gen, lo: nat, isJump: bool, t: seq<nat>, f: seq<nat>, reg: nat, r: Gen)
    requires Pending(s, lo, isJump, t, f)
    requires BoolsPatched(s, r, isJump, t, f, reg)
    ensures |Close(r)| >= 2 && ClosedBy(s, r, isJump, t, f, reg, |Close(r)| - 2)
  {
    var D, E, n := Close(r), WithBools(s, isJump, reg), |s.code|;
    var fj := if isJump then [] else EmitJumpList(s);
    PatchThrice(E, f, t, fj, reg, |E| - 2, |E| - 1);
    assert E[..n] == s.code;
    ThriceCloses(s.code, E, D, s.jpc, t, f, fj, reg);
    assert D[n] == Thrice(E, f, t, fj, reg, |E| - 2, |E| - 1, n);
  }

  lemma CloseListsPlain(s: Gen, lo: nat, t: seq<nat>, f: seq<nat>, reg: nat, r: Gen)
    requires Pending(s, lo, false, t, f) && !NeedValue(s.code, t) && !NeedValue(s.code, f)
    requires r == CloseLists(s, false, t, f, reg)
    ensures ClosedBy(s, r, false, t, f, reg, 0)
  {
    var n, C, D := |s.code|, s.code, Close(r);
    PatchThrice(C, f, t, s.jpc, reg, n, n);
    forall j: nat | j < n ensures Patched(C, D, j) {
      assert D[j] == Thrice(C, f, t, s.jpc, reg, n, n, j);
    }
    forall j: nat | OpenAt(C, j) ensures ClosedAt(C, D, s.jpc, t, f, reg, 0, j) {
      assert D[j] == Thrice(C, f, t, s.jpc, reg, n, n, j);
      assert j >= 1 ==> D[j - 1] == Thrice(C, f, t, s.jpc, reg, n, n, j - 1);
    }
  }

  lemma PatchTwice(E: seq<Sym>, f: seq<nat>, t: seq<nat>, reg: int, pf: nat, pt: nat)
    requires forall j :: j in t ==> j !in f
    ensures var D := PatchList(PatchList(E, f, |E|, reg, pf), t, |E|, reg, pt);
      |D| == |E| && forall i: nat :: i < |E| ==> D[i] == Thrice(E, f, t, [], reg, pf, pt, i)
  {
  }

  /** Facts about patched code that keep the invariant. */
  lemma PatchedWf(s: Gen, E: seq<Sym>, D: seq<Sym>, t: seq<nat>, f: seq<nat>, reg: nat, pf: nat, pt: nat)
    requires Wf(s) && |s.code| <= |E| == |D| && E[..|s.code|] == s.code
    requires forall i: nat :: i < |E| ==> D[i] == Thrice(E, f, t, [], reg, pf, pt, i)
    requires forall j :: j in t || j in f ==> OpenAt(s.code, j)
    requires |s.code| <= pf <= |E| && |s.code| <= pt <= |E|
    requires forall i: nat :: |s.code| <= i < |E| ==>
               !IsTest(E[i]) && !(E[i].JMP? && E[i].target.To?) && (E[i].LOADBOOL? && E[i].skip ==> i + 2 <= |E|)
    ensures TestsPaired(D) && TargetsWithin(D, |D|)
    ensures forall j: nat :: OpenAt(s.code, j) && j !in t && j !in f ==>
              OpenAt(D, j) && (j >= 1 && IsTest(s.code[j - 1]) ==>
                IsTest(D[j - 1]) && D[j - 1].TESTSET? == s.code[j - 1].TESTSET?)
  {
    assert forall i: nat :: i < |s.code| ==> E[i] == s.code[i];
  }

  lemma PatchedGrows(s0: Gen, s: Gen, r: Gen, E: seq<Sym>, t: seq<nat>, f: seq<nat>, reg: nat, pf: nat, pt: nat)
    requires Grows(s0, s) && Pending(s, |s0.code|, false, t, f)
    requires r == s.(code := r.code, jpc := r.jpc, lasttarget := r.lasttarget)
    requires |s.code| <= |E| == |r.code| == r.lasttarget && E[..|s.code|] == s.code
    requires forall i: nat :: i < |E| ==> r.code[i] == Thrice(E, f, t, [], reg, pf, pt, i)
    requires |s.code| <= pf <= |E| && |s.code| <= pt <= |E|
    requires forall i: nat :: |s.code| <= i < |E| ==>
               !IsTest(E[i]) && !(E[i].JMP? && E[i].target.To?) && (E[i].LOADBOOL? && E[i].skip ==> i + 2 <= |E|)
    requires forall j :: j in r.jpc ==> j in s.jpc || (j == |s.code| && OpenAt(E, j))
    ensures Grows(s0, r)
  {
    PatchedWf(s, E, r.code, t, f, reg, pf, pt);
    forall j | j in r.jpc ensures OpenAt(r.code, j) && (j in s0.jpc || |s0.code| <= j) {
      assert j == |s.code| ==> r.code[j] == Thrice(E, f, t, [], reg, pf, pt, j);
    }
  }

  lemma CloseListsGrows(s0: Gen, s: Gen, isJump: bool, t: seq<nat>, f: seq<nat>, reg: nat, r: Gen)
    requires Grows(s0, s) && Pending(s, |s0.code|, isJump, t, f)
    requires r == CloseLists(s, isJump, t, f, reg)
    ensures Grows(s0, r)
  {
    if NeedValue(s.code, t) || NeedValue(s.code, f) {
      CloseListsCode(s, isJump, t, f, reg, r);
      BoolsGrow(s0, s, isJump, t, f, reg, r);
    } else {
      PatchTwice(s.code, f, t, reg, |s.code|, |s.code|);
      PatchedGrows(s0, s, r, s.code, t, f, reg, |s.code|, |s.code|);
    }
  }

  lemma BoolsGrow(s0: Gen, s: Gen, isJump: bool, t: seq<nat>, f: seq<nat>, reg: nat, r: Gen)
    requires Grows(s0, s) && Pending(s, |s0.code|, isJump, t, f)
    requires BoolsPatched(s, r, isJump, t, f, reg)
    ensures Grows(s0, r)
  {
    var E := WithBools(s, isJump, reg);
    PatchTwice(E, f, t, reg, |E| - 2, |E| - 1);
    assert E[..|s.code|] == s.code;
    PatchedGrows(s0, s, r, E, t, f, reg, |E| - 2, |E| - 1);
  }

  /** Whatever the expression was, its value ends up in `reg`. */
  lemma ClosedHolds(c: Entry, o0: Out, base: nat, s: Gen, r: Gen, isJump: bool, e: ExpDesc, reg: nat, pf: nat, v: Res)
    requires Wf(s) && c.p <= s.lasttarget
    requires Closed(s.code, Close(r), s.jpc, e.t, e.f, reg, pf) && Landing(s.code, Close(r), isJump, reg)
    requires isJump ==> s.jpc == []
    requires Disjoint3(e.f, e.t, s.jpc)
    requires o0.Exit? ==> o0.jump !in e.t && o0.jump !in e.f
    requires Mid(s.code, o0, From(c, Close(s)), base, isJump, e, reg, v)
    ensures Holds(c, o0, base, reg, r, Plain(VNonReloc(reg)), v)
  {
    ClosedOk(c, o0, base, s, Close(r), isJump, e, reg, pf, v);
  }

  lemma CloseListsOk(c: Entry, o0: Out, base: nat, s: Gen, lo: nat, isJump: bool, e: ExpDesc, reg: nat, r: Gen, v: Res)
    requires Pending(s, lo, isJump, e.t, e.f) && c.p <= s.lasttarget
    requires o0.Exit? ==> o0.jump !in e.t && o0.jump !in e.f
    requires Mid(s.code, o0, From(c, Close(s)), base, isJump, e, reg, v)
    requires r == CloseLists(s, isJump, e.t, e.f, reg)
    ensures Holds(c, o0, base, reg, r, Plain(VNonReloc(reg)), v)
  {
    var pf := CloseListsClosed(s, lo, isJump, e.t, e.f, reg, r);
    ClosedHolds(c, o0, base, s, r, isJump, e, reg, pf, v);
  }

  lemma CloseListsClosed(s: Gen, lo: nat, isJump: bool, t: seq<nat>, f: seq<nat>, reg: nat, r: Gen) returns (pf: nat)
    requires Pending(s, lo, isJump, t, f)
    requires r == CloseLists(s, isJump, t, f, reg)
    ensures ClosedBy(s, r, isJump, t, f, reg, pf)
  {
    if NeedValue(s.code, t) || NeedValue(s.code, f) {
      CloseListsCode(s, isJump, t, f, reg, r);
      CloseListsNeeded(s, lo, isJump, t, f, reg, r);
      pf := |Close(r)| - 2;
    } else {
      CloseListsPlain(s, lo, t, f, reg, r);
      pf := 0;
    }
  }

  /** Runs that left before s0 ended leave through older jumps. */
  ghost predicate OldExit(o0: Out, lo: nat) {
    o0.Exit? ==> o0.jump < lo
  }

  lemma Exp2RegOk(c: Entry, o0: Out, base: nat, s0: Gen, s: Gen, e: ExpDesc, reg: nat, v: Res)
    requires Grows(s0, s) && KindOk(s, |s0.code|, base, e) && Lists(s, |s0.code|, e) && c.p <= s0.lasttarget
    requires !IsVar(e.k) && OldExit(o0, |s0.code|)
    requires Exp2Reg(s, e, reg).s.k <= c.rt.k
    requires Holds(c, o0, base, -1, s, e, v)
    ensures var d := Exp2Reg(s, e, reg);
      && Grows(s0, d.s) && d.e == Plain(VNonReloc(reg)) && d.s.freereg == s.freereg
      && Holds(c, o0, base, reg, d.s, d.e, v)
  {
    var d, r := Discharge2Reg(s, e, reg), Exp2Reg(s, e, reg).s;
    CloseListsKeepsPool(s, d.s, e, reg);
    if e.k.VJmp? {
      Exp2RegJump(c, o0, base, s0, s, e, reg, r, v);
    } else {
      Discharge2RegOk(c, o0, base, s0, s, e, reg, v);
      if HasJumps(e) { Exp2RegValue(c, o0, base, s0, d.s, d.e, reg, r, v); }
    }
  }

  lemma Exp2RegJump(c: Entry, o0: Out, base: nat, s0: Gen, s: Gen, e: ExpDesc, reg: nat, r: Gen, v: Res)
    requires Grows(s0, s) && KindOk(s, |s0.code|, base, e) && Lists(s, |s0.code|, e) && c.p <= s0.lasttarget
    requires e.k.VJmp? && OldExit(o0, |s0.code|)
    requires Holds(c, o0, base, -1, s, e, v)
    requires r == CloseLists(s, true, e.t + [e.k.pc], e.f, reg)
    ensures Grows(s0, r) && Holds(c, o0, base, reg, r, Plain(VNonReloc(reg)), v)
  {
    hide Exec;
    JoinJump(c, o0, base, s0, s, e, reg, v);
    var t := e.t + [e.k.pc];
    assert t[|e.t|] in t && !HasTestSet(s.code, e.k.pc);
    CloseBoth(c, o0, base, s0, s, true, e.(t := t), reg, r, v);
  }

  lemma Exp2RegValue(c: Entry, o0: Out, base: nat, s0: Gen, s: Gen, e: ExpDesc, reg: nat, r: Gen, v: Res)
    requires Grows(s0, s) && Lists(s, |s0.code|, e) && c.p <= s0.lasttarget
    requires e.k == VNonReloc(reg) && HasJumps(e) && OldExit(o0, |s0.code|)
    requires Holds(c, o0, base, reg, s, e, v)
    requires r == CloseLists(s, false, e.t, e.f, reg)
    ensures Grows(s0, r) && Holds(c, o0, base, reg, r, Plain(VNonReloc(reg)), v)
  {
    CloseBoth(c, o0, base, s0, s, false, e, reg, r, v);
  }

  lemma CloseBoth(c: Entry, o0: Out, base: nat, s0: Gen, s: Gen, isJump: bool, e: ExpDesc, reg: nat, r: Gen, v: Res)
    requires Grows(s0, s) && Pending(s, |s0.code|, isJump, e.t, e.f) && c.p <= s0.lasttarget
    requires OldExit(o0, |s0.code|)
    requires Mid(s.code, o0, From(c, Close(s)), base, isJump, e, reg, v)
    requires r == CloseLists(s, isJump, e.t, e.f, reg)
    ensures Grows(s0, r) && Holds(c, o0, base, reg, r, Plain(VNonReloc(reg)), v)
  {
    CloseListsGrows(s0, s, isJump, e.t, e.f, reg, r);
    CloseListsOk(c, o0, base, s, |s0.code|, isJump, e, reg, r, v);
  }

  lemma CloseListsKeepsPool(s: Gen, d: Gen, e: ExpDesc, reg: nat)
    requires d == Discharge2Reg(s, e, reg).s
    ensures var r := Exp2Reg(s, e, reg).s; r.k == d.k && r.freereg == d.freereg
  {
  }
}
