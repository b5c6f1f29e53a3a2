/** Conditions: falling through on one truth value, leaving on the other. */
module CodeBranch {
  import opened Common
  import opened LuaValues
  import opened LuaVm
  import opened SymbolicCode
  import opened CodeSpec
  import opened CodeInvariant
  import opened CodeEmit
  import opened CodeDischarge
  import opened CodeClose
  import opened CodeExp2Reg
  import opened CodeOperands

  /** The code falls through exactly when the truth of the value is `want`, except for
      the exits still open, each of which is taken by its own truth value. */
  ghost predicate Cond(c: Entry, o0: Out, base: nat, s: Gen, e: ExpDesc, v: Res, want: bool) {
    match o0
    case End(R1) =>
      (match From(c, Close(s))
       case End(R2) => Agree(R1, R2, base, -1) && v.Ok? && IsFalse(v.v) != want
       case Exit(j, R2, val) => Agree(R1, R2, base, -1) && v.Ok? && ExitOk(s.code, e, j, val, v.v)
       case Fail => v.Error?
       case _ => false)
    case Stuck => true
    case _ => From(c, Close(s)) == o0
  }

  ghost predicate CondState(c: Entry, o0: Out, base: nat, s0: Gen, s: Gen, e: ExpDesc, v: Res, want: bool) {
    && Grows(s0, s) && Lists(s, |s0.code|, e) && s.freereg == base && s.nactvar <= base
    && c.p <= s0.lasttarget && OldExit(o0, |s0.code|)
    && Cond(c, o0, base, s, e, v, want)
  }

  lemma HereExtends(s: Gen, L: seq<nat>)
    requires Wf(s)
    requires forall j :: j in L ==> OpenAt(s.code, j) && j !in s.jpc
    ensures Extends(s.code, Close(PatchToHere(s, L))) && s.lasttarget <= |s.code|
  {
    assert Wf(PatchToHere(s, L));
  }

  /** Closing a list at the current position turns its exits into falling through. */
  lemma HereRun(c: Entry, s: Gen, L: seq<nat>)
    requires Wf(s) && c.p <= s.lasttarget
    requires forall j :: j in L ==> OpenAt(s.code, j) && j !in s.jpc
    ensures var o, o' := From(c, Close(s)), From(c, Close(PatchToHere(s, L)));
      o' == if o.Exit? && o.jump in L then End(o.R) else o
  {
    hide Wf, Extends;
    var s' := PatchToHere(s, L);
    HereExtends(s, L);
    OpenRun(c, s);
    ExecExtends(c.rt, s.code, Close(s'), c.p, c.R);
    ExitFacts(c.rt, s.code, c.p, c.R);
    var o := From(c, s.code);
    if o.Exit? {
      CloseAt(s', o.jump);
      if o.jump >= 1 { CloseAt(s', o.jump - 1); }
      if o.jump in s'.jpc { ExecTo(c.rt, Close(s'), o.jump, o.R); }
    }
  }

  lemma HereGrows(s0: Gen, s: Gen, L: seq<nat>)
    requires Grows(s0, s)
    requires forall j :: j in L ==> (j in s0.jpc || |s0.code| <= j) && OpenAt(s.code, j)
    ensures Grows(s0, PatchToHere(s, L))
  {
  }

  lemma HereOk(c: Entry, o0: Out, base: nat, s0: Gen, s: Gen, e: ExpDesc, v: Res, want: bool)
    requires CondState(c, o0, base, s0, s, e, v, want)
    ensures want ==> CondState(c, o0, base, s0, PatchToHere(s, e.t), e.(t := []), v, want)
    ensures !want ==> CondState(c, o0, base, s0, PatchToHere(s, e.f), e.(f := []), v, want)
  {
    HereRun(c, s, if want then e.t else e.f);
    HereGrows(s0, s, if want then e.t else e.f);
  }

  /** The list that leaves when the truth of the expression is `cond` gets one more jump. */
  function AddExit(e: ExpDesc, cond: bool, j: nat): ExpDesc {
    if cond then e.(t := e.t + [j]) else e.(f := e.f + [j])
  }

  /** What the body does before a test that decides the truth of `v`. */
  ghost predicate Decides(c: Entry, o0: Out, base: nat, C: seq<Sym>, o: Out, e: ExpDesc, test: Sym, cond: bool, v: Res)
    requires IsTest(test)
  {
    match o0
    case End(R1) =>
      (match o
       case End(R2) =>
         && Agree(R1, R2, base, -1)
         && (if v.Error? then Taken(c.rt, test, R2).None? else Taken(c.rt, test, R2) == Some(IsFalse(v.v) != cond))
         && (v.Ok? && test.TESTSET? ==> v.v == Get(R2, test.b))
         && (v.Ok? && !test.TESTSET? ==> v.v.Boolean?)
       case Exit(j, R2, val) => Agree(R1, R2, base, -1) && v.Ok? && ExitOk(C, e, j, val, v.v)
       case Fail => v.Error?
       case _ => false)
    case Stuck => true
    case _ => o == o0
  }

  lemma DecidesOk(c: Entry, o0: Out, base: nat, lo: nat, B: seq<Sym>, e: ExpDesc, test: Sym, cond: bool, v: Res, s: Gen)
    requires IsTest(test) && c.p <= |B| && s.jpc == [] && s.code == B + [test, JMP(Open)]
    requires Decides(c, o0, base, B, From(c, B), e, test, cond, v)
    requires forall j :: j in e.t || j in e.f ==> j < |B|
    requires o0.Exit? ==> o0.jump < |B|
    ensures Cond(c, o0, base, s, AddExit(e, cond, |B| + 1), v, !cond)
  {
    CloseNone(s);
    assert s.code[..|s.code| - 2] == B;
    BeforeTest(c, s.code);
    ExitFacts(c.rt, B, c.p, c.R);
  }

  /** Emitting the test and its jump. */
  lemma CondJumpGrows(s: Gen, test: Sym)
    requires Wf(s) && IsTest(test)
    ensures var s' := CondJump(s, test);
      && Grows(s, s') && s'.jpc == [] && s'.code == Close(s) + [test, JMP(Open)] && s'.freereg == s.freereg
      && s'.lasttarget == s.lasttarget && s'.k == s.k
  {
    CloseCode(s, test);
    assert forall j: nat :: j < |s.code| ==> Close(s)[j] == PatchAt(s.code, s.jpc, |s.code|, NO_REG, |s.code|, j);
  }

  /** Adding the jump just emitted to its list. */
  lemma AddExitLists(s: Gen, lo: nat, e: ExpDesc, cond: bool, j: nat)
    requires Lists(s, lo, e) && lo < j && OpenAt(s.code, j) && IsTest(s.code[j - 1]) && j !in s.jpc
    requires j !in e.t && j !in e.f
    ensures Lists(s, lo, AddExit(e, cond, j))
  {
  }

  /** A NOT that is dropped leaves its operand to be tested the other way around. */
  lemma DropNotOk(c: Entry, o0: Out, base: nat, s0: Gen, s: Gen, e: ExpDesc, cond: bool, v: Res)
    requires Good(c, o0, base, s0, GE(s, e), v) && EndsInNot(s, e.k)
    ensures var r := JumpOnCond(s, e, cond);
      && |r.l| == 1 && r.e == e
      && CondState(c, o0, base, s0, r.s, AddExit(r.e, cond, r.l[0]), v, !cond)
  {
    var pc, B := e.k.pc, s.code[..e.k.pc];
    var test := TEST(s.code[pc].b, !cond);
    var s1 := s.(code := B);
    var r := JumpOnCond(s, e, cond);
    DropNotCode(s, e, cond, r);
    DropNotGrows(s0, s, e, r.s);
    NotDecides(c, o0, base, s0, s, e, test, cond, v);
    DecidesOk(c, o0, base, |s0.code|, B, e, test, cond, v, r.s);
    AddExitLists(r.s, |s0.code|, e, cond, pc + 1);
  }

  lemma DropNotCode(s: Gen, e: ExpDesc, cond: bool, r: GL)
    requires EndsInNot(s, e.k) && e.k.pc == |s.code| - 1 && s.jpc == []
    requires r == JumpOnCond(s, e, cond)
    ensures r.s == s.(code := s.code[..e.k.pc] + [TEST(s.code[e.k.pc].b, !cond), JMP(Open)])
    ensures r.e == e && r.l == [e.k.pc + 1]
  {
    var s1 := s.(code := s.code[..e.k.pc]);
    CloseNone(s1);
    CloseCode(s1, TEST(s.code[e.k.pc].b, !cond));
  }

  lemma NotDecides(c: Entry, o0: Out, base: nat, s0: Gen, s: Gen, e: ExpDesc, test: Sym, cond: bool, v: Res)
    requires Good(c, o0, base, s0, GE(s, e), v) && EndsInNot(s, e.k) && test == TEST(s.code[e.k.pc].b, !cond)
    ensures var B := s.code[..e.k.pc]; Decides(c, o0, base, B, From(c, B), e, test, cond, v)
  {
    var B := s.code[..e.k.pc];
    ExitFacts(c.rt, B, c.p, c.R);
  }

  lemma DropNotGrows(s0: Gen, s: Gen, e: ExpDesc, s': Gen)
    requires Grows(s0, s) && EndsInNot(s, e.k) && e.k.pc == |s.code| - 1 && s.jpc == [] && s.lasttarget <= e.k.pc
    requires |s0.code| <= e.k.pc && Lists(s, |s0.code|, e)
    requires s' == s.(code := s'.code) && |s'.code| == e.k.pc + 2 && s'.code[..e.k.pc] == s.code[..e.k.pc]
    requires s'.code[e.k.pc].TEST? && s'.code[e.k.pc + 1] == JMP(Open)
    ensures Grows(s0, s') && Lists(s', |s0.code|, e) && e.k.pc + 1 !in e.t && e.k.pc + 1 !in e.f
  {
    assert forall i: nat :: i < e.k.pc ==> s'.code[i] == s'.code[..e.k.pc][i] == s.code[i];
  }

  /** Otherwise the value is brought into a register and tested there. */
  lemma TestSetOk(c: Entry, o0: Out, base: nat, s0: Gen, s: Gen, e: ExpDesc, cond: bool, v: Res)
    requires Good(c, o0, base, s0, GE(s, e), v) && !EndsInNot(s, e.k) && !IsVar(e.k) && !e.k.VJmp?
    requires JumpOnCond(s, e, cond).s.k <= c.rt.k
    ensures var r := JumpOnCond(s, e, cond);
      && |r.l| == 1 && r.e.t == e.t && r.e.f == e.f
      && CondState(c, o0, base, s0, r.s, AddExit(r.e, cond, r.l[0]), v, !cond)
  {
    var d := Discharge2AnyReg(s, e);
    Discharge2AnyRegOk(c, o0, base, s0, s, e, v);
    FreeOk(c, o0, base, -1, s0, d.s, d.e, v, d.e);
    TestRegOk(c, o0, base, s0, FreeExp(d.s, d.e), d.e, cond, v);
  }

  lemma TestRegOk(c: Entry, o0: Out, base: nat, s0: Gen, s: Gen, e: ExpDesc, cond: bool, v: Res)
    requires Grows(s0, s) && Lists(s, |s0.code|, e) && s.freereg == base && s.nactvar <= base && e.k.VNonReloc?
    requires c.p <= s0.lasttarget && OldExit(o0, |s0.code|) && Holds(c, o0, base, -1, s, e, v)
    ensures var r := CondJump(s, TESTSET(NO_REG, e.k.r, cond));
      CondState(c, o0, base, s0, r, AddExit(e, cond, CondJumpPc(s)), v, !cond)
  {
    hide Exec;
    var test := TESTSET(NO_REG, e.k.r, cond);
    var r := CondJump(s, test);
    CondJumpGrows(s, test);
    GrowsTrans(s0, s, r);
    ListsGrow(s, r, |s0.code|, e);
    DecidesLists(c, o0, base, |s0.code|, s, e, test, cond, v);
    DecidesOk(c, o0, base, |s0.code|, Close(s), e, test, cond, v, r);
    AddExitLists(r, |s0.code|, e, cond, CondJumpPc(s));
  }

  lemma DecidesLists(c: Entry, o0: Out, base: nat, lo: nat, s: Gen, e: ExpDesc, test: Sym, cond: bool, v: Res)
    requires Wf(s) && Lists(s, lo, e) && e.k.VNonReloc? && test == TESTSET(NO_REG, e.k.r, cond)
    requires Holds(c, o0, base, -1, s, e, v)
    ensures Decides(c, o0, base, Close(s), From(c, Close(s)), e, test, cond, v)
  {
    var o := From(c, Close(s));
    if o.Exit? && o.jump >= 1 && (o.jump in e.t || o.jump in e.f) { CloseAt(s, o.jump - 1); }
  }

  /** A comparison only has its sense adjusted. */
  lemma CompareOk(c: Entry, o0: Out, base: nat, s0: Gen, s: Gen, e: ExpDesc, cond: bool, v: Res, s': Gen)
    requires Good(c, o0, base, s0, GE(s, e), v) && e.k.VJmp?
    requires s' == if cond then s else InvertJump(s, e.k.pc)
    ensures CondState(c, o0, base, s0, s', AddExit(e, cond, e.k.pc), v, !cond)
  {
    hide Exec;
    var pc := e.k.pc;
    var B, test := s.code[..pc - 1], s'.code[pc - 1];
    assert s'.code == B + [test, JMP(Open)];
    CompareDecides(c, o0, base, s0, s, e, test, cond, v);
    CompareGrows(s0, s, e, s');
    DecidesOk(c, o0, base, |s0.code|, B, e, test, cond, v, s');
    AddExitLists(s', |s0.code|, e, cond, pc);
  }

  lemma CompareGrows(s0: Gen, s: Gen, e: ExpDesc, s': Gen)
    requires Grows(s0, s) && Lists(s, |s0.code|, e) && e.k.VJmp? && KindOk(s, |s0.code|, 0, e)
    requires s' == s || s' == InvertJump(s, e.k.pc)
    ensures Grows(s0, s') && Lists(s', |s0.code|, e)
  {
  }

  lemma CompareDecides(c: Entry, o0: Out, base: nat, s0: Gen, s: Gen, e: ExpDesc, test: Sym, cond: bool, v: Res)
    requires Good(c, o0, base, s0, GE(s, e), v) && e.k.VJmp?
    requires test == if cond then s.code[e.k.pc - 1] else Negate(s.code[e.k.pc - 1])
    ensures var B := s.code[..e.k.pc - 1]; Decides(c, o0, base, B, From(c, B), e, test, cond, v)
  {
    ExitFacts(c.rt, s.code[..e.k.pc - 1], c.p, c.R);
  }

  /** A constant needs no jump. */
  lemma ConstantOk(c: Entry, o0: Out, base: nat, s0: Gen, s: Gen, e: ExpDesc, want: bool, v: Res)
    requires Good(c, o0, base, s0, GE(s, e), v)
    requires if want then e.k.VTrue? || e.k.VNumber? || (e.k.VK? && e.k.k < |c.rt.k| && !IsFalse(c.rt.k[e.k.k]))
      else e.k.VFalse? || e.k.VNil?
    ensures CondState(c, o0, base, s0, s, e, v, want)
  {
  }

  /** VK constants are strings or numbers, so they are true. */
  ghost predicate TruePool(k: seq<Value>, e: ExpDesc) {
    e.k.VK? ==> e.k.k < |k| && !IsFalse(k[e.k.k])
  }

  lemma GoIfTrueOk(c: Entry, o0: Out, base: nat, s0: Gen, s: Gen, e: ExpDesc, v: Res)
    requires Good(c, o0, base, s0, GE(s, e), v)
    requires GoIfTrue(s, e).s.k <= c.rt.k && TruePool(c.rt.k, e)
    ensures var r := GoIfTrue(s, e); r.e.t == [] && CondState(c, o0, base, s0, r.s, r.e, v, true)
  {
    var d := DischargeVars(s, e);
    DischargeVarsOk(c, o0, base, s0, s, e, v);
    var j := GoIfTrueJump(d.s, d.e);
    GoIfTrueJumpOk(c, o0, base, s0, d.s, d.e, v, j);
    assert j.e.f + [] == j.e.f;
    HereOk(c, o0, base, s0, j.s, j.e.(f := j.e.f + j.l), v, true);
  }

  lemma GoIfTrueJumpOk(c: Entry, o0: Out, base: nat, s0: Gen, s: Gen, e: ExpDesc, v: Res, j: GL)
    requires Good(c, o0, base, s0, GE(s, e), v) && !IsVar(e.k)
    requires j == GoIfTrueJump(s, e) && j.s.k <= c.rt.k && TruePool(c.rt.k, e)
    ensures CondState(c, o0, base, s0, j.s, j.e.(f := j.e.f + j.l), v, true)
  {
    assert e.f + [] == e.f;
    match e.k
    case VJmp(pc) => CompareOk(c, o0, base, s0, s, e, false, v, j.s);
    case VK(_) => ConstantOk(c, o0, base, s0, s, e, true, v);
    case VNumber(_) => ConstantOk(c, o0, base, s0, s, e, true, v);
    case VTrue => ConstantOk(c, o0, base, s0, s, e, true, v);
    case _ => JumpOnCondOk(c, o0, base, s0, s, e, false, v, j);
  }

  lemma JumpOnCondOk(c: Entry, o0: Out, base: nat, s0: Gen, s: Gen, e: ExpDesc, cond: bool, v: Res, j: GL)
    requires Good(c, o0, base, s0, GE(s, e), v) && !IsVar(e.k) && !e.k.VJmp?
    requires j == JumpOnCond(s, e, cond) && j.s.k <= c.rt.k
    ensures |j.l| == 1 && CondState(c, o0, base, s0, j.s, AddExit(j.e, cond, j.l[0]), v, !cond) && j.l == [j.l[0]]
  {
    if EndsInNot(s, e.k) { DropNotOk(c, o0, base, s0, s, e, cond, v); }
    else { TestSetOk(c, o0, base, s0, s, e, cond, v); }
  }

  lemma GoIfFalseOk(c: Entry, o0: Out, base: nat, s0: Gen, s: Gen, e: ExpDesc, v: Res)
    requires Good(c, o0, base, s0, GE(s, e), v)
    requires GoIfFalse(s, e).s.k <= c.rt.k
    ensures var r := GoIfFalse(s, e); r.e.f == [] && CondState(c, o0, base, s0, r.s, r.e, v, false)
  {
    var d := DischargeVars(s, e);
    DischargeVarsOk(c, o0, base, s0, s, e, v);
    var j := GoIfFalseJump(d.s, d.e);
    GoIfFalseJumpOk(c, o0, base, s0, d.s, d.e, v, j);
    HereOk(c, o0, base, s0, j.s, j.e.(t := j.e.t + j.l), v, false);
  }

  lemma GoIfFalseJumpOk(c: Entry, o0: Out, base: nat, s0: Gen, s: Gen, e: ExpDesc, v: Res, j: GL)
    requires Good(c, o0, base, s0, GE(s, e), v) && !IsVar(e.k)
    requires j == GoIfFalseJump(s, e) && j.s.k <= c.rt.k
    ensures CondState(c, o0, base, s0, j.s, j.e.(t := j.e.t + j.l), v, false)
  {
    assert e.t + [] == e.t;
    match e.k
    case VJmp(pc) => CompareOk(c, o0, base, s0, s, e, true, v, j.s);
    case VNil => ConstantOk(c, o0, base, s0, s, e, false, v);
    case VFalse => ConstantOk(c, o0, base, s0, s, e, false, v);
    case _ => JumpOnCondOk(c, o0, base, s0, s, e, true, v, j);
  }
}
