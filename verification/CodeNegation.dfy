/** `not`: the value is negated and the two exit lists change places. */
module CodeNegation {
  import opened Common
  import opened LuaValues
  import opened LuaVm
  import opened SymbolicCode
  import opened CodeSpec
  import opened CodeInvariant
  import opened CodeEmit
  import opened CodeDischarge
  import opened CodeExp2Reg
  import opened CodeOperands
  import opened CodeBranch

  function NotRes(v: Res): Res {
    match v
    case Error => Error
    case Ok(x) => Ok(Boolean(IsFalse(x)))
  }

  /** The value at the end is already negated, the exits are not. */
  ghost predicate HalfNot(c: Entry, o0: Out, base: nat, s: Gen, e: ExpDesc, v: Res) {
    match o0
    case End(R1) =>
      (match From(c, Body(s, e))
       case End(R2) => Agree(R1, R2, base, -1) && Denote(c.rt, s, e.k, R2) == NotRes(v)
       case Exit(j, R2, val) => Agree(R1, R2, base, -1) && v.Ok? && ExitOk(s.code, e, j, val, v.v)
       case Fail => v.Error?
       case _ => false)
    case Stuck => true
    case _ => From(c, Body(s, e)) == o0
  }

  ghost predicate HalfState(c: Entry, o0: Out, base: nat, s0: Gen, x: GE, v: Res) {
    && Shape(s0, base, x.s, x.e) && HalfNot(c, o0, base, x.s, x.e, v)
    && c.p <= s0.lasttarget && OldExit(o0, |s0.code|)
  }

  lemma NotValueOk(c: Entry, o0: Out, base: nat, s0: Gen, s: Gen, e: ExpDesc, v: Res, n: GE)
    requires Good(c, o0, base, s0, GE(s, e), v) && !IsVar(e.k) && TruePool(c.rt.k, e)
    requires n == NotValue(s, e) && n.s.k <= c.rt.k
    ensures HalfState(c, o0, base, s0, n, v) && n.e.t == e.t && n.e.f == e.f && !n.e.k.VK?
  {
    match e.k
    case VJmp(pc) => NotCompareOk(c, o0, base, s0, s, e, v, n.s);
    case VReloc(_) => NotRegisterOk(c, o0, base, s0, s, e, v, n);
    case VNonReloc(_) => NotRegisterOk(c, o0, base, s0, s, e, v, n);
    case _ =>
  }

  lemma NotCompareOk(c: Entry, o0: Out, base: nat, s0: Gen, s: Gen, e: ExpDesc, v: Res, s': Gen)
    requires Good(c, o0, base, s0, GE(s, e), v) && e.k.VJmp?
    requires s' == InvertJump(s, e.k.pc)
    ensures HalfState(c, o0, base, s0, GE(s', e), v)
  {
    assert s'.code[..e.k.pc - 1] == s.code[..e.k.pc - 1];
    CompareGrows(s0, s, e, s');
    ExitFacts(c.rt, s.code[..e.k.pc - 1], c.p, c.R);
  }

  lemma NotRegisterOk(c: Entry, o0: Out, base: nat, s0: Gen, s: Gen, e: ExpDesc, v: Res, n: GE)
    requires Good(c, o0, base, s0, GE(s, e), v) && !IsVar(e.k) && (e.k.VReloc? || e.k.VNonReloc?)
    requires n == NotValue(s, e) && n.s.k <= c.rt.k
    ensures HalfState(c, o0, base, s0, n, v) && n.e.t == e.t && n.e.f == e.f && n.e.k.VReloc?
  {
    var d := Discharge2AnyReg(s, e);
    Discharge2AnyRegOk(c, o0, base, s0, s, e, v);
    FreeOk(c, o0, base, -1, s0, d.s, d.e, v, d.e);
    AppendNotOk(c, o0, base, s0, FreeExp(d.s, d.e), d.e, v, n.s);
  }

  lemma AppendNotOk(c: Entry, o0: Out, base: nat, s0: Gen, s: Gen, e: ExpDesc, v: Res, s': Gen)
    requires Grows(s0, s) && Lists(s, |s0.code|, e) && s.freereg == base && s.nactvar <= base && e.k.VNonReloc?
    requires c.p <= s0.lasttarget && OldExit(o0, |s0.code|) && Holds(c, o0, base, -1, s, e, v)
    requires s' == Code(s, NOT(0, e.k.r))
    ensures HalfState(c, o0, base, s0, GE(s', e.(k := VReloc(|s.code|))), v)
  {
    CodeGrows(s, NOT(0, e.k.r));
    GrowsTrans(s0, s, s');
    ListsGrow(s, s', |s0.code|, e);
    CloseCode(s, NOT(0, e.k.r));
    CloseNone(s');
    assert Body(s', e.(k := VReloc(|s.code|))) == Close(s);
  }

  /** Dropping the values a set of exits carries. */
  function Dropped(s: Gen, e: ExpDesc): Gen {
    s.(code := RemoveValues(RemoveValues(s.code, e.f), e.t))
  }

  lemma DroppedAt(s: Gen, e: ExpDesc, i: nat)
    requires i < |s.code|
    ensures |Dropped(s, e).code| == |s.code|
    ensures Dropped(s, e).code[i] ==
      if s.code[i].TESTSET? && (i + 1 in e.t || i + 1 in e.f) then TEST(s.code[i].b, s.code[i].cond) else s.code[i]
  {
  }

  lemma DroppedGrows(s0: Gen, base: nat, s: Gen, e: ExpDesc)
    requires Shape(s0, base, s, e)
    ensures Shape(s0, base, Dropped(s, e), e)
    ensures forall j :: j in e.t || j in e.f ==> !HasTestSet(Dropped(s, e).code, j)
  {
    forall i: nat | i < |s.code| ensures Dropped(s, e).code[i] ==
      if s.code[i].TESTSET? && (i + 1 in e.t || i + 1 in e.f) then TEST(s.code[i].b, s.code[i].cond) else s.code[i]
    {
      DroppedAt(s, e, i);
    }
  }

  lemma DroppedBody(s0: Gen, base: nat, s: Gen, e: ExpDesc)
    requires Shape(s0, base, s, e)
    ensures var C, D := Body(s, e), Body(Dropped(s, e), e);
      && Extends(C, D) && |C| == |D|
      && (forall j: nat :: j < |C| && C[j] == JMP(Open) ==>
            D[j] == C[j] && (if j in e.t || j in e.f then !HasTestSet(D, j) else HasTestSet(D, j) == HasTestSet(C, j)))
  {
    var s', C, D := Dropped(s, e), Body(s, e), Body(Dropped(s, e), e);
    forall i: nat | i < |C| ensures |D| == |C| && D[i] ==
      if C[i].TESTSET? && (i + 1 in e.t || i + 1 in e.f) then TEST(C[i].b, C[i].cond) else C[i]
    {
      DroppedAt(s, e, i);
      if !e.k.VReloc? && !e.k.VJmp? {
        CloseAt(s, i);
        CloseAt(s', i);
        if i >= 1 { DroppedAt(s, e, i - 1); }
      }
    }
    forall j: nat | j in e.t || j in e.f ensures j < |C| && C[j] == JMP(Open) {
      if !e.k.VReloc? && !e.k.VJmp? { CloseAt(s, j); }
    }
  }

  lemma DroppedRun(c: Entry, s0: Gen, base: nat, s: Gen, e: ExpDesc)
    requires Shape(s0, base, s, e) && c.p <= s0.lasttarget
    ensures var o, o' := From(c, Body(s, e)), From(c, Body(Dropped(s, e), e));
      o.Stuck? || o' == if o.Exit? && (o.jump in e.t || o.jump in e.f) then o.(val := None) else o
  {
    var C, D := Body(s, e), Body(Dropped(s, e), e);
    DroppedBody(s0, base, s, e);
    assert c.p <= |C|;
    ExecExtends(c.rt, C, D, c.p, c.R);
    ExitFacts(c.rt, C, c.p, c.R);
  }

  lemma SwapOk(c: Entry, o0: Out, base: nat, s0: Gen, s: Gen, e: ExpDesc, v: Res, r: GE)
    requires HalfState(c, o0, base, s0, GE(s, e), v)
    requires r == GE(Dropped(s, e), e.(t := e.f, f := e.t))
    ensures Good(c, o0, base, s0, r, NotRes(v))
  {
    DroppedGrows(s0, base, s, e);
    SwapHolds(c, o0, base, s0, s, e, v, r);
  }

  lemma SwapHolds(c: Entry, o0: Out, base: nat, s0: Gen, s: Gen, e: ExpDesc, v: Res, r: GE)
    requires HalfState(c, o0, base, s0, GE(s, e), v)
    requires r == GE(Dropped(s, e), e.(t := e.f, f := e.t))
    ensures Holds(c, o0, base, -1, r.s, r.e, NotRes(v))
  {
    DroppedRun(c, s0, base, s, e);
    assert Body(r.s, r.e) == Body(Dropped(s, e), e);
    DroppedDenotes(c, s, e, |s0.code|, base);
    var o := From(c, Body(s, e));
    if o.Exit? && 1 <= o.jump <= |s.code| { DroppedAt(s, e, o.jump - 1); }
  }

  lemma DroppedDenotes(c: Entry, s: Gen, e: ExpDesc, lo: nat, base: nat)
    requires KindOk(s, lo, base, e)
    ensures forall R :: Denote(c.rt, Dropped(s, e), e.k, R) == Denote(c.rt, s, e.k, R)
  {
  }

  lemma CodeNotOk(c: Entry, o0: Out, base: nat, s0: Gen, s: Gen, e: ExpDesc, v: Res)
    requires Good(c, o0, base, s0, GE(s, e), v) && TruePool(c.rt.k, e)
    requires CodeNot(s, e).s.k <= c.rt.k
    ensures Good(c, o0, base, s0, CodeNot(s, e), NotRes(v)) && !CodeNot(s, e).e.k.VK?
  {
    var d := DischargeVars(s, e);
    DischargeVarsOk(c, o0, base, s0, s, e, v);
    var n := NotValue(d.s, d.e);
    NotValueOk(c, o0, base, s0, d.s, d.e, v, n);
    SwapLists(c, o0, base, s0, n.s, n.e, v, CodeNot(s, e));
  }

  lemma SwapLists(c: Entry, o0: Out, base: nat, s0: Gen, s: Gen, e: ExpDesc, v: Res, r: GE)
    requires HalfState(c, o0, base, s0, GE(s, e), v)
    requires r == GE(s.(code := RemoveValues(RemoveValues(s.code, e.t), e.f)), e.(t := e.f, f := e.t))
    ensures Good(c, o0, base, s0, r, NotRes(v))
  {
    RemoveCommutes(s.code, e.t, e.f);
    SwapOk(c, o0, base, s0, s, e, v, r);
  }

  lemma RemoveCommutes(C: seq<Sym>, t: seq<nat>, f: seq<nat>)
    ensures RemoveValues(RemoveValues(C, t), f) == RemoveValues(RemoveValues(C, f), t)
  {
  }
}
