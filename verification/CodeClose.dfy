/** Closing the exit lists of an expression: the value ends up in one register. */
module CodeClose {
  import opened Common
  import opened LuaValues
  import opened LuaVm
  import opened SymbolicCode
  import opened CodeSpec
  import opened CodeInvariant
  import opened CodeEmit
  import opened CodeDischarge

  /** With its pending jumps still open, code does what it does with them closed. */
  lemma OpenRun(c: Entry, s: Gen)
    requires Wf(s) && c.p <= s.lasttarget
    ensures var o := From(c, s.code); var o' := From(c, Close(s));
      && !o.Stuck?
      && o' == (if o.Exit? && o.jump in s.jpc then End(o.R) else o)
  {
    var C, D := s.code, Close(s);
    NotStuck(c.rt, C, c.p, c.R);
    ExecExtends(c.rt, C, D, c.p, c.R);
    ExitFacts(c.rt, C, c.p, c.R);
    var o := From(c, C);
    if o.Exit? {
      CloseAt(s, o.jump);
      if o.jump >= 1 { CloseAt(s, o.jump - 1); }
      if o.jump in s.jpc { ExecTo(c.rt, D, o.jump, o.R); }
    }
  }

  /** An expression whose value is in `reg` at the end, or, for a comparison, is false
      there; and which leaves early through its lists. */
  ghost predicate Mid(C: seq<Sym>, o0: Out, o: Out, base: nat, isJump: bool, e: ExpDesc, reg: nat, v: Res) {
    match o0
    case End(R1) =>
      (match o
       case End(R2) =>
         Agree(R1, R2, base, reg) && v.Ok? && v.v == (if isJump then Boolean(false) else Get(R2, reg))
       case Exit(j, R2, val) => Agree(R1, R2, base, -1) && v.Ok? && ExitOk(C, e, j, val, v.v)
       case Fail => v.Error?
       case _ => false)
    case Stuck => true
    case _ => o == o0
  }

  /** Running through a final test and its open jump. */
  lemma BeforeTest(c: Entry, C: seq<Sym>)
    requires |C| >= 2 && C[|C| - 1] == JMP(Open) && IsTest(C[|C| - 2]) && c.p <= |C| - 2
    ensures var n := |C|; var o := From(c, C[..n - 2]); var o' := From(c, C);
      match o
      case End(R) =>
        (match Taken(c.rt, C[n - 2], R)
         case None => o' == Fail
         case Some(taken) => o' == if !taken then End(R)
                 else Exit(n - 1, R, if C[n - 2].TESTSET? then Some(Get(R, C[n - 2].b)) else None))
      case Stuck => true
      case _ => o' == o
  {
    var n := |C|;
    var B := C[..n - 2];
    ExecExtends(c.rt, B, C, c.p, c.R);
    ExitFacts(c.rt, B, c.p, c.R);
    var o := From(c, B);
    if o.End? { assert Exec(c.rt, C, n, o.R) == End(o.R); }
  }

  /** The jump of a comparison joins the true list. */
  lemma JoinJump(c: Entry, o0: Out, base: nat, s0: Gen, s: Gen, e: ExpDesc, reg: nat, v: Res)
    requires Grows(s0, s) && KindOk(s, |s0.code|, base, e) && e.k.VJmp? && c.p <= s0.lasttarget
    requires Holds(c, o0, base, -1, s, e, v)
    ensures Mid(s.code, o0, From(c, Close(s)), base, true, e.(t := e.t + [e.k.pc]), reg, v)
  {
    CloseNone(s);
    BeforeTest(c, s.code);
  }

  /** Where the open jump at j goes once an expression is closed. */
  ghost predicate ClosedAt(C: seq<Sym>, D: seq<Sym>, here: seq<nat>, t: seq<nat>, f: seq<nat>, reg: nat, pf: nat,
        j: nat)
    requires j < |C| <= |D|
  {
    if j in here then D[j] == JMP(To(|D|)) && !HasTestSet(D, j)
    else if j in t || j in f then
      if HasTestSet(C, j) then D[j] == JMP(To(|D|)) && D[j - 1] == TestReg(C[j - 1], reg)
      else
        && |C| <= pf && pf + 2 == |D| && !HasTestSet(D, j)
        && (if j in t then D[j] == JMP(To(pf + 1)) && D[pf + 1] == LOADBOOL(reg, true, false)
            else D[j] == JMP(To(pf)) && D[pf] == LOADBOOL(reg, false, true))
    else D[j] == C[j] && HasTestSet(D, j) == HasTestSet(C, j)
  }

  ghost predicate Closed(C: seq<Sym>, D: seq<Sym>, here: seq<nat>, t: seq<nat>, f: seq<nat>, reg: nat, pf: nat) {
    Extends(C, D) && forall j: nat :: OpenAt(C, j) ==> ClosedAt(C, D, here, t, f, reg, pf, j)
  }

  /** The end of the expression code leads to the end of everything. */
  ghost predicate Landing(C: seq<Sym>, D: seq<Sym>, isJump: bool, reg: nat) {
    var n := |C|;
    if isJump then |D| == n + 2 && D[n] == LOADBOOL(reg, false, true)
    else |D| == n || (n < |D| && D[n] == JMP(To(|D|)))
  }

  lemma ExecBool(rt: Runtime, D: seq<Sym>, p: nat, R: Regs)
    requires p < |D| && D[p].LOADBOOL? && p + Width(D[p]) == |D|
    ensures Exec(rt, D, p, R) == End(R[D[p].a := Boolean(D[p].v)])
  {
    assert Exec(rt, D, p + Width(D[p]), R[D[p].a := Boolean(D[p].v)]) == End(R[D[p].a := Boolean(D[p].v)]);
  }

  lemma ExecTo(rt: Runtime, D: seq<Sym>, j: nat, R: Regs)
    requires j < |D| && D[j] == JMP(To(|D|))
    ensures Jump(rt, D, j, R) == End(R) && Exec(rt, D, j, R) == End(R)
  {
    assert Exec(rt, D, |D|, R) == End(R);
  }

  /** Where a jump that is being closed lands, and with which registers. */
  function Landed(C: seq<Sym>, t: seq<nat>, reg: nat, o: Out): Regs
    requires o.Exit?
  {
    if !HasTestSet(C, o.jump) then o.R[reg := Boolean(o.jump in t)]
    else if o.val.Some? && 1 <= o.jump <= |C| && C[o.jump - 1].TESTSET?
      && C[o.jump - 1].b != reg then o.R[reg := o.val.value]
    else o.R
  }

  /** Running closed code: every way out of the expression now leads to the end. */
  lemma ClosedRun(c: Entry, s: Gen, D: seq<Sym>, isJump: bool, t: seq<nat>, f: seq<nat>, reg: nat, pf: nat)
    requires Wf(s) && c.p <= s.lasttarget
    requires Closed(s.code, D, s.jpc, t, f, reg, pf) && Landing(s.code, D, isJump, reg)
    requires isJump ==> s.jpc == []
    requires forall j :: j in t ==> j !in f
    requires forall j :: j in t || j in f ==> j !in s.jpc
    ensures var o := From(c, Close(s)); var o' := From(c, D);
      match o
      case End(R) => o' == End(if isJump then R[reg := Boolean(false)] else R)
      case Exit(j, R, val) => if j in t || j in f then o' == End(Landed(s.code, t, reg, o)) else o' == o
      case Stuck => true
      case _ => o' == o
  {
    var C, n := s.code, |s.code|;
    OpenRun(c, s);
    ExitFacts(c.rt, C, c.p, c.R);
    ExecExtends(c.rt, C, D, c.p, c.R);
    var o := From(c, C);
    if o.End? {
      if isJump { ExecBool(c.rt, D, n, o.R); }
      else if |D| > n { ExecTo(c.rt, D, n, o.R); }
    } else if o.Exit? {
      ClosedExit(c, s, D, t, f, reg, pf, o);
    }
  }

  lemma ClosedExit(c: Entry, s: Gen, D: seq<Sym>, t: seq<nat>, f: seq<nat>, reg: nat, pf: nat, o: Out)
    requires Closed(s.code, D, s.jpc, t, f, reg, pf)
    requires o.Exit? && OpenAt(s.code, o.jump) && (o.val.Some? ==> o.jump >= 1 && s.code[o.jump - 1].TESTSET?)
    requires forall j :: j in t ==> j !in f
    requires forall j :: j in t || j in f ==> j !in s.jpc
    ensures Resume(c.rt, D, |s.code|, o) ==
      if o.jump in s.jpc then End(o.R)
      else if o.jump in t || o.jump in f then End(Landed(s.code, t, reg, o))
      else o
  {
    var C, j := s.code, o.jump;
    assert ClosedAt(C, D, s.jpc, t, f, reg, pf, j);
    if j in s.jpc {
      ExecTo(c.rt, D, j, o.R);
    } else if j in t || j in f {
      if HasTestSet(C, j) {
        ExecTo(c.rt, D, j, Landed(C, t, reg, o));
      } else if j in t {
        ExecBool(c.rt, D, pf + 1, o.R);
      } else {
        ExecBool(c.rt, D, pf, o.R);
      }
    }
  }

  /** So the value of the expression is in `reg` at the end. */
  lemma ClosedOk(c: Entry, o0: Out, base: nat, s: Gen, D: seq<Sym>, isJump: bool, e: ExpDesc, reg: nat, pf: nat, v: Res)
    requires Wf(s) && c.p <= s.lasttarget
    requires Closed(s.code, D, s.jpc, e.t, e.f, reg, pf) && Landing(s.code, D, isJump, reg)
    requires isJump ==> s.jpc == []
    requires forall j :: j in e.t ==> j !in e.f
    requires forall j :: j in e.t || j in e.f ==> j !in s.jpc
    requires o0.Exit? ==> o0.jump !in e.t && o0.jump !in e.f
    requires Mid(s.code, o0, From(c, Close(s)), base, isJump, e, reg, v)
    ensures match o0
      case End(R1) =>
        (match From(c, D)
         case End(R2) => Agree(R1, R2, base, reg) && v == Ok(Get(R2, reg))
         case Fail => v.Error?
         case _ => false)
      case Stuck => true
      case _ => From(c, D) == o0
  {
    ClosedRun(c, s, D, isJump, e.t, e.f, reg, pf);
    ExitFacts(c.rt, Close(s), c.p, c.R);
    var o := From(c, Close(s));
    if o.Exit? && o.jump >= 1 { CloseAt(s, o.jump - 1); }
  }
}
