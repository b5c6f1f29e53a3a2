/** Emitting single instructions and bringing values into registers. */
module CodeEmit {
  import opened Common
  import opened LuaValues
  import opened LuaVm
  import opened SymbolicCode
  import opened CodeSpec
  import opened CodeInvariant

  lemma {:induction false} NotStuck(rt: Runtime, C: seq<Sym>, p: nat, R: Regs)
    requires TestsPaired(C) && TargetsWithin(C, |C|) && p <= |C|
    ensures !Exec(rt, C, p, R).Stuck?
    decreases |C| - p
  {
    if p < |C| {
      var i := C[p];
      if i.JMP? {
        if i.target.To? { NotStuck(rt, C, i.target.pc, R); }
      } else if i.RETURN? {
      } else if IsTest(i) {
        assert p + 1 < |C| && C[p + 1].JMP?;
        NotStuck(rt, C, p + 2, R);
        if C[p + 1].target.To? { NotStuck(rt, C, C[p + 1].target.pc, OnTaken(i, R)); }
      } else if Effect(rt, i, R).Some? {
        NotStuck(rt, C, p + Width(i), Effect(rt, i, R).value);
      }
    }
  }

  /** What a run does at a final plain instruction. */
  function After(rt: Runtime, i: Sym, R: Regs): Out
    requires IsPlain(i)
  {
    match Effect(rt, i, R)
    case None => Fail
    case Some(R') => End(R')
  }

  lemma ExecLast(rt: Runtime, D: seq<Sym>, p: nat, R: Regs)
    requires p == |D| - 1 && IsPlain(D[p]) && Width(D[p]) == 1
    ensures Exec(rt, D, p, R) == After(rt, D[p], R)
  {
  }

  /** Adding a final plain instruction to code that is otherwise only extended. */
  lemma AppendRun(c: Entry, C: seq<Sym>, i: Sym)
    requires c.p <= |C| && IsPlain(i) && Width(i) == 1
    ensures var o := From(c, C); var o' := From(c, C + [i]);
      match o
      case End(R) => o' == After(c.rt, i, R)
      case Stuck => true
      case _ => o' == o
  {
    var D := C + [i];
    ExecExtends(c.rt, C, D, c.p, c.R);
    ExitFacts(c.rt, C, c.p, c.R);
    var o := From(c, C);
    if o.End? { ExecLast(c.rt, D, |C|, o.R); }
  }

  /** After the code of s, a plain instruction changes registers and nothing else. */
  lemma EmitRun(c: Entry, s: Gen, i: Sym)
    requires c.p <= |s.code| && IsPlain(i) && Width(i) == 1
    ensures var o := From(c, Close(s)); var o' := From(c, Close(Code(s, i)));
      match o
      case End(R) => o' == After(c.rt, i, R)
      case Stuck => true
      case _ => o' == o
  {
    CloseCode(s, i);
    AppendRun(c, Close(s), i);
  }

  lemma JoinNils(R: Regs, a: nat, n: nat, a': nat, n': nat, reg: nat)
    requires a' == if a < reg then a else reg
    requires a' + n' == if a + n > reg then a + n else reg
    requires a <= reg <= a + n + 1 || reg <= a <= reg + 1
    ensures SetNils(R, a', n') == SetNils(R, a, n)[reg := Nil]
  {
  }

  /** Replacing the last LOADNIL by a longer one that covers `reg` as well. */
  lemma JoinRun(c: Entry, s: Gen, now: Sym, reg: nat)
    requires Wf(s) && s.jpc == [] && c.p <= s.lasttarget < |s.code|
    requires s.code[|s.code| - 1].LOADNIL? && now.LOADNIL?
    requires forall R ::
      SetNils(R, now.a, now.n) == SetNils(R, s.code[|s.code| - 1].a, s.code[|s.code| - 1].n)[reg := Nil]
    ensures var o := From(c, s.code); var o' := From(c, s.code[|s.code| - 1 := now]);
      match o
      case End(R) => o' == End(R[reg := Nil])
      case Stuck => true
      case _ => o' == o
  {
    var n := |s.code|;
    var B, prev := s.code[..n - 1], s.code[n - 1];
    assert s.code == B + [prev] && s.code[n - 1 := now] == B + [now];
    assert TestsPaired(B) && TargetsWithin(B, |B|) by {
      assert forall i: nat :: i < n - 1 ==> B[i] == s.code[i];
    }
    NotStuck(c.rt, B, c.p, c.R);
    AppendRun(c, B, prev);
    AppendRun(c, B, now);
  }

  /** Joining two LOADNILs has the effect of emitting the second. */
  lemma NilRun(c: Entry, s: Gen, reg: nat)
    requires Wf(s) && c.p <= s.lasttarget
    ensures var o := From(c, Close(s)); var o' := From(c, Close(LoadNil(s, reg, 1)));
      match o
      case End(R) => o' == End(R[reg := Nil])
      case Stuck => true
      case _ => o' == o
  {
    var s' := LoadNil(s, reg, 1);
    var n := |s.code|;
    if n > s.lasttarget && s'.code != Code(s, LOADNIL(reg, 0)).code {
      CloseNone(s);
      CloseNone(s');
      var prev, now := s.code[n - 1], s'.code[n - 1];
      forall R: Regs ensures SetNils(R, now.a, now.n) == SetNils(R, prev.a, prev.n)[reg := Nil] {
        JoinNils(R, prev.a, prev.n, now.a, now.n, reg);
      }
      JoinRun(c, s, now, reg);
    } else {
      EmitRun(c, s, LOADNIL(reg, 0));
      if From(c, Close(s)).End? {
        var R := From(c, Close(s)).R;
        assert SetNils(R, reg, 0) == R[reg := Nil];
      }
    }
  }

  lemma NilGrows(s: Gen, reg: nat)
    requires Wf(s)
    ensures Grows(s, LoadNil(s, reg, 1))
  {
    if LoadNil(s, reg, 1) == Code(s, LOADNIL(reg, 0)) { CodeGrows(s, LOADNIL(reg, 0)); }
  }

  /** Giving the last instruction its target register completes the body. */
  lemma RelocateRun(c: Entry, s: Gen, pc: nat, reg: nat)
    requires Wf(s) && pc == |s.code| - 1 && s.jpc == [] && s.lasttarget <= pc && c.p <= pc
    requires Relocatable(s.code[pc])
    ensures var o := From(c, s.code[..pc]); var o' := From(c, Close(Relocate(s, pc, reg)));
      match o
      case End(R) => o' == After(c.rt, SetA(s.code[pc], reg), R)
      case Stuck => true
      case _ => o' == o
  {
    CloseNone(Relocate(s, pc, reg));
    assert Relocate(s, pc, reg).code == s.code[..pc] + [SetA(s.code[pc], reg)];
    AppendRun(c, s.code[..pc], SetA(s.code[pc], reg));
  }

  lemma {:induction false} ConcatIgnoresTarget(rt: Runtime, i: Sym, a: nat, R: Regs)
    requires Relocatable(i)
    ensures ResultOf(rt, SetA(i, a), R) == ResultOf(rt, i, R)
  {
  }

  /** A constant is in the pool at the index the generator uses. */
  lemma AddKFacts(s: Gen, v: Value)
    ensures s.k <= AddK(s, v).k && KIndex(s, v) < |AddK(s, v).k| && AddK(s, v).k[KIndex(s, v)] == v
  {
  }

  /** Loading a discharged expression leaves its value in `reg`. */
  lemma LoadIntoOk(c: Entry, o0: Out, base: nat, lo: nat, s: Gen, e: ExpDesc, reg: nat, v: Res)
    requires Wf(s) && KindOk(s, lo, base, e) && Lists(s, lo, e) && c.p <= s.lasttarget
    requires !e.k.VLocal? && !e.k.VUpval? && !e.k.VJmp?
    requires LoadInto(s, e.k, reg).k <= c.rt.k
    requires Holds(c, o0, base, -1, s, e, v)
    ensures Grows(s, LoadInto(s, e.k, reg))
    ensures Holds(c, o0, base, reg, LoadInto(s, e.k, reg), e.(k := VNonReloc(reg)), v)
  {
    match e.k
    case VNil => NilOk(c, o0, base, lo, s, e, reg, v);
    case VTrue => EmitOk(c, o0, base, lo, s, e, LOADBOOL(reg, true, false), v);
    case VFalse => EmitOk(c, o0, base, lo, s, e, LOADBOOL(reg, false, false), v);
    case VK(i) => EmitOk(c, o0, base, lo, s, e, LOADK(reg, i), v);
    case VNumber(n) => LoadNumberOk(c, o0, base, lo, s, e, reg, v);
    case VReloc(pc) => RelocateOk(c, o0, base, lo, s, e, reg, v);
    case VNonReloc(r) => if reg != r { EmitOk(c, o0, base, lo, s, e, MOVE(reg, r), v); } else { GrowsRefl(s); }
  }

  lemma LoadNumberOk(c: Entry, o0: Out, base: nat, lo: nat, s: Gen, e: ExpDesc, reg: nat, v: Res)
    requires Wf(s) && Lists(s, lo, e) && c.p <= s.lasttarget && e.k.VNumber?
    requires AddK(s, e.k.v).k <= c.rt.k
    requires Holds(c, o0, base, -1, s, e, v)
    ensures Grows(s, LoadInto(s, e.k, reg))
    ensures Holds(c, o0, base, reg, LoadInto(s, e.k, reg), e.(k := VNonReloc(reg)), v)
  {
    var s1 := AddK(s, e.k.v);
    AddKFacts(s, e.k.v);
    assert Close(s1) == Close(s);
    EmitOk(c, o0, base, lo, s1, e, LOADK(reg, KIndex(s, e.k.v)), v);
    GrowsTrans(s, s1, LoadInto(s, e.k, reg));
  }

  lemma NilOk(c: Entry, o0: Out, base: nat, lo: nat, s: Gen, e: ExpDesc, reg: nat, v: Res)
    requires Wf(s) && Lists(s, lo, e) && e.k.VNil? && c.p <= s.lasttarget
    requires Holds(c, o0, base, -1, s, e, v)
    ensures Grows(s, LoadNil(s, reg, 1))
    ensures Holds(c, o0, base, reg, LoadNil(s, reg, 1), e.(k := VNonReloc(reg)), v)
  {
    NilRun(c, s, reg);
    NilGrows(s, reg);
  }

  /** Emitting an instruction that puts the value of `e` into a register. */
  lemma EmitOk(c: Entry, o0: Out, base: nat, lo: nat, s: Gen, e: ExpDesc, i: Sym, v: Res)
    requires Wf(s) && Lists(s, lo, e) && c.p <= s.lasttarget
    requires IsPlain(i) && Width(i) == 1 && (i.MOVE? || i.LOADK? || i.LOADBOOL?)
    requires !e.k.VReloc? && !e.k.VJmp?
    requires forall R :: Effect(c.rt, i, R) ==
               if Denote(c.rt, s, e.k, R).Ok? then Some(R[i.a := Denote(c.rt, s, e.k, R).v]) else None
    requires Holds(c, o0, base, -1, s, e, v)
    ensures Grows(s, Code(s, i))
    ensures Holds(c, o0, base, i.a, Code(s, i), e.(k := VNonReloc(i.a)), v)
  {
    EmitRun(c, s, i);
    CodeGrows(s, i);
  }

  lemma RelocateOk(c: Entry, o0: Out, base: nat, lo: nat, s: Gen, e: ExpDesc, reg: nat, v: Res)
    requires Wf(s) && Lists(s, lo, e) && e.k.VReloc? && KindOk(s, lo, base, e) && c.p <= s.lasttarget
    requires Holds(c, o0, base, -1, s, e, v)
    ensures Grows(s, Relocate(s, e.k.pc, reg))
    ensures Holds(c, o0, base, reg, Relocate(s, e.k.pc, reg), e.(k := VNonReloc(reg)), v)
  {
    hide Exec;
    var pc := e.k.pc;
    RelocateRun(c, s, pc, reg);
    var o := From(c, s.code[..pc]);
    if o.End? { ConcatIgnoresTarget(c.rt, s.code[pc], reg, o.R); }
  }
}
