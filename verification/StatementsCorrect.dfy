/** Compiled functions do what their statements say. */
module StatementsCorrect {
  import opened Common
  import opened LuaValues
  import opened LuaVm
  import opened SymbolicCode
  import opened CodeSpec
  import opened CodeInvariant
  import opened CodeEmit
  import opened CodeDischarge
  import opened CodeClose
  import opened CodeExp2Reg
  import opened CodeOperands
  import opened CodeBranch
  import opened CodeCorrect
  import opened LuaStatements

  // ----- statements only look at active locals -----

  ghost predicate SameFlow(w1: Flow, w2: Flow, n: nat) {
    if w1.Onward? then w2.Onward? && Agree(w1.R, w2.R, n, -1) else w1 == w2
  }

  lemma AgreeSet(R1: Regs, R2: Regs, n: nat, reg: nat, v: Value)
    requires Agree(R1, R2, n, reg)
    ensures Agree(R1[reg := v], R2[reg := v], n, -1)
    ensures reg == n ==> Agree(R1[reg := v], R2[reg := v], n + 1, -1)
  {
    var S1, S2 := R1[reg := v], R2[reg := v];
    forall r: nat | r < n ensures Get(S1, r) == Get(S2, r) {
      assert r != reg ==> Get(R1, r) == Get(R2, r);
    }
  }

  lemma {:induction false} StatAgrees(m: Machine, up: seq<Value>, st: Stat, n: nat, R1: Regs, R2: Regs)
    requires WfStat(st, n) && Agree(R1, R2, n, -1)
    ensures SameFlow(RunStat(m, up, st, n, R1), RunStat(m, up, st, n, R2), n + Locals(st))
    decreases st
  {
    match st
    case Local(x) =>
      EvalAgrees(m, up, x, n, R1, R2);
      if Eval(m, up, x, R1).Ok? { AgreeSet(R1, R2, n, n, Eval(m, up, x, R1).v); }
    case Assign(reg, x) =>
      EvalAgrees(m, up, x, n, R1, R2);
      if Eval(m, up, x, R1).Ok? { AgreeSet(R1, R2, n, reg, Eval(m, up, x, R1).v); }
    case Return(x) => EvalAgrees(m, up, x, n, R1, R2);
    case IfThen(cond, body) =>
      EvalAgrees(m, up, cond, n, R1, R2);
      BlockAgrees(m, up, body, n, R1, R2);
    case IfElse(cond, body, alt) =>
      EvalAgrees(m, up, cond, n, R1, R2);
      BlockAgrees(m, up, body, n, R1, R2);
      BlockAgrees(m, up, alt, n, R1, R2);
  }

  lemma {:induction false} BlockAgrees(m: Machine, up: seq<Value>, b: Block, n: nat, R1: Regs, R2: Regs)
    requires WfBlock(b, n) && Agree(R1, R2, n, -1)
    ensures SameFlow(RunBlock(m, up, b, n, R1), RunBlock(m, up, b, n, R2), n)
    decreases b
  {
    if b.Seq? {
      StatAgrees(m, up, b.first, n, R1, R2);
      var w1, w2 := RunStat(m, up, b.first, n, R1), RunStat(m, up, b.first, n, R2);
      if w1.Onward? { BlockAgrees(m, up, b.rest, n + Locals(b.first), w1.R, w2.R); }
    }
  }

  // ----- what compiled statements keep and do -----

  ghost predicate FlowOk(n: nat, o: Out, w: Flow) {
    match o
    case End(R2) => w.Onward? && Agree(w.R, R2, n, -1)
    case Halt(v) => w.Back? && v == Some(w.v)
    case Fail => w.Raise?
    case _ => false
  }

  /** Runs that got to the statement now perform it; the others are unaffected. */
  ghost predicate Does(c: Entry, o0: Out, n: nat, C: seq<Sym>, w: Flow) {
    match o0
    case End(_) => FlowOk(n, From(c, C), w)
    case Stuck => true
    case _ => From(c, C) == o0
  }

  ghost predicate Ground(c: Entry, s: Gen) {
    Wf(s) && s.freereg == s.nactvar && c.p <= s.lasttarget && FoldsSoundly(s.m) && c.rt.m == s.m
  }

  /** A compiled statement extends the code and leaves no temporaries. */
  ghost predicate Compiled(s0: Gen, s: Gen, n: nat) {
    Grows(s0, Leave(s, s0.nactvar)) && s.nactvar == s.freereg == n && n <= s.maxstack
  }

  function StatAt(c: Entry, st: Stat, n: nat, o: Out): Flow {
    if o.End? then RunStat(c.rt.m, c.rt.up, st, n, o.R) else Raise
  }

  function BlockAt(c: Entry, b: Block, n: nat, o: Out): Flow {
    if o.End? then RunBlock(c.rt.m, c.rt.up, b, n, o.R) else Raise
  }

  lemma CompiledTrans(s0: Gen, s1: Gen, n1: nat, s2: Gen, n2: nat)
    requires Compiled(s0, s1, n1) && Compiled(s1, s2, n2) && s0.nactvar <= n1 && s0.nactvar <= n2
    ensures Compiled(s0, s2, n2)
  {
  }

  lemma LeaveOk(s0: Gen, s: Gen, n: nat)
    requires Compiled(s0, s, n)
    ensures Compiled(s0, Leave(s, s0.nactvar), s0.nactvar) && Close(Leave(s, s0.nactvar)) == Close(s)
  {
  }

  // ----- the constant pool -----

  lemma OpenIfPool(s: Gen, cond: Expr)
    ensures s.k <= OpenIf(s, cond).s.k
  {
    CompilePool(s, cond);
    var c := Compile(s, cond);
    InfixPool(And, c.s, c.e);
  }

  lemma {:induction false} StatPool(s: Gen, st: Stat)
    ensures s.k <= CompileStat(s, st).k
    decreases st
  {
    match st
    case Local(x) => CompilePool(s, x); Exp2NextRegPool(Compile(s, x).s, Compile(s, x).e);
    case Assign(reg, x) =>
      CompilePool(s, x);
      Exp2RegPool(FreeExp(Compile(s, x).s, Compile(s, x).e), Compile(s, x).e, reg);
    case Return(x) => CompilePool(s, x); Exp2AnyRegPool(Compile(s, x).s, Compile(s, x).e);
    case IfThen(cond, body) => OpenIfPool(s, cond); BlockPool(OpenIf(s, cond).s, body);
    case IfElse(cond, body, alt) =>
      OpenIfPool(s, cond);
      var g := OpenIf(s, cond);
      BlockPool(g.s, body);
      BlockPool(PatchToHere(EmitJump(Leave(CompileBlock(g.s, body), s.nactvar)), g.e.f), alt);
  }

  lemma {:induction false} BlockPool(s: Gen, b: Block)
    ensures s.k <= CompileBlock(s, b).k
    decreases b
  {
    if b.Seq? {
      StatPool(s, b.first);
      BlockPool(CompileStat(s, b.first), b.rest);
    }
  }

  // ----- simple statements -----

  lemma LocalOk(c: Entry, s0: Gen, x: Expr, s: Gen)
    requires Ground(c, s0) && WellFormed(x, s0.nactvar) && s == CompileStat(s0, Local(x)) && s.k <= c.rt.k
    ensures Compiled(s0, s, s0.nactvar + 1)
    ensures var o0 := From(c, Close(s0)); Does(c, o0, s0.nactvar + 1, Close(s), StatAt(c, Local(x), s0.nactvar, o0))
  {
    var o0, k := From(c, Close(s0)), Compile(s0, x);
    var r := Exp2NextReg(k.s, k.e);
    Exp2NextRegPool(k.s, k.e);
    CompileOk(c, s0, x);
    Exp2NextRegOk(c, o0, s0.freereg, s0, k.s, k.e, ValueAt(c, x, o0));
    StoredOk(c, o0, s0, r.s, s0.nactvar, x, s, s0.nactvar + 1);
  }

  /** The value of x is now in register `reg`. */
  lemma StoredOk(c: Entry, o0: Out, s0: Gen, r: Gen, reg: nat, x: Expr, s: Gen, n: nat)
    requires Grows(s0, r) && Holds(c, o0, s0.nactvar, reg, r, Plain(VNonReloc(reg)), ValueAt(c, x, o0))
    requires n == (if reg == s0.nactvar then s0.nactvar + 1 else s0.nactvar) <= r.maxstack && reg <= s0.nactvar
    requires s == Leave(r, n)
    ensures Compiled(s0, s, n)
    ensures Does(c, o0, n, Close(s), if o0.End?
      then (match ValueAt(c, x, o0) case Error => Raise case Ok(v) => Onward(o0.R[reg := v])) else Raise)
  {
  }

  lemma ReturnOk(c: Entry, s0: Gen, x: Expr, s: Gen)
    requires Ground(c, s0) && WellFormed(x, s0.nactvar) && s == CompileStat(s0, Return(x)) && s.k <= c.rt.k
    ensures Compiled(s0, s, s0.nactvar)
    ensures var o0 := From(c, Close(s0)); Does(c, o0, s0.nactvar, Close(s), StatAt(c, Return(x), s0.nactvar, o0))
  {
    var o0, k := From(c, Close(s0)), Compile(s0, x);
    var r := Exp2AnyReg(k.s, k.e);
    Exp2AnyRegPool(k.s, k.e);
    CompileOk(c, s0, x);
    Exp2AnyRegOk(c, o0, s0.freereg, s0, k.s, k.e, ValueAt(c, x, o0));
    ReturnEmitOk(c, o0, s0, r, ValueAt(c, x, o0), s);
  }

  lemma ReturnEmitOk(c: Entry, o0: Out, s0: Gen, r: GE, v: Res, s: Gen)
    requires Grows(s0, r.s) && r.e.k.VNonReloc? && !HasJumps(r.e) && s0.freereg == s0.nactvar && c.p <= s0.lasttarget
    requires Holds(c, o0, s0.freereg, -1, r.s, r.e, v)
    requires s == Leave(Code(r.s, RETURN(r.e.k.r, true)), s0.nactvar)
    ensures Compiled(s0, s, s0.nactvar)
    ensures Does(c, o0, s0.nactvar, Close(s), if !o0.End? || v.Error? then Raise else Back(v.v))
  {
    var i := RETURN(r.e.k.r, true);
    HaltRun(c, r.s, i);
    CodeGrows(r.s, i);
    GrowsTrans(s0, r.s, Code(r.s, i));
    assert Close(s) == Close(Code(r.s, i));
  }

  /** Emitting a RETURN: runs that got there stop with its value. */
  lemma HaltRun(c: Entry, s: Gen, i: Sym)
    requires Wf(s) && c.p <= |s.code| && i.RETURN?
    ensures var o, o' := From(c, Close(s)), From(c, Close(Code(s, i)));
      match o
      case End(R) => o' == Halt(Returns(i, R))
      case Stuck => true
      case _ => o' == o
  {
    CloseCode(s, i);
    EmitExtends(s, i);
    ExecExtends(c.rt, Close(s), Close(Code(s, i)), c.p, c.R);
    ExitFacts(c.rt, Close(s), c.p, c.R);
  }

  lemma AssignOk(c: Entry, s0: Gen, reg: nat, x: Expr, s: Gen)
    requires Ground(c, s0) && WellFormed(x, s0.nactvar) && reg < s0.nactvar
    requires s == CompileStat(s0, Assign(reg, x)) && s.k <= c.rt.k
    ensures Compiled(s0, s, s0.nactvar)
    ensures var o0 := From(c, Close(s0)); Does(c, o0, s0.nactvar, Close(s), StatAt(c, Assign(reg, x), s0.nactvar, o0))
  {
    var o0, k := From(c, Close(s0)), Compile(s0, x);
    var r := Exp2Reg(FreeExp(k.s, k.e), k.e, reg);
    Exp2RegPool(FreeExp(k.s, k.e), k.e, reg);
    CompileOk(c, s0, x);
    StoreOk(c, o0, s0, k, reg, ValueAt(c, x, o0), r);
    StoredOk(c, o0, s0, r.s, reg, x, s, s0.nactvar);
  }

  /** Whether variables are discharged before or after registers are freed makes no difference. */
  lemma StoreSame(k: GE, reg: nat)
    requires k.e.k.VLocal? ==> k.e.k.r < k.s.nactvar
    ensures var d := DischargeVars(k.s, k.e);
      Exp2Reg(FreeExp(k.s, k.e), k.e, reg) == Exp2Reg(FreeExp(d.s, d.e), d.e, reg)
  {
  }

  lemma StoreOk(c: Entry, o0: Out, s0: Gen, k: GE, reg: nat, v: Res, r: GE)
    requires Good(c, o0, s0.freereg, s0, k, v) && r == Exp2Reg(FreeExp(k.s, k.e), k.e, reg) && r.s.k <= c.rt.k
    ensures Grows(s0, r.s) && r.e == Plain(VNonReloc(reg)) && Holds(c, o0, s0.freereg, reg, r.s, r.e, v)
  {
    assert k.e.k.VLocal? ==> k.e.k.r < k.s.nactvar;
    var d := DischargeVars(k.s, k.e);
    DischargeVarsOk(c, o0, s0.freereg, s0, k.s, k.e, v);
    FreeOk(c, o0, s0.freereg, -1, s0, d.s, d.e, v, d.e);
    var s1 := FreeExp(d.s, d.e);
    StoreSame(k, reg);
    Exp2RegOk(c, o0, s0.freereg, s0, s1, d.e, reg, v);
  }

  // ----- conditionals -----

  /** The condition has been compiled: false runs are at the exits, true runs go on. */
  ghost predicate Guarded(c: Entry, o0: Out, n: nat, s0: Gen, g: GE, v: Res) {
    g.e.t == [] && CondState(c, o0, n, s0, g.s, g.e, v, true)
  }

  lemma OpenIfOk(c: Entry, s0: Gen, cond: Expr)
    requires Ground(c, s0) && WellFormed(cond, s0.nactvar) && OpenIf(s0, cond).s.k <= c.rt.k
    ensures var o0 := From(c, Close(s0)); Guarded(c, o0, s0.nactvar, s0, OpenIf(s0, cond), ValueAt(c, cond, o0))
    ensures Ground(c, OpenIf(s0, cond).s)
  {
    var o0, k := From(c, Close(s0)), Compile(s0, cond);
    InfixPool(And, k.s, k.e);
    CompileOk(c, s0, cond);
    GoIfTrueOk(c, o0, s0.freereg, s0, k.s, k.e, ValueAt(c, cond, o0));
  }

  /** Exits of an earlier condition stay open while a block is compiled. */
  lemma ExitsKept(s0: Gen, s: Gen, n: nat, lo: nat, L: seq<nat>)
    requires Compiled(s0, s, n) && ListOk(s0, lo, L)
    ensures ListOk(s, lo, L)
  {
  }

  lemma IfThenOk(c: Entry, s0: Gen, g: GE, b: Gen, s: Gen, v: Res, w: Flow)
    requires Ground(c, s0) && Guarded(c, From(c, Close(s0)), s0.nactvar, s0, g, v) && Ground(c, g.s)
    requires Compiled(g.s, b, s0.nactvar) && Does(c, From(c, Close(g.s)), s0.nactvar, Close(b), w)
    requires s == PatchToHere(PatchToHere(b, g.e.f), [])
    ensures Compiled(s0, s, s0.nactvar)
    ensures var o0, o1 := From(c, Close(s0)), From(c, Close(g.s));
      var w' := if !o0.End? || v.Error? then Raise else if IsFalse(v.v) then Onward(o0.R) else w;
      Does(c, o0, s0.nactvar, Close(s), w')
  {
    ExitsKept(g.s, b, s0.nactvar, |s0.code|, g.e.f);
    CompiledGrows(s0, g.s, b);
    HereGrows(s0, b, g.e.f);
    HereRun(c, b, g.e.f);
    HereTwice(b, g.e.f, s);
    ExitFacts(c.rt, Close(s0), c.p, c.R);
  }

  lemma CompiledGrows(s0: Gen, s1: Gen, s2: Gen)
    requires Grows(s0, s1) && s1.nactvar == s0.nactvar && Compiled(s1, s2, s0.nactvar)
    ensures Grows(s0, s2)
  {
  }

  lemma HereTwice(s: Gen, L: seq<nat>, s': Gen)
    requires s' == PatchToHere(PatchToHere(s, L), [])
    ensures s' == PatchToHere(s, L)
  {
  }

  /** After the first branch, a jump over the second one. */
  lemma JumpOverRun(c: Entry, b: Gen, j: Gen)
    requires Wf(b) && c.p <= b.lasttarget && j == EmitJump(b)
    ensures Wf(j) && Grows(b.(jpc := []), j)
    ensures var o, o' := From(c, Close(b)), From(c, Close(j));
      if o.End? then o'.Exit? && o'.jump in EmitJumpList(b) && o'.R == o.R else o' == o
  {
    hide Exec;
    CloseNone(j);
    OpenRun(c, b);
    ExitFacts(c.rt, b.code, c.p, c.R);
    ExecExtends(c.rt, b.code, j.code, c.p, c.R);
    var o := From(c, b.code);
    assert EmitJumpList(b)[0] == |b.code|;
    if o.End? { OpenJumpRun(c.rt, j.code, |b.code|, o.R); }
  }

  lemma OpenJumpRun(rt: Runtime, C: seq<Sym>, p: nat, R: Regs)
    requires OpenAt(C, p)
    ensures Exec(rt, C, p, R) == Exit(p, R, None)
  {
  }

  /** The second branch starts where the false exits of the condition lead. */
  lemma ElseStart(c: Entry, s0: Gen, g: GE, b: Gen, h: Gen)
    requires Grows(s0, g.s) && ListOk(g.s, |s0.code|, g.e.f) && g.s.nactvar == s0.nactvar
    requires Compiled(g.s, b, s0.nactvar)
    requires h == PatchToHere(EmitJump(b), g.e.f)
    ensures Grows(s0, h) && h.nactvar == h.freereg == s0.nactvar
    ensures forall k :: k in EmitJumpList(b) ==> OpenAt(h.code, k) && k !in h.jpc && (k in s0.jpc || |s0.code| <= k)
    ensures ListOk(b, |s0.code|, g.e.f) && Wf(EmitJump(b)) && ListOk(EmitJump(b), |s0.code|, g.e.f)
  {
    ExitsKept(g.s, b, s0.nactvar, |s0.code|, g.e.f);
    CompiledGrows(s0, g.s, b);
  }

  /** Jumps over the second branch are still open at its end. */
  lemma EscapesKept(h: Gen, a: Gen, n: nat, L: seq<nat>)
    requires Compiled(h, a, n) && forall k :: k in L ==> OpenAt(h.code, k) && k !in h.jpc
    ensures forall k :: k in L ==> OpenAt(a.code, k) && k !in a.jpc
  {
  }

  lemma ElseRun(c: Entry, s0: Gen, g: GE, b: Gen, h: Gen, v: Res, w1: Flow)
    requires Ground(c, s0) && Guarded(c, From(c, Close(s0)), s0.nactvar, s0, g, v) && Ground(c, g.s)
    requires Compiled(g.s, b, s0.nactvar) && Does(c, From(c, Close(g.s)), s0.nactvar, Close(b), w1)
    requires h == PatchToHere(EmitJump(b), g.e.f)
    ensures var o0, o := From(c, Close(s0)), From(c, Close(h));
      match o0
      case End(R1) =>
        if v.Error? then o.Fail?
        else if IsFalse(v.v) then o.End? && Agree(R1, o.R, s0.nactvar, -1)
        else if o.Exit? then o.jump in EmitJumpList(b) && FlowOk(s0.nactvar, End(o.R), w1)
        else !o.End? && FlowOk(s0.nactvar, o, w1)
      case Stuck => true
      case _ => o == o0
  {
    ElseStart(c, s0, g, b, h);
    ExitFacts(c.rt, Close(s0), c.p, c.R);
    ExitFacts(c.rt, Close(b), c.p, c.R);
    JumpOverRun(c, b, EmitJump(b));
    HereRun(c, EmitJump(b), g.e.f);
  }

  lemma IfElseOk(c: Entry, s0: Gen, g: GE, b: Gen, h: Gen, a: Gen, s: Gen, v: Res, w1: Flow, w2: Flow)
    requires Ground(c, s0) && Guarded(c, From(c, Close(s0)), s0.nactvar, s0, g, v) && Ground(c, g.s)
    requires Compiled(g.s, b, s0.nactvar) && Does(c, From(c, Close(g.s)), s0.nactvar, Close(b), w1)
    requires h == PatchToHere(EmitJump(b), g.e.f)
    requires Compiled(h, a, s0.nactvar) && Does(c, From(c, Close(h)), s0.nactvar, Close(a), w2)
    requires s == PatchToHere(a, EmitJumpList(b))
    ensures Compiled(s0, s, s0.nactvar)
    ensures var o0, o1 := From(c, Close(s0)), From(c, Close(h));
      Does(c, o0, s0.nactvar, Close(s), if !o0.End? || v.Error? then Raise else if IsFalse(v.v) then w2 else w1)
  {
    ElseStart(c, s0, g, b, h);
    ElseRun(c, s0, g, b, h, v, w1);
    EscapesKept(h, a, s0.nactvar, EmitJumpList(b));
    CompiledGrows(s0, h, a);
    HereGrows(s0, a, EmitJumpList(b));
    HereRun(c, a, EmitJumpList(b));
    ExitFacts(c.rt, Close(s0), c.p, c.R);
  }

  // ----- blocks and functions -----

  lemma {:induction false} StatOk(c: Entry, s0: Gen, st: Stat)
    requires Ground(c, s0) && WfStat(st, s0.nactvar) && CompileStat(s0, st).k <= c.rt.k
    ensures var s, o0, n := CompileStat(s0, st), From(c, Close(s0)), s0.nactvar + Locals(st);
      Compiled(s0, s, n) && Does(c, o0, n, Close(s), StatAt(c, st, s0.nactvar, o0))
    decreases st
  {
    var s := CompileStat(s0, st);
    match st
    case Local(x) => LocalOk(c, s0, x, s);
    case Assign(reg, x) => AssignOk(c, s0, reg, x, s);
    case Return(x) => ReturnOk(c, s0, x, s);
    case IfThen(cond, body) => IfThenStat(c, s0, cond, body, s);
    case IfElse(cond, body, alt) => IfElseStat(c, s0, cond, body, alt, s);
  }

  lemma {:induction false} IfThenStat(c: Entry, s0: Gen, cond: Expr, body: Block, s: Gen)
    requires Ground(c, s0) && WellFormed(cond, s0.nactvar) && WfBlock(body, s0.nactvar)
    requires s == CompileStat(s0, IfThen(cond, body)) && s.k <= c.rt.k
    ensures Compiled(s0, s, s0.nactvar)
    ensures var o0 := From(c, Close(s0));
      Does(c, o0, s0.nactvar, Close(s), StatAt(c, IfThen(cond, body), s0.nactvar, o0))
    decreases IfThen(cond, body), 0
  {
    var o0, n, g := From(c, Close(s0)), s0.nactvar, OpenIf(s0, cond);
    BlockPool(g.s, body);
    OpenIfOk(c, s0, cond);
    BlockOk(c, g.s, body);
    var b0, o1 := CompileBlock(g.s, body), From(c, Close(g.s));
    var b := Leave(b0, n);
    LeaveOk(g.s, b0, b0.nactvar);
    var v, w := ValueAt(c, cond, o0), BlockAt(c, body, n, o1);
    IfThenOk(c, s0, g, b, s, v, w);
    if o0.End? && o1.End? {
      BlockAgrees(c.rt.m, c.rt.up, body, n, o1.R, o0.R);
      SameFlowOk(n, From(c, Close(s)), w, RunBlock(c.rt.m, c.rt.up, body, n, o0.R));
    }
  }

  lemma SameFlowOk(n: nat, o: Out, w1: Flow, w2: Flow)
    requires SameFlow(w1, w2, n)
    ensures FlowOk(n, o, w1) ==> FlowOk(n, o, w2)
  {
  }

  lemma {:induction false} IfElseStat(c: Entry, s0: Gen, cond: Expr, body: Block, alt: Block, s: Gen)
    requires Ground(c, s0) && WellFormed(cond, s0.nactvar) && WfBlock(body, s0.nactvar) && WfBlock(alt, s0.nactvar)
    requires s == CompileStat(s0, IfElse(cond, body, alt)) && s.k <= c.rt.k
    ensures Compiled(s0, s, s0.nactvar)
    ensures var o0 := From(c, Close(s0));
      Does(c, o0, s0.nactvar, Close(s), StatAt(c, IfElse(cond, body, alt), s0.nactvar, o0))
    decreases IfElse(cond, body, alt), 0
  {
    hide OpenIf, Exec;
    var o0, n, g := From(c, Close(s0)), s0.nactvar, OpenIf(s0, cond);
    var b0 := CompileBlock(g.s, body);
    var b := Leave(b0, n);
    var h := PatchToHere(EmitJump(b), g.e.f);
    var a0 := CompileBlock(h, alt);
    BlockPool(g.s, body);
    BlockPool(h, alt);
    OpenIfOk(c, s0, cond);
    BlockOk(c, g.s, body);
    LeaveOk(g.s, b0, b0.nactvar);
    ElseStart(c, s0, g, b, h);
    BlockOk(c, h, alt);
    LeaveOk(h, a0, a0.nactvar);
    var v := ValueAt(c, cond, o0);
    var o1, o2 := From(c, Close(g.s)), From(c, Close(h));
    var w1, w2 := BlockAt(c, body, n, o1), BlockAt(c, alt, n, o2);
    IfElseOk(c, s0, g, b, h, Leave(a0, n), s, v, w1, w2);
    BranchesAgree(c, s0, g, b, h, cond, body, alt, v, w1, From(c, Close(s)));
  }

  /** The branches start with the registers the condition was evaluated with. */
  lemma BranchesAgree(c: Entry, s0: Gen, g: GE, b: Gen, h: Gen, cond: Expr, body: Block, alt: Block, v: Res, w1: Flow,
        o: Out)
    requires Ground(c, s0) && Guarded(c, From(c, Close(s0)), s0.nactvar, s0, g, v) && Ground(c, g.s)
    requires WfBlock(body, s0.nactvar) && WfBlock(alt, s0.nactvar) && v == ValueAt(c, cond, From(c, Close(s0)))
    requires Compiled(g.s, b, s0.nactvar) && Does(c, From(c, Close(g.s)), s0.nactvar, Close(b), w1)
    requires h == PatchToHere(EmitJump(b), g.e.f) && w1 == BlockAt(c, body, s0.nactvar, From(c, Close(g.s)))
    ensures var o0, n := From(c, Close(s0)), s0.nactvar;
      o0.End? && v.Ok? ==>
        if IsFalse(v.v) then FlowOk(n, o, BlockAt(c, alt, n, From(c, Close(h)))) ==>
          FlowOk(n, o, RunBlock(c.rt.m, c.rt.up, alt, n, o0.R))
        else FlowOk(n, o, w1) ==> FlowOk(n, o, RunBlock(c.rt.m, c.rt.up, body, n, o0.R))
  {
    var o0, o1, o2, n := From(c, Close(s0)), From(c, Close(g.s)), From(c, Close(h)), s0.nactvar;
    ElseRun(c, s0, g, b, h, v, w1);
    if o0.End? && v.Ok? {
      if IsFalse(v.v) {
        BlockAgrees(c.rt.m, c.rt.up, alt, n, o2.R, o0.R);
      } else if o1.End? {
        BlockAgrees(c.rt.m, c.rt.up, body, n, o1.R, o0.R);
      }
    }
  }

  lemma {:induction false} BlockOk(c: Entry, s0: Gen, b: Block)
    requires Ground(c, s0) && WfBlock(b, s0.nactvar) && CompileBlock(s0, b).k <= c.rt.k
    ensures var s, o0 := CompileBlock(s0, b), From(c, Close(s0));
      && s0.nactvar <= s.nactvar && Compiled(s0, s, s.nactvar)
      && Does(c, o0, s0.nactvar, Close(s), BlockAt(c, b, s0.nactvar, o0))
    decreases b
  {
    if b.Done? {
      EmptyOk(c, s0);
    } else {
      var s1, s := CompileStat(s0, b.first), CompileBlock(s0, b);
      BlockPool(s1, b.rest);
      StatOk(c, s0, b.first);
      GroundNext(c, s0, s1);
      BlockOk(c, s1, b.rest);
      SequenceOk(c, s0, b, s1, s);
    }
  }

  lemma GroundNext(c: Entry, s0: Gen, s1: Gen)
    requires Ground(c, s0) && Compiled(s0, s1, s1.nactvar)
    ensures Ground(c, s1)
  {
  }

  lemma EmptyOk(c: Entry, s0: Gen)
    requires Ground(c, s0)
    ensures Compiled(s0, s0, s0.nactvar)
    ensures var o0 := From(c, Close(s0)); Does(c, o0, s0.nactvar, Close(s0), BlockAt(c, Done, s0.nactvar, o0))
  {
  }

  lemma SequenceOk(c: Entry, s0: Gen, b: Block, s1: Gen, s: Gen)
    requires Ground(c, s0) && b.Seq? && WfBlock(b, s0.nactvar) && s0.nactvar <= s1.nactvar <= s.nactvar
    requires s1.nactvar == s0.nactvar + Locals(b.first)
    requires Compiled(s0, s1, s1.nactvar) && Compiled(s1, s, s.nactvar)
    requires var o0 := From(c, Close(s0)); Does(c, o0, s1.nactvar, Close(s1), StatAt(c, b.first, s0.nactvar, o0))
    requires var o1 := From(c, Close(s1)); Does(c, o1, s1.nactvar, Close(s), BlockAt(c, b.rest, s1.nactvar, o1))
    ensures Compiled(s0, s, s.nactvar)
    ensures var o0 := From(c, Close(s0)); Does(c, o0, s0.nactvar, Close(s), BlockAt(c, b, s0.nactvar, o0))
  {
    hide Exec, Close;
    CompiledTrans(s0, s1, s1.nactvar, s, s.nactvar);
    var o0, o1 := From(c, Close(s0)), From(c, Close(s1));
    if o0.End? && o1.End? {
      var w := RunStat(c.rt.m, c.rt.up, b.first, s0.nactvar, o0.R);
      BlockAgrees(c.rt.m, c.rt.up, b.rest, s1.nactvar, o1.R, w.R);
    }
  }

  /** What the interpreter loop should end with. */
  function Expected(w: Flow): Config {
    match w
    case Onward(_) => Returned(None)
    case Back(v) => Returned(Some(v))
    case Raise => Raised
  }

  /** The bytecode of a function, run from its first instruction, ends as its block does. */
  lemma FunctionCorrect(n: nat, b: Block, rt: Runtime, R: Regs, D: seq<Instr<int>>) returns (rounds: nat)
    requires FoldsSoundly(rt.m) && WfBlock(b, n)
    requires rt.k == CompileFunction(n, rt.m, b).k
    requires Encodes(CompileFunction(n, rt.m, b).code, D)
    ensures Run(rt, D, Running(0, R), rounds) == Expected(RunBlock(rt.m, rt.up, b, n, R))
  {
    var c, s0 := Entry(rt, 0, R), Init(n, rt.m);
    var s := CompileBlock(s0, b);
    BlockOk(c, s0, b);
    HaltRun(c, s, RETURN(0, false));
    CloseNone(Code(s, RETURN(0, false)));
    rounds := RunRefines(rt, CompileFunction(n, rt.m, b).code, D, 0, R);
  }
}
