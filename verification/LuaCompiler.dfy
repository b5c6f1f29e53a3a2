/** The parser's calls to the code generator, one pass over expressions and statements. */
module LuaCompiler {
  import opened LuaValues
  import opened LuaVm
  import opened SymbolicCode
  import opened CodeInvariant
  import opened JumpThreads
  import opened LuaCodeGen
  import opened LuaStatements
  import StatementsCorrect
  import S = CodeSpec

  /** Compiles an expression; `v` describes it. */
  method Expression(fs: FuncState, x: S.Expr, v: Exp)
    requires fs.Valid()
    modifies fs, v
    ensures fs.Valid() && fs.Ready(v) && S.GE(fs.s, v.d) == S.Compile(old(fs.s), x)
    ensures Stepped(old(fs.code), old(fs.s), [], fs.code, fs.s, Own(v.d))
    decreases x, 2
  {
    hide S.CodeNot, S.CodeUnary, S.DischargeVars, S.Infix, S.Posfix;
    match x {
      case ENil => v.Init(S.VNil);
      case ETrue => v.Init(S.VTrue);
      case EFalse => v.Init(S.VFalse);
      case ENumber(n) => v.Init(S.VNumber(n));
      case EString(str) =>
        var i := fs.AddK(Str(str));
        v.Init(S.VK(i));
      case ELocal(r) => v.Init(S.VLocal(r));
      case EUpvalue(u) => v.Init(S.VUpval(u));
      case EParen(y) =>
        Expression(fs, y, v);
        ghost var c1, s1, own1 := fs.code, fs.s, Own(v.d);
        fs.DischargeVars(v);
        SteppedTrans(old(fs.code), old(fs.s), [], c1, s1, own1, fs.code, fs.s, Own(v.d));
      case ENot(y) =>
        Expression(fs, y, v);
        ghost var c1, s1, own1 := fs.code, fs.s, Own(v.d);
        fs.CodeNot(v);
        SteppedTrans(old(fs.code), old(fs.s), [], c1, s1, own1, fs.code, fs.s, Own(v.d));
      case EUnary(op, y) =>
        Expression(fs, y, v);
        ghost var c1, s1, own1 := fs.code, fs.s, Own(v.d);
        fs.CodeUnary(op, v);
        SteppedTrans(old(fs.code), old(fs.s), [], c1, s1, own1, fs.code, fs.s, Own(v.d));
      case EBinary(op, l, r) =>
        var v2 := new Exp();
        Binary(fs, op, l, r, v, v2);
    }
  }

  method Binary(fs: FuncState, op: S.BinOp, l: S.Expr, r: S.Expr, v: Exp, v2: Exp)
    requires fs.Valid() && v != v2
    modifies fs, v, v2
    ensures fs.Valid() && fs.Ready(v) && S.GE(fs.s, v.d) == S.Compile(old(fs.s), S.EBinary(op, l, r))
    ensures Stepped(old(fs.code), old(fs.s), [], fs.code, fs.s, Own(v.d))
    decreases S.EBinary(op, l, r), 1
  {
    hide S.Infix, S.Posfix;
    Operands(fs, op, l, r, v, v2);
    ghost var i, c := Prepared(old(fs.s), op, l), S.GE(fs.s, v2.d);
    CompileBinary(old(fs.s), op, l, r, i, c);
    Combine(fs, op, v, v2, old(fs.code), old(fs.s));
  }

  lemma CompileBinary(s: S.Gen, op: S.BinOp, l: S.Expr, r: S.Expr, i: S.GE, c: S.GE)
    requires i == Prepared(s, op, l) && c == S.Compile(i.s, r)
    ensures S.Compile(s, S.EBinary(op, l, r)) == S.Posfix(op, c.s, i.e, c.e)
  {
    hide S.Infix, S.Posfix;
  }

  /** Combines two compiled operands of an expression begun in state s0. */
  method Combine(fs: FuncState, op: S.BinOp, v: Exp, v2: Exp, ghost c0: seq<Instr<int>>, ghost s0: S.Gen)
    requires fs.Valid() && fs.Left(op, v) && fs.Ready(v2) && v != v2 && Apart(Exits(v.d), Own(v2.d))
    requires Stepped(c0, s0, [], fs.code, fs.s, Exits(v.d) + Own(v2.d))
    modifies fs, v, v2
    ensures fs.Valid() && fs.Ready(v) && S.GE(fs.s, v.d) == S.Posfix(op, old(fs.s), old(v.d), old(v2.d))
    ensures Stepped(c0, s0, [], fs.code, fs.s, Own(v.d))
  {
    hide S.Infix, S.Posfix;
    fs.Posfix(op, v, v2);
    SteppedTrans(c0, s0, [], old(fs.code), old(fs.s), old(Exits(v.d) + Own(v2.d)), fs.code, fs.s, Own(v.d));
  }

  /** The state in which the left operand of an operator is prepared. */
  function Prepared(s: S.Gen, op: S.BinOp, l: S.Expr): S.GE {
    var c := S.Compile(s, l);
    S.Infix(op, c.s, c.e)
  }

  method Operands(fs: FuncState, op: S.BinOp, l: S.Expr, r: S.Expr, v: Exp, v2: Exp)
    requires fs.Valid() && v != v2
    modifies fs, v, v2
    ensures fs.Valid() && fs.Left(op, v) && fs.Ready(v2) && Apart(Exits(v.d), Own(v2.d))
    ensures var i := Prepared(old(fs.s), op, l); v.d == i.e && S.GE(fs.s, v2.d) == S.Compile(i.s, r)
    ensures Stepped(old(fs.code), old(fs.s), [], fs.code, fs.s, Exits(v.d) + Own(v2.d))
    decreases S.EBinary(op, l, r), 0
  {
    hide S.Infix, S.Posfix;
    LeftOperand(fs, op, l, v);
    ghost var c1, s1, own1 := fs.code, fs.s, Exits(v.d);
    RightOperand(fs, op, r, v, v2);
    SteppedTrans(old(fs.code), old(fs.s), [], c1, s1, own1, fs.code, fs.s, Exits(v.d) + Own(v2.d));
  }

  /** Compiles a right operand while the exits of the left one wait. */
  method RightOperand(fs: FuncState, op: S.BinOp, r: S.Expr, v: Exp, v2: Exp)
    requires fs.Valid() && fs.Left(op, v) && v != v2
    modifies fs, v2
    ensures fs.Valid() && fs.Left(op, v) && fs.Ready(v2) && Apart(Exits(v.d), Own(v2.d))
    ensures S.GE(fs.s, v2.d) == S.Compile(old(fs.s), r)
    ensures Stepped(old(fs.code), old(fs.s), Exits(v.d), fs.code, fs.s, Exits(v.d) + Own(v2.d))
    decreases r, 3
  {
    hide S.Infix, S.Posfix;
    Expression(fs, r, v2);
    if op.And? || op.Or? {
      HeldKept(old(fs.code), old(fs.s), [], fs.code, fs.s, Own(v2.d), v.t, v.f, v.d);
    }
  }

  method LeftOperand(fs: FuncState, op: S.BinOp, l: S.Expr, v: Exp)
    requires fs.Valid()
    modifies fs, v
    ensures fs.Valid() && fs.Left(op, v)
    ensures S.GE(fs.s, v.d) == Prepared(old(fs.s), op, l)
    ensures Stepped(old(fs.code), old(fs.s), [], fs.code, fs.s, Exits(v.d))
    decreases l, 3
  {
    hide S.Infix;
    Expression(fs, l, v);
    ghost var c1, s1, own1 := fs.code, fs.s, Own(v.d);
    fs.Infix(op, v);
    SteppedTrans(old(fs.code), old(fs.s), [], c1, s1, own1, fs.code, fs.s, Exits(v.d));
  }

  // ----- statements -----

  /** The end of a statement or block releases its temporaries. */
  method Leave(fs: FuncState, nactvar: nat)
    requires fs.Valid()
    modifies fs
    ensures fs.Valid() && fs.s == LuaStatements.Leave(old(fs.s), nactvar) && fs.code == old(fs.code)
  {
    fs.nactvar, fs.freereg := nactvar, nactvar;
    fs.s := LuaStatements.Leave(fs.s, nactvar);
  }

  /** Compiles an expression and puts it in a fresh register, a given one, or any. */
  method LocalStat(fs: FuncState, x: S.Expr)
    requires fs.Valid()
    modifies fs
    ensures fs.Valid() && fs.s == CompileStat(old(fs.s), Local(x))
    ensures Stepped(old(fs.code), old(fs.s), [], fs.code, fs.s, [])
  {
    hide S.Exp2NextReg;
    var n := fs.nactvar;
    var e := new Exp();
    Expression(fs, x, e);
    ghost var c1, s1, own1 := fs.code, fs.s, Own(e.d);
    fs.Exp2NextReg(e);
    Leave(fs, n + 1);
    SteppedTrans(old(fs.code), old(fs.s), [], c1, s1, own1, fs.code, fs.s, []);
  }

  method Assignment(fs: FuncState, reg: nat, x: S.Expr)
    requires fs.Valid()
    modifies fs
    ensures fs.Valid() && fs.s == CompileStat(old(fs.s), Assign(reg, x))
    ensures Stepped(old(fs.code), old(fs.s), [], fs.code, fs.s, [])
  {
    hide S.Exp2Reg;
    var n := fs.nactvar;
    var e := new Exp();
    Expression(fs, x, e);
    ghost var c1, s1, own1 := fs.code, fs.s, Own(e.d);
    fs.FreeExp(e);
    fs.Exp2Reg(e, reg);
    Leave(fs, n);
    SteppedTrans(old(fs.code), old(fs.s), [], c1, s1, own1, fs.code, fs.s, []);
  }

  method ReturnStat(fs: FuncState, x: S.Expr)
    requires fs.Valid()
    modifies fs
    ensures fs.Valid() && fs.s == CompileStat(old(fs.s), Return(x))
    ensures Stepped(old(fs.code), old(fs.s), [], fs.code, fs.s, [])
  {
    hide S.Exp2AnyReg;
    var n := fs.nactvar;
    var e := new Exp();
    Expression(fs, x, e);
    ghost var c1, s1, own1 := fs.code, fs.s, Own(e.d);
    var first := fs.Exp2AnyReg(e);
    SteppedTrans(old(fs.code), old(fs.s), [], c1, s1, own1, fs.code, fs.s, []);
    ghost var c2, s2 := fs.code, fs.s;
    var _ := fs.Code(RETURN(first, true), RETURN(first, true));
    Leave(fs, n);
    SteppedTrans(old(fs.code), old(fs.s), [], c2, s2, [], fs.code, fs.s, []);
  }

  /** The condition of an `if`; its false exits are returned. */
  method Condition(fs: FuncState, cond: S.Expr) returns (jf: int, ghost F: seq<nat>)
    requires fs.Valid()
    modifies fs
    ensures fs.Valid() && Threads(fs.code, jf, F) && AllOpen(fs.s, F) && Apart(F, fs.s.jpc)
    ensures fs.s == OpenIf(old(fs.s), cond).s && F == OpenIf(old(fs.s), cond).e.f
    ensures Stepped(old(fs.code), old(fs.s), [], fs.code, fs.s, F)
  {
    hide S.GoIfTrue;
    var v := new Exp();
    Expression(fs, cond, v);
    ghost var c1, s1, own1 := fs.code, fs.s, Own(v.d);
    fs.GoIfTrue(v);
    SteppedTrans(old(fs.code), old(fs.s), [], c1, s1, own1, fs.code, fs.s, Exits(v.d));
    return v.f, v.d.f;
  }

  method Statement(fs: FuncState, st: Stat)
    requires fs.Valid()
    modifies fs
    ensures fs.Valid() && fs.s == CompileStat(old(fs.s), st)
    ensures Stepped(old(fs.code), old(fs.s), [], fs.code, fs.s, [])
    decreases st, 2
  {
    match st {
      case Local(x) => LocalStat(fs, x);
      case Assign(reg, x) => Assignment(fs, reg, x);
      case Return(x) => ReturnStat(fs, x);
      case IfThen(cond, body) => IfThenStat(fs, cond, body);
      case IfElse(cond, body, alt) => IfElseStat(fs, cond, body, alt);
    }
  }

  /** The body of an `if`, while the false exits of its condition wait. */
  method Branch(fs: FuncState, body: Block, n: nat, list: int, ghost L: seq<nat>)
    requires fs.Valid() && Threads(fs.code, list, L) && AllOpen(fs.s, L) && Apart(L, fs.s.jpc)
    modifies fs
    ensures fs.Valid() && Threads(fs.code, list, L) && AllOpen(fs.s, L) && Apart(L, fs.s.jpc)
    ensures fs.s == LuaStatements.Leave(CompileBlock(old(fs.s), body), n)
    ensures Stepped(old(fs.code), old(fs.s), L, fs.code, fs.s, L)
    decreases body, 2
  {
    StatementList(fs, body);
    Leave(fs, n);
    ThreadsKept(old(fs.code), old(fs.s), [], fs.code, fs.s, [], list, L);
    SteppedMore(old(fs.code), old(fs.s), [], fs.code, fs.s, [], L);
    assert [] + L == L;
  }

  /** The condition and the body it guards; the false exits are returned. */
  method ThenPart(fs: FuncState, cond: S.Expr, body: Block) returns (jf: int, ghost F: seq<nat>)
    requires fs.Valid()
    modifies fs
    ensures fs.Valid() && Threads(fs.code, jf, F) && AllOpen(fs.s, F) && Apart(F, fs.s.jpc)
    ensures fs.s == Guarded(old(fs.s), cond, body) && F == OpenIf(old(fs.s), cond).e.f
    ensures Stepped(old(fs.code), old(fs.s), [], fs.code, fs.s, F)
    decreases body, 3
  {
    var n := fs.nactvar;
    jf, F := Condition(fs, cond);
    ghost var c1, s1 := fs.code, fs.s;
    Branch(fs, body, n, jf, F);
    SteppedTrans(old(fs.code), old(fs.s), [], c1, s1, F, fs.code, fs.s, F);
  }

  function Guarded(s: S.Gen, cond: S.Expr, body: Block): S.Gen {
    LuaStatements.Leave(CompileBlock(OpenIf(s, cond).s, body), s.nactvar)
  }

  method IfThenStat(fs: FuncState, cond: S.Expr, body: Block)
    requires fs.Valid()
    modifies fs
    ensures fs.Valid() && fs.s == CompileStat(old(fs.s), IfThen(cond, body))
    ensures Stepped(old(fs.code), old(fs.s), [], fs.code, fs.s, [])
    decreases IfThen(cond, body), 1
  {
    var jf, F := ThenPart(fs, cond, body);
    ghost var b := fs.s;
    EndIf(fs, jf, F, old(fs.code), old(fs.s));
    EndIf(fs, NO_JUMP, [], old(fs.code), old(fs.s));
    IfThenSteps(old(fs.s), cond, body, b, F);
  }

  lemma IfThenSteps(s: S.Gen, cond: S.Expr, body: Block, b: S.Gen, F: seq<nat>)
    requires b == Guarded(s, cond, body) && F == OpenIf(s, cond).e.f
    ensures CompileStat(s, IfThen(cond, body)) == S.PatchToHere(S.PatchToHere(b, F), [])
  {
  }

  /** A list leads to the current position of a statement begun in state s0. */
  method EndIf(fs: FuncState, list: int, ghost L: seq<nat>, ghost c0: seq<Instr<int>>, ghost s0: S.Gen)
    requires fs.Valid() && Threads(fs.code, list, L) && AllOpen(fs.s, L) && Apart(L, fs.s.jpc)
    requires Stepped(c0, s0, [], fs.code, fs.s, L)
    modifies fs
    ensures fs.Valid() && fs.s == S.PatchToHere(old(fs.s), L) && Stepped(c0, s0, [], fs.code, fs.s, [])
  {
    fs.PatchToHere(list, L);
    SteppedTrans(c0, s0, [], old(fs.code), old(fs.s), L, fs.code, fs.s, []);
  }

  /** The jump over the `else` part; the false exits of the condition lead behind it. */
  method Escape(fs: FuncState, jf: int, ghost F: seq<nat>) returns (j: int, ghost J: seq<nat>)
    requires fs.Valid() && Threads(fs.code, jf, F) && AllOpen(fs.s, F) && Apart(F, fs.s.jpc)
    modifies fs
    ensures fs.Valid() && Threads(fs.code, j, J) && AllOpen(fs.s, J) && Apart(J, fs.s.jpc)
    ensures J == S.EmitJumpList(old(fs.s)) && fs.s == S.PatchToHere(S.EmitJump(old(fs.s)), F)
    ensures Stepped(old(fs.code), old(fs.s), F, fs.code, fs.s, J)
  {
    J := S.EmitJumpList(fs.s);
    j := fs.Jump();
    ghost var c1, s1 := fs.code, fs.s;
    ThreadsKept(old(fs.code), old(fs.s), [], c1, s1, J, jf, F);
    SteppedMore(old(fs.code), old(fs.s), [], c1, s1, J, F);
    fs.PatchToHere(jf, F);
    ThreadsKept(c1, s1, F, fs.code, fs.s, [], j, J);
    SteppedMore(c1, s1, F, fs.code, fs.s, [], J);
  }

  /** The `else` part; the jumps over it are returned. */
  method ElsePart(fs: FuncState, alt: Block, n: nat, jf: int, ghost F: seq<nat>)
    returns (escape: int, ghost J: seq<nat>)
    requires fs.Valid() && Threads(fs.code, jf, F) && AllOpen(fs.s, F) && Apart(F, fs.s.jpc)
    modifies fs
    ensures fs.Valid() && Threads(fs.code, escape, J) && AllOpen(fs.s, J) && Apart(J, fs.s.jpc)
    ensures J == S.EmitJumpList(old(fs.s)) && fs.s == Alternative(old(fs.s), alt, n, F)
    ensures Stepped(old(fs.code), old(fs.s), F, fs.code, fs.s, J)
    decreases alt, 3
  {
    escape, J := Escape(fs, jf, F);
    ghost var c1, s1 := fs.code, fs.s;
    Branch(fs, alt, n, escape, J);
    SteppedTrans(old(fs.code), old(fs.s), F, c1, s1, J, fs.code, fs.s, J);
  }

  function Alternative(b: S.Gen, alt: Block, n: nat, F: seq<nat>): S.Gen {
    LuaStatements.Leave(CompileBlock(S.PatchToHere(S.EmitJump(b), F), alt), n)
  }

  method IfElseStat(fs: FuncState, cond: S.Expr, body: Block, alt: Block)
    requires fs.Valid()
    modifies fs
    ensures fs.Valid() && fs.s == CompileStat(old(fs.s), IfElse(cond, body, alt))
    ensures Stepped(old(fs.code), old(fs.s), [], fs.code, fs.s, [])
    decreases IfElse(cond, body, alt), 1
  {
    var n := fs.nactvar;
    var jf, F := ThenPart(fs, cond, body);
    ghost var c1, b := fs.code, fs.s;
    var escape, J := ElsePart(fs, alt, n, jf, F);
    SteppedTrans(old(fs.code), old(fs.s), [], c1, b, F, fs.code, fs.s, J);
    EndIf(fs, escape, J, old(fs.code), old(fs.s));
    IfElseSteps(old(fs.s), cond, body, alt, b, F);
  }

  lemma IfElseSteps(s: S.Gen, cond: S.Expr, body: Block, alt: Block, b: S.Gen, F: seq<nat>)
    requires b == Guarded(s, cond, body) && F == OpenIf(s, cond).e.f
    ensures CompileStat(s, IfElse(cond, body, alt)) ==
      S.PatchToHere(Alternative(b, alt, s.nactvar, F), S.EmitJumpList(b))
  {
    var g := OpenIf(s, cond);
    IfElseUnfold(s, cond, body, alt, g, LuaStatements.Leave(CompileBlock(g.s, body), s.nactvar));
  }

  lemma IfElseUnfold(s: S.Gen, cond: S.Expr, body: Block, alt: Block, g: S.GE, b: S.Gen)
    requires g == OpenIf(s, cond) && b == LuaStatements.Leave(CompileBlock(g.s, body), s.nactvar)
    ensures CompileStat(s, IfElse(cond, body, alt)) ==
      S.PatchToHere(LuaStatements.Leave(CompileBlock(S.PatchToHere(S.EmitJump(b), g.e.f), alt), s.nactvar),
        S.EmitJumpList(b))
  {
  }

  method StatementList(fs: FuncState, b: Block)
    requires fs.Valid()
    modifies fs
    ensures fs.Valid() && fs.s == CompileBlock(old(fs.s), b)
    ensures Stepped(old(fs.code), old(fs.s), [], fs.code, fs.s, [])
    decreases b, 1
  {
    var rest := b;
    while rest.Seq?
      invariant fs.Valid() && CompileBlock(fs.s, rest) == CompileBlock(old(fs.s), b)
      invariant Stepped(old(fs.code), old(fs.s), [], fs.code, fs.s, [])
      invariant rest == b || rest < b
      decreases rest
    {
      ghost var c1, s1 := fs.code, fs.s;
      Statement(fs, rest.first);
      SteppedTrans(old(fs.code), old(fs.s), [], c1, s1, [], fs.code, fs.s, []);
      rest := rest.rest;
    }
  }

  /** Compiles a function of `n` parameters. Its bytecode, run by the interpreter loop from
      the first instruction with any upvalues and registers, ends as the statements do. */
  method Function(n: nat, m: Machine, b: Block) returns (code: seq<Instr<int>>, k: seq<Value>)
    requires FoldsSoundly(m) && WfBlock(b, n)
    ensures forall up, R :: EndsAs(Runtime(m, k, up), code, R, StatementsCorrect.Expected(RunBlock(m, up, b, n, R)))
  {
    var fs := new FuncState(n, m);
    StatementList(fs, b);
    var _ := fs.Code(RETURN(0, false), RETURN(0, false));
    code, k := fs.code, fs.k;
    forall up, R ensures EndsAs(Runtime(m, k, up), code, R, StatementsCorrect.Expected(RunBlock(m, up, b, n, R))) {
      var rounds := StatementsCorrect.FunctionCorrect(n, b, Runtime(m, k, up), R, code);
    }
  }

  /** Finitely many rounds of the interpreter loop end with `r`. */
  ghost predicate EndsAs(rt: Runtime, code: seq<Instr<int>>, R: Regs, r: Config) {
    exists rounds: nat :: Run(rt, code, Running(0, R), rounds) == r
  }
}
