/** Functions whose bodies declare, assign and return locals under conditions:
    how the parser drives the generator for them, and what they mean. */
module LuaStatements {
  import opened LuaValues
  import opened LuaVm
  import opened SymbolicCode
  import opened CodeSpec

  datatype Stat =
    | Local(x: Expr)
    | Assign(reg: nat, x: Expr)
    | Return(x: Expr)
    | IfThen(cond: Expr, body: Block)
    | IfElse(cond: Expr, body: Block, alt: Block)

  datatype Block = Done | Seq(first: Stat, rest: Block)

  // ----- generator calls -----

  /** A statement or block that ends releases its temporaries. */
  function Leave(s: Gen, nactvar: nat): Gen {
    s.(nactvar := nactvar, freereg := nactvar)
  }

  /** Stores an expression in a local variable. */
  function StoreLocal(s: Gen, reg: nat, e: ExpDesc): Gen {
    Exp2Reg(FreeExp(s, e), e, reg).s
  }

  function EmitReturn(s: Gen, e: ExpDesc): Gen {
    var x := InReg(Exp2AnyReg(s, e));
    Code(x.s, RETURN(x.o.r, true))
  }

  function CompileStat(s: Gen, st: Stat): Gen
    decreases st
  {
    match st
    case Local(x) =>
      var c := Compile(s, x);
      Leave(Exp2NextReg(c.s, c.e).s, s.nactvar + 1)
    case Assign(reg, x) =>
      var c := Compile(s, x);
      Leave(StoreLocal(c.s, reg, c.e), s.nactvar)
    case Return(x) =>
      var c := Compile(s, x);
      Leave(EmitReturn(c.s, c.e), s.nactvar)
    case IfThen(cond, body) =>
      var g := OpenIf(s, cond);
      var b := Leave(CompileBlock(g.s, body), s.nactvar);
      PatchToHere(PatchToHere(b, g.e.f), [])
    case IfElse(cond, body, alt) =>
      var g := OpenIf(s, cond);
      var b := Leave(CompileBlock(g.s, body), s.nactvar);
      var escape := EmitJumpList(b);
      var a := CompileBlock(PatchToHere(EmitJump(b), g.e.f), alt);
      PatchToHere(Leave(a, s.nactvar), escape)
  }

  /** The condition of an `if`; its false exits skip the block. */
  function OpenIf(s: Gen, cond: Expr): GE {
    var c := Compile(s, cond);
    GoIfTrue(c.s, c.e)
  }

  function CompileBlock(s: Gen, b: Block): Gen
    decreases b
  {
    match b
    case Done => s
    case Seq(first, rest) => CompileBlock(CompileStat(s, first), rest)
  }

  /** A function with `n` parameters: its block, then the final RETURN. */
  function Init(n: nat, m: Machine): Gen {
    Gen([], [], 0, n, n, if n > 2 then n else 2, [], map[], m)
  }

  function CompileFunction(n: nat, m: Machine, b: Block): Gen {
    Code(CompileBlock(Init(n, m), b), RETURN(0, false))
  }

  // ----- meaning -----

  /** How a block ends: at its end, at a `return`, or with a Lua error. */
  datatype Flow = Onward(R: Regs) | Back(v: Value) | Raise

  /** Executes a statement with n active locals, held in registers 0..n-1. */
  function RunStat(m: Machine, up: seq<Value>, st: Stat, n: nat, R: Regs): Flow
    decreases st
  {
    match st
    case Local(x) => (match Eval(m, up, x, R) case Error => Raise case Ok(v) => Onward(R[n := v]))
    case Assign(reg, x) => (match Eval(m, up, x, R) case Error => Raise case Ok(v) => Onward(R[reg := v]))
    case Return(x) => (match Eval(m, up, x, R) case Error => Raise case Ok(v) => Back(v))
    case IfThen(cond, body) =>
      (match Eval(m, up, cond, R)
       case Error => Raise
       case Ok(v) => if IsFalse(v) then Onward(R) else RunBlock(m, up, body, n, R))
    case IfElse(cond, body, alt) =>
      (match Eval(m, up, cond, R)
       case Error => Raise
       case Ok(v) => if IsFalse(v) then RunBlock(m, up, alt, n, R) else RunBlock(m, up, body, n, R))
  }

  function RunBlock(m: Machine, up: seq<Value>, b: Block, n: nat, R: Regs): Flow
    decreases b
  {
    match b
    case Done => Onward(R)
    case Seq(first, rest) =>
      var w := RunStat(m, up, first, n, R);
      if w.Onward? then RunBlock(m, up, rest, n + Locals(first), w.R) else w
  }

  function Locals(st: Stat): nat {
    if st.Local? then 1 else 0
  }

  /** Only active locals are used. */
  predicate WfStat(st: Stat, n: nat)
    decreases st
  {
    match st
    case Local(x) => WellFormed(x, n)
    case Assign(reg, x) => reg < n && WellFormed(x, n)
    case Return(x) => WellFormed(x, n)
    case IfThen(cond, body) => WellFormed(cond, n) && WfBlock(body, n)
    case IfElse(cond, body, alt) => WellFormed(cond, n) && WfBlock(body, n) && WfBlock(alt, n)
  }

  predicate WfBlock(b: Block, n: nat)
    decreases b
  {
    match b
    case Done => true
    case Seq(first, rest) => WfStat(first, n) && WfBlock(rest, n + Locals(first))
  }
}
