/** The instructions expression code uses, and what each does to the registers.
    `J` is how a jump names its target: a relative offset in finished bytecode,
    a symbolic destination while code is being generated. */
module LuaVm {
  import opened Common
  import opened LuaValues

  /** An operand that is a register or a constant index. */
  datatype RK = Reg(r: nat) | Const(k: nat)

  /** A-register of a TESTSET whose target is not known yet. */
  const NO_REG: int := -1

  datatype Instr<J> =
    | MOVE(a: nat, b: nat)
    | LOADK(a: nat, k: nat)
    | LOADBOOL(a: nat, v: bool, skip: bool)
    | LOADNIL(a: nat, n: nat)
    | GETUPVAL(a: nat, up: nat)
    | NOT(a: nat, b: nat)
    | UNARY(uop: UnaryOp, a: nat, b: nat)
    | ARITH(aop: ArithOp, a: nat, x: RK, y: RK)
    | CONCAT(a: nat, b: nat, c: nat)
    | JMP(target: J)
    | CMP(cop: CmpOp, want: bool, x: RK, y: RK)
    | TEST(b: nat, cond: bool)
    | TESTSET(into: int, b: nat, cond: bool)
    | RETURN(b: nat, one: bool)

  /** Registers; an absent one holds nil. */
  type Regs = map<nat, Value>

  function Get(R: Regs, r: nat): Value {
    if r in R then R[r] else Nil
  }

  function SetNils(R: Regs, from: nat, n: nat): Regs {
    R + map i: nat {:trigger i in R} | from <= i <= from + n :: Nil
  }

  /** What stays fixed during a run: the machine, the constants and the upvalues. */
  datatype Runtime = Runtime(m: Machine, k: seq<Value>, up: seq<Value>)

  function RKVal(rt: Runtime, R: Regs, x: RK): Value {
    match x
    case Reg(r) => Get(R, r)
    case Const(k) => if k < |rt.k| then rt.k[k] else Nil
  }

  /** Right-associative concatenation of registers b..c. */
  function ConcatRange(rt: Runtime, R: Regs, b: nat, c: nat): Res
    decreases c - b
  {
    if b >= c then Ok(Get(R, b))
    else
      match ConcatRange(rt, R, b + 1, c)
      case Error => Error
      case Ok(v) => ToRes(rt.m.concat(Get(R, b), v))
  }

  /** Instructions that compute a value whose target register is chosen later. */
  predicate Relocatable<J>(i: Instr<J>) {
    i.GETUPVAL? || i.NOT? || i.UNARY? || i.ARITH? || i.CONCAT?
  }

  /** The value a relocatable instruction computes. */
  function ResultOf<J>(rt: Runtime, i: Instr<J>, R: Regs): Res
    requires Relocatable(i)
  {
    match i
    case GETUPVAL(_, u) => if u < |rt.up| then Ok(rt.up[u]) else Error
    case NOT(_, b) => Ok(Boolean(IsFalse(Get(R, b))))
    case UNARY(op, _, b) => ToRes(rt.m.unary(op, Get(R, b)))
    case ARITH(op, _, x, y) => ToRes(rt.m.arith(op, RKVal(rt, R, x), RKVal(rt, R, y)))
    case CONCAT(_, b, c) => ConcatRange(rt, R, b, c)
  }

  /** Instructions that only change registers. */
  predicate IsPlain<J>(i: Instr<J>) {
    i.MOVE? || i.LOADK? || i.LOADBOOL? || i.LOADNIL? || Relocatable(i)
  }

  /** The registers after a plain instruction; None when it raises an error.
      Concatenation leaves its result in its first operand as well. */
  function Effect<J>(rt: Runtime, i: Instr<J>, R: Regs): Option<Regs>
    requires IsPlain(i)
  {
    if i.MOVE? then Some(R[i.a := Get(R, i.b)])
    else if i.LOADK? then Some(R[i.a := RKVal(rt, R, Const(i.k))])
    else if i.LOADBOOL? then Some(R[i.a := Boolean(i.v)])
    else if i.LOADNIL? then Some(SetNils(R, i.a, i.n))
    else
      match ResultOf(rt, i, R)
      case Error => None
      case Ok(v) => Some(if i.CONCAT? then R[i.b := v][i.a := v] else R[i.a := v])
  }

  /** How far a plain instruction moves the program counter. */
  function Width<J>(i: Instr<J>): nat {
    if i.LOADBOOL? && i.skip then 2 else 1
  }

  /** Instructions that decide whether the jump after them is taken. */
  predicate IsTest<J>(i: Instr<J>) {
    i.CMP? || i.TEST? || i.TESTSET?
  }

  /** Whether a test takes the jump that follows it; None when it raises an error. */
  function Taken<J>(rt: Runtime, i: Instr<J>, R: Regs): Option<bool>
    requires IsTest(i)
  {
    if i.CMP? then
      match rt.m.cmp(i.cop, RKVal(rt, R, i.x), RKVal(rt, R, i.y))
      case None => None
      case Some(holds) => Some(holds == i.want)
    else Some(IsFalse(Get(R, i.b)) != i.cond)
  }

  /** The registers when the jump after a test is taken: TESTSET copies the tested value. */
  function OnTaken<J>(i: Instr<J>, R: Regs): Regs {
    if i.TESTSET? && i.into >= 0 then R[i.into := Get(R, i.b)] else R
  }

  /** The value a RETURN gives back, if any. */
  function Returns<J>(i: Instr<J>, R: Regs): Option<Value>
    requires i.RETURN?
  {
    if i.one then Some(Get(R, i.b)) else None
  }

  // ----- the interpreter loop over finished bytecode -----

  datatype Config = Running(pc: int, R: Regs) | Returned(v: Option<Value>) | Raised

  /** One round of the interpreter loop. A configuration outside the code stays put. */
  function Step(rt: Runtime, code: seq<Instr<int>>, c: Config): Config {
    if !c.Running? || !(0 <= c.pc < |code|) then c
    else
      var pc, R, i := c.pc, c.R, code[c.pc];
      if i.JMP? then Running(pc + 1 + i.target, R)
      else if i.RETURN? then Returned(Returns(i, R))
      else if IsTest(i) then
        match Taken(rt, i, R)
        case None => Raised
        case Some(taken) =>
          if !taken then Running(pc + 2, R)
          else if pc + 1 < |code| && code[pc + 1].JMP? then
            Running(pc + 2 + code[pc + 1].target, OnTaken(i, R))
          else Raised
      else
        match Effect(rt, i, R)
        case None => Raised
        case Some(R') => Running(pc + Width(i), R')
  }

  /** `n` rounds of the interpreter loop. */
  function Run(rt: Runtime, code: seq<Instr<int>>, c: Config, n: nat): Config
    decreases n
  {
    if n == 0 then c else Run(rt, code, Step(rt, code, c), n - 1)
  }
}
