/** The code generator as functions from one generator state to the next, on symbolic
    code. Jump lists are sequences of jump positions; the imperative generator threads
    the same lists through the jumps themselves. */
module CodeSpec {
  import opened Common
  import opened LuaValues
  import opened LuaVm
  import opened SymbolicCode

  /** Expressions built from everything but calls, tables, functions and varargs. */
  datatype BinOp = Arith(aop: ArithOp) | Concat | Compare(cop: CmpOp, flip: bool) | And | Or

  datatype Expr =
    | ENil
    | ETrue
    | EFalse
    | ENumber(v: Value)
    | EString(s: string)
    | ELocal(reg: nat)
    | EUpvalue(up: nat)
    | EParen(x: Expr)
    | ENot(x: Expr)
    | EUnary(uop: UnaryOp, x: Expr)
    | EBinary(op: BinOp, l: Expr, r: Expr)

  /** Largest constant index an operand can name. */
  const MAXINDEXRK: nat := 255

  /** Where the value of an expression is, or how to get it. */
  datatype Kind =
    | VNil
    | VTrue
    | VFalse
    | VK(k: nat)
    | VNumber(v: Value)
    | VNonReloc(r: nat)
    | VLocal(r: nat)
    | VUpval(u: nat)
    | VJmp(pc: nat)
    | VReloc(pc: nat)

  /** An expression: its kind and the jumps that leave it when it is true or false. */
  datatype ExpDesc = ExpDesc(k: Kind, t: seq<nat>, f: seq<nat>)

  datatype Gen = Gen(
    code: seq<Sym>,
    jpc: seq<nat>,
    lasttarget: nat,
    freereg: nat,
    nactvar: nat,
    maxstack: nat,
    k: seq<Value>,
    cache: map<Value, nat>,
    m: Machine)

  datatype GE = GE(s: Gen, e: ExpDesc)
  datatype GL = GL(s: Gen, e: ExpDesc, l: seq<nat>)
  datatype GO = GO(s: Gen, e: ExpDesc, o: RK)

  function Plain(k: Kind): ExpDesc {
    ExpDesc(k, [], [])
  }

  predicate HasJumps(e: ExpDesc) {
    e.t != [] || e.f != []
  }

  // ----- jump lists -----

  /** The jump at j is controlled by a TESTSET. */
  predicate HasTestSet(C: seq<Sym>, j: nat) {
    1 <= j <= |C| && C[j - 1].TESTSET?
  }

  /** A TESTSET once its register is known; without one, only the test remains. */
  function TestReg(i: Sym, reg: int): Sym
    requires i.TESTSET?
  {
    if reg != NO_REG && reg != i.b then i.(into := reg) else TEST(i.b, i.cond)
  }

  function PatchAt(C: seq<Sym>, L: seq<nat>, vtarget: nat, reg: int, dtarget: nat, i: nat): Sym
    requires i < |C|
  {
    if C[i].JMP? && i in L then JMP(To(if HasTestSet(C, i) then vtarget else dtarget))
    else if C[i].TESTSET? && i + 1 in L then TestReg(C[i], reg)
    else C[i]
  }

  /** Closes every jump of L: those carrying a value go to vtarget, the others to dtarget. */
  function PatchList(C: seq<Sym>, L: seq<nat>, vtarget: nat, reg: int, dtarget: nat): seq<Sym> {
    seq(|C|, i requires 0 <= i < |C| => PatchAt(C, L, vtarget, reg, dtarget, i))
  }

  function RemoveAt(C: seq<Sym>, L: seq<nat>, i: nat): Sym
    requires i < |C|
  {
    if C[i].TESTSET? && i + 1 in L then TestReg(C[i], NO_REG) else C[i]
  }

  /** Makes the jumps of L stop carrying values. */
  function RemoveValues(C: seq<Sym>, L: seq<nat>): seq<Sym> {
    seq(|C|, i requires 0 <= i < |C| => RemoveAt(C, L, i))
  }

  /** Some jump of L does not carry a value. */
  predicate NeedValue(C: seq<Sym>, L: seq<nat>) {
    exists j :: j in L && !HasTestSet(C, j)
  }

  // ----- emitting instructions -----

  /** The code with the jumps to the current position closed. */
  function Close(s: Gen): seq<Sym> {
    PatchList(s.code, s.jpc, |s.code|, NO_REG, |s.code|)
  }

  function Code(s: Gen, i: Sym): Gen {
    s.(code := Close(s) + [i], jpc := [])
  }

  function GetLabel(s: Gen): Gen {
    s.(lasttarget := |s.code|)
  }

  function PatchToHere(s: Gen, L: seq<nat>): Gen {
    GetLabel(s).(jpc := s.jpc + L)
  }

  /** A jump, on whose list the jumps to the current position are put on hold. */
  function EmitJump(s: Gen): Gen {
    s.(code := s.code + [JMP(Open)], jpc := [])
  }

  function EmitJumpList(s: Gen): seq<nat> {
    [|s.code|] + s.jpc
  }

  /** A test followed by the jump it controls. */
  function CondJump(s: Gen, test: Sym): Gen {
    EmitJump(Code(s, test))
  }

  function CondJumpPc(s: Gen): nat {
    |s.code| + 1
  }

  /** LOADNIL, joined with a previous LOADNIL when no jump can reach this point. */
  function LoadNil(s: Gen, from: nat, n: nat): Gen
    requires n > 0
  {
    var l := from + n - 1;
    if |s.code| > s.lasttarget && s.code[|s.code| - 1].LOADNIL? then
      var prev := s.code[|s.code| - 1];
      var pl := prev.a + prev.n;
      if (prev.a <= from <= pl + 1) || (from <= prev.a <= l + 1) then
        var from' := if prev.a < from then prev.a else from;
        var l' := if pl > l then pl else l;
        s.(code := s.code[|s.code| - 1 := LOADNIL(from', l' - from')])
      else Code(s, LOADNIL(from, n - 1))
    else Code(s, LOADNIL(from, n - 1))
  }

  // ----- registers and constants -----

  function Reserve(s: Gen, n: nat): Gen {
    s.(freereg := s.freereg + n, maxstack := if s.freereg + n > s.maxstack then s.freereg + n else s.maxstack)
  }

  function FreeReg(s: Gen, r: nat): Gen {
    if r >= s.nactvar && s.freereg > 0 then s.(freereg := s.freereg - 1) else s
  }

  function FreeExp(s: Gen, e: ExpDesc): Gen {
    if e.k.VNonReloc? then FreeReg(s, e.k.r) else s
  }

  function KIndex(s: Gen, v: Value): nat {
    if v in s.cache && s.cache[v] < |s.k| && s.k[s.cache[v]] == v then s.cache[v] else |s.k|
  }

  /** Puts a constant in the pool, reusing the index the scanner's table remembers. */
  function AddK(s: Gen, v: Value): Gen {
    if v in s.cache && s.cache[v] < |s.k| && s.k[s.cache[v]] == v then s
    else s.(k := s.k + [v], cache := s.cache[v := |s.k|])
  }

  // ----- putting an expression somewhere -----

  function DischargeVars(s: Gen, e: ExpDesc): GE {
    match e.k
    case VLocal(r) => GE(s, e.(k := VNonReloc(r)))
    case VUpval(u) => GE(Code(s, GETUPVAL(0, u)), e.(k := VReloc(|s.code|)))
    case _ => GE(s, e)
  }

  function SetA<J>(i: Instr<J>, reg: nat): Instr<J> {
    if Relocatable(i) then i.(a := reg) else i
  }

  function Relocate(s: Gen, pc: nat, reg: nat): Gen {
    if pc < |s.code| then s.(code := s.code[pc := SetA(s.code[pc], reg)]) else s
  }

  /** The state in which the (discharged) value of `e` is in `reg`. */
  function LoadInto(s: Gen, k: Kind, reg: nat): Gen {
    match k
    case VNil => LoadNil(s, reg, 1)
    case VTrue => Code(s, LOADBOOL(reg, true, false))
    case VFalse => Code(s, LOADBOOL(reg, false, false))
    case VK(i) => Code(s, LOADK(reg, i))
    case VNumber(v) => Code(AddK(s, v), LOADK(reg, KIndex(s, v)))
    case VReloc(pc) => Relocate(s, pc, reg)
    case VNonReloc(r) => if reg != r then Code(s, MOVE(reg, r)) else s
    case _ => s
  }

  function Discharge2Reg(s: Gen, e: ExpDesc, reg: nat): GE {
    var d := DischargeVars(s, e);
    if d.e.k.VJmp? then d
    else GE(LoadInto(d.s, d.e.k, reg), d.e.(k := VNonReloc(reg)))
  }

  function Discharge2AnyReg(s: Gen, e: ExpDesc): GE {
    if e.k.VNonReloc? then GE(s, e) else Discharge2Reg(Reserve(s, 1), e, s.freereg)
  }

  /** Emits LOADBOOL false and LOADBOOL true for the jumps that carry no value. */
  function LoadBools(s: Gen, reg: nat): Gen {
    Code(GetLabel(Code(GetLabel(s), LOADBOOL(reg, false, true))), LOADBOOL(reg, true, false))
  }

  /** Closes both exit lists of an expression, leaving its value in `reg`. */
  function CloseLists(s: Gen, isJump: bool, t: seq<nat>, f: seq<nat>, reg: nat): Gen {
    if NeedValue(s.code, t) || NeedValue(s.code, f) then
      var s1 := if isJump then s else EmitJump(s);
      var fj := if isJump then [] else EmitJumpList(s);
      var pf := |s1.code|;
      var s2 := GetLabel(PatchToHere(LoadBools(s1, reg), fj));
      var final := |s2.code|;
      s2.(code := PatchList(PatchList(s2.code, f, final, reg, pf), t, final, reg, pf + 1))
    else
      var s2 := GetLabel(s);
      var final := |s2.code|;
      s2.(code := PatchList(PatchList(s2.code, f, final, reg, final), t, final, reg, final))
  }

  function Exp2Reg(s: Gen, e: ExpDesc, reg: nat): GE {
    var d := Discharge2Reg(s, e, reg);
    var t := if d.e.k.VJmp? then d.e.t + [d.e.k.pc] else d.e.t;
    var s' := if t != [] || d.e.f != [] then CloseLists(d.s, d.e.k.VJmp?, t, d.e.f, reg) else d.s;
    GE(s', Plain(VNonReloc(reg)))
  }

  function Exp2NextReg(s: Gen, e: ExpDesc): GE {
    var d := DischargeVars(s, e);
    var s1 := Reserve(FreeExp(d.s, d.e), 1);
    Exp2Reg(s1, d.e, s1.freereg - 1)
  }

  function Exp2AnyReg(s: Gen, e: ExpDesc): GE {
    var d := DischargeVars(s, e);
    if d.e.k.VNonReloc? && !HasJumps(d.e) then d
    else if d.e.k.VNonReloc? && d.e.k.r >= d.s.nactvar then Exp2Reg(d.s, d.e, d.e.k.r)
    else Exp2NextReg(d.s, d.e)
  }

  function Exp2Val(s: Gen, e: ExpDesc): GE {
    if HasJumps(e) then Exp2AnyReg(s, e) else DischargeVars(s, e)
  }

  function InReg(x: GE): GO {
    GO(x.s, x.e, Reg(if x.e.k.VNonReloc? then x.e.k.r else 0))
  }

  function AsK(s: Gen, e: ExpDesc, v: Value): GO {
    GO(AddK(s, v), e.(k := VK(KIndex(s, v))), Const(KIndex(s, v)))
  }

  /** An operand for a discharged expression without jumps: a constant if its index fits. */
  function ToRK(s: Gen, e: ExpDesc): GO {
    match e.k
    case VTrue => if |s.k| <= MAXINDEXRK then AsK(s, e, Boolean(true)) else InReg(Exp2AnyReg(s, e))
    case VFalse => if |s.k| <= MAXINDEXRK then AsK(s, e, Boolean(false)) else InReg(Exp2AnyReg(s, e))
    case VNil => if |s.k| <= MAXINDEXRK then AsK(s, e, Nil) else InReg(Exp2AnyReg(s, e))
    case VNumber(v) =>
      var r := AsK(s, e, v);
      if r.o.k <= MAXINDEXRK then r else InReg(Exp2AnyReg(r.s, r.e))
    case VK(i) => if i <= MAXINDEXRK then GO(s, e, Const(i)) else InReg(Exp2AnyReg(s, e))
    case _ => InReg(Exp2AnyReg(s, e))
  }

  /** A register or a constant operand holding the value of `e`. */
  function Exp2RK(s: Gen, e: ExpDesc): GO {
    var x := Exp2Val(s, e);
    ToRK(x.s, x.e)
  }

  // ----- conditions -----

  function Negate(i: Sym): Sym {
    if i.CMP? then i.(want := !i.want) else i
  }

  /** Inverts the comparison that controls the jump at `pc`. */
  function InvertJump(s: Gen, pc: nat): Gen {
    if 1 <= pc <= |s.code| then s.(code := s.code[pc - 1 := Negate(s.code[pc - 1])]) else s
  }

  predicate EndsInNot(s: Gen, k: Kind) {
    k.VReloc? && k.pc < |s.code| && s.code[k.pc].NOT?
  }

  /** Emits a jump taken when the truth of `e` is `cond`; a NOT just emitted is dropped. */
  function JumpOnCond(s: Gen, e: ExpDesc, cond: bool): GL {
    if EndsInNot(s, e.k) then
      var s1 := s.(code := s.code[..|s.code| - 1]);
      GL(CondJump(s1, TEST(s.code[e.k.pc].b, !cond)), e, [CondJumpPc(s1)])
    else
      var d := Discharge2AnyReg(s, e);
      var s1 := FreeExp(d.s, d.e);
      var r := if d.e.k.VNonReloc? then d.e.k.r else 0;
      GL(CondJump(s1, TESTSET(NO_REG, r, cond)), d.e, [CondJumpPc(s1)])
  }

  function GoIfTrueJump(s: Gen, e: ExpDesc): GL {
    match e.k
    case VJmp(pc) => GL(InvertJump(s, pc), e, [pc])
    case VK(_) => GL(s, e, [])
    case VNumber(_) => GL(s, e, [])
    case VTrue => GL(s, e, [])
    case _ => JumpOnCond(s, e, false)
  }

  /** Falls through when `e` is true; its false exits stay open. */
  function GoIfTrue(s: Gen, e: ExpDesc): GE {
    var d := DischargeVars(s, e);
    var j := GoIfTrueJump(d.s, d.e);
    GE(PatchToHere(j.s, j.e.t), j.e.(f := j.e.f + j.l, t := []))
  }

  function GoIfFalseJump(s: Gen, e: ExpDesc): GL {
    match e.k
    case VJmp(pc) => GL(s, e, [pc])
    case VNil => GL(s, e, [])
    case VFalse => GL(s, e, [])
    case _ => JumpOnCond(s, e, true)
  }

  function GoIfFalse(s: Gen, e: ExpDesc): GE {
    var d := DischargeVars(s, e);
    var j := GoIfFalseJump(d.s, d.e);
    GE(PatchToHere(j.s, j.e.f), j.e.(t := j.e.t + j.l, f := []))
  }

  // ----- operators -----

  function NotValue(s: Gen, e: ExpDesc): GE {
    match e.k
    case VNil => GE(s, e.(k := VTrue))
    case VFalse => GE(s, e.(k := VTrue))
    case VK(_) => GE(s, e.(k := VFalse))
    case VNumber(_) => GE(s, e.(k := VFalse))
    case VTrue => GE(s, e.(k := VFalse))
    case VJmp(pc) => GE(InvertJump(s, pc), e)
    case _ =>
      var d := Discharge2AnyReg(s, e);
      var s1 := FreeExp(d.s, d.e);
      var r := if d.e.k.VNonReloc? then d.e.k.r else 0;
      GE(Code(s1, NOT(0, r)), d.e.(k := VReloc(|s1.code|)))
  }

  function CodeNot(s: Gen, e: ExpDesc): GE {
    var d := DischargeVars(s, e);
    var n := NotValue(d.s, d.e);
    var t, f := n.e.f, n.e.t;
    GE(n.s.(code := RemoveValues(RemoveValues(n.s.code, f), t)), n.e.(t := t, f := f))
  }

  predicate IsNumeral(e: ExpDesc) {
    !HasJumps(e) && e.k.VNumber?
  }

  function CodeUnary(s: Gen, op: UnaryOp, e: ExpDesc): GE {
    if op != Len && IsNumeral(e) && s.m.foldUnary(op, e.k.v).Some? then
      GE(s, e.(k := VNumber(s.m.foldUnary(op, e.k.v).value)))
    else
      var x := InReg(Exp2AnyReg(s, e));
      var s1 := FreeExp(x.s, x.e);
      GE(Code(s1, UNARY(op, 0, x.o.r)), x.e.(k := VReloc(|s1.code|)))
  }

  /** Operand encoding: constants sort after registers. */
  function Encoded(o: RK): nat {
    match o
    case Reg(r) => r
    case Const(k) => MAXINDEXRK + 1 + k
  }

  /** Frees two operand registers, the higher one first. */
  function FreeBoth(s: Gen, e1: ExpDesc, o1: RK, e2: ExpDesc, o2: RK): Gen {
    if Encoded(o1) > Encoded(o2) then FreeExp(FreeExp(s, e1), e2) else FreeExp(FreeExp(s, e2), e1)
  }

  function CodeArith(s: Gen, op: ArithOp, e1: ExpDesc, e2: ExpDesc): GE {
    if IsNumeral(e1) && IsNumeral(e2) && s.m.foldArith(op, e1.k.v, e2.k.v).Some? then
      GE(s, e1.(k := VNumber(s.m.foldArith(op, e1.k.v, e2.k.v).value)))
    else
      var x2 := Exp2RK(s, e2);
      var x1 := Exp2RK(x2.s, e1);
      var s1 := FreeBoth(x1.s, x1.e, x1.o, x2.e, x2.o);
      GE(Code(s1, ARITH(op, 0, x1.o, x2.o)), x1.e.(k := VReloc(|s1.code|)))
  }

  /** A concatenation whose right operand is the concatenation just emitted. */
  predicate JoinsConcat(s: Gen, e2: ExpDesc) {
    e2.k.VReloc? && e2.k.pc < |s.code| && s.code[e2.k.pc].CONCAT?
  }

  function SetB<J>(i: Instr<J>, b: nat): Instr<J> {
    if i.CONCAT? then CONCAT(i.a, b, i.c) else i
  }

  function CodeConcat(s: Gen, e1: ExpDesc, e2: ExpDesc): GE {
    var x := Exp2Val(s, e2);
    ConcatWith(x.s, e1, x.e)
  }

  function ConcatWith(s: Gen, e1: ExpDesc, e2: ExpDesc): GE {
    var r1 := if e1.k.VNonReloc? then e1.k.r else 0;
    if JoinsConcat(s, e2) then
      var s1 := FreeExp(s, e1);
      GE(s1.(code := s1.code[e2.k.pc := SetB(s1.code[e2.k.pc], r1)]), e1.(k := VReloc(e2.k.pc)))
    else
      var y := InReg(Exp2NextReg(s, e2));
      var s1 := FreeBoth(y.s, e1, Reg(r1), y.e, y.o);
      GE(Code(s1, CONCAT(0, r1, y.o.r)), e1.(k := VReloc(|s1.code|)))
  }

  /** A comparison; `a > b` and `a >= b` compare the other way around. */
  function CodeComp(s: Gen, op: CmpOp, cond: bool, e1: ExpDesc, e2: ExpDesc): GE {
    var x1 := Exp2RK(s, e1);
    var x2 := Exp2RK(x1.s, e2);
    var s1 := FreeExp(FreeExp(x2.s, x2.e), x1.e);
    var test := if !cond && op != Eq then CMP(op, true, x2.o, x1.o) else CMP(op, cond, x1.o, x2.o);
    GE(CondJump(s1, test), x1.e.(k := VJmp(CondJumpPc(s1))))
  }

  function Infix(op: BinOp, s: Gen, e: ExpDesc): GE {
    match op
    case And => GoIfTrue(s, e)
    case Or => GoIfFalse(s, e)
    case Concat => Exp2NextReg(s, e)
    case Arith(_) => if IsNumeral(e) then GE(s, e) else var x := Exp2RK(s, e); GE(x.s, x.e)
    case Compare(_, _) => var x := Exp2RK(s, e); GE(x.s, x.e)
  }

  function Posfix(op: BinOp, s: Gen, e1: ExpDesc, e2: ExpDesc): GE {
    match op
    case And => var d := DischargeVars(s, e2); GE(d.s, d.e.(f := d.e.f + e1.f))
    case Or => var d := DischargeVars(s, e2); GE(d.s, d.e.(t := d.e.t + e1.t))
    case Concat => CodeConcat(s, e1, e2)
    case Arith(aop) => CodeArith(s, aop, e1, e2)
    case Compare(cop, flip) => CodeComp(s, cop, !flip, e1, e2)
  }

  /** The generator calls the parser makes while it reads an expression. */
  function Compile(s: Gen, x: Expr): GE
    decreases x
  {
    match x
    case ENil => GE(s, Plain(VNil))
    case ETrue => GE(s, Plain(VTrue))
    case EFalse => GE(s, Plain(VFalse))
    case ENumber(v) => GE(s, Plain(VNumber(v)))
    case EString(str) => GE(AddK(s, Str(str)), Plain(VK(KIndex(s, Str(str)))))
    case ELocal(r) => GE(s, Plain(VLocal(r)))
    case EUpvalue(u) => GE(s, Plain(VUpval(u)))
    case EParen(y) => var c := Compile(s, y); DischargeVars(c.s, c.e)
    case ENot(y) => var c := Compile(s, y); CodeNot(c.s, c.e)
    case EUnary(op, y) => var c := Compile(s, y); CodeUnary(c.s, op, c.e)
    case EBinary(op, l, r) =>
      var c1 := Compile(s, l);
      var i := Infix(op, c1.s, c1.e);
      var c2 := Compile(i.s, r);
      Posfix(op, c2.s, i.e, c2.e)
  }

  // ----- what an expression means -----

  function EvalCompare(m: Machine, op: CmpOp, flip: bool, x: Value, y: Value): Res {
    var r := if !flip || op == Eq then m.cmp(op, x, y) else m.cmp(op, y, x);
    match r
    case None => Error
    case Some(b) => Ok(Boolean(if flip && op == Eq then !b else b))
  }

  function EvalStrict(m: Machine, op: BinOp, x: Value, y: Value): Res {
    match op
    case Arith(aop) => ToRes(m.arith(aop, x, y))
    case Concat => ToRes(m.concat(x, y))
    case Compare(cop, flip) => EvalCompare(m, cop, flip, x, y)
    case _ => Error
  }

  /** Direct evaluation with short-circuit `and` and `or`. */
  function Eval(m: Machine, up: seq<Value>, x: Expr, R: Regs): Res {
    match x
    case ENil => Ok(Nil)
    case ETrue => Ok(Boolean(true))
    case EFalse => Ok(Boolean(false))
    case ENumber(v) => Ok(v)
    case EString(s) => Ok(Str(s))
    case ELocal(r) => Ok(Get(R, r))
    case EUpvalue(u) => if u < |up| then Ok(up[u]) else Error
    case EParen(y) => Eval(m, up, y, R)
    case ENot(y) =>
      (match Eval(m, up, y, R)
       case Error => Error
       case Ok(v) => Ok(Boolean(IsFalse(v))))
    case EUnary(op, y) =>
      (match Eval(m, up, y, R)
       case Error => Error
       case Ok(v) => ToRes(m.unary(op, v)))
    case EBinary(op, l, r) =>
      match Eval(m, up, l, R)
      case Error => Error
      case Ok(v) =>
        if op.And? && IsFalse(v) then Ok(v)
        else if op.Or? && !IsFalse(v) then Ok(v)
        else
          match Eval(m, up, r, R)
          case Error => Error
          case Ok(w) => if op.And? || op.Or? then Ok(w) else EvalStrict(m, op, v, w)
  }

  /** Every local is active, and numerals are numbers. */
  predicate WellFormed(x: Expr, nactvar: nat) {
    match x
    case ENumber(v) => IsNumber(v)
    case ELocal(r) => r < nactvar
    case EParen(y) => WellFormed(y, nactvar)
    case ENot(y) => WellFormed(y, nactvar)
    case EUnary(_, y) => WellFormed(y, nactvar)
    case EBinary(_, l, r) => WellFormed(l, nactvar) && WellFormed(r, nactvar)
    case _ => true
  }
}
