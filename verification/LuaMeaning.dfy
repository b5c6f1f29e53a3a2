/** What compiled functions do, in terms of the values they are given: which values count as
    false, what the logical operators and the comparisons give, and where locals live. */
module LuaMeaning {
  import opened Common
  import opened LuaValues
  import opened LuaVm
  import opened CodeSpec
  import opened LuaStatements
  import StatementsCorrect
  import opened LuaCompiler

  // ----- which values are false -----

  /** The value of a register is there, and is neither nil nor false. */
  predicate IsThere(R: Regs, r: nat) {
    r in R && !R[r].Nil? && (R[r].Boolean? ==> R[r].b)
  }

  /** if p then return true else return false end */
  function TestBody(p: Expr): Block {
    Seq(IfElse(p, Seq(Return(ETrue), Done), Seq(Return(EFalse), Done)), Done)
  }

  /** The code of a function that tests its parameter returns true exactly if the parameter
      is neither nil nor false: tables, functions, numbers and strings all count as true. */
  method CompileTest(m: Machine) returns (code: seq<Instr<int>>, k: seq<Value>)
    requires FoldsSoundly(m)
    ensures forall up, R :: EndsAs(Runtime(m, k, up), code, R, Returned(Some(Boolean(IsThere(R, 0)))))
  {
    code, k := Function(1, m, TestBody(ELocal(0)));
    forall up, R ensures EndsAs(Runtime(m, k, up), code, R, Returned(Some(Boolean(IsThere(R, 0))))) {
      TestMeans(m, up, R);
      assert EndsAs(Runtime(m, k, up), code, R,
        StatementsCorrect.Expected(RunBlock(m, up, TestBody(ELocal(0)), 1, R)));
    }
  }

  lemma TestMeans(m: Machine, up: seq<Value>, R: Regs)
    ensures RunBlock(m, up, TestBody(ELocal(0)), 1, R) == Back(Boolean(IsThere(R, 0)))
  {
    var yes, no := Seq(Return(ETrue), Done), Seq(Return(EFalse), Done);
    assert RunBlock(m, up, yes, 1, R) == Back(Boolean(true));
    assert RunBlock(m, up, no, 1, R) == Back(Boolean(false));
    assert RunStat(m, up, IfElse(ELocal(0), yes, no), 1, R) == Back(Boolean(IsThere(R, 0)));
  }

  // ----- logical operators -----

  /** What the logical operators give, for each kind of value of the first operand. */
  lemma LogicMeans(m: Machine, up: seq<Value>, x: Expr, y: Expr, R: Regs, v: Value)
    requires Eval(m, up, x, R) == Ok(v)
    ensures v.Nil? ==>
      && Eval(m, up, ENot(x), R) == Ok(Boolean(true))
      && Eval(m, up, EBinary(And, x, y), R) == Ok(Nil)
      && Eval(m, up, EBinary(Or, x, y), R) == Eval(m, up, y, R)
    ensures v.Boolean? && !v.b ==>
      && Eval(m, up, ENot(x), R) == Ok(Boolean(true))
      && Eval(m, up, EBinary(And, x, y), R) == Ok(Boolean(false))
      && Eval(m, up, EBinary(Or, x, y), R) == Eval(m, up, y, R)
    ensures (v.Boolean? && v.b) || v.Integer? || v.Float? || v.Str? || v.Object? ==>
      && Eval(m, up, ENot(x), R) == Ok(Boolean(false))
      && Eval(m, up, EBinary(And, x, y), R) == Eval(m, up, y, R)
      && Eval(m, up, EBinary(Or, x, y), R) == Ok(v)
  {
    LogicCases(m, up, x, y, R);
  }

  lemma LogicCases(m: Machine, up: seq<Value>, x: Expr, y: Expr, R: Regs)
    requires Eval(m, up, x, R).Ok?
    ensures var v := Eval(m, up, x, R).v; var false_ := v.Nil? || (v.Boolean? && !v.b);
      && Eval(m, up, ENot(x), R) == Ok(Boolean(false_))
      && Eval(m, up, EBinary(And, x, y), R) == (if false_ then Ok(v) else Eval(m, up, y, R))
      && Eval(m, up, EBinary(Or, x, y), R) == (if false_ then Eval(m, up, y, R) else Ok(v))
  {
  }

  /** The value of a register; nil if it is absent. */
  function ValueIn(R: Regs, r: nat): Value {
    if r in R then R[r] else Nil
  }

  /** return not a, return a and b, return a or b: what the code gives for any two arguments. */
  method CompileLogic(m: Machine) returns (codes: seq<seq<Instr<int>>>, ks: seq<seq<Value>>)
    requires FoldsSoundly(m)
    ensures |codes| == |ks| == 3
    ensures forall up, R :: EndsAs(Runtime(m, ks[0], up), codes[0], R, Returned(Some(Boolean(!IsThere(R, 0)))))
    ensures forall up, R :: EndsAs(Runtime(m, ks[1], up), codes[1], R,
      Returned(Some(ValueIn(R, if IsThere(R, 0) then 1 else 0))))
    ensures forall up, R :: EndsAs(Runtime(m, ks[2], up), codes[2], R,
      Returned(Some(ValueIn(R, if IsThere(R, 0) then 0 else 1))))
  {
    var c0, k0 := CompileReturn(m, 2, ENot(ELocal(0)));
    var c1, k1 := CompileReturn(m, 2, EBinary(And, ELocal(0), ELocal(1)));
    var c2, k2 := CompileReturn(m, 2, EBinary(Or, ELocal(0), ELocal(1)));
    codes, ks := [c0, c1, c2], [k0, k1, k2];
    forall up, R
      ensures EndsAs(Runtime(m, k0, up), c0, R, Returned(Some(Boolean(!IsThere(R, 0)))))
      ensures EndsAs(Runtime(m, k1, up), c1, R, Returned(Some(ValueIn(R, if IsThere(R, 0) then 1 else 0))))
      ensures EndsAs(Runtime(m, k2, up), c2, R, Returned(Some(ValueIn(R, if IsThere(R, 0) then 0 else 1))))
    {
      LogicCases(m, up, ELocal(0), ELocal(1), R);
      assert Eval(m, up, ELocal(0), R) == Ok(ValueIn(R, 0)) && Eval(m, up, ELocal(1), R) == Ok(ValueIn(R, 1));
      hide Eval;
      assert EndsAs(Runtime(m, k0, up), c0, R, Given(Eval(m, up, ENot(ELocal(0)), R)));
      assert EndsAs(Runtime(m, k1, up), c1, R, Given(Eval(m, up, EBinary(And, ELocal(0), ELocal(1)), R)));
      assert EndsAs(Runtime(m, k2, up), c2, R, Given(Eval(m, up, EBinary(Or, ELocal(0), ELocal(1)), R)));
    }
  }

  /** How a function that returns this result ends. */
  function Given(r: Res): Config {
    match r case Ok(v) => Returned(Some(v)) case Error => Raised
  }

  /** The code of a function that returns one expression gives the value of the expression. */
  method CompileReturn(m: Machine, n: nat, x: Expr) returns (code: seq<Instr<int>>, k: seq<Value>)
    requires FoldsSoundly(m) && WellFormed(x, n)
    ensures forall up, R :: EndsAs(Runtime(m, k, up), code, R, Given(Eval(m, up, x, R)))
  {
    code, k := Function(n, m, Seq(Return(x), Done));
    forall up, R ensures EndsAs(Runtime(m, k, up), code, R, Given(Eval(m, up, x, R))) {
      ReturnMeans(m, up, x, n, R);
      assert EndsAs(Runtime(m, k, up), code, R,
        StatementsCorrect.Expected(RunBlock(m, up, Seq(Return(x), Done), n, R)));
    }
  }

  lemma ReturnMeans(m: Machine, up: seq<Value>, x: Expr, n: nat, R: Regs)
    ensures StatementsCorrect.Expected(RunBlock(m, up, Seq(Return(x), Done), n, R)) == Given(Eval(m, up, x, R))
  {
  }

  // ----- other operators -----

  function Tried(o: Option<Value>): Res {
    if o.Some? then Ok(o.value) else Error
  }

  function Holds(o: Option<bool>, want: bool): Res {
    if o.Some? then Ok(Boolean(o.value == want)) else Error
  }

  /** Constants, locals, upvalues and parentheses. */
  lemma LeavesMean(m: Machine, up: seq<Value>, x: Expr, v: Value, s: string, r: nat, R: Regs)
    ensures Eval(m, up, ENil, R) == Ok(Nil)
    ensures Eval(m, up, ETrue, R) == Ok(Boolean(true)) && Eval(m, up, EFalse, R) == Ok(Boolean(false))
    ensures Eval(m, up, ENumber(v), R) == Ok(v) && Eval(m, up, EString(s), R) == Ok(Str(s))
    ensures Eval(m, up, ELocal(r), R) == Ok(ValueIn(R, r))
    ensures r < |up| ==> Eval(m, up, EUpvalue(r), R) == Ok(up[r])
    ensures Eval(m, up, EParen(x), R) == Eval(m, up, x, R)
  {
  }

  /** The other operators take both values, in order; `a > b` is `b < a`, and `~=` is not `==`. */
  lemma OperatorsMean(m: Machine, up: seq<Value>, x: Expr, y: Expr, R: Regs, v: Value, w: Value, op: ArithOp,
        u: UnaryOp)
    requires Eval(m, up, x, R) == Ok(v) && Eval(m, up, y, R) == Ok(w)
    ensures Eval(m, up, EUnary(u, x), R) == Tried(m.unary(u, v))
    ensures Eval(m, up, EBinary(Arith(op), x, y), R) == Tried(m.arith(op, v, w))
    ensures Eval(m, up, EBinary(Concat, x, y), R) == Tried(m.concat(v, w))
    ensures Eval(m, up, EBinary(Compare(Eq, false), x, y), R) == Holds(m.cmp(Eq, v, w), true)
    ensures Eval(m, up, EBinary(Compare(Eq, true), x, y), R) == Holds(m.cmp(Eq, v, w), false)
    ensures Eval(m, up, EBinary(Compare(Lt, false), x, y), R) == Holds(m.cmp(Lt, v, w), true)
    ensures Eval(m, up, EBinary(Compare(Lt, true), x, y), R) == Holds(m.cmp(Lt, w, v), true)
    ensures Eval(m, up, EBinary(Compare(Le, false), x, y), R) == Holds(m.cmp(Le, v, w), true)
    ensures Eval(m, up, EBinary(Compare(Le, true), x, y), R) == Holds(m.cmp(Le, w, v), true)
  {
    hide IsFalse;
    StrictMeans(m, up, x, y, R, v, w, Arith(op));
    StrictMeans(m, up, x, y, R, v, w, Concat);
    StrictMeans(m, up, x, y, R, v, w, Compare(Eq, false));
    StrictMeans(m, up, x, y, R, v, w, Compare(Eq, true));
    StrictMeans(m, up, x, y, R, v, w, Compare(Lt, false));
    StrictMeans(m, up, x, y, R, v, w, Compare(Lt, true));
    StrictMeans(m, up, x, y, R, v, w, Compare(Le, false));
    StrictMeans(m, up, x, y, R, v, w, Compare(Le, true));
  }

  lemma StrictMeans(m: Machine, up: seq<Value>, x: Expr, y: Expr, R: Regs, v: Value, w: Value, op: BinOp)
    requires Eval(m, up, x, R) == Ok(v) && Eval(m, up, y, R) == Ok(w) && !op.And? && !op.Or?
    ensures Eval(m, up, EBinary(op, x, y), R) == EvalStrict(m, op, v, w)
  {
    hide EvalStrict, IsFalse;
  }

  /** An error in an operand that is looked at is an error. */
  lemma ErrorsMean(m: Machine, up: seq<Value>, x: Expr, y: Expr, R: Regs, op: BinOp, u: UnaryOp)
    ensures Eval(m, up, x, R).Error? ==>
      && Eval(m, up, ENot(x), R).Error? && Eval(m, up, EUnary(u, x), R).Error?
      && Eval(m, up, EBinary(op, x, y), R).Error?
    ensures Eval(m, up, y, R).Error? && !op.And? && !op.Or? ==> Eval(m, up, EBinary(op, x, y), R).Error?
  {
    hide EvalStrict, IsFalse;
  }

  // ----- locals -----

  function Then(m: Machine, up: seq<Value>, w: Flow, rest: Block, n: nat): Flow {
    if w.Onward? then RunBlock(m, up, rest, n, w.R) else w
  }

  /** A new local is the register after those in use, an assignment changes one register, and
      nothing is run after a return or an error. */
  lemma LocalsMean(m: Machine, up: seq<Value>, x: Expr, reg: nat, rest: Block, n: nat, R: Regs)
    ensures match Eval(m, up, x, R)
      case Ok(v) =>
        && RunBlock(m, up, Seq(Local(x), rest), n, R) == RunBlock(m, up, rest, n + 1, R[n := v])
        && RunBlock(m, up, Seq(Assign(reg, x), rest), n, R) == RunBlock(m, up, rest, n, R[reg := v])
        && RunBlock(m, up, Seq(Return(x), rest), n, R) == Back(v)
      case Error =>
        && RunBlock(m, up, Seq(Local(x), rest), n, R) == Raise
        && RunBlock(m, up, Seq(Assign(reg, x), rest), n, R) == Raise
        && RunBlock(m, up, Seq(Return(x), rest), n, R) == Raise
    ensures RunBlock(m, up, Done, n, R) == Onward(R)
  {
    hide Eval;
    assert RunStat(m, up, Local(x), n, R) ==
      match Eval(m, up, x, R) case Ok(v) => Onward(R[n := v]) case Error => Raise;
    assert RunStat(m, up, Assign(reg, x), n, R) ==
      match Eval(m, up, x, R) case Ok(v) => Onward(R[reg := v]) case Error => Raise;
    assert RunStat(m, up, Return(x), n, R) == match Eval(m, up, x, R) case Ok(v) => Back(v) case Error => Raise;
  }

  /** The first block is run if the condition is neither nil nor false, and otherwise the second;
      then what follows, with the locals there were before. */
  lemma BranchesMean(m: Machine, up: seq<Value>, x: Expr, body: Block, alt: Block, rest: Block, n: nat, R: Regs)
    ensures match Eval(m, up, x, R)
      case Ok(v) =>
        var no := v.Nil? || (v.Boolean? && !v.b);
        && RunBlock(m, up, Seq(IfElse(x, body, alt), rest), n, R) ==
             Then(m, up, RunBlock(m, up, if no then alt else body, n, R), rest, n)
        && RunBlock(m, up, Seq(IfThen(x, body), rest), n, R) ==
             Then(m, up, if no then Onward(R) else RunBlock(m, up, body, n, R), rest, n)
      case Error =>
        && RunBlock(m, up, Seq(IfElse(x, body, alt), rest), n, R) == Raise
        && RunBlock(m, up, Seq(IfThen(x, body), rest), n, R) == Raise
  {
    hide Eval;
    if Eval(m, up, x, R).Ok? {
      var v := Eval(m, up, x, R).v;
      assert RunStat(m, up, IfElse(x, body, alt), n, R) ==
        if IsFalse(v) then RunBlock(m, up, alt, n, R) else RunBlock(m, up, body, n, R);
      assert RunStat(m, up, IfThen(x, body), n, R) == if IsFalse(v) then Onward(R) else RunBlock(m, up, body, n, R);
    } else {
      assert RunStat(m, up, IfElse(x, body, alt), n, R) == Raise;
      assert RunStat(m, up, IfThen(x, body), n, R) == Raise;
    }
  }
}
