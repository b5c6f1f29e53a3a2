/** Lua values and the operations the virtual machine applies to them.
    Arithmetic, comparison and concatenation of two values are parameters: every theorem
    holds for all of them, so number formats and coercions play no part. */
module LuaValues {
  import opened Common

  datatype Value =
    | Nil
    | Boolean(b: bool)
    | Integer(i: int)
    | Float(bits: nat)
    | Str(s: string)
    | Object(id: nat)

  /** The outcome of an evaluation: a value, or a raised Lua error. */
  datatype Res = Ok(v: Value) | Error

  datatype ArithOp = Add | Sub | Mul | Mod | Pow | Div | IDiv | BAnd | BOr | BXor | Shl | Shr
  datatype UnaryOp = Unm | BNot | Len
  datatype CmpOp = Eq | Lt | Le

  /** What the machine computes on values. `None` stands for a raised error.
      `foldArith` and `foldUnary` are the compile-time evaluators, which may decline. */
  datatype Machine = Machine(
    arith: (ArithOp, Value, Value) -> Option<Value>,
    unary: (UnaryOp, Value) -> Option<Value>,
    cmp: (CmpOp, Value, Value) -> Option<bool>,
    concat: (Value, Value) -> Option<Value>,
    foldArith: (ArithOp, Value, Value) -> Option<Value>,
    foldUnary: (UnaryOp, Value) -> Option<Value>)

  /** Only nil and false count as false in a condition. */
  predicate IsFalse(v: Value) {
    v == Nil || v == Boolean(false)
  }

  predicate IsNumber(v: Value) {
    v.Integer? || v.Float?
  }

  function ToRes(o: Option<Value>): Res {
    match o
    case None => Error
    case Some(v) => Ok(v)
  }

  /** Compile-time evaluation agrees with the machine and yields numerals. */
  ghost predicate FoldsSoundly(m: Machine) {
    && (forall op, x, y :: m.foldArith(op, x, y).Some? ==>
          m.arith(op, x, y) == m.foldArith(op, x, y) && IsNumber(m.foldArith(op, x, y).value))
    && (forall op, x :: m.foldUnary(op, x).Some? ==>
          m.unary(op, x) == m.foldUnary(op, x) && IsNumber(m.foldUnary(op, x).value))
  }
}
