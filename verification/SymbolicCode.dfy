/** Code whose jumps name absolute targets or are still open, and its execution.
    Expression code only jumps forward, so execution is a terminating function. */
module SymbolicCode {
  import opened Common
  import opened LuaValues
  import opened LuaVm

  datatype Dest = Open | To(pc: nat)
  type Sym = Instr<Dest>

  /** How a run ends: past the last instruction, at an open jump (with the value a
      TESTSET would have stored), at a RETURN, with a Lua error, or in malformed code. */
  datatype Out =
    | End(R: Regs)
    | Exit(jump: nat, R: Regs, val: Option<Value>)
    | Halt(v: Option<Value>)
    | Fail
    | Stuck

  function Exec(rt: Runtime, C: seq<Sym>, p: nat, R: Regs): Out
    decreases |C| - p, 1
  {
    if p == |C| then End(R)
    else if p > |C| then Stuck
    else
      var i := C[p];
      if i.JMP? then Jump(rt, C, p, R)
      else if i.RETURN? then Halt(Returns(i, R))
      else if IsTest(i) then
        if p + 1 >= |C| || !C[p + 1].JMP? then Stuck
        else
          match Taken(rt, i, R)
          case None => Fail
          case Some(taken) =>
            if !taken then Exec(rt, C, p + 2, R)
            else if C[p + 1].target.Open? then
              Exit(p + 1, R, if i.TESTSET? then Some(Get(R, i.b)) else None)
            else Jump(rt, C, p + 1, OnTaken(i, R))
      else if p + Width(i) > |C| then Stuck
      else
        match Effect(rt, i, R)
        case None => Fail
        case Some(R') => Exec(rt, C, p + Width(i), R')
  }

  /** Performs the jump instruction at `j`. */
  function Jump(rt: Runtime, C: seq<Sym>, j: nat, R: Regs): Out
    requires j < |C| && C[j].JMP?
    decreases |C| - j, 0
  {
    match C[j].target
    case Open => Exit(j, R, None)
    case To(n) => if j < n <= |C| then Exec(rt, C, n, R) else Stuck
  }

  /** An open jump can be closed, and the TESTSET before it given a register or
      demoted to TEST, without changing anything else. */
  ghost predicate Patched(C: seq<Sym>, D: seq<Sym>, i: nat)
    requires i < |C| <= |D|
  {
    || D[i] == C[i]
    || (C[i] == JMP(Open) && D[i].JMP? && D[i].target.To? && i < D[i].target.pc <= |D|)
    || (C[i].TESTSET? && i + 1 < |C| && C[i + 1] == JMP(Open) &&
        ((D[i].TESTSET? && D[i].b == C[i].b && D[i].cond == C[i].cond) || D[i] == TEST(C[i].b, C[i].cond)))
  }

  ghost predicate Extends(C: seq<Sym>, D: seq<Sym>) {
    |C| <= |D| && forall i: nat :: i < |C| ==> Patched(C, D, i)
  }

  /** Where a run of the original code continues in an extension of it. */
  function Resume(rt: Runtime, D: seq<Sym>, n: nat, o: Out): Out {
    match o
    case End(R) => Exec(rt, D, n, R)
    case Exit(j, R, val) =>
      if j < |D| && D[j].JMP? then
        var held := j >= 1 && D[j - 1].TESTSET? && val.Some?;
        if D[j].target.Open? then Exit(j, R, if held then val else None)
        else
          Jump(rt, D, j, if held && D[j - 1].into >= 0 then R[D[j - 1].into := val.value] else R)
      else Stuck
    case _ => o
  }

  /** Where an exit comes from. */
  lemma {:induction false} ExitFacts(rt: Runtime, C: seq<Sym>, p: nat, R: Regs)
    ensures var o := Exec(rt, C, p, R);
      o.Exit? ==> (p <= o.jump < |C| && C[o.jump] == JMP(Open) &&
                   (o.val.Some? ==>
                      o.jump >= 1 && C[o.jump - 1].TESTSET? && o.val.value == Get(o.R, C[o.jump - 1].b)))
    decreases |C| - p
  {
    if p < |C| {
      var i := C[p];
      if i.JMP? {
        if i.target.To? && p < i.target.pc <= |C| { ExitFacts(rt, C, i.target.pc, R); }
      } else if i.RETURN? {
      } else if IsTest(i) {
        if p + 1 < |C| && C[p + 1].JMP? {
          ExitFacts(rt, C, p + 2, R);
          if C[p + 1].target.To? && p + 1 < C[p + 1].target.pc <= |C| {
            ExitFacts(rt, C, C[p + 1].target.pc, OnTaken(i, R));
          }
        }
      } else if p + Width(i) <= |C| && Effect(rt, i, R).Some? {
        ExitFacts(rt, C, p + Width(i), Effect(rt, i, R).value);
      }
    }
  }

  /** Running an extension is running the original and continuing where it stopped. */
  lemma {:induction false} ExecExtends(rt: Runtime, C: seq<Sym>, D: seq<Sym>, p: nat, R: Regs)
    requires Extends(C, D) && p <= |C|
    ensures var o := Exec(rt, C, p, R);
      !o.Stuck? ==> Exec(rt, D, p, R) == Resume(rt, D, |C|, o)
    decreases |C| - p
  {
    if p < |C| {
      assert Patched(C, D, p);
      var i := C[p];
      if i.JMP? {
        if i.target.To? && p < i.target.pc <= |C| { ExecExtends(rt, C, D, i.target.pc, R); }
      } else if i.RETURN? {
      } else if IsTest(i) {
        if p + 1 < |C| && C[p + 1].JMP? {
          assert Patched(C, D, p + 1);
          ExecExtends(rt, C, D, p + 2, R);
          if C[p + 1].target.To? && p + 1 < C[p + 1].target.pc <= |C| {
            ExecExtends(rt, C, D, C[p + 1].target.pc, OnTaken(i, R));
          }
        }
      } else if p + Width(i) <= |C| && Effect(rt, i, R).Some? {
        ExecExtends(rt, C, D, p + Width(i), Effect(rt, i, R).value);
      }
    }
  }

  // ----- finished bytecode -----

  /** D is the bytecode of C: targets have become relative offsets. What an open jump
      holds is not fixed here. */
  ghost predicate Encodes(C: seq<Sym>, D: seq<Instr<int>>) {
    |C| == |D| && forall i: nat :: i < |C| ==> EncodedAs(i, C[i], D[i])
  }

  ghost predicate EncodedAs(i: nat, x: Sym, y: Instr<int>) {
    match x
    case JMP(d) => y.JMP? && (d.To? ==> y.target == d.pc - (i + 1))
    case MOVE(a, b) => y == MOVE(a, b)
    case LOADK(a, k) => y == LOADK(a, k)
    case LOADBOOL(a, v, skip) => y == LOADBOOL(a, v, skip)
    case LOADNIL(a, n) => y == LOADNIL(a, n)
    case GETUPVAL(a, u) => y == GETUPVAL(a, u)
    case NOT(a, b) => y == NOT(a, b)
    case UNARY(op, a, b) => y == UNARY(op, a, b)
    case ARITH(op, a, o1, o2) => y == ARITH(op, a, o1, o2)
    case CONCAT(a, b, c) => y == CONCAT(a, b, c)
    case CMP(op, w, o1, o2) => y == CMP(op, w, o1, o2)
    case TEST(b, c) => y == TEST(b, c)
    case TESTSET(t, b, c) => y == TESTSET(t, b, c)
    case RETURN(b, n) => y == RETURN(b, n)
  }

  lemma EncodedSame(rt: Runtime, i: nat, x: Sym, y: Instr<int>, R: Regs)
    requires EncodedAs(i, x, y)
    ensures x.JMP? == y.JMP? && x.RETURN? == y.RETURN? && IsTest(x) == IsTest(y) && IsPlain(x) == IsPlain(y)
    ensures x.RETURN? ==> Returns(x, R) == Returns(y, R)
    ensures IsTest(x) ==> Taken(rt, x, R) == Taken(rt, y, R) && OnTaken(x, R) == OnTaken(y, R)
    ensures IsPlain(x) ==> Effect(rt, x, R) == Effect(rt, y, R) && Width(x) == Width(y)
  {
  }

  /** How one round of symbolic execution continues. */
  datatype Move = Go(p: nat, R: Regs) | Stop(r: Config) | Lost

  function Next(rt: Runtime, C: seq<Sym>, p: nat, R: Regs): Move
    requires p < |C|
  {
    var i := C[p];
    if i.JMP? then Hop(C, p, R)
    else if i.RETURN? then Stop(Returned(Returns(i, R)))
    else if IsTest(i) then
      if p + 1 >= |C| || !C[p + 1].JMP? then Lost
      else if Taken(rt, i, R).None? then Stop(Raised)
      else if !Taken(rt, i, R).value then (if p + 2 <= |C| then Go(p + 2, R) else Lost)
      else Hop(C, p + 1, OnTaken(i, R))
    else if p + Width(i) > |C| then Lost
    else if Effect(rt, i, R).None? then Stop(Raised)
    else Go(p + Width(i), Effect(rt, i, R).value)
  }

  function Hop(C: seq<Sym>, j: nat, R: Regs): Move
    requires j < |C| && C[j].JMP?
  {
    match C[j].target
    case Open => Lost
    case To(n) => if j < n <= |C| then Go(n, R) else Lost
  }

  lemma ExecNext(rt: Runtime, C: seq<Sym>, p: nat, R: Regs)
    requires p < |C|
    ensures var o := Exec(rt, C, p, R);
      match Next(rt, C, p, R)
      case Go(q, R') => p < q <= |C| && o == Exec(rt, C, q, R')
      case Stop(r) => (o.Halt? && r == Returned(o.v)) || (o.Fail? && r == Raised)
      case Lost => o.Exit? || o.Stuck?
  {
  }

  lemma StepNext(rt: Runtime, C: seq<Sym>, D: seq<Instr<int>>, p: nat, R: Regs)
    requires Encodes(C, D) && p < |C|
    ensures match Next(rt, C, p, R)
      case Go(q, R') => Step(rt, D, Running(p, R)) == Running(q, R')
      case Stop(r) => Step(rt, D, Running(p, R)) == r
      case Lost => true
  {
    assert EncodedAs(p, C[p], D[p]);
    EncodedSame(rt, p, C[p], D[p], R);
    if p + 1 < |C| { assert EncodedAs(p + 1, C[p + 1], D[p + 1]); }
  }

  /** Where symbolic execution ends, the interpreter loop gets after finitely many rounds. */
  lemma {:induction false} RunRefines(rt: Runtime, C: seq<Sym>, D: seq<Instr<int>>, p: nat, R: Regs) returns (n: nat)
    requires Encodes(C, D) && p <= |C|
    ensures var o := Exec(rt, C, p, R); var r := Run(rt, D, Running(p, R), n);
      && (o.End? ==> r == Running(|C|, o.R))
      && (o.Halt? ==> r == Returned(o.v))
      && (o.Fail? ==> r == Raised)
    decreases |C| - p
  {
    n := 0;
    if p < |C| {
      ExecNext(rt, C, p, R);
      StepNext(rt, C, D, p, R);
      var next := Next(rt, C, p, R);
      if next.Go? { n := RunRefines(rt, C, D, next.p, next.R); }
      n := n + 1;
    }
  }
}
