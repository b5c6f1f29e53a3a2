/** What holds between two generator calls, and what the code emitted so far does. */
module CodeInvariant {
  import opened Common
  import opened LuaValues
  import opened LuaVm
  import opened SymbolicCode
  import opened CodeSpec

  // ----- shape of the generated code -----

  ghost predicate OpenAt(C: seq<Sym>, j: nat) {
    j < |C| && C[j] == JMP(Open)
  }

  /** Every test is followed by its jump. */
  ghost predicate TestsPaired(C: seq<Sym>) {
    forall i: nat :: i < |C| && IsTest(C[i]) ==> i + 1 < |C| && C[i + 1].JMP?
  }

  /** Closed jumps and skips go forward, no further than `limit`. */
  ghost predicate TargetsWithin(C: seq<Sym>, limit: nat) {
    forall i: nat :: i < |C| ==>
      && (C[i].JMP? && C[i].target.To? ==> i < C[i].target.pc <= limit)
      && (C[i].LOADBOOL? && C[i].skip ==> i + 2 <= limit)
  }

  ghost predicate Wf(s: Gen) {
    && TestsPaired(s.code)
    && TargetsWithin(s.code, s.lasttarget)
    && s.lasttarget <= |s.code|
    && (forall j :: j in s.jpc ==> OpenAt(s.code, j))
    && (s.jpc != [] ==> s.lasttarget == |s.code|)
    && s.nactvar <= s.freereg <= s.maxstack
  }

  /** The exit lists of an expression whose code starts at `lo`. */
  ghost predicate ListOk(s: Gen, lo: nat, L: seq<nat>) {
    forall j :: j in L ==> lo < j && OpenAt(s.code, j) && IsTest(s.code[j - 1]) && j !in s.jpc
  }

  /** Jumps left open in s0 are left alone in s, unless they led to the end of s0. */
  ghost predicate Kept(s0: Gen, s: Gen) {
    forall j: nat :: OpenAt(s0.code, j) && j !in s0.jpc ==>
      OpenAt(s.code, j) && (j >= 1 && IsTest(s0.code[j - 1]) ==>
        IsTest(s.code[j - 1]) && s.code[j - 1].TESTSET? == s0.code[j - 1].TESTSET?)
  }

  /** What every generator step keeps. */
  ghost predicate Grows(s0: Gen, s: Gen) {
    && Wf(s) && |s0.code| <= |s.code| && s0.lasttarget <= s.lasttarget
    && s.nactvar == s0.nactvar && s0.maxstack <= s.maxstack && s0.k <= s.k && s.m == s0.m
    && Kept(s0, s)
    && (forall j :: j in s.jpc ==> j in s0.jpc || |s0.code| <= j)
  }

  ghost predicate KindOk(s: Gen, lo: nat, base: nat, e: ExpDesc) {
    match e.k
    case VReloc(pc) =>
      && lo <= pc == |s.code| - 1 && s.jpc == [] && s.lasttarget <= pc && Relocatable(s.code[pc])
      && (s.code[pc].CONCAT? ==> s.code[pc].b == base <= s.code[pc].c)
    case VJmp(pc) =>
      && lo < pc == |s.code| - 1 && s.jpc == [] && s.lasttarget < pc && s.code[pc] == JMP(Open)
      && s.code[pc - 1].CMP? && pc !in e.t && pc !in e.f
    case VK(k) => k < |s.k|
    case VNumber(v) => IsNumber(v)
    case VLocal(r) => r < s.nactvar
    case _ => true
  }

  /** Temporaries are used as a stack: at most one is held, just above `base`. */
  ghost predicate RegsOk(s: Gen, base: nat, e: ExpDesc) {
    if e.k.VNonReloc? && e.k.r >= s.nactvar then e.k.r == base && s.freereg == base + 1
    else s.freereg == base
  }

  ghost predicate Lists(s: Gen, lo: nat, e: ExpDesc) {
    ListOk(s, lo, e.t) && ListOk(s, lo, e.f) && forall j :: j in e.t ==> j !in e.f
  }

  /** `e` describes an expression compiled from state s0 on. */
  ghost predicate Shape(s0: Gen, base: nat, s: Gen, e: ExpDesc) {
    && Grows(s0, s) && s.nactvar <= base
    && Lists(s, |s0.code|, e) && KindOk(s, |s0.code|, base, e) && RegsOk(s, base, e)
  }

  // ----- what the code does -----

  /** A run: it enters the code at `p` with registers `R`. */
  datatype Entry = Entry(rt: Runtime, p: nat, R: Regs)

  function From(c: Entry, C: seq<Sym>): Out {
    Exec(c.rt, C, c.p, c.R)
  }

  /** Same registers below `base`, except perhaps register `x`. */
  ghost predicate Agree(R1: Regs, R2: Regs, base: nat, x: int) {
    forall r: nat :: r < base && r != x ==> Get(R1, r) == Get(R2, r)
  }

  /** The code without the pending last instruction of `e`. */
  function Body(s: Gen, e: ExpDesc): seq<Sym> {
    match e.k
    case VReloc(pc) => if pc <= |s.code| then s.code[..pc] else s.code
    case VJmp(pc) => if 1 <= pc <= |s.code| then s.code[..pc - 1] else s.code
    case _ => Close(s)
  }

  /** The value of `e` once its body has run. */
  function Denote(rt: Runtime, s: Gen, k: Kind, R: Regs): Res {
    match k
    case VNil => Ok(Nil)
    case VTrue => Ok(Boolean(true))
    case VFalse => Ok(Boolean(false))
    case VK(i) => Ok(RKVal(rt, R, Const(i)))
    case VNumber(v) => Ok(v)
    case VNonReloc(r) => Ok(Get(R, r))
    case VLocal(r) => Ok(Get(R, r))
    case VUpval(u) => if u < |rt.up| then Ok(rt.up[u]) else Error
    case VReloc(pc) => if pc < |s.code| && Relocatable(s.code[pc]) then ResultOf(rt, s.code[pc], R) else Error
    case VJmp(pc) =>
      if 1 <= pc <= |s.code| && IsTest(s.code[pc - 1]) then
        match Taken(rt, s.code[pc - 1], R)
        case None => Error
        case Some(b) => Ok(Boolean(b))
      else Error
  }

  /** Leaving through jump `j` means the value is `v`: true jumps are taken by true
      values, a jump without a value stands for the boolean itself. */
  ghost predicate ExitOk(C: seq<Sym>, e: ExpDesc, j: nat, val: Option<Value>, v: Value) {
    && (j in e.t || j in e.f)
    && (val.Some? <==> HasTestSet(C, j))
    && (j in e.t <==> !IsFalse(v))
    && (val.Some? ==> val.value == v)
    && (val.None? ==> v == Boolean(j in e.t))
  }

  /** The outcome `o` of running the body of `e`, when the code before it ended with
      registers R1 and the expression has value `v` there. */
  ghost predicate Post(c: Entry, base: nat, x: int, s: Gen, e: ExpDesc, R1: Regs, o: Out, v: Res) {
    match o
    case End(R2) => Agree(R1, R2, base, x) && Denote(c.rt, s, e.k, R2) == v
    case Exit(j, R2, val) => Agree(R1, R2, base, -1) && v.Ok? && ExitOk(s.code, e, j, val, v.v)
    case Fail => v.Error?
    case _ => false
  }

  /** Runs that ended before the expression now compute it; other runs are unaffected. */
  ghost predicate Holds(c: Entry, o0: Out, base: nat, x: int, s: Gen, e: ExpDesc, v: Res) {
    match o0
    case End(R1) => Post(c, base, x, s, e, R1, From(c, Body(s, e)), v)
    case Stuck => true
    case _ => From(c, Body(s, e)) == o0
  }

  // ----- elementary facts -----

  lemma CloseNone(s: Gen)
    requires s.jpc == []
    ensures Close(s) == s.code
  {
  }

  lemma CloseAt(s: Gen, i: nat)
    requires i < |s.code|
    ensures |Close(s)| == |s.code|
    ensures Close(s)[i] == PatchAt(s.code, s.jpc, |s.code|, NO_REG, |s.code|, i)
  {
  }

  lemma CloseCode(s: Gen, i: Sym)
    ensures Close(Code(s, i)) == Close(s) + [i]
  {
    CloseNone(Code(s, i));
  }

  /** Emitting an instruction extends the code. */
  lemma EmitExtends(s: Gen, i: Sym)
    ensures Extends(Close(s), Close(Code(s, i)))
  {
    CloseCode(s, i);
  }

  lemma CodeGrows(s: Gen, i: Sym)
    requires Wf(s) && !IsTest(i) && !i.JMP? && !(i.LOADBOOL? && i.skip)
    ensures Grows(s, Code(s, i))
  {
    forall j: nat | j < |s.code| ensures Close(s)[j] == PatchAt(s.code, s.jpc, |s.code|, NO_REG, |s.code|, j) {
      CloseAt(s, j);
    }
  }

  lemma GrowsRefl(s: Gen)
    requires Wf(s)
    ensures Grows(s, s)
  {
  }

  lemma GrowsTrans(s0: Gen, s: Gen, s': Gen)
    requires Grows(s0, s) && Grows(s, s')
    ensures Grows(s0, s')
  {
  }

  lemma ListsGrow(s: Gen, s': Gen, lo: nat, e: ExpDesc)
    requires Lists(s, lo, e) && Grows(s, s')
    ensures Lists(s', lo, e)
  {
  }
}
