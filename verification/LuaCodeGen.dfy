/** The code generator as the compiler runs it: it appends to and patches one code array,
    threads its jump lists through that array, and updates expression descriptors in
    place. Each method does exactly what the function of the same name in CodeSpec says. */
module LuaCodeGen {
  import opened Common
  import opened LuaValues
  import opened LuaVm
  import opened SymbolicCode
  import opened CodeInvariant
  import opened JumpThreads
  import opened CodeGenSteps
  import S = CodeSpec

  /** An expression descriptor; `t` and `f` head its lists of true and false exits. */
  class Exp {
    var k: S.Kind
    var t: int
    var f: int
    ghost var d: S.ExpDesc

    constructor ()
      ensures k == d.k == S.VNil
    {
      k, t, f := S.VNil, NO_JUMP, NO_JUMP;
      d := S.Plain(S.VNil);
    }

    /** A fresh expression without exits. */
    method Init(k: S.Kind)
      modifies this
      ensures this.k == k && t == f == NO_JUMP && d == S.Plain(k)
    {
      this.k, t, f := k, NO_JUMP, NO_JUMP;
      d := S.Plain(k);
    }
  }

  class FuncState {
    var code: seq<Instr<int>>
    var jpc: int
    var lasttarget: nat
    var freereg: nat
    var nactvar: nat
    var maxstack: nat
    var k: seq<Value>
    var cache: map<Value, nat>
    const m: Machine
    /** The same state with symbolic jumps. */
    ghost var s: S.Gen

    ghost predicate Valid()
      reads this
    {
      && Encodes(s.code, code) && Threads(code, jpc, s.jpc) && AllOpen(s, s.jpc)
      && Scalars()
    }

    ghost predicate Scalars()
      reads this
    {
      && lasttarget == s.lasttarget && freereg == s.freereg && nactvar == s.nactvar && maxstack == s.maxstack
      && k == s.k && cache == s.cache && m == s.m
    }

    /** The exits of `e` are threaded, open and on no other list. */
    ghost predicate Holding(e: Exp)
      reads this, e
    {
      e.k == e.d.k && Held(code, s, e.t, e.f, e.d)
    }

    /** Also, the instruction that is to produce its value is in place. */
    ghost predicate Ready(e: Exp)
      reads this, e
    {
      Holding(e) && Pending(code, s, e.d)
    }

    /** An expression that owns no jump and no pending instruction. */
    ghost predicate Settled(e: Exp)
      reads e
    {
      && e.k == e.d.k && e.t == e.f == NO_JUMP && !S.HasJumps(e.d)
      && !e.k.VJmp? && !e.k.VReloc?
    }

    /** An expression that is already an operand: a register or a constant in range. */
    ghost predicate Operand(e: Exp)
      reads e
    {
      Settled(e) && (e.k.VNonReloc? || (e.k.VK? && e.k.k <= S.MAXINDEXRK))
    }

    /** A function with `n` parameters, before its body. */
    constructor (n: nat, m: Machine)
      ensures Valid() && code == [] && s == S.Gen([], [], 0, n, n, if n > 2 then n else 2, [], map[], m)
    {
      code, jpc, lasttarget, freereg, nactvar := [], NO_JUMP, 0, n, n;
      maxstack := if n > 2 then n else 2;
      k, cache, this.m := [], map[], m;
      s := S.Gen([], [], 0, n, n, if n > 2 then n else 2, [], map[], m);
    }

    // ----- jump lists -----

    method GetJump(pc: nat) returns (next: int)
      requires pc < |code| && code[pc].JMP?
      ensures next == if code[pc].target == NO_JUMP then NO_JUMP else pc + 1 + code[pc].target
    {
      var offset := code[pc].target;
      if offset == NO_JUMP {
        next := NO_JUMP;
      } else {
        next := pc + 1 + offset;
      }
    }

    method FixJump(pc: nat, dest: int)
      requires pc < |code| && code[pc].JMP? && dest != NO_JUMP
      modifies `code
      ensures code == old(code)[pc := JMP(dest - (pc + 1))]
    {
      var offset := dest - (pc + 1);
      code := code[pc := JMP(offset)];
    }

    /** The instruction that decides whether the jump at `pc` is taken. */
    method GetJumpControl(pc: nat) returns (i: nat)
      requires pc < |code|
      ensures i == if pc >= 1 && IsTest(code[pc - 1]) then pc - 1 else pc
    {
      if pc >= 1 && IsTest(code[pc - 1]) {
        i := pc - 1;
      } else {
        i := pc;
      }
    }

    /** Some jump of the list does not produce a value. */
    method NeedValue(list: int, ghost L: seq<nat>) returns (need: bool)
      requires Encodes(s.code, code) && Threads(code, list, L)
      ensures need == S.NeedValue(s.code, L)
    {
      var cur := list;
      ghost var i := 0;
      while cur != NO_JUMP
        invariant i <= |L| && cur == if i < |L| then L[i] else NO_JUMP
        invariant forall j: nat :: j < i ==> S.HasTestSet(s.code, L[j])
        decreases |L| - i
      {
        At(code, L, 0, i);
        var c := GetJumpControl(cur);
        assert EncodedAs(c, s.code[c], code[c]);
        if !code[c].TESTSET? {
          assert L[i] in L && !S.HasTestSet(s.code, L[i]);
          return true;
        }
        cur := GetJump(cur);
        i := i + 1;
      }
      return false;
    }

    method PatchTestReg(node: nat, reg: int) returns (done: bool)
      requires node < |code| && code[node].JMP?
      modifies `code
      ensures done == (node >= 1 && old(code)[node - 1].TESTSET?)
      ensures |code| == |old(code)|
      ensures !done ==> code == old(code)
      ensures done ==> var i := old(code)[node - 1];
                       code == old(code)[node - 1 := if reg != NO_REG && reg != i.b then TESTSET(reg, i.b, i.cond)
                         else TEST(i.b, i.cond)]
    {
      var c := GetJumpControl(node);
      var i := code[c];
      if !i.TESTSET? {
        return false;
      }
      if reg != NO_REG && reg != i.b {
        code := code[c := TESTSET(reg, i.b, i.cond)];
      } else {
        code := code[c := TEST(i.b, i.cond)];
      }
      return true;
    }

    /** Makes the jumps of a list stop producing values. */
    method RemoveValues(list: int, ghost C: seq<Sym>, ghost L: seq<nat>)
      requires Encodes(C, code) && Threads(code, list, L)
      modifies `code
      ensures Encodes(S.RemoveValues(C, L), code)
      ensures forall j: nat :: j < |code| && !old(code)[j].TESTSET? ==> code[j] == old(code)[j]
    {
      var cur := list;
      ghost var i := 0;
      RemoveNothing(C);
      while cur != NO_JUMP
        invariant i <= |L| && cur == if i < |L| then L[i] else NO_JUMP
        invariant Encodes(S.RemoveValues(C, L[..i]), code) && Chained(code, L, 0)
        invariant forall j: nat :: j < |code| && !old(code)[j].TESTSET? ==> code[j] == old(code)[j]
        decreases |L| - i
      {
        At(code, L, 0, i);
        ghost var before := code;
        var _ := PatchTestReg(cur, NO_REG);
        RemoveOne(C, L, i, before, code);
        ChainedKept(before, code, L, 0);
        At(code, L, 0, i);
        cur := GetJump(cur);
        i := i + 1;
      }
      assert L[..i] == L;
    }

    /** Closes the i-th jump of a list. */
    method PatchJump(node: nat, vtarget: nat, reg: int, dtarget: int, ghost C: seq<Sym>, ghost L: seq<nat>,
          ghost i: nat, ghost dt: nat)
      requires i < |L| && node == L[i] && NoRepeats(L) && forall j :: j in L ==> OpenAt(C, j)
      requires Encodes(S.PatchList(C, L[..i], vtarget, reg, dt), code) && Chained(code, L, i)
      requires if dtarget == NO_JUMP then !S.NeedValue(C, L) else dtarget == dt
      modifies `code
      ensures Encodes(S.PatchList(C, L[..i + 1], vtarget, reg, dt), code) && Chained(code, L, i + 1)
      ensures forall j: nat :: j < |code| && old(code)[j].JMP? && j != node ==> code[j] == old(code)[j]
    {
      At(code, L, i, i);
      PatchCarries(C, L, i, vtarget, reg, dt, code);
      assert L[i] in L;
      var carries := PatchTestReg(node, reg);
      ghost var middle := code;
      if carries {
        FixJump(node, vtarget);
      } else {
        FixJump(node, dtarget);
      }
      PatchOne(C, L, i, vtarget, reg, dt, old(code), middle, code);
      assert L[i] in L[..i + 1];
      ChainedFrom(old(code), L, i);
      ChainedKept(old(code), code, L, i + 1);
    }

    /** Closes every jump of a list: those that produce a value go to `vtarget` and leave it
        in `reg`, the others go to `dtarget`, which is missing only if there are none. */
    method PatchListAux(list: int, vtarget: nat, reg: int, dtarget: int, ghost C: seq<Sym>, ghost L: seq<nat>)
      requires Encodes(C, code) && Threads(code, list, L) && forall j :: j in L ==> OpenAt(C, j)
      requires dtarget >= NO_JUMP && (dtarget == NO_JUMP ==> !S.NeedValue(C, L))
      modifies `code
      ensures Encodes(S.PatchList(C, L, vtarget, reg, if dtarget == NO_JUMP then vtarget else dtarget), code)
      ensures forall j: nat :: j < |code| && old(code)[j].JMP? && j !in L ==> code[j] == old(code)[j]
    {
      var cur := list;
      ghost var i := 0;
      ghost var dt: nat := if dtarget == NO_JUMP then vtarget else dtarget;
      PatchNothing(C, vtarget, reg, dt);
      while cur != NO_JUMP
        invariant i <= |L| && cur == if i < |L| then L[i] else NO_JUMP
        invariant Encodes(S.PatchList(C, L[..i], vtarget, reg, dt), code)
        invariant Chained(code, L, i)
        invariant forall j: nat :: j < |code| && old(code)[j].JMP? && j !in L ==> code[j] == old(code)[j]
        decreases |L| - i
      {
        At(code, L, i, i);
        var next := GetJump(cur);
        PatchJump(cur, vtarget, reg, dtarget, C, L, i, dt);
        assert L[i] in L;
        cur := next;
        i := i + 1;
      }
      assert L[..i] == L;
    }

    /** Closes the jumps that lead to the current position. */
    method DischargeJpc()
      requires Valid()
      modifies this
      ensures Valid() && s == old(s).(code := S.Close(old(s)), jpc := [])
      ensures forall j: nat :: j < |code| && old(code)[j].JMP? && j !in old(s).jpc ==> code[j] == old(code)[j]
    {
      PatchListAux(jpc, |code|, NO_REG, |code|, s.code, s.jpc);
      jpc := NO_JUMP;
      s := s.(code := S.Close(s), jpc := []);
    }

    /** Appends list l2 to list l1 by redirecting the last jump of l1. */
    method Concat(l1: int, l2: int, ghost L1: seq<nat>, ghost L2: seq<nat>) returns (l: int)
      requires Encodes(s.code, code) && Threads(code, l1, L1) && Threads(code, l2, L2)
      requires Apart(L1, L2) && AllOpen(s, L1)
      modifies `code
      ensures Encodes(s.code, code) && Threads(code, l, L1 + L2)
      ensures forall j: nat :: j < |code| && j !in L1 ==> code[j] == old(code)[j]
      ensures L2 == [] ==> code == old(code)
    {
      DistinctConcat(L1, L2);
      if l2 == NO_JUMP {
        assert L1 + L2 == L1;
        return l1;
      }
      if l1 == NO_JUMP {
        assert L1 + L2 == L2;
        return l2;
      }
      var list := l1;
      At(code, L1, 0, 0);
      var next := GetJump(list);
      ghost var i := 0;
      while next != NO_JUMP
        invariant code == old(code)
        invariant i < |L1| && list == L1[i] && next == if i + 1 < |L1| then L1[i + 1] else NO_JUMP
        decreases |L1| - i
      {
        list := next;
        i := i + 1;
        At(code, L1, 0, i);
        next := GetJump(list);
      }
      At(code, L1, 0, i);
      ghost var before := code;
      FixJump(list, l2);
      Linked(before, code, L1, L2, list, l2 - (list + 1));
      assert list in L1;
      Relinked(s.code, before, code, list, l2 - (list + 1));
      return l1;
    }

    // ----- emitting instructions -----

    /** The next instruction will be a jump target. */
    method GetLabel() returns (pc: nat)
      requires Valid()
      modifies this
      ensures Valid() && s == S.GetLabel(old(s)) && code == old(code) && pc == |code|
      ensures Stepped(old(code), old(s), [], code, s, [])
    {
      lasttarget := |code|;
      s := S.GetLabel(s);
      return |code|;
    }

    method PatchToHere(list: int, ghost L: seq<nat>)
      requires Valid() && Threads(code, list, L) && AllOpen(s, L) && Apart(L, s.jpc)
      modifies this
      ensures Valid() && s == S.PatchToHere(old(s), L)
      ensures Stepped(old(code), old(s), L, code, s, [])
    {
      var _ := GetLabel();
      jpc := Concat(jpc, list, s.jpc, L);
      s := s.(jpc := s.jpc + L);
    }

    /** Appends an instruction, whose symbolic form is `x`. */
    method Code(i: Instr<int>, ghost x: Sym) returns (pc: nat)
      requires Valid() && EncodedAs(|code|, x, i)
      modifies this
      ensures Valid() && s == S.Code(old(s), x) && pc == |old(code)| == |code| - 1 && code[pc] == i
      ensures Stepped(old(code), old(s), [], code, s, [])
      ensures old(s).jpc == [] ==> code == old(code) + [i]
    {
      CodeKeepsOpen(s, x);
      ghost var none := s.jpc == [];
      DischargeJpc();
      assert none ==> code == old(code) by { if none { CloseNone(old(s)); } }
      pc := |code|;
      code := code + [i];
      s := s.(code := s.code + [x]);
      EncodedMore(S.Close(old(s)), code[..pc], x, i);
    }

    /** A jump to be patched later; the jumps to the current position join its list. */
    method Jump() returns (j: nat)
      requires Valid()
      modifies this
      ensures Valid() && s == S.EmitJump(old(s)) && j == |old(code)|
      ensures Threads(code, j, S.EmitJumpList(old(s))) && AllOpen(s, S.EmitJumpList(old(s)))
      ensures Stepped(old(code), old(s), [], code, s, S.EmitJumpList(old(s)))
      ensures old(s).jpc == [] ==> code == old(code) + [JMP(NO_JUMP)]
    {
      var hold := jpc;
      ghost var L := s.jpc;
      jpc := NO_JUMP;
      s := s.(jpc := []);
      ghost var s0 := s;
      j := Code(JMP(NO_JUMP), JMP(Open));
      CloseNone(s0);
      ThreadsKept(old(code), s0, [], code, s, [], hold, L);
      j := Concat(j, hold, [j], L);
    }

    /** A test and the jump it controls. */
    method CondJump(i: Instr<int>, ghost x: Sym) returns (pc: nat)
      requires Valid() && EncodedAs(|code|, x, i)
      modifies this
      ensures Valid() && s == S.CondJump(old(s), x) && pc == S.CondJumpPc(old(s)) == |old(code)| + 1 == |code| - 1
      ensures code[pc] == JMP(NO_JUMP) && code[pc - 1] == i && OpenAt(s.code, pc) && s.jpc == []
      ensures Stepped(old(code), old(s), [], code, s, [pc])
    {
      var _ := Code(i, x);
      pc := Jump();
    }

    /** Sets n registers to nil, extending a LOADNIL just emitted if no jump leads here. */
    method LoadNil(from: nat, n: nat)
      requires Valid() && n > 0
      modifies this
      ensures Valid() && s == S.LoadNil(old(s), from, n)
      ensures Stepped(old(code), old(s), [], code, s, [])
    {
      var first, last := from, from + n - 1;
      if |code| > lasttarget {
        var previous := code[|code| - 1];
        assert EncodedAs(|code| - 1, s.code[|code| - 1], previous);
        if previous.LOADNIL? {
          var pfrom, pl := previous.a, previous.a + previous.n;
          if (pfrom <= first && first <= pl + 1) || (first <= pfrom && pfrom <= last + 1) {
            if pfrom < first { first := pfrom; }
            if pl > last { last := pl; }
            code := code[|code| - 1 := LOADNIL(first, last - first)];
            s := s.(code := s.code[|code| - 1 := LOADNIL(first, last - first)]);
            ThreadsUnmoved(old(code), code, jpc, s.jpc);
            return;
          }
        }
      }
      var _ := Code(LOADNIL(from, n - 1), LOADNIL(from, n - 1));
    }

    // ----- registers and constants -----

    method ReserveRegs(n: nat)
      requires Valid()
      modifies this
      ensures Valid() && s == S.Reserve(old(s), n) && code == old(code)
    {
      if freereg + n > maxstack { maxstack := freereg + n; }
      freereg := freereg + n;
      s := S.Reserve(s, n);
    }

    method FreeReg(reg: nat)
      requires Valid()
      modifies this
      ensures Valid() && s == S.FreeReg(old(s), reg) && code == old(code)
    {
      if reg >= nactvar && freereg > 0 { freereg := freereg - 1; }
      s := S.FreeReg(s, reg);
    }

    method FreeExp(e: Exp)
      requires Valid() && e.k == e.d.k
      modifies this
      ensures Valid() && s == S.FreeExp(old(s), e.d) && code == old(code)
    {
      if e.k.VNonReloc? { FreeReg(e.k.r); }
    }

    /** The index of a constant, which is added unless the scanner's table knows it. */
    method AddK(v: Value) returns (i: nat)
      requires Valid()
      modifies this
      ensures Valid() && s == S.AddK(old(s), v) && i == S.KIndex(old(s), v) && code == old(code)
    {
      if v in cache {
        i := cache[v];
        if i < |k| && k[i] == v { return; }
      }
      i := |k|;
      cache := cache[v := i];
      k := k + [v];
      s := S.AddK(s, v);
    }

    // ----- putting an expression somewhere -----

    method DischargeVars(e: Exp)
      requires Valid() && Ready(e)
      modifies this, e
      ensures Valid() && Ready(e) && S.GE(s, e.d) == S.DischargeVars(old(s), old(e.d))
      ensures !old(e.k).VUpval? ==> code == old(code)
      ensures Stepped(old(code), old(s), old(Own(e.d)), code, s, Own(e.d))
    {
      if e.k.VLocal? {
        e.k := S.VNonReloc(e.k.r);
        e.d := e.d.(k := e.k);
      } else if e.k.VUpval? {
        var pc := Code(GETUPVAL(0, e.k.u), GETUPVAL(0, e.k.u));
        HeldKept(old(code), old(s), [], code, s, [], e.t, e.f, e.d);
        e.k := S.VReloc(pc);
        e.d := e.d.(k := e.k);
      }
    }

    /** Gives a relocatable instruction its register. */
    method SetTarget(pc: nat, reg: nat)
      requires Valid() && pc < |code| && Relocatable(code[pc])
      modifies this
      ensures Valid() && s == S.Relocate(old(s), pc, reg)
      ensures Stepped(old(code), old(s), [], code, s, [])
    {
      assert EncodedAs(pc, s.code[pc], code[pc]);
      code := code[pc := S.SetA(code[pc], reg)];
      s := S.Relocate(s, pc, reg);
      ThreadsUnmoved(old(code), code, jpc, s.jpc);
    }

    /** Loads the value of a discharged expression into a register. */
    method LoadInto(e: Exp, reg: nat)
      requires Valid() && Ready(e) && !e.k.VJmp?
      modifies this
      ensures Valid() && Holding(e) && s == S.LoadInto(old(s), e.d.k, reg)
      ensures Stepped(old(code), old(s), [], code, s, [])
    {
      match e.k {
        case VNil => LoadNil(reg, 1);
        case VTrue => var _ := Code(LOADBOOL(reg, true, false), LOADBOOL(reg, true, false));
        case VFalse => var _ := Code(LOADBOOL(reg, false, false), LOADBOOL(reg, false, false));
        case VK(i) => var _ := Code(LOADK(reg, i), LOADK(reg, i));
        case VNumber(v) =>
          var i := AddK(v);
          var _ := Code(LOADK(reg, i), LOADK(reg, i));
        case VReloc(pc) =>
          SetTarget(pc, reg);
        case VNonReloc(r) =>
          if reg != r { var _ := Code(MOVE(reg, r), MOVE(reg, r)); }
        case VLocal(_) =>
        case VUpval(_) =>
      }
      HeldKept(old(code), old(s), [], code, s, [], e.t, e.f, e.d);
    }

    method Discharge2Reg(e: Exp, reg: nat)
      requires Valid() && Ready(e)
      modifies this, e
      ensures Valid() && Ready(e) && S.GE(s, e.d) == S.Discharge2Reg(old(s), old(e.d), reg)
      ensures Stepped(old(code), old(s), old(Own(e.d)), code, s, Own(e.d))
      ensures e.k.VNonReloc? || (e.k.VJmp? && old(e.k).VJmp?)
    {
      DischargeVars(e);
      if e.k.VJmp? { return; }
      label L:
      LoadInto(e, reg);
      SteppedMore(old@L(code), old@L(s), [], code, s, [], Own(e.d));
      SteppedTrans(old(code), old(s), old(Own(e.d)), old@L(code), old@L(s), Own(e.d), code, s, Own(e.d));
      e.k := S.VNonReloc(reg);
      e.d := e.d.(k := e.k);
    }

    method Discharge2AnyReg(e: Exp)
      requires Valid() && Ready(e) && !e.k.VJmp?
      modifies this, e
      ensures Valid() && Ready(e) && e.k.VNonReloc? && S.GE(s, e.d) == S.Discharge2AnyReg(old(s), old(e.d))
      ensures Stepped(old(code), old(s), old(Own(e.d)), code, s, Own(e.d))
    {
      if !e.k.VNonReloc? {
        ReserveRegs(1);
        Discharge2Reg(e, freereg - 1);
      }
    }

    /** LOADBOOL that will be a jump target. */
    method CodeLabel(reg: nat, b: bool, skip: bool) returns (pc: nat)
      requires Valid()
      modifies this
      ensures Valid() && s == S.Code(S.GetLabel(old(s)), LOADBOOL(reg, b, skip)) && pc == |old(code)|
      ensures Stepped(old(code), old(s), [], code, s, [])
    {
      var _ := GetLabel();
      pc := Code(LOADBOOL(reg, b, skip), LOADBOOL(reg, b, skip));
    }

    /** Emits the two LOADBOOLs for the exits that carry no value; unless the expression
        is itself a jump, its own value jumps over them. */
    method Booleans(isJump: bool, reg: nat) returns (pf: nat, pt: nat)
      requires Valid()
      modifies this
      ensures Valid() && pt == pf + 1
      ensures s == Loaded(old(s), isJump, reg) && pf == |Jumped(old(s), isJump).code|
      ensures Stepped(old(code), old(s), [], code, s, [])
    {
      var fj := NO_JUMP;
      ghost var J := [];
      if !isJump {
        J := S.EmitJumpList(s);
        fj := Jump();
      }
      label A:
      pf := CodeLabel(reg, false, true);
      label B:
      pt := CodeLabel(reg, true, false);
      SteppedTrans(old@A(code), old@A(s), [], old@B(code), old@B(s), [], code, s, []);
      ThreadsKept(old@A(code), old@A(s), [], code, s, [], fj, J);
      SteppedMore(old@A(code), old@A(s), [], code, s, [], J);
      label C:
      PatchToHere(fj, J);
      SteppedTrans(old@A(code), old@A(s), J, old@C(code), old@C(s), J, code, s, []);
    }

    /** Sends both exit lists to `final`, or to the LOADBOOLs if they carry no value. */
    method PatchLists(e: Exp, final: nat, reg: nat, pf: int, pt: int)
      requires Valid() && Holding(e) && pf >= NO_JUMP && pt >= NO_JUMP && (pf == NO_JUMP <==> pt == NO_JUMP)
      requires pf == NO_JUMP ==> !S.NeedValue(s.code, e.d.t) && !S.NeedValue(s.code, e.d.f)
      modifies this
      ensures Valid()
      ensures var df, dt := if pf == NO_JUMP then final else pf, if pt == NO_JUMP then final else pt;
              s == old(s).(code := S.PatchList(S.PatchList(old(s).code, e.d.f, final, reg, df), e.d.t, final, reg, dt))
      ensures Stepped(old(code), old(s), e.d.t + e.d.f, code, s, [])
    {
      ghost var df, dt := if pf == NO_JUMP then final else pf, if pt == NO_JUMP then final else pt;
      PatchKeeps(s.code, e.d.f, final, reg, df);
      PatchListAux(e.f, final, reg, pf, s.code, e.d.f);
      s := s.(code := S.PatchList(s.code, e.d.f, final, reg, df));
      label A:
      PatchKeeps(s.code, e.d.t, final, reg, dt);
      ThreadsUnmoved(old(code), code, e.t, e.d.t);
      ThreadsUnmoved(old(code), code, jpc, s.jpc);
      PatchListAux(e.t, final, reg, pt, s.code, e.d.t);
      s := s.(code := S.PatchList(s.code, e.d.t, final, reg, dt));
      ThreadsUnmoved(old@A(code), code, jpc, s.jpc);
    }

    /** Both lists end at the position after the whole expression. */
    method EndLists(e: Exp, reg: nat, pf: int, pt: int)
      requires Valid() && Holding(e) && pf >= NO_JUMP && pt >= NO_JUMP && (pf == NO_JUMP <==> pt == NO_JUMP)
      requires pf == NO_JUMP ==> !S.NeedValue(s.code, e.d.t) && !S.NeedValue(s.code, e.d.f)
      modifies this
      ensures Valid()
      ensures s == Ended(old(s), e.d.t, e.d.f, reg, pf, pt)
      ensures Stepped(old(code), old(s), e.d.t + e.d.f, code, s, [])
    {
      var final := GetLabel();
      PatchLists(e, final, reg, pf, pt);
    }

    method CloseLists(e: Exp, reg: nat)
      requires Valid() && Holding(e)
      modifies this
      ensures Valid() && s == S.CloseLists(old(s), e.k.VJmp?, e.d.t, e.d.f, reg)
      ensures Stepped(old(code), old(s), e.d.t + e.d.f, code, s, [])
    {
      hide Loaded, Ended;
      ghost var s0 := s;
      var need := NeedValue(e.t, e.d.t);
      if !need { need := NeedValue(e.f, e.d.f); }
      if need {
        CloseWithLoads(e, reg);
        ClosedWithLoads(s0, e.k.VJmp?, e.d.t, e.d.f, reg);
      } else {
        EndLists(e, reg, NO_JUMP, NO_JUMP);
        ClosedWithoutLoads(s0, e.k.VJmp?, e.d.t, e.d.f, reg);
      }
    }

    method CloseWithLoads(e: Exp, reg: nat)
      requires Valid() && Holding(e)
      modifies this
      ensures Valid()
      ensures var isJump := e.k.VJmp?; var pf := |Jumped(old(s), isJump).code|;
              s == Ended(Loaded(old(s), isJump, reg), e.d.t, e.d.f, reg, pf, pf + 1)
      ensures Stepped(old(code), old(s), e.d.t + e.d.f, code, s, [])
    {
      hide Loaded, Ended;
      var pf, pt := Booleans(e.k.VJmp?, reg);
      ghost var c1, s1 := code, s;
      HeldKept(old(code), old(s), [], c1, s1, [], e.t, e.f, e.d);
      SteppedMore(old(code), old(s), [], c1, s1, [], e.d.t + e.d.f);
      EndLists(e, reg, pf, pt);
      SteppedTrans(old(code), old(s), e.d.t + e.d.f, c1, s1, e.d.t + e.d.f, code, s, []);
    }

    /** Adds jumps to the true exits of an expression. */
    method AppendTrue(e: Exp, list: int, ghost L: seq<nat>)
      requires Valid() && Holding(e) && FreeList(code, s, e.d, list, L)
      modifies this, e
      ensures Valid() && Holding(e) && s == old(s) && e.k == old(e.k)
      ensures e.d == old(e.d).(t := old(e.d).t + L)
      ensures Stepped(old(code), old(s), old(Exits(e.d)) + L, code, s, Exits(e.d))
      ensures |code| == |old(code)| && forall j: nat :: j < |code| && !old(code)[j].JMP? ==> code[j] == old(code)[j]
    {
      e.t := Concat(e.t, list, e.d.t, L);
      ThreadsUnmoved(old(code), code, e.f, e.d.f);
      ThreadsUnmoved(old(code), code, jpc, s.jpc);
      e.d := e.d.(t := e.d.t + L);
    }

    /** Adds jumps to the false exits of an expression. */
    method AppendFalse(e: Exp, list: int, ghost L: seq<nat>)
      requires Valid() && Holding(e) && FreeList(code, s, e.d, list, L)
      modifies this, e
      ensures Valid() && Holding(e) && s == old(s) && e.k == old(e.k)
      ensures e.d == old(e.d).(f := old(e.d).f + L)
      ensures Stepped(old(code), old(s), old(Exits(e.d)) + L, code, s, Exits(e.d))
      ensures |code| == |old(code)| && forall j: nat :: j < |code| && !old(code)[j].JMP? ==> code[j] == old(code)[j]
    {
      e.f := Concat(e.f, list, e.d.f, L);
      ThreadsUnmoved(old(code), code, e.t, e.d.t);
      ThreadsUnmoved(old(code), code, jpc, s.jpc);
      e.d := e.d.(f := e.d.f + L);
    }

    /** Brings the exits of a discharged expression to the register its value is in. */
    method JoinLists(e: Exp, reg: nat)
      requires Valid() && Ready(e)
      modifies this, e
      ensures Valid() && Ready(e) && S.GE(s, e.d) == Joined(old(s), old(e.d), reg)
      ensures Stepped(old(code), old(s), old(Own(e.d)), code, s, [])
    {
      if e.k.VJmp? { AppendTrue(e, e.k.pc, [e.d.k.pc]); }
      HeadsApart(e.d.t, e.d.f);
      ghost var c1, s1, d1 := code, s, e.d;
      if e.t != e.f {
        CloseLists(e, reg);
        SteppedTrans(old(code), old(s), old(Own(e.d)), c1, s1, d1.t + d1.f, code, s, []);
      }
      e.Init(S.VNonReloc(reg));
    }

    /** Leaves the value of an expression, whichever way it is reached, in a register. */
    method Exp2Reg(e: Exp, reg: nat)
      requires Valid() && Ready(e)
      modifies this, e
      ensures Valid() && Ready(e) && S.GE(s, e.d) == S.Exp2Reg(old(s), old(e.d), reg)
      ensures Stepped(old(code), old(s), old(Own(e.d)), code, s, Own(e.d)) && e.k == S.VNonReloc(reg)
    {
      Discharge2Reg(e, reg);
      ghost var c1, s1, own1 := code, s, Own(e.d);
      JoinLists(e, reg);
      SteppedTrans(old(code), old(s), old(Own(e.d)), c1, s1, own1, code, s, []);
      Exp2RegJoins(old(s), old(e.d), reg);
    }

    method Exp2NextReg(e: Exp)
      requires Valid() && Ready(e)
      modifies this, e
      ensures Valid() && Settled(e) && e.k.VNonReloc? && S.GE(s, e.d) == S.Exp2NextReg(old(s), old(e.d))
      ensures Stepped(old(code), old(s), old(Own(e.d)), code, s, [])
    {
      DischargeVars(e);
      ghost var c1, s1 := code, s;
      FreeExp(e);
      ReserveRegs(1);
      ghost var c2, s2 := code, s;
      Exp2Reg(e, freereg - 1);
      SteppedTrans(old(code), old(s), old(Own(e.d)), c2, s2, Own(S.DischargeVars(old(s), old(e.d)).e), code, s, []);
    }

    method Exp2AnyReg(e: Exp) returns (reg: nat)
      requires Valid() && Ready(e)
      modifies this, e
      ensures Valid() && Settled(e) && e.k == S.VNonReloc(reg)
      ensures S.GE(s, e.d) == S.Exp2AnyReg(old(s), old(e.d))
      ensures old(e.k.VNonReloc? && !S.HasJumps(e.d)) ==> code == old(code)
      ensures Stepped(old(code), old(s), old(Own(e.d)), code, s, [])
    {
      DischargeVars(e);
      HeadsApart(e.d.t, e.d.f);
      ghost var c1, s1, d1 := code, s, e.d;
      if e.k.VNonReloc? && e.t == e.f { return e.k.r; }
      if e.k.VNonReloc? && e.k.r >= nactvar {
        Exp2Reg(e, e.k.r);
      } else {
        Exp2NextReg(e);
      }
      SteppedTrans(old(code), old(s), old(Own(e.d)), c1, s1, Own(d1), code, s, []);
      return e.k.r;
    }

    method Exp2Val(e: Exp)
      requires Valid() && Ready(e)
      modifies this, e
      ensures Valid() && Ready(e) && S.GE(s, e.d) == S.Exp2Val(old(s), old(e.d))
      ensures Stepped(old(code), old(s), old(Own(e.d)), code, s, Own(e.d)) && !S.HasJumps(e.d)
      ensures old(Operand(e)) ==> code == old(code) && Operand(e)
    {
      HeadsApart(e.d.t, e.d.f);
      if e.t != e.f {
        var _ := Exp2AnyReg(e);
      } else {
        DischargeVars(e);
      }
    }

    /** A constant operand. */
    method AsK(e: Exp, v: Value) returns (o: RK)
      requires Valid() && Ready(e) && !S.HasJumps(e.d)
      modifies this, e
      ensures Valid() && Settled(e) && S.GO(s, e.d, o) == S.AsK(old(s), old(e.d), v)
      ensures code == old(code) && o.Const? && e.k == S.VK(o.k) && s.jpc == old(s).jpc && s.code == old(s).code
    {
      var i := AddK(v);
      e.k := S.VK(i);
      e.d := e.d.(k := e.k);
      return Const(i);
    }

    /** An operand: a constant if its index fits, otherwise a register. */
    method Exp2RK(e: Exp) returns (o: RK)
      requires Valid() && Ready(e)
      modifies this, e
      ensures Valid() && Operand(e) && S.GO(s, e.d, o) == S.Exp2RK(old(s), old(e.d))
      ensures old(Operand(e)) ==> code == old(code)
      ensures Stepped(old(code), old(s), old(Own(e.d)), code, s, [])
    {
      Exp2Val(e);
      ghost var c1, s1, d1 := code, s, e.d;
      o := ToRK(e);
      SteppedTrans(old(code), old(s), old(Own(e.d)), c1, s1, Own(d1), code, s, []);
    }

    method ToRK(e: Exp) returns (o: RK)
      requires Valid() && Ready(e) && !S.HasJumps(e.d)
      modifies this, e
      ensures Valid() && Operand(e) && S.GO(s, e.d, o) == S.ToRK(old(s), old(e.d))
      ensures old(Operand(e)) ==> code == old(code)
      ensures Stepped(old(code), old(s), old(Own(e.d)), code, s, [])
    {
      if e.k.VTrue? || e.k.VFalse? || e.k.VNil? {
        if |k| <= S.MAXINDEXRK {
          o := AsK(e, if e.k.VNil? then Nil else Boolean(e.k.VTrue?));
          return;
        }
      } else if e.k.VNumber? {
        o := AsK(e, e.k.v);
        if o.k <= S.MAXINDEXRK { return; }
      } else if e.k.VK? {
        if e.k.k <= S.MAXINDEXRK { return Const(e.k.k); }
      }
      var r := Exp2AnyReg(e);
      return Reg(r);
    }

    // ----- conditions -----

    /** Inverts the comparison whose jump is the expression. */
    method InvertJump(e: Exp)
      requires Valid() && Ready(e) && e.k.VJmp?
      modifies this
      ensures Valid() && Ready(e) && s == S.InvertJump(old(s), e.k.pc)
      ensures Stepped(old(code), old(s), Own(e.d), code, s, Own(e.d))
    {
      var pc := GetJumpControl(e.k.pc);
      assert EncodedAs(pc, s.code[pc], code[pc]);
      code := code[pc := CMP(code[pc].cop, !code[pc].want, code[pc].x, code[pc].y)];
      s := S.InvertJump(s, e.k.pc);
      ThreadsUnmoved(old(code), code, e.t, e.d.t);
      ThreadsUnmoved(old(code), code, e.f, e.d.f);
      ThreadsUnmoved(old(code), code, jpc, s.jpc);
    }

    /** Takes back the instruction just emitted. */
    method DropLast()
      requires Valid() && |code| > 0 && !code[|code| - 1].JMP?
      modifies this
      ensures Valid() && s == old(s).(code := old(s).code[..|old(s).code| - 1]) && code == old(code)[..|old(code)| - 1]
    {
      code := code[..|code| - 1];
      s := s.(code := s.code[..|s.code| - 1]);
      ThreadsCut(old(code), jpc, s.jpc);
    }

    /** A jump taken when the truth of `e` is `cond`. */
    method JumpOnCond(e: Exp, cond: bool) returns (pc: nat)
      requires Valid() && Ready(e) && !e.k.VJmp?
      modifies this, e
      ensures Valid() && Holding(e) && S.GL(s, e.d, [pc]) == S.JumpOnCond(old(s), old(e.d), cond)
      ensures FreeList(code, s, e.d, pc, [pc])
      ensures Stepped(old(code), old(s), old(Exits(e.d)), code, s, Exits(e.d) + [pc])
    {
      if e.k.VReloc? {
        var ie := code[e.k.pc];
        assert EncodedAs(e.k.pc, s.code[e.k.pc], ie);
        if ie.NOT? {
          pc := TestInstead(e, ie.b, cond);
          return;
        }
      }
      Discharge2AnyReg(e);
      FreeExp(e);
      ghost var c1, s1 := code, s;
      pc := EmitTest(e, TESTSET(NO_REG, e.k.r, cond), TESTSET(NO_REG, e.k.r, cond));
      SteppedTrans(old(code), old(s), old(Exits(e.d)), c1, s1, Exits(e.d), code, s, Exits(e.d) + [pc]);
    }

    /** Emits a test and its jump beside the exits of an expression. */
    method EmitTest(e: Exp, i: Instr<int>, ghost x: Sym) returns (pc: nat)
      requires Valid() && Holding(e) && EncodedAs(|code|, x, i)
      modifies this
      ensures Valid() && Holding(e) && s == S.CondJump(old(s), x) && pc == S.CondJumpPc(old(s))
      ensures FreeList(code, s, e.d, pc, [pc])
      ensures Stepped(old(code), old(s), Exits(e.d), code, s, Exits(e.d) + [pc])
    {
      pc := CondJump(i, x);
      HeldKept(old(code), old(s), [], code, s, [pc], e.t, e.f, e.d);
      Emitted(old(code), old(s), code, s, pc, Exits(e.d));
    }

    /** Replaces a NOT just emitted by the opposite test. */
    method TestInstead(e: Exp, b: nat, cond: bool) returns (pc: nat)
      requires Valid() && Ready(e) && S.EndsInNot(s, e.d.k) && s.code[e.d.k.pc].b == b
      modifies this, e
      ensures Valid() && Holding(e) && S.GL(s, e.d, [pc]) == S.JumpOnCond(old(s), old(e.d), cond)
      ensures FreeList(code, s, e.d, pc, [pc])
      ensures Stepped(old(code), old(s), old(Exits(e.d)), code, s, Exits(e.d) + [pc])
    {
      DropLast();
      ThreadsCut(old(code), e.t, e.d.t);
      ThreadsCut(old(code), e.f, e.d.f);
      hide S.CondJump;
      pc := EmitTest(e, TEST(b, !cond), TEST(b, !cond));
    }

    /** The jump taken when `e` is false; none if it never is. */
    method TrueJump(e: Exp) returns (pc: int, ghost L: seq<nat>)
      requires Valid() && Ready(e)
      modifies this, e
      ensures Valid() && Holding(e) && S.GL(s, e.d, L) == S.GoIfTrueJump(old(s), old(e.d))
      ensures FreeList(code, s, e.d, pc, L)
      ensures Stepped(old(code), old(s), old(Own(e.d)), code, s, Exits(e.d) + L)
    {
      if e.k.VJmp? {
        InvertJump(e);
        return e.k.pc, [e.d.k.pc];
      } else if e.k.VK? || e.k.VNumber? || e.k.VTrue? {
        return NO_JUMP, [];
      }
      pc := JumpOnCond(e, false);
      L := [pc];
    }

    method FalseJump(e: Exp) returns (pc: int, ghost L: seq<nat>)
      requires Valid() && Ready(e)
      modifies this, e
      ensures Valid() && Holding(e) && S.GL(s, e.d, L) == S.GoIfFalseJump(old(s), old(e.d))
      ensures FreeList(code, s, e.d, pc, L)
      ensures Stepped(old(code), old(s), old(Own(e.d)), code, s, Exits(e.d) + L)
    {
      if e.k.VJmp? {
        return e.k.pc, [e.d.k.pc];
      } else if e.k.VNil? || e.k.VFalse? {
        return NO_JUMP, [];
      }
      pc := JumpOnCond(e, true);
      L := [pc];
    }

    /** Falls through when `e` is true. */
    method GoIfTrue(e: Exp)
      requires Valid() && Ready(e)
      modifies this, e
      ensures Valid() && Holding(e) && S.GE(s, e.d) == S.GoIfTrue(old(s), old(e.d)) && e.d.t == []
      ensures Stepped(old(code), old(s), old(Own(e.d)), code, s, Exits(e.d))
    {
      DischargeVars(e);
      ghost var c1, s1, own1 := code, s, Own(e.d);
      var pc, L := TrueJump(e);
      SteppedTrans(old(code), old(s), old(Own(e.d)), c1, s1, own1, code, s, Exits(e.d) + L);
      ghost var c2, s2, own2 := code, s, Exits(e.d) + L;
      AppendFalse(e, pc, L);
      SteppedTrans(old(code), old(s), old(Own(e.d)), c2, s2, own2, code, s, Exits(e.d));
      CloseTrue(e);
    }

    /** The true exits of `e` lead to the current position. */
    method CloseTrue(e: Exp)
      requires Valid() && Holding(e)
      modifies this, e
      ensures Valid() && Holding(e) && s == S.PatchToHere(old(s), old(e.d).t) && e.d == old(e.d).(t := [])
      ensures Stepped(old(code), old(s), old(Exits(e.d)), code, s, Exits(e.d))
    {
      PatchToHere(e.t, e.d.t);
      HeldKept(old(code), old(s), e.d.t, code, s, [], NO_JUMP, e.f, e.d.(t := []));
      e.t := NO_JUMP;
      e.d := e.d.(t := []);
    }

    method CloseFalse(e: Exp)
      requires Valid() && Holding(e)
      modifies this, e
      ensures Valid() && Holding(e) && s == S.PatchToHere(old(s), old(e.d).f) && e.d == old(e.d).(f := [])
      ensures Stepped(old(code), old(s), old(Exits(e.d)), code, s, Exits(e.d))
    {
      PatchToHere(e.f, e.d.f);
      HeldKept(old(code), old(s), e.d.f, code, s, [], e.t, NO_JUMP, e.d.(f := []));
      e.f := NO_JUMP;
      e.d := e.d.(f := []);
    }

    /** Falls through when `e` is false. */
    method GoIfFalse(e: Exp)
      requires Valid() && Ready(e)
      modifies this, e
      ensures Valid() && Holding(e) && S.GE(s, e.d) == S.GoIfFalse(old(s), old(e.d)) && e.d.f == []
      ensures Stepped(old(code), old(s), old(Own(e.d)), code, s, Exits(e.d))
    {
      DischargeVars(e);
      ghost var c1, s1, own1 := code, s, Own(e.d);
      var pc, L := FalseJump(e);
      SteppedTrans(old(code), old(s), old(Own(e.d)), c1, s1, own1, code, s, Exits(e.d) + L);
      ghost var c2, s2, own2 := code, s, Exits(e.d) + L;
      AppendTrue(e, pc, L);
      SteppedTrans(old(code), old(s), old(Own(e.d)), c2, s2, own2, code, s, Exits(e.d));
      CloseFalse(e);
    }

    // ----- operators -----

    /** Emits a relocatable instruction whose result is the expression. */
    method EmitReloc(e: Exp, i: Instr<int>, ghost x: Sym)
      requires Valid() && Holding(e) && EncodedAs(|code|, x, i) && Relocatable(i)
      modifies this, e
      ensures Valid() && Ready(e) && s == S.Code(old(s), x) && e.d == old(e.d).(k := S.VReloc(|old(s).code|))
      ensures Stepped(old(code), old(s), old(Exits(e.d)), code, s, Own(e.d))
    {
      var pc := Code(i, x);
      HeldKept(old(code), old(s), [], code, s, [], e.t, e.f, e.d);
      SteppedMore(old(code), old(s), [], code, s, [], Exits(e.d));
      e.k := S.VReloc(pc);
      e.d := e.d.(k := e.k);
    }

    /** The negated value, not counting the exits. */
    method NotValue(e: Exp)
      requires Valid() && Ready(e) && !e.k.VLocal? && !e.k.VUpval?
      modifies this, e
      ensures Valid() && Ready(e) && S.GE(s, e.d) == S.NotValue(old(s), old(e.d))
      ensures Stepped(old(code), old(s), old(Own(e.d)), code, s, Own(e.d))
    {
      if e.k.VNil? || e.k.VFalse? {
        e.k := S.VTrue;
        e.d := e.d.(k := e.k);
      } else if e.k.VK? || e.k.VNumber? || e.k.VTrue? {
        e.k := S.VFalse;
        e.d := e.d.(k := e.k);
      } else if e.k.VJmp? {
        InvertJump(e);
      } else {
        Discharge2AnyReg(e);
        FreeExp(e);
        ghost var c1, s1, d1 := code, s, e.d;
        EmitReloc(e, NOT(0, e.k.r), NOT(0, e.k.r));
        SteppedTrans(old(code), old(s), old(Own(e.d)), c1, s1, Exits(d1), code, s, Own(e.d));
      }
    }

    /** The exits of a negation no longer carry the values they did. */
    method DropValues(e: Exp)
      requires Valid() && Ready(e)
      modifies this
      ensures Valid() && Ready(e)
      ensures s == old(s).(code := S.RemoveValues(S.RemoveValues(old(s).code, e.d.f), e.d.t))
      ensures Stepped(old(code), old(s), Own(e.d), code, s, Own(e.d))
    {
      RemoveKeeps(s.code, e.d.f);
      RemoveValues(e.f, s.code, e.d.f);
      ThreadsUnmoved(old(code), code, e.t, e.d.t);
      s := s.(code := S.RemoveValues(s.code, e.d.f));
      RemoveKeeps(s.code, e.d.t);
      RemoveValues(e.t, s.code, e.d.t);
      s := s.(code := S.RemoveValues(s.code, e.d.t));
      ThreadsUnmoved(old(code), code, e.t, e.d.t);
      ThreadsUnmoved(old(code), code, e.f, e.d.f);
      ThreadsUnmoved(old(code), code, jpc, s.jpc);
    }

    method CodeNot(e: Exp)
      requires Valid() && Ready(e)
      modifies this, e
      ensures Valid() && Ready(e) && S.GE(s, e.d) == S.CodeNot(old(s), old(e.d))
      ensures Stepped(old(code), old(s), old(Own(e.d)), code, s, Own(e.d))
    {
      DischargeVars(e);
      ghost var c1, s1, own1 := code, s, Own(e.d);
      NotValue(e);
      SteppedTrans(old(code), old(s), old(Own(e.d)), c1, s1, own1, code, s, Own(e.d));
      ghost var c2, s2, own2 := code, s, Own(e.d);
      SwapExits(e);
      SteppedTrans(old(code), old(s), old(Own(e.d)), c2, s2, own2, code, s, Own(e.d));
    }

    /** The true exits of an expression are the false exits of its negation. */
    method SwapExits(e: Exp)
      requires Valid() && Ready(e)
      modifies this, e
      ensures Valid() && Ready(e) && S.GE(s, e.d) == Swapped(S.GE(old(s), old(e.d)))
      ensures Stepped(old(code), old(s), old(Own(e.d)), code, s, Own(e.d))
    {
      e.t, e.f := e.f, e.t;
      e.d := e.d.(t := e.d.f, f := e.d.t);
      DropValues(e);
    }

    method CodeUnary(op: UnaryOp, e: Exp)
      requires Valid() && Ready(e)
      modifies this, e
      ensures Valid() && Ready(e) && S.GE(s, e.d) == S.CodeUnary(old(s), op, old(e.d))
      ensures Stepped(old(code), old(s), old(Own(e.d)), code, s, Own(e.d))
    {
      HeadsApart(e.d.t, e.d.f);
      if op != Len && e.t == e.f && e.k.VNumber? && m.foldUnary(op, e.k.v).Some? {
        e.k := S.VNumber(m.foldUnary(op, e.k.v).value);
        e.d := e.d.(k := e.k);
        return;
      }
      var r := Exp2AnyReg(e);
      ghost var c1, s1 := code, s;
      UnaryOn(op, e, r);
      SteppedTrans(old(code), old(s), old(Own(e.d)), c1, s1, [], code, s, Own(e.d));
      UnarySteps(old(s), op, old(e.d), r);
    }

    method UnaryOn(op: UnaryOp, e: Exp, r: nat)
      requires Valid() && Settled(e)
      modifies this, e
      ensures Valid() && Ready(e) && S.GE(s, e.d) == Applied(op, S.GE(old(s), old(e.d)), r)
      ensures Stepped(old(code), old(s), [], code, s, Own(e.d))
    {
      FreeExp(e);
      ghost var s1 := s;
      EmitReloc(e, UNARY(op, 0, r), UNARY(op, 0, r));
      SteppedTrans(old(code), old(s), [], old(code), s1, [], code, s, Own(e.d));
    }

    /** Frees two operand registers, the higher one first. */
    method FreeBoth(e1: Exp, o1: RK, e2: Exp, o2: RK)
      requires Valid() && e1.k == e1.d.k && e2.k == e2.d.k
      modifies this
      ensures Valid() && s == S.FreeBoth(old(s), e1.d, o1, e2.d, o2) && code == old(code)
    {
      if S.Encoded(o1) > S.Encoded(o2) {
        FreeExp(e1);
        FreeExp(e2);
      } else {
        FreeExp(e2);
        FreeExp(e1);
      }
    }

    method CodeArith(op: ArithOp, e1: Exp, e2: Exp)
      requires Valid() && Settled(e1) && Ready(e2) && e1 != e2
      modifies this, e1, e2
      ensures Valid() && Ready(e1) && S.GE(s, e1.d) == S.CodeArith(old(s), op, old(e1.d), old(e2.d))
      ensures Stepped(old(code), old(s), old(Own(e2.d)), code, s, Own(e1.d))
    {
      HeadsApart(e2.d.t, e2.d.f);
      if e1.k.VNumber? && e2.t == e2.f && e2.k.VNumber? && m.foldArith(op, e1.k.v, e2.k.v).Some? {
        e1.k := S.VNumber(m.foldArith(op, e1.k.v, e2.k.v).value);
        e1.d := e1.d.(k := e1.k);
        return;
      }
      ArithSteps(s, op, e1.d, e2.d);
      hide S.CodeArith, S.Exp2RK, Operated;
      var o2 := Exp2RK(e2);
      var o1 := SecondRK(e1, old(code), old(s), old(Own(e2.d)));
      ArithOn(op, e1, o1, e2, o2, old(code), old(s), old(Own(e2.d)));
    }

    /** The operand converted last of an operation begun in state s0. */
    method SecondRK(e: Exp, ghost c0: seq<Instr<int>>, ghost s0: S.Gen, ghost own0: seq<nat>) returns (o: RK)
      requires Valid() && Settled(e) && Stepped(c0, s0, own0, code, s, [])
      modifies this, e
      ensures Valid() && Settled(e) && S.GO(s, e.d, o) == S.Exp2RK(old(s), old(e.d))
      ensures Stepped(c0, s0, own0, code, s, [])
    {
      hide S.Exp2RK;
      o := Exp2RK(e);
      SteppedTrans(c0, s0, own0, old(code), old(s), [], code, s, []);
    }

    method ArithOn(op: ArithOp, e1: Exp, o1: RK, e2: Exp, o2: RK, ghost c0: seq<Instr<int>>, ghost s0: S.Gen,
          ghost own0: seq<nat>)
      requires Valid() && Settled(e1) && Settled(e2) && e1 != e2 && Stepped(c0, s0, own0, code, s, [])
      modifies this, e1
      ensures Valid() && Ready(e1)
      ensures S.GE(s, e1.d) == Operated(op, S.GO(old(s), old(e1.d), o1), S.GO(old(s), e2.d, o2))
      ensures Stepped(c0, s0, own0, code, s, Own(e1.d))
    {
      FreeBoth(e1, o1, e2, o2);
      ghost var s1 := s;
      EmitReloc(e1, ARITH(op, 0, o1, o2), ARITH(op, 0, o1, o2));
      SteppedTrans(c0, s0, own0, old(code), s1, [], code, s, Own(e1.d));
    }

    /** A concatenation takes in the concatenation its right operand ends with. */
    method CodeConcat(e1: Exp, e2: Exp)
      requires Valid() && Settled(e1) && e1.k.VNonReloc? && Ready(e2) && e1 != e2
      modifies this, e1, e2
      ensures Valid() && Ready(e1) && S.GE(s, e1.d) == S.CodeConcat(old(s), old(e1.d), old(e2.d))
      ensures Stepped(old(code), old(s), old(Own(e2.d)), code, s, Own(e1.d))
    {
      Exp2Val(e2);
      ghost var c1, s1, d2 := code, s, e2.d;
      ConcatWith(e1, e2);
      SteppedTrans(old(code), old(s), old(Own(e2.d)), c1, s1, Own(d2), code, s, Own(e1.d));
    }

    method ConcatWith(e1: Exp, e2: Exp)
      requires Valid() && Settled(e1) && e1.k.VNonReloc? && Ready(e2) && !S.HasJumps(e2.d) && e1 != e2
      modifies this, e1, e2
      ensures Valid() && Ready(e1) && S.GE(s, e1.d) == S.ConcatWith(old(s), old(e1.d), old(e2.d))
      ensures Stepped(old(code), old(s), old(Own(e2.d)), code, s, Own(e1.d))
    {
      if e2.k.VReloc? {
        var pc := e2.k.pc;
        assert EncodedAs(pc, s.code[pc], code[pc]);
        if code[pc].CONCAT? {
          JoinConcat(e1, e2);
          return;
        }
      }
      Exp2NextReg(e2);
      ghost var c1, s1 := code, s;
      ConcatOn(e1, e2);
      SteppedTrans(old(code), old(s), old(Own(e2.d)), c1, s1, [], code, s, Own(e1.d));
      ConcatSteps(old(s), old(e1.d), old(e2.d));
    }

    method ConcatOn(e1: Exp, e2: Exp)
      requires Valid() && Settled(e1) && e1.k.VNonReloc? && Settled(e2) && e2.k.VNonReloc? && e1 != e2
      modifies this, e1
      ensures Valid() && Ready(e1) && S.GE(s, e1.d) == Concatenated(old(s), old(e1.d), e2.d)
      ensures Stepped(old(code), old(s), [], code, s, Own(e1.d))
    {
      FreeBoth(e1, Reg(e1.k.r), e2, Reg(e2.k.r));
      ghost var s2 := s;
      EmitReloc(e1, CONCAT(0, e1.k.r, e2.k.r), CONCAT(0, e1.k.r, e2.k.r));
      SteppedTrans(old(code), old(s), [], old(code), s2, [], code, s, Own(e1.d));
    }

    method JoinConcat(e1: Exp, e2: Exp)
      requires Valid() && Settled(e1) && e1.k.VNonReloc? && Ready(e2) && !S.HasJumps(e2.d) && e1 != e2
      requires S.JoinsConcat(s, e2.d)
      modifies this, e1
      ensures Valid() && Ready(e1) && S.GE(s, e1.d) == S.ConcatWith(old(s), old(e1.d), e2.d)
      ensures Stepped(old(code), old(s), Own(e2.d), code, s, Own(e1.d))
    {
      FreeExp(e1);
      var pc := e2.k.pc;
      assert EncodedAs(pc, s.code[pc], code[pc]);
      code := code[pc := S.SetB(code[pc], e1.k.r)];
      s := s.(code := s.code[pc := S.SetB(s.code[pc], e1.k.r)]);
      ThreadsUnmoved(old(code), code, jpc, s.jpc);
      e1.k := S.VReloc(pc);
      e1.d := e1.d.(k := e1.k);
    }

    method CodeComp(op: CmpOp, cond: bool, e1: Exp, e2: Exp)
      requires Valid() && Operand(e1) && Ready(e2) && e1 != e2
      modifies this, e1, e2
      ensures Valid() && Ready(e1) && S.GE(s, e1.d) == S.CodeComp(old(s), op, cond, old(e1.d), old(e2.d))
      ensures Stepped(old(code), old(s), old(Own(e2.d)), code, s, Own(e1.d))
    {
      OperandSame(s, e1.d);
      var o1 := Exp2RK(e1);
      var o2 := Exp2RK(e2);
      ghost var c1, s1 := code, s;
      CompareOn(op, cond, e1, o1, e2, o2);
      SteppedTrans(old(code), old(s), old(Own(e2.d)), c1, s1, [], code, s, Own(e1.d));
    }

    /** The test and jump of a comparison; "greater" exchanges the operands. */
    method CompareOn(op: CmpOp, cond: bool, e1: Exp, o1: RK, e2: Exp, o2: RK)
      requires Valid() && Settled(e1) && Settled(e2) && e1 != e2
      modifies this, e1
      ensures Valid() && Ready(e1)
      ensures S.GE(s, e1.d) == Compared(old(s), op, cond, S.GO(old(s), old(e1.d), o1), S.GO(old(s), e2.d, o2))
      ensures Stepped(old(code), old(s), [], code, s, Own(e1.d))
    {
      FreeExp(e2);
      FreeExp(e1);
      var x1, x2, want := o1, o2, cond;
      if !cond && op != Eq { x1, x2, want := o2, o1, true; }
      ghost var s1 := s;
      EmitCompare(e1, CMP(op, want, x1, x2), CMP(op, want, x1, x2));
      SteppedTrans(old(code), old(s), [], old(code), s1, [], code, s, Own(e1.d));
    }

    /** Emits a comparison and its jump, which becomes the expression. */
    method EmitCompare(e: Exp, i: Instr<int>, ghost x: Sym)
      requires Valid() && Settled(e) && EncodedAs(|code|, x, i) && i.CMP?
      modifies this, e
      ensures Valid() && Ready(e) && s == S.CondJump(old(s), x) && e.d == old(e.d).(k := S.VJmp(S.CondJumpPc(old(s))))
      ensures Stepped(old(code), old(s), [], code, s, Own(e.d))
    {
      var pc := CondJump(i, x);
      e.k := S.VJmp(pc);
      e.d := e.d.(k := e.k);
    }

    /** What a left operand must be while its right operand is compiled. */
    ghost predicate Left(op: S.BinOp, e: Exp)
      reads this, e
    {
      match op
      case And => Holding(e) && e.d.t == []
      case Or => Holding(e) && e.d.f == []
      case Concat => Settled(e) && e.k.VNonReloc?
      case Arith(_) => Settled(e)
      case Compare(_, _) => Operand(e)
    }

    /** Prepares a left operand before its right operand is read. */
    method Infix(op: S.BinOp, v: Exp)
      requires Valid() && Ready(v)
      modifies this, v
      ensures Valid() && Left(op, v) && S.GE(s, v.d) == S.Infix(op, old(s), old(v.d))
      ensures Stepped(old(code), old(s), old(Own(v.d)), code, s, Exits(v.d))
    {
      match op {
        case And => GoIfTrue(v);
        case Or => GoIfFalse(v);
        case Concat => Exp2NextReg(v);
        case Arith(_) =>
          HeadsApart(v.d.t, v.d.f);
          if !(v.t == v.f && v.k.VNumber?) { var _ := Exp2RK(v); }
        case Compare(_, _) => var _ := Exp2RK(v);
      }
    }

    /** A right operand takes over the false exits of the left one. */
    method InheritFalse(e: Exp, list: int, ghost L: seq<nat>)
      requires Valid() && Ready(e) && FreeList(code, s, e.d, list, L) && Apart(L, Own(e.d))
      modifies this, e
      ensures Valid() && Ready(e) && s == old(s) && e.d == old(e.d).(f := old(e.d).f + L)
      ensures Stepped(old(code), old(s), old(Own(e.d)) + L, code, s, Own(e.d))
    {
      AppendFalse(e, list, L);
      SteppedMore(old(code), old(s), old(Exits(e.d)) + L, code, s, Exits(e.d), if e.k.VJmp? then [e.k.pc] else []);
    }

    /** A right operand takes over the true exits of the left one. */
    method InheritTrue(e: Exp, list: int, ghost L: seq<nat>)
      requires Valid() && Ready(e) && FreeList(code, s, e.d, list, L) && Apart(L, Own(e.d))
      modifies this, e
      ensures Valid() && Ready(e) && s == old(s) && e.d == old(e.d).(t := old(e.d).t + L)
      ensures Stepped(old(code), old(s), old(Own(e.d)) + L, code, s, Own(e.d))
    {
      AppendTrue(e, list, L);
      SteppedMore(old(code), old(s), old(Exits(e.d)) + L, code, s, Exits(e.d), if e.k.VJmp? then [e.k.pc] else []);
    }

    method PosfixAnd(e1: Exp, e2: Exp)
      requires Valid() && Left(S.And, e1) && Ready(e2) && e1 != e2 && Apart(Exits(e1.d), Own(e2.d))
      modifies this, e1, e2
      ensures Valid() && Ready(e1) && S.GE(s, e1.d) == S.Posfix(S.And, old(s), old(e1.d), old(e2.d))
      ensures Stepped(old(code), old(s), old(Exits(e1.d) + Own(e2.d)), code, s, Own(e1.d))
    {
      DischargeVars(e2);
      HeldKept(old(code), old(s), old(Own(e2.d)), code, s, Own(e2.d), e1.t, e1.f, e1.d);
      ghost var c1, s1, d2 := code, s, e2.d;
      InheritFalse(e2, e1.f, e1.d.f);
      JoinedStep(old(code), old(s), old(Own(e2.d)), c1, s1, Own(d2), e1.d.f, code, s, Own(e2.d));
      e1.k, e1.t, e1.f := e2.k, e2.t, e2.f;
      e1.d := e2.d;
    }

    method PosfixOr(e1: Exp, e2: Exp)
      requires Valid() && Left(S.Or, e1) && Ready(e2) && e1 != e2 && Apart(Exits(e1.d), Own(e2.d))
      modifies this, e1, e2
      ensures Valid() && Ready(e1) && S.GE(s, e1.d) == S.Posfix(S.Or, old(s), old(e1.d), old(e2.d))
      ensures Stepped(old(code), old(s), old(Exits(e1.d) + Own(e2.d)), code, s, Own(e1.d))
    {
      DischargeVars(e2);
      HeldKept(old(code), old(s), old(Own(e2.d)), code, s, Own(e2.d), e1.t, e1.f, e1.d);
      ghost var c1, s1, d2 := code, s, e2.d;
      InheritTrue(e2, e1.t, e1.d.t);
      JoinedStep(old(code), old(s), old(Own(e2.d)), c1, s1, Own(d2), e1.d.t, code, s, Own(e2.d));
      e1.k, e1.t, e1.f := e2.k, e2.t, e2.f;
      e1.d := e2.d;
    }

    /** Combines two operands; the result is in e1. */
    method Posfix(op: S.BinOp, e1: Exp, e2: Exp)
      requires Valid() && Left(op, e1) && Ready(e2) && e1 != e2 && Apart(Exits(e1.d), Own(e2.d))
      modifies this, e1, e2
      ensures Valid() && Ready(e1) && S.GE(s, e1.d) == S.Posfix(op, old(s), old(e1.d), old(e2.d))
      ensures Stepped(old(code), old(s), old(Exits(e1.d) + Own(e2.d)), code, s, Own(e1.d))
    {
      match op {
        case And => PosfixAnd(e1, e2);
        case Or => PosfixOr(e1, e2);
        case Concat => CodeConcat(e1, e2);
        case Arith(aop) => CodeArith(aop, e1, e2);
        case Compare(cop, flip) => CodeComp(cop, !flip, e1, e2);
      }
    }
  }
}
