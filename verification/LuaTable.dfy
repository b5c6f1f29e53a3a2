/** Tables as the machine keeps them: an array part and a hash part, updated in place. */
module LuaTable {
  import opened Common
  import opened LuaValues
  import opened TableNodes
  import opened TableCounts
  import opened TableSizes
  import opened TableContents

  /** Where the value of a key is kept, or why there can be no such place. */
  datatype Cell = InArr(i: nat) | InNode(n: nat) | NilIndex | NaNIndex

  class Table {
    var arr: array<Value>
    var node: array<Node>
    /** The hash part is the shared empty node, which is never written. */
    var dummy: bool
    /** All nodes from here on are used. */
    var lastfree: nat
    const r: Rules
    ghost var rank: seq<nat>

    ghost predicate HashCore()
      reads this, node
    {
      && NodesOk(r.hash, node[..], rank) && lastfree <= node.Length
      && (dummy ==> node.Length == 1 && node[0] == EMPTY && lastfree == 0)
    }

    ghost predicate HashOk()
      reads this, node
    {
      HashCore() && (!dummy ==> UsedTail(node[..], lastfree))
    }

    ghost predicate Valid()
      reads this, node
    {
      HashOk() && KeysOk(r, arr.Length, node[..])
    }

    predicate InArray(k: Value)
      reads this
    {
      KeyIn(k, 0, arr.Length)
    }

    /** The value of a key. */
    ghost function At(k: Value): Value
      reads this, arr, node
    {
      AtIn(arr[..], node[..], Norm(r, k))
    }

    /** A key can be added without rehashing. */
    ghost predicate HasRoom(k: Value)
      reads this, node
    {
      InArray(k) || (!dummy && Used(node[..]) < node.Length)
    }

    constructor (rules: Rules)
      ensures Valid() && r == rules && fresh(arr) && fresh(node)
      ensures forall q :: At(q) == Nil
    {
      r := rules;
      arr := new Value[0];
      node := new Node[1](_ => EMPTY);
      dummy, lastfree := true, 0;
      rank := seq(1, _ => 0);
      new;
      EmptyOk(r.hash, node[..]);
    }

    // ----- the hash part -----

    /** The node that holds a key, looked for on the chain from its main position. */
    method FindNode(k: Value) returns (found: Option<nat>)
      requires HashOk() && k != Nil
      ensures found.Some? ==> found.value < node.Length && node[found.value].key == k
      ensures found.None? ==> AbsentIn(node[..], k)
    {
      var n: nat := Main(r.hash, k, node.Length);
      ghost var ns := node[..];
      ChainFirst(r.hash, ns, rank, k);
      hide *;
      while true
        invariant n < |ns| && node[..] == ns && Ranked(ns, rank) && |rank| == |ns| && Ahead(ns, rank, n, k)
        decreases rank[n]
      {
        if node[n].key == k {
          return Some(n);
        }
        ChainNext(ns, rank, n, k);
        if node[n].next == 0 {
          return None;
        }
        n := n + node[n].next;
      }
    }

    /** The value of a key. */
    method Get(key: Value) returns (v: Value)
      requires Valid()
      ensures v == At(key)
    {
      var k := Norm(r, key);
      if k == Nil {
        return Nil;
      }
      if InArray(k) {
        return arr[k.i - 1];
      }
      var found := FindNode(k);
      hide Reach, LinksOk, Ranked, SinglePred, KeysReached, Brent;
      match found
      case Some(n) =>
        LookupAt(node[..], n);
        return node[n].val;
      case None =>
        LookupNone(node[..], k);
        return Nil;
    }

    /** The last unused node before lastfree. */
    method GetFreePos() returns (free: Option<nat>)
      requires HashOk()
      modifies `lastfree
      ensures HashCore()
      ensures free.Some? ==>
        !dummy && free.value == lastfree < node.Length && node[lastfree].key == Nil && UsedTail(node[..], lastfree + 1)
      ensures free.None? ==> HashOk() && (!dummy ==> UsedTail(node[..], 0))
    {
      hide NodesOk;
      while lastfree > 0
        invariant HashOk()
      {
        lastfree := lastfree - 1;
        if node[lastfree].key == Nil {
          return Some(lastfree);
        }
      }
      return None;
    }

    /** A node for a new key, with no value yet; none if the vector is full. */
    method NewKey(k: Value) returns (pos: Option<nat>)
      requires HashOk() && k != Nil && AbsentIn(node[..], k)
      modifies `lastfree, `rank, node
      ensures HashOk()
      ensures pos.None? ==> node[..] == old(node[..]) && (dummy || Used(node[..]) == node.Length)
      ensures pos.Some? ==> !dummy && Inserted(r.hash, old(node[..]), node[..], rank, pos.value, lastfree, k)
    {
      assert node.Length > 0;
      hide NodesOk, Inserted, PutHere;
      var mp: nat := Main(r.hash, k, node.Length);
      if node[mp].val == Nil && !dummy {
        PutHereDone(r.hash, node[..], rank, mp, lastfree, k);
        PutKey(mp, k);
        InsertedOk(r.hash, old(node[..]), node[..], rank, mp, lastfree, k);
        return Some(mp);
      }
      var free := GetFreePos();
      if free.None? {
        if !dummy { FullOk(node[..]); }
        return None;
      }
      var f := free.value;
      UnusedEmpty(r.hash, node[..], rank, f);
      ghost var ns := node[..];
      var othern: nat := Main(r.hash, node[mp].key, node.Length);
      if othern != mp {
        Displace(othern, mp, f, k);
        InsertedOk(r.hash, ns, node[..], rank, mp, f, k);
        return Some(mp);
      }
      Chain(mp, f, k);
      InsertedOk(r.hash, ns, node[..], rank, f, f, k);
      return Some(f);
    }

    /** Writes a key to a node. */
    method PutKey(mp: nat, k: Value)
      requires mp < node.Length
      modifies node
      ensures node[..] == PutHere(old(node[..]), mp, k)
    {
      node[mp] := node[mp].(key := k);
    }

    /** The node before mp on the chain from othern. */
    method FindPrevious(othern: nat, mp: nat) returns (p: nat)
      requires Before(node[..], rank, othern, mp)
      ensures p < node.Length && Linked(node[..], p) && Succ(node[..], p) == mp
    {
      p := othern;
      ghost var ns := node[..];
      hide *;
      ChainStep(ns, rank, p, mp);
      while p + node[p].next != mp
        invariant p < |ns| == |rank| && node[..] == ns && Before(ns, rank, p, mp)
        invariant 0 <= p + node[p].next < |ns|
        decreases rank[p]
      {
        ChainStep(ns, rank, p, mp);
        p := p + node[p].next;
        ChainStep(ns, rank, p, mp);
      }
      ChainStep(ns, rank, p, mp);
    }

    /** Moves node mp to f behind its predecessor p, and takes its place. */
    method Relink(p: nat, mp: nat, f: nat, k: Value)
      requires p < node.Length && mp < node.Length && f < node.Length && p != mp && p != f && mp != f
      requires node[f].next == 0
      modifies node
      ensures node[..] == Move(old(node[..]), p, mp, f, k)
    {
      node[p] := node[p].(next := f - p);
      node[f] := node[mp];
      if node[mp].next != 0 {
        node[f] := node[f].(next := node[f].next + mp - f);
        node[mp] := node[mp].(next := 0);
      }
      node[mp] := node[mp].(val := Nil);
      node[mp] := node[mp].(key := k);
    }

    /** Links node f in behind mp. */
    method Append(mp: nat, f: nat, k: Value)
      requires mp < node.Length && f < node.Length && mp != f && node[f] == EMPTY
      modifies node
      ensures node[..] == PutAfter(old(node[..]), mp, f, k)
    {
      if node[mp].next != 0 { node[f] := node[f].(next := mp + node[mp].next - f); }
      node[mp] := node[mp].(next := f - mp);
      node[f] := node[f].(key := k);
    }

    /** Moves the colliding node to the free node f and puts the key in its place. */
    method Displace(othern: nat, mp: nat, f: nat, k: Value)
      requires HashCore() && !dummy && k != Nil && AbsentIn(node[..], k) && f == lastfree && UsedTail(node[..], f + 1)
      requires f < node.Length && node[f] == EMPTY && mp < node.Length && node[mp].key != Nil
      requires mp == Main(r.hash, k, node.Length) && othern == Main(r.hash, node[mp].key, node.Length) != mp
      modifies node, `rank
      ensures Inserted(r.hash, old(node[..]), node[..], rank, mp, f, k)
    {
      ghost var ns := node[..];
      hide NodesOk, Move, Inserted, Before, Linked, Succ;
      Colliding(r.hash, ns, rank, mp);
      var p := FindPrevious(othern, mp);
      MoveDone(r.hash, ns, rank, p, mp, f, k);
      Relink(p, mp, f, k);
      rank := rank[f := rank[mp]];
    }

    /** Puts the key in the free node f, behind the colliding node. */
    method Chain(mp: nat, f: nat, k: Value)
      requires HashCore() && !dummy && k != Nil && AbsentIn(node[..], k) && f == lastfree && UsedTail(node[..], f + 1)
      requires f < node.Length && node[f] == EMPTY && mp < node.Length && node[mp].key != Nil
      requires mp == Main(r.hash, k, node.Length) == Main(r.hash, node[mp].key, node.Length)
      modifies node, `rank
      ensures Inserted(r.hash, old(node[..]), node[..], rank, f, f, k)
    {
      ghost var ns := node[..];
      hide NodesOk, PutAfter, Inserted;
      PutAfterDone(r.hash, ns, rank, mp, f, k);
      Append(mp, f, k);
      rank := RankAfter(rank, mp, f);
    }
  
    // ----- storing -----

    ghost predicate CellOf(c: Cell, k: Value)
      reads this, node
    {
      match c
      case InArr(i) => i < arr.Length && k == Integer(i + 1)
      case InNode(n) => !dummy && n < node.Length && node[n].key == k != Nil && !InArray(k)
      case NilIndex => k == Nil
      case NaNIndex => k.Float? && r.isNaN(k.bits)
    }

    ghost predicate Kept(a: array<Value>, ns: array<Node>, d: bool)
      reads this
    {
      arr == a && node == ns && dummy == d
    }

    /** The nodes that can be used. */
    ghost function Cap(): nat
      reads this
    {
      if dummy then 0 else node.Length
    }

    method StoreArr(i: nat, v: Value)
      requires Valid() && i < arr.Length
      modifies arr
      ensures Valid()
      ensures forall q :: At(q) == if Norm(r, q) == Integer(i + 1) then v else old(At(q))
    {
      hide NodesOk, Lookup;
      arr[i] := v;
    }

    method StoreNode(n: nat, v: Value)
      requires Valid() && !dummy && n < node.Length && node[n].key != Nil
      modifies node
      ensures Valid() && Used(node[..]) == Used(old(node[..]))
      ensures forall q :: At(q) == if Norm(r, q) == old(node[n].key) then v else old(At(q))
    {
      hide NodesOk, Used, Lookup, Store;
      StoreOk(r.hash, node[..], rank, n, v);
      StoreKeys(r, arr.Length, node[..], n, v);
      PutVal(n, v);
    }

    method PutVal(n: nat, v: Value)
      requires n < node.Length
      modifies node
      ensures node[..] == Store(old(node[..]), n, v)
    {
      node[n] := node[n].(val := v);
    }
  
    // ----- places for keys, and growing -----

    /** Few enough entries to count. */
    ghost predicate Small()
      reads this, arr, node
    {
      Countable(arr[..], node[..])
    }

    /** The place of a key. A key with no place yet gets one, if need be in a bigger table. */
    method Set(key: Value) returns (c: Cell)
      requires Valid() && (HasRoom(Norm(r, key)) || Small())
      modifies this, arr, node
      ensures Valid() && (arr == old(arr) || fresh(arr)) && (node == old(node) || fresh(node))
      ensures CellOf(c, Norm(r, key))
      ensures forall q :: At(q) == old(At(q))
      ensures old(HasRoom(Norm(r, key))) ==> Kept(old(arr), old(node), old(dummy))
      ensures old(HasRoom(Norm(r, key))) ==> Used(node[..]) <= old(Used(node[..])) + Bit(!InArray(Norm(r, key)))
      decreases if HasRoom(Norm(r, key)) then 0 else 2, 0
    {
      var k := Norm(r, key);
      if k == Nil {
        return NilIndex;
      }
      if InArray(k) {
        return InArr(k.i - 1);
      }
      var found := FindNode(k);
      if found.Some? {
        return InNode(found.value);
      }
      if k.Float? && r.isNaN(k.bits) {
        return NaNIndex;
      }
      hide NodesOk, Used, Inserted, Lookup;
      ghost var ns := node[..];
      var pos := NewKey(k);
      if pos.Some? {
        AddedKeeps(r, arr[..], ns, node[..], rank, pos.value, lastfree, k);
        return InNode(pos.value);
      }
      Rehash(k);
      c := Set(k);
    }

    /** Gives a normalized key a value. */
    method PutValue(key: Value, v: Value) returns (ok: bool)
      requires Valid() && (HasRoom(Norm(r, key)) || Small())
      modifies this, arr, node
      ensures Valid() && (arr == old(arr) || fresh(arr)) && (node == old(node) || fresh(node))
      ensures ok == IsKey(r, Norm(r, key))
      ensures forall q :: At(q) == if ok && Norm(r, q) == Norm(r, key) then v else old(At(q))
      ensures old(HasRoom(Norm(r, key))) ==> Kept(old(arr), old(node), old(dummy))
      ensures old(HasRoom(Norm(r, key))) ==> Used(node[..]) <= old(Used(node[..])) + Bit(!InArray(Norm(r, key)))
      decreases if HasRoom(Norm(r, key)) then 0 else 2, 1
    {
      var cell := Set(key);
      hide NodesOk, Used, Lookup;
      match cell
      case InArr(i) =>
        StoreArr(i, v);
        ok := true;
      case InNode(n) =>
        StoreNode(n, v);
        ok := true;
      case NilIndex => ok := false;
      case NaNIndex => ok := false;
    }

    /** A raw assignment, as the program sees it: it changes the value of this key and of
        those that stand for the same integer. Nil and floats that are not a number are
        refused. */
    method SetValue(key: Value, v: Value) returns (ok: bool)
      requires Valid() && (HasRoom(Norm(r, key)) || Small())
      modifies this, arr, node
      ensures Valid() && (arr == old(arr) || fresh(arr)) && (node == old(node) || fresh(node))
      ensures ok == (!key.Nil? && (key.Float? ==> r.integral(key.bits).Some? || !r.isNaN(key.bits)))
      ensures forall q :: At(q) == if ok && SameKey(r, q, key) then v else old(At(q))
    {
      KeysExactly(r, key);
      forall q ensures Norm(r, q) == Norm(r, key) <==> SameKey(r, q, key) { NormSame(r, q, key); }
      hide SameKey, Norm, IsKey, NodesOk, KeysOk, Used, Lookup;
      ok := PutValue(key, v);
    }

    /** Gives the array part another size, keeping what fits. */
    method ReallocArray(size: nat)
      modifies `arr
      ensures fresh(arr) && arr[..] == Resized(old(arr[..]), size)
    {
      var a := new Value[size];
      var i := 0;
      while i < size
        invariant 0 <= i <= size && fresh(a) && arr == old(arr)
        invariant forall x: nat :: x < i ==> a[x] == if x < arr.Length then arr[x] else Nil
      {
        a[i] := if i < arr.Length then arr[i] else Nil;
        i := i + 1;
      }
      arr := a;
    }

    /** A new hash part with room for so many keys. */
    method SetNodeVector(size: nat)
      modifies `node, `dummy, `lastfree, `rank
      ensures Valid() && fresh(node) && AllEmpty(node[..])
      ensures dummy == (size == 0) && Cap() >= size
    {
      var n := if size == 0 then 1 else Pow2(CeilLog2(size));
      node := new Node[n](_ => EMPTY);
      dummy := size == 0;
      lastfree := if dummy then 0 else n;
      rank := seq(n, _ => 0);
      EmptyOk(r.hash, node[..]);
    }
  
    /** Puts the vanishing slice of the old array part into the hash part. */
    method ReinsertArray(old_: array<Value>)
      requires Valid() && arr != old_ && arr.Length <= old_.Length
      requires Used(node[..]) + CountArr(old_[..], arr.Length, old_.Length) <= Cap()
      modifies this, arr, node
      ensures Valid() && Kept(old(arr), old(node), old(dummy)) && old_[..] == old(old_[..])
      ensures Used(node[..]) <= old(Used(node[..])) + CountArr(old_[..], arr.Length, old_.Length)
      ensures forall q :: At(q) == Merge(SliceAt(old_[..], arr.Length, old_.Length, Norm(r, q)), old(At(q)))
      decreases 1, 1
    {
      hide NodesOk, Used, Lookup, AtIn, SliceAt, CountArr, KeysOk, UsedTail, Table.HashOk, IsKey, Norm;
      ghost var a, used := old_[..], Used(node[..]);
      var from := arr.Length;
      var i := from;
      SliceNone(a, from);
      while i < old_.Length
        invariant from <= i <= |a| && Valid() && Kept(old(arr), old(node), old(dummy)) && old_[..] == a
        invariant Used(node[..]) <= used + CountArr(a, from, i)
        invariant forall q :: At(q) == Merge(SliceAt(a, from, i, Norm(r, q)), old(At(q)))
      {
        SliceAtStep(a, from, i);
        IntegerKey(r, i + 1);
        if old_[i] != Nil {
          var ok := PutValue(Integer(i + 1), old_[i]);
        }
        forall q ensures At(q) == Merge(SliceAt(a, from, i + 1, Norm(r, q)), old(At(q))) {
          assert SliceAt(a, from, i + 1, Norm(r, q)) ==
            if Norm(r, q) == Integer(i + 1) then a[i] else SliceAt(a, from, i, Norm(r, q));
        }
        i := i + 1;
      }
    }

    /** Puts the entries of the old hash part into the table. */
    method ReinsertNodes(nold: array<Node>)
      requires Valid() && node != nold && UniqueKeys(nold[..]) && KeysOk(r, 0, nold[..])
      requires forall i: nat :: i < nold.Length && nold[i].key == Nil ==> nold[i].val == Nil
      requires Used(node[..]) + Outside(nold[..], arr.Length) <= Cap()
      modifies this, arr, node
      ensures Valid() && Kept(old(arr), old(node), old(dummy))
      ensures Used(node[..]) <= old(Used(node[..])) + Outside(old(nold[..]), arr.Length)
      ensures forall q :: At(q) == Merge(NodeAt(old(nold[..]), Norm(r, q)), old(At(q)))
      decreases 1, 1
    {
      ghost var ns, used := nold[..], Used(node[..]);
      var j := nold.Length;
      hide NodesOk, Used, Lookup, AtIn, UniqueKeys, NodeAt, Outside;
      EmptySuffix(ns, arr.Length);
      while j > 0
        invariant 0 <= j <= |ns| && Valid() && Kept(old(arr), old(node), old(dummy)) && nold[..] == ns
        invariant Used(node[..]) <= used + Outside(ns[j..], arr.Length)
        invariant forall q :: At(q) == Merge(NodeAt(ns[j..], Norm(r, q)), old(At(q)))
      {
        j := j - 1;
        OutsideStep(ns, j, arr.Length);
        forall k ensures NodeAt(ns[j..], k) == if ns[j].val != Nil && ns[j].key == k then ns[j].val
          else NodeAt(ns[j + 1..], k) {
          NodeAtStep(ns, j, k);
        }
        if nold[j].val != Nil {
          var ok := PutValue(nold[j].key, nold[j].val);
        }
      }
      assert ns[0..] == ns;
    }
  
    /** New sizes for both parts, with everything put in again. */
    method Resize(nasize: nat, nhsize: nat)
      requires Valid() && Rest(arr[..], node[..], nasize) <= nhsize
      modifies this, arr
      ensures Valid() && arr.Length == nasize && (arr == old(arr) || fresh(arr)) && fresh(node)
      ensures dummy == (nhsize == 0) && Cap() >= nhsize
      ensures Used(node[..]) <= Rest(old(arr[..]), old(node[..]), nasize)
      ensures forall q :: At(q) == old(At(q))
      decreases 1, 2
    {
      var aold, nold := arr, node;
      ghost var a, ns := arr[..], node[..];
      OldNodes(r, a, ns, rank);
      hide NodesOk, Used, Lookup, UniqueKeys, KeysOk, Outside, CountArr, AllEmpty;
      if nasize > aold.Length { ReallocArray(nasize); }
      SetNodeVector(nhsize);
      ghost var empty := node[..];
      NoneUsed(empty);
      assert node != nold;
      if nasize < aold.Length {
        ReallocArray(nasize);
        ReinsertArray(aold);
      }
      ReinsertNodes(nold);
      forall q ensures At(q) == old(At(q)) { ResizeSame(r, a, ns, nasize, empty, Norm(r, q)); }
    }

    /** Counts the keys slice by slice, the extra key with them. */
    method NumUse(ek: Value) returns (nums: array<nat>, na: nat, totaluse: nat)
      requires arr.Length <= Pow2(MAXABITS)
      ensures fresh(nums) && Counted(nums[..], arr[..], node[..], ek)
      ensures na == CountArr(arr[..], 0, arr.Length)
        + CountNodes(node[..], 0, Pow2(MAXABITS)) + Bit(KeyIn(ek, 0, Pow2(MAXABITS)))
      ensures totaluse == CountArr(arr[..], 0, arr.Length) + Live(node[..]) + 1
    {
      hide CountArr, CountNodes, KeyIn, Pow2, SliceStart, Live;
      nums := new nat[MAXABITS + 1](_ => 0);
      na := NumUseArray(arr, nums);
      totaluse := na;
      var use: nat;
      use, na := NumUseHash(node, nums, na);
      totaluse := totaluse + use;
      var one := CountInt(ek, nums);
      na := na + one;
      totaluse := totaluse + 1;
    }

    lemma ReadyHere(ek: Value)
      requires Valid() && Small() && IsKey(r, ek) && Norm(r, ek) == ek && !InArray(ek) && AbsentIn(node[..], ek)
      ensures KeysApart(arr[..], node[..], ek) && arr.Length <= Pow2(MAXABITS)
      ensures Keys(arr[..], node[..], ek, 0, Pow2(MAXABITS)) <= Pow2(MAXABITS) / 2
      ensures CountArr(arr[..], 0, arr.Length) + CountNodes(node[..], 0, Pow2(MAXABITS))
        + Bit(KeyIn(ek, 0, Pow2(MAXABITS))) == Keys(arr[..], node[..], ek, 0, Pow2(MAXABITS))
    {
      RehashReady(r, arr[..], node[..], rank, ek);
    }

    /** Sizes for what is there and one key more: the array part is the largest power of two
        of which more than half is in use. Afterwards there is room for the key. */
    method Rehash(ek: Value)
      requires Valid() && Small() && IsKey(r, ek) && Norm(r, ek) == ek && !InArray(ek) && AbsentIn(node[..], ek)
      modifies this, arr
      ensures Valid() && (arr == old(arr) || fresh(arr)) && fresh(node)
      ensures HasRoom(ek) && BestSize(old(arr[..]), old(node[..]), ek, arr.Length)
      ensures forall q :: At(q) == old(At(q))
      decreases 1, 3
    {
      hide NodesOk, KeysOk, Used, Lookup, AtIn, CountArr, CountNodes, Keys, Live, Pow2, BestSize, KeysApart, Norm,
        IsKey, Rest, AbsentIn, Table.HashOk, UsedTail, Counted, Best, Sum, SliceStart;
      ghost var a, ns := arr[..], node[..];
      ReadyHere(ek);
      var nums, na', totaluse := NumUse(ek);
      CountsFit(nums[..], a, ns, ek);
      var asize, na'' := ComputeSizes(nums[..], na');
      BestIsBestSize(nums[..], a, ns, ek, asize, na'');
      RestIs(a, ns, ek, asize);
      Resize(asize, totaluse - na'');
    }
  }

  lemma InsertedOk(h: (Value, nat) -> nat, ns: seq<Node>, ns': seq<Node>, rank: seq<nat>, m: nat, f: nat, k: Value)
    requires Inserted(h, ns, ns', rank, m, f, k)
    ensures NodesOk(h, ns', rank) && UsedTail(ns', f)
  {
  }

  lemma UnusedEmpty(h: (Value, nat) -> nat, ns: seq<Node>, rank: seq<nat>, f: nat)
    requires NodesOk(h, ns, rank) && f < |ns| && ns[f].key == Nil
    ensures ns[f] == EMPTY && forall i: nat :: i < |ns| && ns[i].val != Nil ==> ns[i].key != Nil
  {
  }

  lemma StoreKeys(r: Rules, n: nat, ns: seq<Node>, i: nat, v: Value)
    requires KeysOk(r, n, ns) && i < |ns| && ns[i].key != Nil
    ensures |Store(ns, i, v)| == |ns| && KeysOk(r, n, Store(ns, i, v)) && !KeyIn(ns[i].key, 0, n)
    ensures forall x: nat :: UsedTail(ns, x) ==> UsedTail(Store(ns, i, v), x)
  {
  }

  /** The same, and the key is at node m. */
  lemma AddedKeeps(r: Rules, a: seq<Value>, ns: seq<Node>, ns': seq<Node>, rank: seq<nat>, m: nat, f: nat, k: Value)
    requires Inserted(r.hash, ns, ns', rank, m, f, k) && UniqueKeys(ns) && KeysOk(r, |a|, ns)
    requires k != Nil && Norm(r, k) == k && IsKey(r, k) && !KeyIn(k, 0, |a|)
    ensures SameAt(a, ns, ns') && KeysOk(r, |a|, ns') && Used(ns') <= Used(ns) + 1
    ensures |ns'| == |ns| && m < |ns| && ns'[m].key == k
  {
    InsertedKeeps(r, a, ns, ns', rank, m, f, k);
  }

  lemma EmptySuffix(ns: seq<Node>, n: nat)
    ensures Outside(ns[|ns|..], n) == 0 && forall k :: NodeAt(ns[|ns|..], k) == Nil
  {
  }

  lemma SliceNone(a: seq<Value>, from: nat)
    requires from <= |a|
    ensures CountArr(a, from, from) == 0 && forall k :: SliceAt(a, from, from, k) == Nil
  {
  }

  lemma IntegerKey(r: Rules, i: int)
    ensures Norm(r, Integer(i)) == Integer(i) && IsKey(r, Integer(i))
  {
  }

  lemma SliceAtStep(a: seq<Value>, from: nat, i: nat)
    requires from <= i < |a|
    ensures CountArr(a, from, i + 1) == CountArr(a, from, i) + Bit(a[i] != Nil) <= CountArr(a, from, |a|)
    ensures forall k :: SliceAt(a, from, i + 1, k) == if k == Integer(i + 1) then a[i] else SliceAt(a, from, i, k)
    ensures SliceAt(a, from, i, Integer(i + 1)) == Nil
  {
    CountArrSplit(a, from, i + 1, |a|);
    forall k ensures SliceAt(a, from, i + 1, k) == if k == Integer(i + 1) then a[i] else SliceAt(a, from, i, k) {
      if KeyIn(k, from, i + 1) && k.i == i + 1 { assert k == Integer(i + 1); }
    }
  }

  lemma OldNodes(r: Rules, a: seq<Value>, ns: seq<Node>, rank: seq<nat>)
    requires NodesOk(r.hash, ns, rank) && KeysOk(r, |a|, ns)
    ensures UniqueKeys(ns) && KeysOk(r, 0, ns) && forall i: nat :: i < |ns| && ns[i].key == Nil ==> ns[i].val == Nil
  {
  }

  lemma NoneUsed(ns: seq<Node>)
    requires AllEmpty(ns)
    ensures Used(ns) == 0
  {
    UsedEmpty(ns);
  }

  /** The numbers a rehash works with are small enough and say what they should. */
  lemma RehashReady(r: Rules, a: seq<Value>, ns: seq<Node>, rank: seq<nat>, ek: Value)
    requires NodesOk(r.hash, ns, rank) && KeysOk(r, |a|, ns) && Countable(a, ns)
    requires IsKey(r, ek) && !KeyIn(ek, 0, |a|) && AbsentIn(ns, ek)
    ensures KeysApart(a, ns, ek) && |a| <= Pow2(MAXABITS)
    ensures Keys(a, ns, ek, 0, Pow2(MAXABITS)) <= Pow2(MAXABITS) / 2
    ensures CountArr(a, 0, |a|) + CountNodes(ns, 0, Pow2(MAXABITS)) + Bit(KeyIn(ek, 0, Pow2(MAXABITS))) ==
      Keys(a, ns, ek, 0, Pow2(MAXABITS))
  {
    KeysSmall(a, ns, ek);
  }
}
