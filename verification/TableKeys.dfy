/** Keys that are the same to the program: integers, and floats with an integer value. */
module TableKeys {
  import opened Common
  import opened LuaValues
  import opened TableNodes
  import opened TableCounts
  import opened TableSizes
  import opened TableContents
  import opened LuaTable

  /** A float with an integer value finds what is stored under the integer. */
  lemma FloatFindsInteger(t: Table, b: nat, i: int)
    requires t.r.integral(b) == Some(i)
    ensures t.At(Float(b)) == t.At(Integer(i))
  {
  }

  /** Such a float is never kept as a key, in the array part or in a node. */
  lemma NoIntegralFloats(t: Table, b: nat, n: nat)
    requires t.Valid() && t.r.integral(b).Some? && n < t.node.Length
    ensures t.node[n].key != Float(b)
  {
  }

  /** t[x] = v where x is a float with the value i: t[i] is v, and every key that is neither
      i nor a float with the value i has the value it had. */
  method StoreUnderFloat(t: Table, b: nat, i: int, v: Value)
    requires t.Valid() && t.Small() && t.r.integral(b) == Some(i)
    modifies t, t.arr, t.node
    ensures t.Valid() && t.At(Integer(i)) == v && t.At(Float(b)) == v
    ensures forall n: nat :: n < t.node.Length ==> t.node[n].key != Float(b)
    ensures forall q :: q != Integer(i) && !(q.Float? && t.r.integral(q.bits) == Some(i)) ==> t.At(q) == old(t.At(q))
  {
    var ok := t.SetValue(Float(b), v);
    forall n: nat | n < t.node.Length ensures t.node[n].key != Float(b) { NoIntegralFloats(t, b, n); }
  }

  /** v = t[x] where x is a float with the value i gives what t[i] would. */
  method LoadUnderFloat(t: Table, b: nat, i: int) returns (v: Value)
    requires t.Valid() && t.r.integral(b) == Some(i)
    ensures v == t.At(Integer(i))
  {
    v := t.Get(Float(b));
    FloatFindsInteger(t, b, i);
  }

  /** Other keys are different keys: integers, strings and objects are the same key only if
      they are equal, floats without integer value only if their bits are, and never across
      kinds, an integer and a float with its value apart. */
  lemma DifferentKeys(r: Rules, i: int, j: int, b: nat, c: nat, p: Value, q: Value)
    ensures SameKey(r, Integer(i), Integer(j)) <==> i == j
    ensures SameKey(r, Integer(i), Float(b)) <==> r.integral(b) == Some(i)
    ensures r.integral(b).None? ==> (SameKey(r, Float(b), Float(c)) <==> b == c)
    ensures r.integral(b).Some? ==> (SameKey(r, Float(b), Float(c)) <==> r.integral(b) == r.integral(c))
    ensures !p.Integer? && !p.Float? ==> (SameKey(r, p, q) <==> p == q)
    ensures SameKey(r, p, q) == SameKey(r, q, p)
  {
  }

  // ----- the size of the array part -----

  /** The integers from 1 to n that have a value, and the key that is about to be added. */
  ghost function PresentKeys(a: seq<Value>, ns: seq<Node>, ek: Value, n: nat): set<int> {
    set i: int | 0 < i <= n && (AtIn(a, ns, Integer(i)) != Nil || ek == Integer(i))
  }

  lemma {:induction false} KeysAreCounted(a: seq<Value>, ns: seq<Node>, ek: Value, n: nat)
    requires KeysApart(a, ns, ek)
    ensures Keys(a, ns, ek, 0, n) == |PresentKeys(a, ns, ek, n)|
  {
    if n > 0 {
      KeysAreCounted(a, ns, ek, n - 1);
      KeysSplit(a, ns, ek, 0, n - 1, n);
      OneKey(a, ns, ek, n - 1);
      hide *;
      PresentStep(a, ns, ek, n - 1);
    } else {
      NoKeys(ns);
      assert PresentKeys(a, ns, ek, 0) == {};
    }
  }

  lemma PresentStep(a: seq<Value>, ns: seq<Node>, ek: Value, n: nat)
    ensures |PresentKeys(a, ns, ek, n + 1)| ==
      |PresentKeys(a, ns, ek, n)| + Bit(AtIn(a, ns, Integer(n + 1)) != Nil || ek == Integer(n + 1))
  {
    hide AtIn;
    var before, after := PresentKeys(a, ns, ek, n), PresentKeys(a, ns, ek, n + 1);
    if AtIn(a, ns, Integer(n + 1)) != Nil || ek == Integer(n + 1) {
      assert after == before + {n + 1};
    } else {
      assert after == before;
    }
  }

  lemma OneKey(a: seq<Value>, ns: seq<Node>, ek: Value, n: nat)
    requires KeysApart(a, ns, ek)
    ensures Keys(a, ns, ek, n, n + 1) == Bit(AtIn(a, ns, Integer(n + 1)) != Nil || ek == Integer(n + 1))
  {
    assert CountArr(a, n, n + 1) == Bit(n + 1 <= |a| && a[n] != Nil);
    OneNodeExactly(ns, n);
    if ek == Integer(n + 1) { LookupNone(ns, ek); }
    if n + 1 <= |a| { assert forall i: nat :: i < |ns| ==> ns[i].key != Integer(n + 1); }
  }

  lemma {:induction false} OneNodeExactly(ns: seq<Node>, n: nat)
    requires UniqueKeys(ns)
    ensures CountNodes(ns, n, n + 1) ==
      Bit(exists i: nat :: i < |ns| && ns[i].key == Integer(n + 1) && ns[i].val != Nil)
    ensures (exists i: nat :: i < |ns| && ns[i].key == Integer(n + 1) && ns[i].val != Nil) <==>
      Lookup(ns, Integer(n + 1)) != Nil
  {
    if ns != [] {
      assert forall i: nat :: i < |ns[1..]| ==> ns[1..][i] == ns[i + 1];
      OneNodeExactly(ns[1..], n);
      OneNode(ns[1..], n);
      assert (exists i: nat :: i < |ns| && ns[i].key == Integer(n + 1) && ns[i].val != Nil) <==>
        (ns[0].key == Integer(n + 1) && ns[0].val != Nil) ||
        (exists i: nat :: i < |ns[1..]| && ns[1..][i].key == Integer(n + 1) && ns[1..][i].val != Nil);
    }
    if i: nat :| i < |ns| && ns[i].key == Integer(n + 1) {
      LookupAt(ns, i);
    } else {
      LookupNone(ns, Integer(n + 1));
    }
  }

  /** One of the powers of two from 1 to 2^31. */
  ghost predicate IsPower(p: nat) {
    exists l: nat :: l <= 31 && p == Pow2(l)
  }

  lemma Pow31()
    ensures Pow2(31) == 0x8000_0000
  {
    assert Pow2(8) == 0x100;
    assert Pow2(16) == 0x1_0000;
    assert Pow2(24) == 0x100_0000;
  }

  /** They double from 1 to 2^31. */
  lemma PowersDouble(p: nat)
    ensures IsPower(1) && IsPower(0x8000_0000) && (IsPower(p) ==> 1 <= p <= 0x8000_0000)
    ensures 1 < p <= 0x8000_0000 ==> (IsPower(p) <==> p % 2 == 0 && IsPower(p / 2))
  {
    assert Pow2(0) == 1;
    Pow31();
    if IsPower(p) {
      var l: nat :| l <= 31 && p == Pow2(l);
      if l < 31 { Pow2Grows(l, 31); }
      if l > 0 { assert p == 2 * Pow2(l - 1); }
    }
    if p % 2 == 0 && 1 < p <= 0x8000_0000 && IsPower(p / 2) {
      var l: nat :| l <= 31 && p / 2 == Pow2(l);
      assert Pow2(l) < Pow2(31);
      assert p == Pow2(l + 1);
    }
  }

  /** The best size is the largest power of two that more than half of the integers up to it
      would be in use for, the new key included; 0 if there is none. */
  lemma BestSizeMeans(a: seq<Value>, ns: seq<Node>, ek: Value, size: nat)
    requires KeysApart(a, ns, ek)
    ensures BestSize(a, ns, ek, size) <==>
      && (size == 0 || (IsPower(size) && 2 * |PresentKeys(a, ns, ek, size)| > size))
      && forall p: nat :: IsPower(p) && p > size ==> 2 * |PresentKeys(a, ns, ek, p)| <= p
  {
    hide Keys, KeysApart, PresentKeys, Pow2;
    KeysAreCounted(a, ns, ek, size);
    forall p: nat ensures Keys(a, ns, ek, 0, p) == |PresentKeys(a, ns, ek, p)| { KeysAreCounted(a, ns, ek, p); }
    forall p: nat | IsPower(p) && p > 1 ensures p % 2 == 0 { PowersDouble(p); }
    PowersDouble(1);
    if BestSize(a, ns, ek, size) {
      forall p: nat | IsPower(p) && p > size ensures 2 * |PresentKeys(a, ns, ek, p)| <= p {
        var l: nat :| l <= 31 && p == Pow2(l);
        assert Keys(a, ns, ek, 0, Pow2(l)) <= Pow2(l) / 2;
      }
    }
    if forall p: nat :: IsPower(p) && p > size ==> 2 * |PresentKeys(a, ns, ek, p)| <= p {
      forall l: nat | l <= 31 && Pow2(l) > size ensures Keys(a, ns, ek, 0, Pow2(l)) <= Pow2(l) / 2 {
        assert IsPower(Pow2(l));
      }
    }
  }
}
