/** How large the array part of a table should be. */
module TableSizes {
  import opened Common
  import opened LuaValues
  import opened TableNodes
  import opened TableCounts

  /** Array sizes are at most 2^MAXABITS. */
  const MAXABITS: nat := 31

  function Pow2(n: nat): (p: nat)
    ensures p > 0
  {
    if n == 0 then 1 else 2 * Pow2(n - 1)
  }

  lemma {:induction false} Pow2Grows(a: nat, b: nat)
    requires a < b
    ensures 2 * Pow2(a) <= Pow2(b)
  {
    if a + 1 < b { Pow2Grows(a, b - 1); }
  }

  /** The slice (2^(l-1), 2^l] that holds x. */
  function CeilLog2(x: nat): (l: nat)
    requires x > 0
    ensures SliceStart(l) < x <= Pow2(l)
    decreases x
  {
    if x == 1 then 0 else CeilLog2((x + 1) / 2) + 1
  }

  function SliceStart(l: nat): nat {
    if l == 0 then 0 else Pow2(l - 1)
  }

  /** No other slice holds x. */
  lemma SliceUnique(x: nat, l: nat)
    requires x > 0
    ensures SliceStart(l) < x <= Pow2(l) <==> l == CeilLog2(x)
  {
  }

  // ----- counting keys -----

  /** The keys in (lo, hi] that have a value in an array part. */
  function CountArr(a: seq<Value>, lo: nat, hi: nat): nat {
    if hi <= lo then 0 else CountArr(a, lo, hi - 1) + Bit(hi <= |a| && a[hi - 1] != Nil)
  }

  predicate KeyIn(k: Value, lo: nat, hi: nat) {
    k.Integer? && lo < k.i <= hi
  }

  /** The nodes with a value whose key is in (lo, hi]. */
  function CountNodes(ns: seq<Node>, lo: nat, hi: nat): nat {
    if ns == [] then 0 else Bit(ns[0].val != Nil && KeyIn(ns[0].key, lo, hi)) + CountNodes(ns[1..], lo, hi)
  }

  /** The nodes with a value. */
  function Live(ns: seq<Node>): nat {
    if ns == [] then 0 else Bit(ns[0].val != Nil) + Live(ns[1..])
  }

  /** The nodes with a value whose key does not fit an array part of size n. */
  function Outside(ns: seq<Node>, n: nat): nat {
    if ns == [] then 0 else Bit(ns[0].val != Nil && !KeyIn(ns[0].key, 0, n)) + Outside(ns[1..], n)
  }

  lemma {:induction false} OutsideRest(ns: seq<Node>, n: nat)
    ensures Outside(ns, n) + CountNodes(ns, 0, n) == Live(ns) <= |ns|
  {
    if ns != [] { OutsideRest(ns[1..], n); }
  }

  lemma {:induction false} CountArrSplit(a: seq<Value>, lo: nat, mid: nat, hi: nat)
    requires lo <= mid <= hi
    ensures CountArr(a, lo, hi) == CountArr(a, lo, mid) + CountArr(a, mid, hi)
  {
    if mid < hi { CountArrSplit(a, lo, mid, hi - 1); }
  }

  lemma {:induction false} CountNodesSplit(ns: seq<Node>, lo: nat, mid: nat, hi: nat)
    requires lo <= mid <= hi
    ensures CountNodes(ns, lo, hi) == CountNodes(ns, lo, mid) + CountNodes(ns, mid, hi)
  {
    if ns != [] { CountNodesSplit(ns[1..], lo, mid, hi); }
  }

  lemma {:induction false} CountArrBeyond(a: seq<Value>, lo: nat, hi: nat)
    requires |a| <= lo
    ensures CountArr(a, lo, hi) == 0
  {
    if lo < hi { CountArrBeyond(a, lo, hi - 1); }
  }

  lemma {:induction false} CountArrBound(a: seq<Value>, lo: nat, hi: nat)
    requires lo <= hi
    ensures CountArr(a, lo, hi) <= hi - lo
  {
    if lo < hi { CountArrBound(a, lo, hi - 1); }
  }

  /** The keys with a value in (lo, hi], and one key more. */
  function Keys(a: seq<Value>, ns: seq<Node>, ek: Value, lo: nat, hi: nat): nat {
    CountArr(a, lo, hi) + CountNodes(ns, lo, hi) + Bit(KeyIn(ek, lo, hi))
  }

  lemma KeysSplit(a: seq<Value>, ns: seq<Node>, ek: Value, lo: nat, mid: nat, hi: nat)
    requires lo <= mid <= hi
    ensures Keys(a, ns, ek, lo, hi) == Keys(a, ns, ek, lo, mid) + Keys(a, ns, ek, mid, hi)
  {
    CountArrSplit(a, lo, mid, hi);
    CountNodesSplit(ns, lo, mid, hi);
  }

  /** Keys are in the array part or in the hash part, and in one place there; the extra key in neither. */
  ghost predicate KeysApart(a: seq<Value>, ns: seq<Node>, ek: Value) {
    && UniqueKeys(ns)
    && (forall i: nat :: i < |ns| ==> !KeyIn(ns[i].key, 0, |a|) && ns[i].key != ek)
    && !KeyIn(ek, 0, |a|)
  }

  lemma {:induction false} OneNode(ns: seq<Node>, n: nat)
    requires UniqueKeys(ns)
    ensures CountNodes(ns, n, n + 1) <= 1
    ensures (forall i: nat :: i < |ns| ==> ns[i].key != Integer(n + 1)) ==> CountNodes(ns, n, n + 1) == 0
  {
    if ns != [] {
      assert forall i: nat :: i < |ns[1..]| ==> ns[1..][i] == ns[i + 1];
      OneNode(ns[1..], n);
    }
  }

  lemma {:induction false} KeysBound(a: seq<Value>, ns: seq<Node>, ek: Value, n: nat)
    requires KeysApart(a, ns, ek)
    ensures Keys(a, ns, ek, 0, n) <= n
  {
    if n > 0 {
      KeysBound(a, ns, ek, n - 1);
      KeysSplit(a, ns, ek, 0, n - 1, n);
      OneNode(ns, n - 1);
      assert CountArr(a, n - 1, n) == Bit(n <= |a| && a[n - 1] != Nil);
    } else {
      NoKeys(ns);
    }
  }

  lemma {:induction false} NoKeys(ns: seq<Node>)
    ensures CountNodes(ns, 0, 0) == 0
  {
    if ns != [] { NoKeys(ns[1..]); }
  }

  // ----- the count array and the best size -----

  function Sum(nums: seq<nat>, n: nat): nat
    requires n <= |nums|
  {
    if n == 0 then 0 else Sum(nums, n - 1) + nums[n - 1]
  }

  /** More than half of the keys 1..2^l are there. */
  predicate Dense(nums: seq<nat>, l: nat)
    requires l < |nums|
  {
    Sum(nums, l + 1) > Pow2(l) / 2
  }

  /** The largest power of two that is more than half full, and how many keys it would hold. */
  ghost predicate Best(nums: seq<nat>, size: nat, na: nat) {
    || (size == 0 && na == 0 && forall l: nat :: l < |nums| ==> !Dense(nums, l))
    || (exists l: nat :: l < |nums| && BestAt(nums, l, size, na))
  }

  ghost predicate BestAt(nums: seq<nat>, l: nat, size: nat, na: nat)
    requires l < |nums|
  {
    size == Pow2(l) && na == Sum(nums, l + 1) && Dense(nums, l) && forall m: nat :: l < m < |nums| ==> !Dense(nums, m)
  }

  lemma {:induction false} SumGrows(nums: seq<nat>, a: nat, b: nat)
    requires a <= b <= |nums|
    ensures Sum(nums, a) <= Sum(nums, b)
  {
    if a < b { SumGrows(nums, a, b - 1); }
  }

  /** Sizes that all the keys together cannot fill to more than half are not dense. */
  lemma NotDenseFrom(nums: seq<nat>, l: nat, m: nat)
    requires l <= m < |nums| && Sum(nums, |nums|) <= Pow2(l) / 2
    ensures !Dense(nums, m)
  {
    SumGrows(nums, m + 1, |nums|);
    if l < m { Pow2Grows(l, m); }
  }

  ghost predicate SizesIn(nums: seq<nat>, pna: nat) {
    && |nums| == MAXABITS + 1 && pna == Sum(nums, |nums|) <= Pow2(MAXABITS) / 2
    && forall l: nat :: l < |nums| ==> Sum(nums, l + 1) <= Pow2(l)
  }

  lemma SizeStart(nums: seq<nat>, pna: nat)
    requires SizesIn(nums, pna)
    ensures Pow2(0) == 1 && Sum(nums, 0) == 0 && |nums| == MAXABITS + 1
  {
  }

  /** An empty slice does not make a size dense. */
  lemma SizeStep(nums: seq<nat>, pna: nat, i: nat)
    requires SizesIn(nums, pna) && i <= MAXABITS && pna > Pow2(i) / 2
    ensures i < MAXABITS && Pow2(i + 1) == 2 * Pow2(i) && Sum(nums, i + 1) == Sum(nums, i) + nums[i]
    ensures Dense(nums, i) <==> Sum(nums, i + 1) > Pow2(i) / 2
    ensures nums[i] == 0 ==> !Dense(nums, i)
  {
  }

  /** The best size among the first i. */
  ghost predicate BestUpTo(nums: seq<nat>, i: nat, best: nat, size: nat, na: nat)
    requires i <= |nums|
  {
    && (size == 0 ==> na == 0 && forall m: nat :: m < i ==> !Dense(nums, m))
    && (size != 0 ==>
          (best < i && size == Pow2(best) && na == Sum(nums, best + 1) && Dense(nums, best)
           && forall m: nat :: best < m < i ==> !Dense(nums, m)))
  }

  lemma BestDone(nums: seq<nat>, pna: nat, i: nat, best: nat, size: nat, na: nat)
    requires SizesIn(nums, pna) && i <= |nums| && BestUpTo(nums, i, best, size, na)
    requires (i == |nums| || pna <= Pow2(i) / 2)
    ensures Best(nums, size, na)
  {
    forall m: nat | i <= m < |nums| ensures !Dense(nums, m) { NotDenseFrom(nums, i, m); }
    hide Sum, Pow2, Dense;
    if size != 0 { assert BestAt(nums, best, size, na); }
  }

  method ComputeSizes(nums: seq<nat>, pna: nat) returns (optimal: nat, na: nat)
    requires SizesIn(nums, pna)
    ensures Best(nums, optimal, na)
  {
    hide *;
    SizeStart(nums, pna);
    var i, twotoi: nat, a := 0, 1, 0;
    optimal, na := 0, 0;
    ghost var best := 0;
    assert BestUpTo(nums, i, best, optimal, na) by { BestNone(nums); }
    while pna > twotoi / 2
      invariant i <= MAXABITS && twotoi == Pow2(i) && a == Sum(nums, i)
      invariant BestUpTo(nums, i, best, optimal, na)
      decreases MAXABITS - i
    {
      SizeStep(nums, pna, i);
      BestStep(nums, i, best, optimal, na);
      if nums[i] > 0 {
        a := a + nums[i];
        if a > twotoi / 2 {
          optimal, na, best := twotoi, a, i;
        }
      }
      i, twotoi := i + 1, twotoi * 2;
    }
    BestDone(nums, pna, i, best, optimal, na);
  }

  lemma BestNone(nums: seq<nat>)
    ensures BestUpTo(nums, 0, 0, 0, 0)
  {
  }

  lemma BestStep(nums: seq<nat>, i: nat, best: nat, size: nat, na: nat)
    requires i < |nums| && BestUpTo(nums, i, best, size, na)
    ensures if Dense(nums, i) then BestUpTo(nums, i + 1, i, Pow2(i), Sum(nums, i + 1))
      else BestUpTo(nums, i + 1, best, size, na)
  {
  }

  // ----- filling the count array -----

  /** Counts from position i up to lim. */
  method CountRange(arr: array<Value>, from: nat, lim: nat) returns (i: nat, lc: nat)
    requires 1 <= from <= lim + 1 && lim <= arr.Length
    ensures i == lim + 1 && lc == CountArr(arr[..], from - 1, lim)
  {
    i, lc := from, 0;
    while i <= lim
      invariant from <= i <= lim + 1 && lc == CountArr(arr[..], from - 1, i - 1)
    {
      if arr[i - 1] != Nil { lc := lc + 1; }
      i := i + 1;
    }
  }

  function Clip(x: nat, n: nat): nat {
    if x <= n then x else n
  }

  lemma SlicesBeyond(a: seq<Value>, lg: nat)
    requires |a| <= SliceStart(lg)
    ensures forall x: nat {:trigger CountArr(a, SliceStart(x), Pow2(x))} :: lg <= x ==>
      CountArr(a, SliceStart(x), Pow2(x)) == 0
  {
    forall x: nat | lg <= x ensures CountArr(a, SliceStart(x), Pow2(x)) == 0 {
      SliceStartGrows(lg, x);
      CountArrBeyond(a, SliceStart(x), Pow2(x));
    }
  }

  /** Counts the array part, slice by slice. */
  method NumUseArray(arr: array<Value>, nums: array<nat>) returns (ause: nat)
    requires nums.Length == MAXABITS + 1 && (forall x: nat :: x < nums.Length ==> nums[x] == 0)
    requires arr.Length <= Pow2(MAXABITS)
    modifies nums
    ensures forall x: nat {:trigger nums[x]} :: x < nums.Length ==> nums[x] == CountArr(arr[..], SliceStart(x), Pow2(x))
    ensures ause == CountArr(arr[..], 0, arr.Length)
  {
    hide CountArr, Pow2, SliceStart, Clip;
    ghost var a := arr[..];
    FirstSlice(a);
    var lg, ttlg: nat, i: nat := 0, 1, 1;
    ause := 0;
    while lg <= MAXABITS
      invariant lg <= nums.Length && ttlg == Pow2(lg)
      invariant i == 1 + Clip(SliceStart(lg), |a|) && ause == CountArr(a, 0, i - 1)
      invariant forall x: nat {:trigger nums[x]} :: x < nums.Length ==>
        nums[x] == if x < lg then CountArr(a, SliceStart(x), Pow2(x)) else 0
    {
      SliceStep(a, lg);
      var lim := ttlg;
      if lim > arr.Length {
        lim := arr.Length;
        if i > lim {
          SlicesBeyond(a, lg);
          return;
        }
      }
      var j, lc := CountRange(arr, i, lim);
      i := j;
      nums[lg] := nums[lg] + lc;
      ause := ause + lc;
      lg, ttlg := lg + 1, ttlg * 2;
    }
  }

  lemma FirstSlice(a: seq<Value>)
    ensures SliceStart(0) == 0 && Pow2(0) == 1 && SliceStart(MAXABITS + 1) == Pow2(MAXABITS)
    ensures CountArr(a, 0, 0) == 0 && Clip(0, |a|) == 0 && (|a| <= Pow2(MAXABITS) ==> Clip(Pow2(MAXABITS), |a|) == |a|)
  {
  }

  lemma SliceStep(a: seq<Value>, lg: nat)
    ensures SliceStart(lg) <= Pow2(lg) == SliceStart(lg + 1) && Pow2(lg + 1) == 2 * Pow2(lg)
    ensures var start, lim := Clip(SliceStart(lg), |a|), Clip(Pow2(lg), |a|);
      && start <= lim <= |a| && lim == (if Pow2(lg) > |a| then |a| else Pow2(lg))
      && (start == |a| ==> SliceStart(lg) >= |a|)
      && CountArr(a, SliceStart(lg), Pow2(lg)) == CountArr(a, start, lim)
      && CountArr(a, 0, lim) == CountArr(a, 0, start) + CountArr(a, start, lim)
  {
    if lg > 0 { Pow2Grows(lg - 1, lg); }
    var start, lim := Clip(SliceStart(lg), |a|), Clip(Pow2(lg), |a|);
    CountArrSplit(a, 0, start, lim);
    if SliceStart(lg) <= |a| {
      CountArrSplit(a, start, lim, Pow2(lg));
    } else {
      CountArrBeyond(a, SliceStart(lg), Pow2(lg));
      CountArrBeyond(a, start, lim);
    }
    if lim < Pow2(lg) { CountArrBeyond(a, lim, Pow2(lg)); }
  }

  lemma SliceStartGrows(a: nat, b: nat)
    requires a <= b
    ensures SliceStart(a) <= SliceStart(b)
  {
    if 0 < a < b { Pow2Grows(a - 1, b - 1); }
  }

  /** The array index of a key; 0 if it cannot live in an array part. */
  function ArrayIndex(key: Value): (i: nat)
    ensures i > 0 <==> KeyIn(key, 0, Pow2(MAXABITS))
    ensures i > 0 ==> key == Integer(i)
  {
    if key.Integer? && 0 < key.i <= Pow2(MAXABITS) then key.i else 0
  }

  /** Counts a key in its slice, if it could live in an array part. */
  method CountInt(key: Value, nums: array<nat>) returns (one: nat)
    requires nums.Length == MAXABITS + 1
    modifies nums
    ensures one == Bit(KeyIn(key, 0, Pow2(MAXABITS)))
    ensures forall x: nat :: x < nums.Length ==> nums[x] == old(nums[x]) + Bit(KeyIn(key, SliceStart(x), Pow2(x)))
  {
    var k := ArrayIndex(key);
    if k != 0 {
      forall x: nat ensures KeyIn(key, SliceStart(x), Pow2(x)) <==> x == CeilLog2(k) { SliceUnique(k, x); }
      if CeilLog2(k) > MAXABITS { SliceStartGrows(MAXABITS + 1, CeilLog2(k)); }
      nums[CeilLog2(k)] := nums[CeilLog2(k)] + 1;
      return 1;
    }
    forall x: nat | x < nums.Length ensures !KeyIn(key, SliceStart(x), Pow2(x)) {
      if x < MAXABITS { Pow2Grows(x, MAXABITS); }
    }
    return 0;
  }

  /** Counts the nodes with a value, and those of them that could live in an array part. */
  method NumUseHash(node: array<Node>, nums: array<nat>, pna: nat) returns (totaluse: nat, na: nat)
    requires nums.Length == MAXABITS + 1
    modifies nums
    ensures totaluse == Live(node[..]) && na == pna + CountNodes(node[..], 0, Pow2(MAXABITS))
    ensures forall x: nat :: x < nums.Length ==> nums[x] == old(nums[x]) + CountNodes(node[..], SliceStart(x), Pow2(x))
  {
    ghost var ns := node[..];
    totaluse := 0;
    var ause: nat, i := 0, node.Length;
    while i > 0
      invariant 0 <= i <= node.Length
      invariant totaluse == Live(ns[i..]) && ause == CountNodes(ns[i..], 0, Pow2(MAXABITS))
      invariant forall x: nat :: x < nums.Length ==>
        nums[x] == old(nums[x]) + CountNodes(ns[i..], SliceStart(x), Pow2(x))
    {
      i := i - 1;
      assert ns[i..][1..] == ns[i + 1..] && ns[i..][0] == ns[i];
      if node[i].val != Nil {
        var one := CountInt(node[i].key, nums);
        ause := ause + one;
        totaluse := totaluse + 1;
      }
    }
    assert ns[0..] == ns;
    na := pna + ause;
  }

  // ----- the counts are the keys -----

  ghost predicate Counted(nums: seq<nat>, a: seq<Value>, ns: seq<Node>, ek: Value) {
    |nums| == MAXABITS + 1 && forall x: nat :: x < |nums| ==> nums[x] == Keys(a, ns, ek, SliceStart(x), Pow2(x))
  }

  lemma {:induction false} SumIsKeys(nums: seq<nat>, a: seq<Value>, ns: seq<Node>, ek: Value, l: nat)
    requires Counted(nums, a, ns, ek) && l < |nums|
    ensures Sum(nums, l + 1) == Keys(a, ns, ek, 0, Pow2(l))
  {
    if l > 0 {
      SumIsKeys(nums, a, ns, ek, l - 1);
      KeysSplit(a, ns, ek, 0, Pow2(l - 1), Pow2(l));
    }
  }

  /** What the chosen size means: the largest power of two n with more than n/2 of the keys 1..n in use. */
  ghost predicate BestSize(a: seq<Value>, ns: seq<Node>, ek: Value, size: nat) {
    && (size == 0 || exists l: nat :: l <= MAXABITS && size == Pow2(l) && Keys(a, ns, ek, 0, size) > size / 2)
    && forall l: nat :: l <= MAXABITS && Pow2(l) > size ==> Keys(a, ns, ek, 0, Pow2(l)) <= Pow2(l) / 2
  }

  lemma DenseKeys(nums: seq<nat>, a: seq<Value>, ns: seq<Node>, ek: Value, l: nat)
    requires Counted(nums, a, ns, ek) && l < |nums|
    ensures Sum(nums, l + 1) == Keys(a, ns, ek, 0, Pow2(l))
    ensures Dense(nums, l) <==> Keys(a, ns, ek, 0, Pow2(l)) > Pow2(l) / 2
  {
    SumIsKeys(nums, a, ns, ek, l);
  }

  lemma BestIsBestSize(nums: seq<nat>, a: seq<Value>, ns: seq<Node>, ek: Value, size: nat, na: nat)
    requires Counted(nums, a, ns, ek) && Best(nums, size, na)
    ensures BestSize(a, ns, ek, size) && na == Keys(a, ns, ek, 0, size) && size <= Pow2(MAXABITS)
  {
    hide Keys, Sum, Pow2, Dense;
    if size == 0 {
      assert Keys(a, ns, ek, 0, 0) == 0 by { KeysNone(a, ns, ek); }
      forall m: nat | m <= MAXABITS ensures Keys(a, ns, ek, 0, Pow2(m)) <= Pow2(m) / 2 {
        DenseKeys(nums, a, ns, ek, m);
      }
    } else {
      var l: nat :| l < |nums| && BestAt(nums, l, size, na);
      if l < MAXABITS { Pow2Grows(l, MAXABITS); }
      DenseKeys(nums, a, ns, ek, l);
      forall m: nat | m <= MAXABITS && Pow2(m) > size ensures Keys(a, ns, ek, 0, Pow2(m)) <= Pow2(m) / 2 {
        if m < l { Pow2Grows(m, l); }
        DenseKeys(nums, a, ns, ek, m);
      }
    }
  }

  lemma KeysNone(a: seq<Value>, ns: seq<Node>, ek: Value)
    ensures Keys(a, ns, ek, 0, 0) == 0
  {
    NoKeys(ns);
  }

  /** The counts meet what ComputeSizes asks for. */
  lemma CountsFit(nums: seq<nat>, a: seq<Value>, ns: seq<Node>, ek: Value)
    requires Counted(nums, a, ns, ek) && KeysApart(a, ns, ek)
    requires Keys(a, ns, ek, 0, Pow2(MAXABITS)) <= Pow2(MAXABITS) / 2
    ensures SizesIn(nums, Keys(a, ns, ek, 0, Pow2(MAXABITS)))
  {
    hide Keys, Pow2, KeysApart;
    SumIsKeys(nums, a, ns, ek, MAXABITS);
    forall l: nat | l < |nums| ensures Sum(nums, l + 1) <= Pow2(l) {
      SumIsKeys(nums, a, ns, ek, l);
      KeysBound(a, ns, ek, Pow2(l));
    }
  }
}
