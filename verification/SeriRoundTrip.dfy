/** What is packed is unpacked again. */
module SeriRoundTrip {
  import opened Common
  import opened LuaValues
  import opened SeriBytes
  import opened SeriFormat

  /** Machine values: 64-bit integers and pointers, doubles, strings of less than 2^31 bytes. */
  predicate AtomOk(a: Atom) {
    match a
    case AInt(i) => -0x8000_0000_0000_0000 <= i < 0x8000_0000_0000_0000
    case AReal(bits) => |bits| == 8
    case APtr(bits) => |bits| == 8
    case AStr(s) => |s| < 0x8000_0000
    case ANil => true
    case ABool(_) => true
  }

  /** The value a table has for a key. */
  function Find(es: seq<Pair>, k: Atom): Packed {
    if es == [] then Leaf(ANil) else if es[0].key == Leaf(k) then es[0].val else Find(es[1..], k)
  }

  ghost predicate DistinctKeys(es: seq<Pair>) {
    forall i: nat, j: nat :: i < j < |es| && es[i].key.Leaf? ==> es[i].key != es[j].key
  }

  /** The accessors agree with each other, and there are no nil keys and values. */
  ghost predicate WellFormed(v: Packed)
    decreases v, 0
  {
    match v
    case Leaf(a) => AtomOk(a)
    case Unsupported => true
    case Table(arr, entries) =>
      && |arr| < 0x8000_0000 && DistinctKeys(entries)
      && (forall i: nat :: i < |arr| ==> arr[i] == Find(entries, AInt(i + 1)))
      && AllWell(arr) && EntriesWell(entries)
  }

  ghost predicate AllWell(vs: seq<Packed>)
    decreases vs, 1
  {
    vs != [] ==> WellFormed(vs[0]) && AllWell(vs[1..])
  }

  ghost predicate EntriesWell(es: seq<Pair>)
    decreases es, 1
  {
    es != [] ==>
      assert es[0].val < es[0];
      KeyOk(es[0].key) && es[0].val != Leaf(ANil) && WellFormed(es[0].val) && EntriesWell(es[1..])
  }

  predicate KeyOk(k: Packed) {
    match k
    case Leaf(a) => a != ANil && AtomOk(a)
    case Unsupported => true
    case Table(_, _) => false
  }

  /** What the receiver should get. (Unsupported values are never packed.) */
  function Meaning(v: Packed): Unpacked
    decreases v, 0
  {
    match v
    case Leaf(a) => Plain(a)
    case Unsupported => Fields(map[])
    case Table(_, entries) => Fields(FieldsOf(entries))
  }

  function FieldsOf(es: seq<Pair>): map<Atom, Unpacked>
    decreases es, 1
  {
    if es == [] then map[] else
    assert es[0].val < es[0];
    var m := FieldsOf(es[1..]);
    if es[0].key.Leaf? then m[es[0].key.a := Meaning(es[0].val)] else m
  }

  // ----- values without parts -----

  lemma ModIs(x: int, q: int, p: int)
    requires p > 0 && 0 <= x - q * p < p
    ensures x % p == x - q * p
  {
    var d := x / p - q;
    assert x - q * p == d * p + x % p;
  }

  lemma Wraps(v: int, n: nat)
    requires n > 0 && 0 - Power256(n) <= 2 * v < Power256(n)
    ensures Wrap(v, n) == Unsigned(v, n)
  {
    hide Power256;
    ModIs(v, if v < 0 then -1 else 0, Power256(n));
  }

  lemma TakeFirst(x: seq<byte>, rest: seq<byte>)
    ensures Take(x + rest, |x|) == Good(x, rest)
  {
  }

  lemma UnsignedParse(v: nat, n: nat, rest: seq<byte>)
    requires v < Power256(n)
    ensures ParseUnsigned(n, LE(v, n) + rest) == Good(v, rest)
  {
  }

  lemma SignedParse(v: int, n: nat, rest: seq<byte>)
    requires n > 0 && 0 - Power256(n) <= 2 * v < Power256(n)
    ensures ParseSigned(n, LE(Wrap(v, n), n) + rest) == Good(v, rest)
  {
    Wraps(v, n);
    SignedRoundTrip(v, n);
    TakeFirst(LE(Wrap(v, n), n), rest);
  }

  lemma IntegerParse(v: int, rest: seq<byte>)
    requires AtomOk(AInt(v))
    ensures var b := PackInteger(v); b != [] && b[0] as nat % 8 == TYPE_NUMBER && b[0] as nat / 8 != NUMBER_REAL
    ensures ParseInteger(PackInteger(v)[0] as nat / 8, PackInteger(v)[1..] + rest) == Good(v, rest)
  {
    Powers();
    var b := PackInteger(v);
    hide Power256, ParseSigned, ParseUnsigned, LE, Wrap;
    if v == 0 {
      assert b[1..] + rest == rest;
    } else if !Is32(v) {
      assert b[1..] == LE(Wrap(v, 8), 8);
      SignedParse(v, 8, rest);
    } else if v < 0 {
      assert b[1..] == LE(Wrap(v, 4), 4);
      SignedParse(v, 4, rest);
    } else if v < 0x100 {
      assert b[1..] == LE(v, 1);
      UnsignedParse(v, 1, rest);
    } else if v < 0x1_0000 {
      assert b[1..] == LE(v, 2);
      UnsignedParse(v, 2, rest);
    } else {
      assert b[1..] == LE(v, 4);
      assert Wrap(v, 4) == v by { WrapSmall(v, 4); }
      SignedParse(v, 4, rest);
    }
  }

  lemma WrapSmall(v: nat, n: nat)
    requires v < Power256(n)
    ensures Wrap(v, n) == v
  {
    ModIs(v, 0, Power256(n));
  }

  /** A first byte is taken apart the way it was put together. */
  lemma ParseHead(t: nat, cookie: nat, x: seq<byte>)
    requires t < 8 && cookie < 32
    ensures ParseOne([Combine(t, cookie)] + x) == ParseValue(t, cookie, x)
  {
  }

  lemma LongStringParse(n: nat, s: seq<byte>, rest: seq<byte>)
    requires |s| < Power256(n)
    ensures ParseLongString(n, LE(|s|, n) + (s + rest)) == Good(Plain(AStr(s)), rest)
  {
    LERoundTrip(|s|, n);
    TakeFirst(LE(|s|, n), s + rest);
    TakeFirst(s, rest);
  }

  lemma StringParse(s: seq<byte>, rest: seq<byte>)
    requires AtomOk(AStr(s))
    ensures PackString(s) != [] && ParseOne(PackString(s) + rest) == Good(Plain(AStr(s)), rest)
  {
    Powers();
    hide LE, ParseLongString, Power256, ParseOne, Take;
    if |s| < MAX_COOKIE {
      assert PackString(s) + rest == [Combine(TYPE_SHORT_STRING, |s|)] + (s + rest);
      ParseHead(TYPE_SHORT_STRING, |s|, s + rest);
      TakeFirst(s, rest);
    } else {
      var n := if |s| < 0x1_0000 then 2 else 4;
      assert PackString(s) + rest == [Combine(TYPE_LONG_STRING, n)] + (LE(|s|, n) + (s + rest));
      ParseHead(TYPE_LONG_STRING, n, LE(|s|, n) + (s + rest));
      LongStringParse(n, s, rest);
    }
  }

  lemma NumberParse(v: int, rest: seq<byte>)
    requires AtomOk(AInt(v))
    ensures ParseOne(PackInteger(v) + rest) == Good(Plain(AInt(v)), rest)
  {
    var b := PackInteger(v);
    IntegerParse(v, rest);
    hide *;
    assert (b + rest)[0] == b[0] && (b + rest)[1..] == b[1..] + rest;
    NumberStep(b + rest, v, rest);
  }

  lemma NumberStep(b: seq<byte>, v: int, rest: seq<byte>)
    requires b != [] && b[0] as nat % 8 == TYPE_NUMBER && b[0] as nat / 8 != NUMBER_REAL
    requires ParseInteger(b[0] as nat / 8, b[1..]) == Good(v, rest)
    ensures ParseOne(b) == Good(Plain(AInt(v)), rest)
  {
  }

  /** A head and eight bytes. */
  lemma BitsParse(t: nat, cookie: nat, bits: seq<byte>, rest: seq<byte>)
    requires t < 8 && cookie < 32 && |bits| == 8
    ensures ParseOne([Combine(t, cookie)] + bits + rest) == ParseValue(t, cookie, bits + rest)
    ensures Take(bits + rest, 8) == Good(bits, rest)
  {
    hide ParseOne;
    TakeFirst(bits, rest);
    assert [Combine(t, cookie)] + bits + rest == [Combine(t, cookie)] + (bits + rest);
    ParseHead(t, cookie, bits + rest);
  }

  lemma AtomParse(a: Atom, rest: seq<byte>)
    requires AtomOk(a)
    ensures PackAtom(a) != [] && ParseOne(PackAtom(a) + rest) == Good(Plain(a), rest)
  {
    hide ParseOne, PackString, PackInteger, ParseInteger, Take;
    match a
    case ANil => ParseHead(TYPE_NIL, 0, rest);
    case ABool(b) => ParseHead(TYPE_BOOLEAN, if b then 1 else 0, rest);
    case AInt(i) =>
      IntegerParse(i, rest);
      NumberParse(i, rest);
    case AReal(bits) => BitsParse(TYPE_NUMBER, NUMBER_REAL, bits, rest);
    case APtr(bits) => BitsParse(TYPE_USERDATA, 0, bits, rest);
    case AStr(s) => StringParse(s, rest);
  }

  // ----- tables -----

  /** The array elements, assigned to consecutive keys. */
  function AssignAll(m: map<Atom, Unpacked>, i: int, vs: seq<Packed>): map<Atom, Unpacked>
    decreases |vs|
  {
    if vs == [] then m else AssignAll(Assign(m, AInt(i), Meaning(vs[0])), i + 1, vs[1..])
  }

  function AddAll(m: map<Atom, Unpacked>, es: seq<Pair>, n: nat): map<Atom, Unpacked>
    decreases |es|
  {
    if es == [] then m
    else if Skipped(es[0].key, n) || !es[0].key.Leaf? then AddAll(m, es[1..], n)
    else AddAll(Assign(m, es[0].key.a, Meaning(es[0].val)), es[1..], n)
  }

  /** A packed value is unpacked to what it means, and the bytes after it are left. */
  lemma {:induction false} PackParse(v: Packed, depth: nat, rest: seq<byte>)
    requires WellFormed(v) && PackOne(v, depth).Some?
    ensures PackOne(v, depth).value != []
    ensures ParseOne(PackOne(v, depth).value + rest) == Good(Meaning(v), rest)
    decreases v, 0
  {
    match v
    case Leaf(a) => AtomParse(a, rest);
    case Unsupported =>
    case Table(arr, entries) =>
      var n := |arr|;
      var a := PackSeq(arr, depth + 1).value;
      var e := PackEntries(entries, n, depth + 1).value;
      var end := [Combine(TYPE_NIL, 0)] + rest;
      var b := PackOne(v, depth).value + rest;
      assert b == TableHeader(n) + (a + (e + end));
      HeaderParse(n, a + (e + end));
      SeqParse(arr, 1, n, depth + 1, map[], e + end);
      EntriesParse(entries, n, depth + 1, AssignAll(map[], 1, arr), rest);
      SameFields(arr, entries);
  }

  lemma HeaderParse(n: nat, rest: seq<byte>)
    requires n < 0x8000_0000
    ensures TableHeader(n) != [] && ParseOne(TableHeader(n) + rest) == ParseArray(1, n, map[], rest)
  {
    hide ParseArray, ParseOne, PackInteger, ParseInteger;
    if n >= MAX_COOKIE - 1 {
      var b := PackInteger(n);
      IntegerParse(n, rest);
      assert TableHeader(n) + rest == [Combine(TYPE_TABLE, MAX_COOKIE - 1)] + (b + rest);
      ParseHead(TYPE_TABLE, MAX_COOKIE - 1, b + rest);
      assert (b + rest)[0] == b[0] && (b + rest)[1..] == b[1..] + rest;
    } else {
      ParseHead(TYPE_TABLE, n, rest);
    }
  }

  lemma {:induction false} SeqParse(vs: seq<Packed>, i: int, n: int, depth: nat, m: map<Atom, Unpacked>,
        rest: seq<byte>)
    requires AllWell(vs) && PackSeq(vs, depth).Some? && i + |vs| == n + 1
    ensures ParseArray(i, n, m, PackSeq(vs, depth).value + rest) == ParseEntries(AssignAll(m, i, vs), rest)
    decreases vs, 1
  {
    if vs == [] {
      assert PackSeq(vs, depth).value + rest == rest;
    } else {
      var tail := PackSeq(vs[1..], depth).value + rest;
      PackParse(vs[0], depth, tail);
      assert PackSeq(vs, depth).value + rest == PackOne(vs[0], depth).value + tail;
      SeqParse(vs[1..], i + 1, n, depth, Assign(m, AInt(i), Meaning(vs[0])), rest);
    }
  }

  /** One key and its value. */
  lemma PairParse(m: map<Atom, Unpacked>, b: seq<byte>, k: Atom, b': seq<byte>, v: Unpacked, b'': seq<byte>)
    requires ParseOne(b) == Good(Plain(k), b') && k != ANil && ParseOne(b') == Good(v, b'')
    ensures ParseEntries(m, b) == ParseEntries(Assign(m, k, v), b'')
  {
  }

  /** What is packed of a table's first entry. */
  lemma PackedPair(es: seq<Pair>, n: nat, depth: nat)
    requires EntriesWell(es) && PackEntries(es, n, depth).Some? && es != [] && !Skipped(es[0].key, n)
    ensures es[0].key.Leaf? && es[0].key.a != ANil && WellFormed(es[0].key) && WellFormed(es[0].val)
    ensures EntriesWell(es[1..])
    ensures PackOne(es[0].key, depth).Some? && PackOne(es[0].val, depth).Some? && PackEntries(es[1..], n, depth).Some?
    ensures PackEntries(es, n, depth).value ==
      PackOne(es[0].key, depth).value + PackOne(es[0].val, depth).value + PackEntries(es[1..], n, depth).value
    ensures Meaning(es[0].key) == Plain(es[0].key.a)
  {
  }

  lemma EntriesEnd(n: nat, depth: nat, m: map<Atom, Unpacked>, rest: seq<byte>)
    ensures PackEntries([], n, depth).value + ([Combine(TYPE_NIL, 0)] + rest) == [Combine(TYPE_NIL, 0)] + rest
    ensures ParseEntries(m, [Combine(TYPE_NIL, 0)] + rest) == Good(Fields(AddAll(m, [], n)), rest)
  {
    ParseHead(TYPE_NIL, 0, rest);
  }

  lemma EntrySkipped(es: seq<Pair>, n: nat, depth: nat, m: map<Atom, Unpacked>)
    requires EntriesWell(es) && PackEntries(es, n, depth).Some? && es != [] && Skipped(es[0].key, n)
    ensures EntriesWell(es[1..]) && PackEntries(es, n, depth) == PackEntries(es[1..], n, depth)
    ensures AddAll(m, es, n) == AddAll(m, es[1..], n)
  {
  }

  lemma EntryAdded(es: seq<Pair>, n: nat, m: map<Atom, Unpacked>)
    requires es != [] && !Skipped(es[0].key, n) && es[0].key.Leaf?
    ensures AddAll(m, es, n) == AddAll(Assign(m, es[0].key.a, Meaning(es[0].val)), es[1..], n)
  {
  }

  lemma {:induction false} EntriesParse(es: seq<Pair>, n: nat, depth: nat, m: map<Atom, Unpacked>, rest: seq<byte>)
    requires EntriesWell(es) && PackEntries(es, n, depth).Some?
    ensures ParseEntries(m, PackEntries(es, n, depth).value + ([Combine(TYPE_NIL, 0)] + rest)) ==
      Good(Fields(AddAll(m, es, n)), rest)
    decreases es, 1
  {
    var end := [Combine(TYPE_NIL, 0)] + rest;
    hide *;
    if es == [] {
      EntriesEnd(n, depth, m, rest);
    } else if Skipped(es[0].key, n) {
      EntrySkipped(es, n, depth, m);
      EntriesParse(es[1..], n, depth, m, rest);
    } else {
      var key, val := es[0].key, es[0].val;
      assert key < es[0] && val < es[0];
      PackedPair(es, n, depth);
      EntryAdded(es, n, m);
      var k, v := PackOne(key, depth).value, PackOne(val, depth).value;
      var tail := PackEntries(es[1..], n, depth).value + end;
      PackParse(key, depth, v + tail);
      PackParse(val, depth, tail);
      Regroup(k, v, PackEntries(es[1..], n, depth).value, end);
      EntriesParse(es[1..], n, depth, Assign(m, key.a, Meaning(val)), rest);
      PairParse(m, k + (v + tail), key.a, v + tail, Meaning(val), tail);
    }
  }

  lemma Regroup(a: seq<byte>, b: seq<byte>, c: seq<byte>, d: seq<byte>)
    ensures a + b + c + d == a + (b + (c + d))
  {
  }

  // ----- the receiver's table has the same fields -----

  function Field(m: map<Atom, Unpacked>, k: Atom): Unpacked {
    if k in m then m[k] else Plain(ANil)
  }

  ghost predicate NoNil(m: map<Atom, Unpacked>) {
    forall k :: k in m ==> m[k] != Plain(ANil)
  }

  /** Nothing that can be packed means nil, but nil. */
  lemma MeaningNil(v: Packed)
    ensures Meaning(v) == Plain(ANil) <==> v == Leaf(ANil)
  {
  }

  lemma {:induction false} FieldsFind(es: seq<Pair>)
    requires EntriesWell(es)
    ensures NoNil(FieldsOf(es)) && forall k :: Field(FieldsOf(es), k) == Meaning(Find(es, k))
  {
    if es != [] {
      FieldsFind(es[1..]);
      MeaningNil(es[0].val);
    }
  }

  lemma {:induction false} AssignAllIs(m: map<Atom, Unpacked>, i: int, vs: seq<Packed>)
    requires NoNil(m)
    ensures NoNil(AssignAll(m, i, vs))
    ensures forall k ::
      Field(AssignAll(m, i, vs), k) == (if k.AInt? && i <= k.i < i + |vs| then Meaning(vs[k.i - i]) else Field(m, k))
    decreases |vs|
  {
    if vs != [] { AssignAllIs(Assign(m, AInt(i), Meaning(vs[0])), i + 1, vs[1..]); }
  }

  /** Keys that are packed get their value, whatever there was before; the others keep it. */
  lemma {:induction false} AddAllIs(m: map<Atom, Unpacked>, es: seq<Pair>, n: nat, k: Atom)
    requires NoNil(m) && EntriesWell(es) && DistinctKeys(es)
    ensures NoNil(AddAll(m, es, n))
    ensures Field(AddAll(m, es, n), k) ==
      if Skipped(Leaf(k), n) || Find(es, k) == Leaf(ANil) then Field(m, k) else Meaning(Find(es, k))
    decreases |es|
  {
    if es != [] {
      var m' := if Skipped(es[0].key, n) || !es[0].key.Leaf? then m else Assign(m, es[0].key.a, Meaning(es[0].val));
      DistinctRest(es);
      AddAllIs(m', es[1..], n, k);
    }
  }

  lemma DistinctRest(es: seq<Pair>)
    requires DistinctKeys(es) && es != []
    ensures DistinctKeys(es[1..])
    ensures es[0].key.Leaf? ==> Find(es[1..], es[0].key.a) == Leaf(ANil)
  {
    assert forall i: nat :: i < |es[1..]| ==> es[1..][i] == es[i + 1];
    if es[0].key.Leaf? { FindNone(es[1..], es[0].key.a); }
  }

  lemma {:induction false} FindNone(es: seq<Pair>, k: Atom)
    requires forall i: nat :: i < |es| ==> es[i].key != Leaf(k)
    ensures Find(es, k) == Leaf(ANil)
  {
    if es != [] { FindNone(es[1..], k); }
  }

  lemma SameFields(arr: seq<Packed>, es: seq<Pair>)
    requires WellFormed(Table(arr, es))
    ensures AddAll(AssignAll(map[], 1, arr), es, |arr|) == FieldsOf(es)
  {
    var m := AssignAll(map[], 1, arr);
    var m' := AddAll(m, es, |arr|);
    AssignAllIs(map[], 1, arr);
    FieldsFind(es);
    forall k ensures NoNil(m') && Field(m', k) == Field(FieldsOf(es), k) { AddAllIs(m, es, |arr|, k); }
    SameMaps(m', FieldsOf(es));
  }

  lemma SameMaps(m: map<Atom, Unpacked>, m': map<Atom, Unpacked>)
    requires NoNil(m) && NoNil(m') && forall k :: Field(m, k) == Field(m', k)
    ensures m == m'
  {
    forall k ensures k in m <==> k in m' { assert Field(m, k) == Field(m', k); }
    forall k | k in m ensures m[k] == m'[k] { assert Field(m, k) == Field(m', k); }
  }

  // ----- messages -----

  function PackAll(vs: seq<Packed>): Option<seq<byte>> {
    PackSeq(vs, 0)
  }

  function Meanings(vs: seq<Packed>): seq<Unpacked> {
    seq(|vs|, i requires 0 <= i < |vs| => Meaning(vs[i]))
  }

  /** Unpacking a packed message gives the values that went in. */
  lemma {:induction false} RoundTrip(vs: seq<Packed>)
    requires AllWell(vs) && PackAll(vs).Some?
    ensures ParseAll(PackAll(vs).value) == Some(Meanings(vs))
  {
    if vs != [] {
      var tail := PackAll(vs[1..]).value;
      PackParse(vs[0], 0, tail);
      RoundTrip(vs[1..]);
      assert [Meaning(vs[0])] + Meanings(vs[1..]) == Meanings(vs);
    }
  }

  function Max(a: nat, b: nat): nat {
    if a < b then b else a
  }

  /** Every part that is packed can be. */
  predicate Supported(v: Packed)
    decreases v, 0
  {
    match v
    case Leaf(_) => true
    case Unsupported => false
    case Table(arr, entries) => SupportedAll(arr) && SupportedEntries(entries, |arr|)
  }

  predicate SupportedAll(vs: seq<Packed>)
    decreases vs, 1
  {
    vs == [] || (Supported(vs[0]) && SupportedAll(vs[1..]))
  }

  predicate SupportedEntries(es: seq<Pair>, n: nat)
    decreases es, 1
  {
    es == [] ||
    (assert es[0].key < es[0] && es[0].val < es[0];
     SupportedEntries(es[1..], n) && (Skipped(es[0].key, n) || (Supported(es[0].key) && Supported(es[0].val))))
  }

  /** Packing succeeds exactly for values whose parts are supported and not too deep. */
  lemma {:induction false} PackSucceeds(v: Packed, depth: nat)
    ensures PackOne(v, depth).Some? <==> Supported(v) && depth + Reached(v) <= MAX_DEPTH
    decreases v, 0
  {
    if depth <= MAX_DEPTH && v.Table? {
      PackSeqSucceeds(v.arr, depth + 1);
      PackEntriesSucceeds(v.entries, |v.arr|, depth + 1);
    }
  }

  /** The deepest level at which a part is packed, counted from the value itself. */
  function Reached(v: Packed): nat
    decreases v, 0
  {
    match v
    case Leaf(_) => 0
    case Unsupported => 0
    case Table(arr, entries) => Max(ReachedAll(arr), ReachedEntries(entries, |arr|))
  }

  function ReachedAll(vs: seq<Packed>): nat
    decreases vs, 1
  {
    if vs == [] then 0 else Max(1 + Reached(vs[0]), ReachedAll(vs[1..]))
  }

  function ReachedEntries(es: seq<Pair>, n: nat): nat
    decreases es, 1
  {
    if es == [] then 0 else
    assert es[0].key < es[0] && es[0].val < es[0];
    var rest := ReachedEntries(es[1..], n);
    if Skipped(es[0].key, n) then rest else Max(Max(1 + Reached(es[0].key), 1 + Reached(es[0].val)), rest)
  }

  lemma {:induction false} PackSeqSucceeds(vs: seq<Packed>, depth: nat)
    requires depth > 0
    ensures PackSeq(vs, depth).Some? <==> SupportedAll(vs) && depth - 1 + ReachedAll(vs) <= Max(MAX_DEPTH, depth - 1)
    decreases vs, 1
  {
    if vs != [] {
      PackSucceeds(vs[0], depth);
      PackSeqSucceeds(vs[1..], depth);
    }
  }

  lemma {:induction false} PackEntriesSucceeds(es: seq<Pair>, n: nat, depth: nat)
    requires depth > 0
    ensures PackEntries(es, n, depth).Some? <==>
      SupportedEntries(es, n) && depth - 1 + ReachedEntries(es, n) <= Max(MAX_DEPTH, depth - 1)
    decreases es, 1
  {
    if es != [] {
      assert es[0].key < es[0] && es[0].val < es[0];
      PackSucceeds(es[0].key, depth);
      PackSucceeds(es[0].val, depth);
      PackEntriesSucceeds(es[1..], n, depth);
    }
  }
}
