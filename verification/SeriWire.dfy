/** The bytes of messages, number by number. */
module SeriWire {
  import opened Common
  import opened LuaValues
  import opened SeriBytes
  import opened SeriFormat
  import opened SeriRoundTrip

  /** Lowest byte first. */
  lemma {:induction false} ByteAt(v: nat, n: nat, k: nat)
    requires k < n
    ensures LE(v, n)[k] as nat == v / Power256(k) % 256
  {
    if k > 0 {
      ByteAt(v / 256, n - 1, k - 1);
      DivTwice(v, Power256(k - 1));
    }
  }

  lemma DivTwice(v: nat, p: nat)
    requires p > 0
    ensures v / 256 / p == v / (256 * p)
  {
    var q, r := v / 256 / p, v / 256 % p;
    assert v / 256 == q * p + r;
    assert v == 256 * (q * p + r) + v % 256;
    assert 256 * (q * p) == q * (256 * p);
    QuotientIs(v, q, 256 * p, 256 * r + v % 256);
  }

  lemma QuotientIs(v: nat, q: nat, p: nat, r: nat)
    requires p > 0 && v == q * p + r && r < p
    ensures v / p == q
  {
    var d := v / p - q;
    assert r - v % p == d * p;
  }

  lemma TwoBytes(v: nat)
    ensures LE(v, 1) == [(v % 256) as byte]
    ensures LE(v, 2) == [(v % 256) as byte, (v / 0x100 % 256) as byte]
  {
    assert LE(v, 2) == [(v % 256) as byte] + LE(v / 256, 1);
  }

  /** An integer takes as few bytes as it can: none for zero, one or two if it is not negative,
      four, or eight. */
  lemma IntegerBytes(v: int)
    requires -0x8000_0000_0000_0000 <= v < 0x8000_0000_0000_0000
    ensures v == 0 ==> PackInteger(v) == [2]
    ensures 0 < v < 0x100 ==> PackInteger(v) == [10, v as byte]
    ensures 0x100 <= v < 0x1_0000 ==> PackInteger(v) == [18, (v % 256) as byte, (v / 256) as byte]
    ensures 0x1_0000 <= v < 0x8000_0000 ==> PackInteger(v) == [34] + LE(v, 4)
    ensures -0x8000_0000 <= v < 0 ==> PackInteger(v) == [34] + LE(v + 0x1_0000_0000, 4)
    ensures 0x8000_0000 <= v ==> PackInteger(v) == [50] + LE(v, 8)
    ensures v < -0x8000_0000 ==> PackInteger(v) == [50] + LE(v + 0x1_0000_0000_0000_0000, 8)
  {
    Powers();
    if 0 <= v < 0x1_0000 { TwoBytes(v); }
    hide LE, Power256;
    ModIs(v, if v < 0 then -1 else 0, Power256(8));
    if -0x8000_0000 <= v < 0 { ModIs(v, -1, Power256(4)); }
  }

  /** Nil and booleans take one byte. */
  lemma SmallBytes(a: Atom)
    ensures a.ANil? ==> PackAtom(a) == [0]
    ensures a.ABool? ==> PackAtom(a) == [if a.b then 9 else 1]
  {
  }

  /** Doubles and pointers take nine. */
  lemma LargeBytes(a: Atom)
    ensures a.AReal? ==> PackAtom(a) == [66] + a.bits
    ensures a.APtr? ==> PackAtom(a) == [3] + a.bits
  {
  }

  /** A short string is preceded by its length in the first byte. */
  lemma ShortBytes(s: seq<byte>)
    requires |s| < 32
    ensures PackAtom(AStr(s)) == [(4 + 8 * |s|) as byte] + s
  {
    hide LE, PackInteger;
  }

  /** A longer one by its length in two or four bytes. */
  lemma LongBytes(s: seq<byte>)
    requires |s| >= 32
    ensures PackAtom(AStr(s)) == (if |s| < 0x1_0000 then [21] + LE(|s|, 2) else [37] + LE(|s|, 4)) + s
  {
    hide LE, PackInteger;
  }

  /** A table is the number of its array elements, these elements, the other entries, and a nil. */
  lemma TableBytes(arr: seq<Packed>, entries: seq<Pair>, depth: nat)
    requires PackOne(Table(arr, entries), depth).Some?
    ensures PackSeq(arr, depth + 1).Some? && PackEntries(entries, |arr|, depth + 1).Some?
    ensures PackOne(Table(arr, entries), depth).value ==
      (if |arr| < 31 then [(6 + 8 * |arr|) as byte] else [254] + PackInteger(|arr|))
      + PackSeq(arr, depth + 1).value + PackEntries(entries, |arr|, depth + 1).value + [0]
  {
    hide PackInteger;
  }

  /** A value in k tables, each the only element of the next. */
  function Nest(k: nat, a: Atom): Packed {
    if k == 0 then Leaf(a) else var v := Nest(k - 1, a); Table([v], [Pair(Leaf(AInt(1)), v)])
  }

  /** The same with a key that is not an array index. */
  function NestUnder(k: nat, key: Atom, a: Atom): Packed {
    if k == 0 then Leaf(a) else Table([], [Pair(Leaf(key), NestUnder(k - 1, key, a))])
  }

  lemma {:induction false} NestReaches(k: nat, key: Atom, a: Atom)
    ensures Supported(Nest(k, a)) && Reached(Nest(k, a)) == k
    ensures Supported(NestUnder(k, key, a)) && Reached(NestUnder(k, key, a)) == k
  {
    if k > 0 {
      NestReaches(k - 1, key, a);
      NestLevel(Nest(k - 1, a), key);
      NestLevel(NestUnder(k - 1, key, a), key);
    }
  }

  lemma NestLevel(v: Packed, key: Atom)
    requires Supported(v)
    ensures var t := Table([v], [Pair(Leaf(AInt(1)), v)]); Supported(t) && Reached(t) == 1 + Reached(v)
    ensures var t := Table([], [Pair(Leaf(key), v)]); Supported(t) && Reached(t) == 1 + Reached(v)
  {
    var es, es' := [Pair(Leaf(AInt(1)), v)], [Pair(Leaf(key), v)];
    assert es[1..] == [] && es'[1..] == [] && [v][1..] == [];
    assert Reached(Leaf(key)) == 0 && ReachedAll([]) == 0 && ReachedEntries([], 0) == 0;
    assert ReachedAll([v]) == 1 + Reached(v);
    assert ReachedEntries(es, 1) == 0;
    assert ReachedEntries(es', 0) == 1 + Reached(v);
    assert SupportedAll([]) && SupportedEntries([], 0) && SupportedEntries([], 1);
    assert SupportedAll([v]) && SupportedEntries(es, 1);
    assert Supported(Leaf(key)) && Supported(es'[0].val);
    assert SupportedEntries(es', 0);
  }

  /** A value in 32 tables is packed; in 33 it is not. */
  lemma NestingLimit(k: nat, key: Atom, a: Atom)
    ensures PackOne(Nest(k, a), 0).Some? <==> k <= 32
    ensures PackOne(NestUnder(k, key, a), 0).Some? <==> k <= 32
  {
    hide PackOne, Nest, NestUnder, Reached, Supported;
    NestReaches(k, key, a);
    PackSucceeds(Nest(k, a), 0);
    PackSucceeds(NestUnder(k, key, a), 0);
  }

  // ----- what a message means -----

  /** The receiver's table has a value for a key exactly if the sender's had, and it is what
      that value means. */
  lemma FieldsMean(arr: seq<Packed>, entries: seq<Pair>, k: Atom)
    requires WellFormed(Table(arr, entries))
    ensures var m := Meaning(Table(arr, entries));
      && m.Fields? && (k in m.m <==> Find(entries, k) != Leaf(ANil))
      && (k in m.m ==> m.m[k] == Meaning(Find(entries, k)))
    ensures forall i: nat :: i < |arr| && arr[i] != Leaf(ANil) ==>
      AInt(i + 1) in FieldsOf(entries) && FieldsOf(entries)[AInt(i + 1)] == Meaning(arr[i])
  {
    hide FieldsOf, Find, EntriesWell, DistinctKeys, AllWell, Meaning;
    FieldsFind(entries);
    FieldIs(entries, k);
    forall i: nat | i < |arr| && arr[i] != Leaf(ANil)
      ensures AInt(i + 1) in FieldsOf(entries) && FieldsOf(entries)[AInt(i + 1)] == Meaning(arr[i])
    {
      FieldIs(entries, AInt(i + 1));
    }
    TableMeans(arr, entries);
  }

  lemma TableMeans(arr: seq<Packed>, entries: seq<Pair>)
    ensures Meaning(Table(arr, entries)) == Fields(FieldsOf(entries))
  {
  }

  lemma FieldIs(entries: seq<Pair>, k: Atom)
    requires EntriesWell(entries)
    ensures k in FieldsOf(entries) <==> Find(entries, k) != Leaf(ANil)
    ensures k in FieldsOf(entries) ==> FieldsOf(entries)[k] == Meaning(Find(entries, k))
  {
    hide FieldsOf, Find, EntriesWell, Meaning;
    FieldsFind(entries);
    MeaningNil(Find(entries, k));
    assert Field(FieldsOf(entries), k) == Meaning(Find(entries, k));
  }

  // ----- what bytes mean, packed or not -----

  /** A first byte and what follows it: nil, a boolean; some kinds are refused. */
  lemma HeadRead(cookie: nat, x: seq<byte>)
    requires cookie < 32
    ensures ParseOne([(8 * cookie) as byte] + x) == Good(Plain(ANil), x)
    ensures ParseOne([(1 + 8 * cookie) as byte] + x) == Good(Plain(ABool(cookie > 0)), x)
    ensures cookie !in {0, 1, 2, 4, 6, 8} ==> ParseOne([(2 + 8 * cookie) as byte] + x) == Bad
    ensures ParseOne([(7 + 8 * cookie) as byte] + x) == Bad
  {
    hide ParseOne;
    ParseHead(0, cookie, x);
    ParseHead(1, cookie, x);
    ParseHead(2, cookie, x);
    ParseHead(7, cookie, x);
  }

  /** Small integers are not signed, and the lower byte comes first. */
  lemma SmallRead(b: seq<byte>)
    requires |b| > 0
    ensures b[0] == 2 ==> ParseOne(b) == Good(Plain(AInt(0)), b[1..])
    ensures b[0] == 10 ==> ParseOne(b) == if |b| < 2 then Bad else Good(Plain(AInt(b[1] as int)), b[2..])
    ensures b[0] == 18 ==>
      ParseOne(b) == if |b| < 3 then Bad else Good(Plain(AInt(b[1] as int + 256 * b[2] as int)), b[3..])
  {
    hide FromLE, ParseTable, ParseLongString, ParseString, ParseSigned;
    if |b| > 1 { OneRead(b[1..][..1]); }
    if |b| > 2 { TwoRead(b[1..][..2]); }
  }

  lemma OneRead(b: seq<byte>)
    requires |b| == 1
    ensures FromLE(b) == b[0] as nat
  {
    assert FromLE(b[1..]) == 0;
  }

  lemma TwoRead(b: seq<byte>)
    requires |b| == 2
    ensures FromLE(b) == b[0] as nat + 256 * b[1] as nat
  {
    OneRead(b[1..]);
  }
}
