/** Packing values into a chain of blocks and unpacking them again. */
module Serializer {
  import opened Common
  import opened LuaValues
  import opened SeriBytes
  import opened SeriFormat
  import opened SeriRoundTrip
  import opened SeriBlocks
  import opened SeriStream

  lemma Assoc(a: seq<byte>, b: seq<byte>, c: seq<byte>)
    ensures a + b + c == a + (b + c)
  {
  }

  // ----- packing -----

  /** A head byte and what follows it. */
  method PushTagged(wb: WriteBlock, head: byte, x: seq<byte>)
    requires wb.Valid()
    modifies wb, wb.heap
    ensures wb.Valid() && wb.Contents() == old(wb.Contents()) + ([head] + x) && wb.Rest() == old(wb.Rest())
  {
    hide *;
    Assoc(wb.Contents(), [head], x);
    wb.Push([head]);
    wb.Push(x);
  }

  method PushInteger(wb: WriteBlock, v: int)
    requires wb.Valid()
    modifies wb, wb.heap
    ensures wb.Valid() && wb.Contents() == old(wb.Contents()) + PackInteger(v) && wb.Rest() == old(wb.Rest())
  {
    hide WriteBlock.Valid, WriteBlock.Contents, WriteBlock.Rest, LE, Wrap;
    if v == 0 {
      wb.Push([Combine(TYPE_NUMBER, NUMBER_ZERO)]);
    } else if !Is32(v) {
      PushTagged(wb, Combine(TYPE_NUMBER, NUMBER_QWORD), LE(Wrap(v, 8), 8));
    } else if v < 0 {
      PushTagged(wb, Combine(TYPE_NUMBER, NUMBER_DWORD), LE(Wrap(v, 4), 4));
    } else if v < 0x100 {
      PushTagged(wb, Combine(TYPE_NUMBER, NUMBER_BYTE), LE(v, 1));
    } else if v < 0x1_0000 {
      PushTagged(wb, Combine(TYPE_NUMBER, NUMBER_WORD), LE(v, 2));
    } else {
      PushTagged(wb, Combine(TYPE_NUMBER, NUMBER_DWORD), LE(v, 4));
    }
  }

  method PushString(wb: WriteBlock, s: seq<byte>)
    requires wb.Valid()
    modifies wb, wb.heap
    ensures wb.Valid() && wb.Contents() == old(wb.Contents()) + PackString(s) && wb.Rest() == old(wb.Rest())
  {
    hide WriteBlock.Valid, WriteBlock.Contents, WriteBlock.Rest, LE;
    ghost var c := wb.Contents();
    if |s| < MAX_COOKIE {
      wb.Push([Combine(TYPE_SHORT_STRING, |s|)]);
      if |s| > 0 { wb.Push(s); }
      Assoc(c, [Combine(TYPE_SHORT_STRING, |s|)], s);
      assert s == [] ==> c + [Combine(TYPE_SHORT_STRING, |s|)] == c + ([Combine(TYPE_SHORT_STRING, |s|)] + s);
    } else {
      var n := if |s| < 0x1_0000 then 2 else 4;
      PushTagged(wb, Combine(TYPE_LONG_STRING, n), LE(|s|, n));
      wb.Push(s);
      Assoc(c, [Combine(TYPE_LONG_STRING, n)] + LE(|s|, n), s);
    }
  }

  method PushAtom(wb: WriteBlock, a: Atom)
    requires wb.Valid()
    modifies wb, wb.heap
    ensures wb.Valid() && wb.Contents() == old(wb.Contents()) + PackAtom(a) && wb.Rest() == old(wb.Rest())
  {
    hide WriteBlock.Valid, WriteBlock.Contents, WriteBlock.Rest, PackInteger, PackString;
    match a
    case ANil => wb.Push([Combine(TYPE_NIL, 0)]);
    case ABool(b) => wb.Push([Combine(TYPE_BOOLEAN, if b then 1 else 0)]);
    case AInt(i) => PushInteger(wb, i);
    case AReal(bits) => PushTagged(wb, Combine(TYPE_NUMBER, NUMBER_REAL), bits);
    case AStr(s) => PushString(wb, s);
    case APtr(bits) => PushTagged(wb, Combine(TYPE_USERDATA, 0), bits);
  }

  /** Bytes already written and what is still to come. */
  function Join(a: seq<byte>, o: Option<seq<byte>>): Option<seq<byte>> {
    match o
    case None => None
    case Some(b) => Some(a + b)
  }

  lemma Prefixed(o: Option<seq<byte>>)
    ensures Join([], o) == o
  {
    if o.Some? { assert [] + o.value == o.value; }
  }

  /** A value, or an error after every block has been given back. */
  method PackValue(wb: WriteBlock, v: Packed, depth: nat) returns (ok: bool)
    requires wb.Valid()
    modifies wb, wb.heap
    ensures ok == PackOne(v, depth).Some?
    ensures ok ==>
      wb.Valid() && wb.Contents() == old(wb.Contents()) + PackOne(v, depth).value && wb.Rest() == old(wb.Rest())
    ensures !ok ==> wb.heap.Valid() && wb.heap.mem == old(wb.Rest())
    decreases v, 1
  {
    if depth > MAX_DEPTH {
      wb.Free();
      return false;
    }
    match v
    case Leaf(a) =>
      PushAtom(wb, a);
      return true;
    case Unsupported =>
      wb.Free();
      return false;
    case Table(_, _) =>
      ok := PackTable(wb, v, depth);
  }

  method PackTable(wb: WriteBlock, t: Packed, depth: nat) returns (ok: bool)
    requires wb.Valid() && t.Table? && depth <= MAX_DEPTH
    modifies wb, wb.heap
    ensures ok == PackOne(t, depth).Some?
    ensures ok ==>
      wb.Valid() && wb.Contents() == old(wb.Contents()) + PackOne(t, depth).value && wb.Rest() == old(wb.Rest())
    ensures !ok ==> wb.heap.Valid() && wb.heap.mem == old(wb.Rest())
    decreases t, 0
  {
    TableParts(t, depth, wb.Contents());
    hide WriteBlock.Valid, WriteBlock.Contents, WriteBlock.Rest, PackOne, PackSeq, PackEntries, TableHeader;
    PushHeader(wb, |t.arr|);
    ok := PackArray(wb, t.arr, depth + 1);
    if !ok {
      return;
    }
    ok := PackHash(wb, t.entries, |t.arr|, depth + 1);
    if !ok {
      return;
    }
    wb.Push([Combine(TYPE_NIL, 0)]);
  }

  lemma TableParts(t: Packed, depth: nat, c: seq<byte>)
    requires t.Table? && depth <= MAX_DEPTH
    ensures var a, e := PackSeq(t.arr, depth + 1), PackEntries(t.entries, |t.arr|, depth + 1);
      && (PackOne(t, depth).Some? <==> a.Some? && e.Some?)
      && (a.Some? && e.Some? ==>
            c + TableHeader(|t.arr|) + a.value + e.value + [Combine(TYPE_NIL, 0)] == c + PackOne(t, depth).value)
  {
  }

  method PushHeader(wb: WriteBlock, n: nat)
    requires wb.Valid()
    modifies wb, wb.heap
    ensures wb.Valid() && wb.Contents() == old(wb.Contents()) + TableHeader(n) && wb.Rest() == old(wb.Rest())
  {
    hide WriteBlock.Valid, WriteBlock.Contents, WriteBlock.Rest, PackInteger;
    if n >= MAX_COOKIE - 1 {
      Assoc(wb.Contents(), [Combine(TYPE_TABLE, MAX_COOKIE - 1)], PackInteger(n));
      wb.Push([Combine(TYPE_TABLE, MAX_COOKIE - 1)]);
      PushInteger(wb, n);
    } else {
      wb.Push([Combine(TYPE_TABLE, n)]);
    }
  }

  method PackArray(wb: WriteBlock, arr: seq<Packed>, depth: nat) returns (ok: bool)
    requires wb.Valid()
    modifies wb, wb.heap
    ensures ok == PackSeq(arr, depth).Some?
    ensures ok ==>
      wb.Valid() && wb.Contents() == old(wb.Contents()) + PackSeq(arr, depth).value && wb.Rest() == old(wb.Rest())
    ensures !ok ==> wb.heap.Valid() && wb.heap.mem == old(wb.Rest())
    decreases arr, 1
  {
    hide *;
    ghost var c, done := wb.Contents(), [];
    SeqStart(arr, depth, c);
    var i: nat := 0;
    while i < |arr|
      invariant i <= |arr| && wb.Valid() && wb.Contents() == c + done && wb.Rest() == old(wb.Rest())
      invariant PackSeq(arr, depth) == Join(done, PackSeq(arr[i..], depth))
    {
      SeqStep(arr, i, depth, done);
      ok := PackValue(wb, arr[i], depth);
      if !ok {
        return;
      }
      Assoc(c, done, PackOne(arr[i], depth).value);
      done := done + PackOne(arr[i], depth).value;
      i := i + 1;
    }
    SeqEnd(arr, depth, done);
    ok := true;
  }

  lemma SeqStart(arr: seq<Packed>, depth: nat, c: seq<byte>)
    ensures PackSeq(arr, depth) == Join([], PackSeq(arr[0..], depth)) && c + [] == c
  {
    assert arr[0..] == arr;
    Prefixed(PackSeq(arr, depth));
  }

  lemma SeqStep(arr: seq<Packed>, i: nat, depth: nat, done: seq<byte>)
    requires i < |arr|
    ensures Join(done, PackSeq(arr[i..], depth)) ==
      if PackOne(arr[i], depth).Some? then Join(done + PackOne(arr[i], depth).value, PackSeq(arr[i + 1..], depth))
        else None
  {
    assert arr[i..][0] == arr[i] && arr[i..][1..] == arr[i + 1..];
    if PackOne(arr[i], depth).Some? && PackSeq(arr[i + 1..], depth).Some? {
      Assoc(done, PackOne(arr[i], depth).value, PackSeq(arr[i + 1..], depth).value);
    }
  }

  lemma SeqEnd(arr: seq<Packed>, depth: nat, done: seq<byte>)
    requires PackSeq(arr, depth) == Join(done, PackSeq(arr[|arr|..], depth))
    ensures PackSeq(arr, depth) == Some(done)
  {
    assert done + [] == done;
  }

  method PackHash(wb: WriteBlock, es: seq<Pair>, n: nat, depth: nat) returns (ok: bool)
    requires wb.Valid()
    modifies wb, wb.heap
    ensures ok == PackEntries(es, n, depth).Some?
    ensures ok ==>
      wb.Valid() && wb.Contents() == old(wb.Contents()) + PackEntries(es, n, depth).value && wb.Rest() == old(wb.Rest())
    ensures !ok ==> wb.heap.Valid() && wb.heap.mem == old(wb.Rest())
    decreases es, 1
  {
    hide *;
    ghost var c, done := wb.Contents(), [];
    EntriesStart(es, n, depth, c);
    var i: nat := 0;
    while i < |es|
      invariant i <= |es| && wb.Valid() && wb.Contents() == c + done && wb.Rest() == old(wb.Rest())
      invariant PackEntries(es, n, depth) == Join(done, PackEntries(es[i..], n, depth))
    {
      EntriesStep(es, i, n, depth, done);
      if !Skipped(es[i].key, n) {
        ghost var k, v := PackOne(es[i].key, depth), PackOne(es[i].val, depth);
        assert es[i].key < es[i] && es[i].val < es[i];
        ok := PackValue(wb, es[i].key, depth);
        if !ok {
          return;
        }
        ok := PackValue(wb, es[i].val, depth);
        if !ok {
          return;
        }
        Assoc(c, done, k.value);
        Assoc(c, done + k.value, v.value);
        done := done + k.value + v.value;
      }
      i := i + 1;
    }
    EntriesEnd(es, n, depth, done);
    ok := true;
  }

  lemma EntriesStart(es: seq<Pair>, n: nat, depth: nat, c: seq<byte>)
    ensures PackEntries(es, n, depth) == Join([], PackEntries(es[0..], n, depth)) && c + [] == c
  {
    assert es[0..] == es;
    Prefixed(PackEntries(es, n, depth));
  }

  lemma EntriesStep(es: seq<Pair>, i: nat, n: nat, depth: nat, done: seq<byte>)
    requires i < |es|
    ensures var k, v := PackOne(es[i].key, depth), PackOne(es[i].val, depth);
      Join(done, PackEntries(es[i..], n, depth)) ==
        if Skipped(es[i].key, n) then Join(done, PackEntries(es[i + 1..], n, depth))
        else if k.Some? && v.Some? then Join(done + k.value + v.value, PackEntries(es[i + 1..], n, depth)) else None
  {
    assert es[i..][0] == es[i] && es[i..][1..] == es[i + 1..];
    var k, v, rest := PackOne(es[i].key, depth), PackOne(es[i].val, depth), PackEntries(es[i + 1..], n, depth);
    if !Skipped(es[i].key, n) && k.Some? && v.Some? && rest.Some? {
      Regroup(done, k.value, v.value, rest.value);
      Assoc(k.value, v.value, rest.value);
      Assoc(done + k.value, v.value, rest.value);
    }
  }

  lemma EntriesEnd(es: seq<Pair>, n: nat, depth: nat, done: seq<byte>)
    requires PackEntries(es, n, depth) == Join(done, PackEntries(es[|es|..], n, depth))
    ensures PackEntries(es, n, depth) == Some(done)
  {
    assert done + [] == done;
  }

  // ----- unpacking -----

  /** The outcome of a reader: a value and the data left, or failure. */
  ghost predicate Reads<T>(p: Parsed<T>, v: Option<T>, data: seq<byte>) {
    match p
    case Bad => v.None?
    case Good(x, rest) => v == Some(x) && data == rest
  }

  /** Reads n bytes. */
  method GetBytes(rb: ReadBlock, n: nat) returns (x: Option<seq<byte>>)
    requires rb.Valid()
    modifies rb, rb.heap
    ensures rb.Valid() && rb.Rest() == old(rb.Rest())
    ensures Reads(Take(old(rb.Data()), n), x, rb.Data())
  {
    hide ReadBlock.Valid, ReadBlock.Data, ReadBlock.Rest;
    x := rb.Read(n);
  }

  method GetInteger(rb: ReadBlock, cookie: nat) returns (v: Option<int>)
    requires rb.Valid()
    modifies rb, rb.heap
    ensures rb.Valid() && rb.Rest() == old(rb.Rest())
    ensures Reads(ParseInteger(cookie, old(rb.Data())), v, rb.Data())
  {
    hide ReadBlock.Valid, ReadBlock.Data, ReadBlock.Rest, Take, FromLE, Signed;
    if cookie == NUMBER_ZERO {
      return Some(0);
    }
    var n := if cookie == NUMBER_BYTE then 1 else if cookie == NUMBER_WORD then 2
      else if cookie == NUMBER_DWORD then 4 else 8;
    if cookie != NUMBER_BYTE && cookie != NUMBER_WORD && cookie != NUMBER_DWORD && cookie != NUMBER_QWORD {
      return None;
    }
    var x := GetBytes(rb, n);
    if x.None? {
      return None;
    }
    v := Some(if n <= 2 then FromLE(x.value) else Signed(FromLE(x.value), n));
  }

  method GetString(rb: ReadBlock, n: nat) returns (v: Option<Unpacked>)
    requires rb.Valid()
    modifies rb, rb.heap
    ensures rb.Valid() && rb.Rest() == old(rb.Rest())
    ensures Reads(ParseString(n, old(rb.Data())), v, rb.Data())
  {
    hide ReadBlock.Valid, ReadBlock.Data, ReadBlock.Rest, Take;
    var x := GetBytes(rb, n);
    v := if x.None? then None else Some(Plain(AStr(x.value)));
  }

  method GetLongString(rb: ReadBlock, n: nat) returns (v: Option<Unpacked>)
    requires rb.Valid()
    modifies rb, rb.heap
    ensures rb.Valid() && rb.Rest() == old(rb.Rest())
    ensures Reads(ParseLongString(n, old(rb.Data())), v, rb.Data())
  {
    hide ReadBlock.Valid, ReadBlock.Data, ReadBlock.Rest, Take, ParseString, FromLE;
    var x := GetBytes(rb, n);
    if x.None? {
      return None;
    }
    v := GetString(rb, FromLE(x.value));
  }

  /** Eight opaque bytes. */
  method GetBits(rb: ReadBlock) returns (x: Option<seq<byte>>)
    requires rb.Valid()
    modifies rb, rb.heap
    ensures rb.Valid() && rb.Rest() == old(rb.Rest())
    ensures Reads(Take(old(rb.Data()), 8), x, rb.Data())
  {
    x := GetBytes(rb, 8);
  }

  method UnpackOne(rb: ReadBlock) returns (v: Option<Unpacked>)
    requires rb.Valid()
    modifies rb, rb.heap
    ensures rb.Valid() && rb.Rest() == old(rb.Rest())
    ensures Reads(ParseOne(old(rb.Data())), v, rb.Data())
    decreases |rb.Data()|, 0
  {
    ghost var d := rb.Data();
    ParseFirst(d);
    hide ReadBlock.Valid, ReadBlock.Data, ReadBlock.Rest, ParseOne, ParseValue;
    var t := GetBytes(rb, 1);
    if t.None? {
      return None;
    }
    v := PushValue(rb, t.value[0] as nat % 8, t.value[0] as nat / 8);
  }

  lemma ParseFirst(d: seq<byte>)
    ensures ParseOne(d) == match Take(d, 1)
      case Bad => Bad
      case Good(x, rest) => ParseValue(x[0] as nat % 8, x[0] as nat / 8, rest)
    ensures Take(d, 1).Good? ==> |Take(d, 1).v| == 1 && |Take(d, 1).rest| < |d|
  {
  }

  method PushValue(rb: ReadBlock, t: nat, cookie: nat) returns (v: Option<Unpacked>)
    requires rb.Valid()
    modifies rb, rb.heap
    ensures rb.Valid() && rb.Rest() == old(rb.Rest())
    ensures Reads(ParseValue(t, cookie, old(rb.Data())), v, rb.Data())
    decreases |rb.Data()|, 4
  {
    hide ReadBlock.Valid, ReadBlock.Data, ReadBlock.Rest, Take, ParseInteger, ParseString, ParseLongString, ParseTable;
    if t == TYPE_NIL {
      return Some(Plain(ANil));
    } else if t == TYPE_BOOLEAN {
      return Some(Plain(ABool(cookie != 0)));
    } else if t == TYPE_NUMBER {
      if cookie == NUMBER_REAL {
        var x := GetBits(rb);
        v := if x.None? then None else Some(Plain(AReal(x.value)));
      } else {
        var i := GetInteger(rb, cookie);
        v := if i.None? then None else Some(Plain(AInt(i.value)));
      }
    } else if t == TYPE_USERDATA {
      var x := GetBits(rb);
      v := if x.None? then None else Some(Plain(APtr(x.value)));
    } else if t == TYPE_SHORT_STRING {
      v := GetString(rb, cookie);
    } else if t == TYPE_LONG_STRING {
      if cookie == 2 {
        v := GetLongString(rb, 2);
      } else if cookie == 4 {
        v := GetLongString(rb, 4);
      } else {
        return None;
      }
    } else if t == TYPE_TABLE {
      v := UnpackTable(rb, cookie);
    } else {
      return None;
    }
  }

  method GetSize(rb: ReadBlock, cookie: nat) returns (n: Option<int>)
    requires rb.Valid()
    modifies rb, rb.heap
    ensures rb.Valid() && rb.Rest() == old(rb.Rest())
    ensures Reads(ParseSize(cookie, old(rb.Data())), n, rb.Data())
  {
    hide ReadBlock.Valid, ReadBlock.Data, ReadBlock.Rest, ParseInteger;
    if cookie != MAX_COOKIE - 1 {
      return Some(cookie);
    }
    var t := GetBytes(rb, 1);
    if t.None? {
      return None;
    }
    var head := t.value[0] as nat;
    if head % 8 != TYPE_NUMBER || head / 8 == NUMBER_REAL {
      return None;
    }
    n := GetInteger(rb, head / 8);
  }

  method UnpackTable(rb: ReadBlock, cookie: nat) returns (v: Option<Unpacked>)
    requires rb.Valid()
    modifies rb, rb.heap
    ensures rb.Valid() && rb.Rest() == old(rb.Rest())
    ensures Reads(ParseTable(cookie, old(rb.Data())), v, rb.Data())
    decreases |rb.Data()|, 3
  {
    hide ReadBlock.Valid, ReadBlock.Data, ReadBlock.Rest, ParseSize, ParseArray;
    ghost var d := rb.Data();
    var n := GetSize(rb, cookie);
    if n.None? {
      return None;
    }
    v := UnpackArray(rb, n.value);
  }

  /** The array elements, and then the other entries. */
  method UnpackArray(rb: ReadBlock, n: int) returns (v: Option<Unpacked>)
    requires rb.Valid()
    modifies rb, rb.heap
    ensures rb.Valid() && rb.Rest() == old(rb.Rest())
    ensures Reads(ParseArray(1, n, map[], old(rb.Data())), v, rb.Data())
    decreases |rb.Data()|, 2
  {
    hide *;
    ghost var d := rb.Data();
    var m: map<Atom, Unpacked> := map[];
    var i := 1;
    while i <= n
      invariant rb.Valid() && rb.Rest() == old(rb.Rest()) && |rb.Data()| <= |d|
      invariant ParseArray(1, n, map[], d) == ParseArray(i, n, m, rb.Data())
      decreases |rb.Data()|
    {
      ArrayStep(i, n, m, rb.Data());
      ghost var p := ParseOne(rb.Data());
      var x := UnpackOne(rb);
      ReadsIs(p, x, rb.Data());
      if x.None? {
        ReadsBad(rb.Data());
        return None;
      }
      m := Assign(m, AInt(i), x.value);
      i := i + 1;
    }
    ArrayStep(i, n, m, rb.Data());
    v := UnpackEntries(rb, m);
  }

  lemma ReadsIs(p: Parsed<Unpacked>, v: Option<Unpacked>, data: seq<byte>)
    requires Reads(p, v, data)
    ensures p.Bad? <==> v.None?
    ensures p.Good? ==> v == Some(p.v) && data == p.rest
  {
  }

  lemma ReadsBad(data: seq<byte>)
    ensures Reads<Unpacked>(Bad, None, data)
  {
  }

  lemma ReadsGood(v: Unpacked, data: seq<byte>)
    ensures Reads(Good(v, data), Some(v), data)
  {
  }

  lemma ArrayStep(i: int, n: int, m: map<Atom, Unpacked>, b: seq<byte>)
    ensures ParseArray(i, n, m, b) ==
      if i > n then ParseEntries(m, b) else match ParseOne(b)
        case Bad => Bad
        case Good(v, rest) => ParseArray(i + 1, n, Assign(m, AInt(i), v), rest)
    ensures ParseOne(b).Good? ==> |ParseOne(b).rest| < |b|
  {
  }

  /** Keys and values up to a nil. */
  method UnpackEntries(rb: ReadBlock, m0: map<Atom, Unpacked>) returns (v: Option<Unpacked>)
    requires rb.Valid()
    modifies rb, rb.heap
    ensures rb.Valid() && rb.Rest() == old(rb.Rest())
    ensures Reads(ParseEntries(m0, old(rb.Data())), v, rb.Data())
    decreases |rb.Data()|, 1
  {
    hide *;
    ghost var d := rb.Data();
    var m := m0;
    while true
      invariant rb.Valid() && rb.Rest() == old(rb.Rest()) && |rb.Data()| <= |d|
      invariant ParseEntries(m0, d) == ParseEntries(m, rb.Data())
      decreases |rb.Data()|
    {
      EntryStep(m, rb.Data());
      ghost var p := ParseOne(rb.Data());
      var k := UnpackOne(rb);
      ReadsIs(p, k, rb.Data());
      if k.None? {
        ReadsBad(rb.Data());
        return None;
      }
      if k.value == Plain(ANil) {
        ReadsGood(Fields(m), rb.Data());
        return Some(Fields(m));
      }
      if !k.value.Plain? {
        ReadsBad(rb.Data());
        return None;
      }
      EntryShorter(rb.Data());
      p := ParseOne(rb.Data());
      EntryRestIs(m, k.value.a, p);
      var x := UnpackOne(rb);
      ReadsIs(p, x, rb.Data());
      if x.None? {
        ReadsBad(rb.Data());
        return None;
      }
      m := Assign(m, k.value.a, x.value);
    }
  }

  lemma EntryShorter(b: seq<byte>)
    ensures ParseOne(b).Good? ==> |ParseOne(b).rest| < |b|
  {
  }

  lemma EntryStep(m: map<Atom, Unpacked>, b: seq<byte>)
    ensures ParseOne(b).Bad? ==> ParseEntries(m, b) == Bad
    ensures ParseOne(b).Good? ==> |ParseOne(b).rest| < |b|
    ensures ParseOne(b).Good? && ParseOne(b).v == Plain(ANil) ==>
      ParseEntries(m, b) == Good(Fields(m), ParseOne(b).rest)
    ensures ParseOne(b).Good? && !ParseOne(b).v.Plain? ==> ParseEntries(m, b) == Bad
    ensures ParseOne(b).Good? && ParseOne(b).v.Plain? && ParseOne(b).v != Plain(ANil) ==>
      ParseEntries(m, b) == EntryRest(m, ParseOne(b).v.a, ParseOne(ParseOne(b).rest))
  {
  }

  /** The entry is assigned, and the others follow. */
  function EntryRest(m: map<Atom, Unpacked>, k: Atom, p: Parsed<Unpacked>): Parsed<Unpacked> {
    match p
    case Bad => Bad
    case Good(v, rest) => ParseEntries(Assign(m, k, v), rest)
  }

  lemma EntryRestIs(m: map<Atom, Unpacked>, k: Atom, p: Parsed<Unpacked>)
    ensures p.Bad? ==> EntryRest(m, k, p) == Bad
    ensures p.Good? ==> EntryRest(m, k, p) == ParseEntries(Assign(m, k, p.v), p.rest)
  {
  }

  // ----- messages -----

  /** The chain holds a message: its length, these bytes, and perhaps unused room. */
  ghost predicate Message(mem: map<nat, Block>, bs: seq<nat>, bytes: seq<byte>, payload: seq<byte>) {
    && Chain(mem, bs, bytes) && bs != [] && 4 + |payload| <= |bytes|
    && FromLE(bytes[..4]) == 4 + |payload| && bytes[4..4 + |payload|] == payload
  }

  /** Packs values into a new chain, or fails leaving the heap as it was. */
  method SeriPack(heap: Heap, vs: seq<Packed>) returns (b: Option<nat>, ghost bs: seq<nat>, ghost bytes: seq<byte>)
    requires heap.Valid()
    modifies heap
    ensures heap.Valid() && (b.Some? <==> PackAll(vs).Some?)
    ensures b.None? ==> heap.mem == old(heap.mem)
    ensures b.Some? ==> bs != [] && b.value == bs[0] && Others(heap.mem, bs) == old(heap.mem)
    ensures b.Some? && 4 + |PackAll(vs).value| < 0x8000_0000 ==> Message(heap.mem, bs, bytes, PackAll(vs).value)
  {
    hide *;
    var wb := new WriteBlock(heap);
    ghost var c := wb.Contents();
    var ok := PackArray(wb, vs, 0);
    PackAllIs(vs);
    if !ok {
      bs, bytes := [], [];
      return None, bs, bytes;
    }
    ghost var payload := PackAll(vs).value;
    assert |c + payload| >= 4;
    var h: nat;
    h, bs, bytes := wb.Close();
    MessageIs(heap.mem, bs, bytes, c, payload);
    b := Some(h);
  }

  lemma PackAllIs(vs: seq<Packed>)
    ensures PackAll(vs) == PackSeq(vs, 0)
  {
  }

  lemma MessageIs(mem: map<nat, Block>, bs: seq<nat>, bytes: seq<byte>, c: seq<byte>, payload: seq<byte>)
    requires Chain(mem, bs, bytes) && bs != [] && |c| == 4 && |c + payload| <= |bytes|
    requires bytes[..|c + payload|] == LE(|c + payload|, 4) + (c + payload)[4..]
    ensures 4 + |payload| < 0x8000_0000 ==> Message(mem, bs, bytes, payload)
  {
    var n := 4 + |payload|;
    assert (c + payload)[4..] == payload;
    assert bytes[..4] == bytes[..n][..4] == LE(n, 4);
    assert bytes[4..n] == bytes[..n][4..] == payload;
    if n < 0x8000_0000 {
      Powers();
      LERoundTrip(n, 4);
    }
  }

  /** Unpacks a message and frees all its blocks. What was packed is what comes out. */
  method SeriUnpack(heap: Heap, b: nat, ghost bs: seq<nat>, ghost bytes: seq<byte>, ghost payload: seq<byte>)
    returns (vs: Option<seq<Unpacked>>)
    requires heap.Valid() && Message(heap.mem, bs, bytes, payload) && b == bs[0]
    modifies heap
    ensures heap.Valid() && vs == ParseAll(payload)
    ensures vs.Some? ==> heap.mem == Others(old(heap.mem), bs)
    ensures forall ps :: AllWell(ps) && PackAll(ps) == Some(payload) ==> vs == Some(Meanings(ps))
  {
    forall ps | AllWell(ps) && PackAll(ps) == Some(payload)
      ensures ParseAll(payload) == Some(Meanings(ps)) { RoundTrip(ps); }
    StartsAt(heap.mem, bs, bytes, payload);
    hide *;
    var rb := new ReadBlock(heap, b, bs, bytes);
    var out: seq<Unpacked> := [];
    ParseAllStart(payload);
    while true
      invariant rb.Valid() && rb.heap == heap && rb.Rest() == Others(old(heap.mem), bs) && fresh(rb)
      invariant ParseAll(payload) == Prepend(out, ParseAll(rb.Data()))
      decreases |rb.Data()|
    {
      ghost var d := rb.Data();
      ParseAllStep(out, d);
      ParseFirst(d);
      var t := rb.Read(1);
      if t.None? {
        ParseAllEnd(out);
        break;
      }
      TakeIs(d);
      ghost var p := ParseOne(d);
      EntryShorter(d);
      var v := PushValue(rb, t.value[0] as nat % 8, t.value[0] as nat / 8);
      ReadsIs(p, v, rb.Data());
      if v.None? {
        rb.HeapOk();
        return None;
      }
      out := out + [v.value];
    }
    rb.Close();
    vs := Some(out);
  }

  function Prepend(a: seq<Unpacked>, o: Option<seq<Unpacked>>): Option<seq<Unpacked>> {
    match o
    case None => None
    case Some(b) => Some(a + b)
  }

  lemma ParseAllStart(d: seq<byte>)
    ensures ParseAll(d) == Prepend([], ParseAll(d))
  {
    if ParseAll(d).Some? { assert [] + ParseAll(d).value == ParseAll(d).value; }
  }

  lemma ParseAllStep(out: seq<Unpacked>, d: seq<byte>)
    ensures d != [] ==> Prepend(out, ParseAll(d)) == match ParseOne(d)
      case Bad => None
      case Good(v, rest) => Prepend(out + [v], ParseAll(rest))
  {
    if d != [] && ParseOne(d).Good? && ParseAll(ParseOne(d).rest).Some? {
      var v, vs := ParseOne(d).v, ParseAll(ParseOne(d).rest).value;
      assert out + ([v] + vs) == out + [v] + vs;
    }
  }

  lemma ParseAllEnd(out: seq<Unpacked>)
    ensures Prepend(out, ParseAll([])) == Some(out)
  {
    assert out + [] == out;
  }

  lemma TakeIs(d: seq<byte>)
    requires d != []
    ensures Take(d, 1) == Good(d[..1], d[1..])
  {
  }

  lemma StartsAt(mem: map<nat, Block>, bs: seq<nat>, bytes: seq<byte>, payload: seq<byte>)
    requires Message(mem, bs, bytes, payload)
    ensures Chain(mem, bs, bytes) && bs != [] && |bytes| >= 4 && 4 <= FromLE(bytes[..4]) <= |bytes|
    ensures bytes[4..FromLE(bytes[..4])] == payload
  {
  }
}
