/** The message format: what a value is packed to and what bytes are unpacked to. */
module SeriFormat {
  import opened Common
  import opened LuaValues
  import opened SeriBytes

  const TYPE_NIL: nat := 0
  const TYPE_BOOLEAN: nat := 1
  const TYPE_NUMBER: nat := 2
  const TYPE_USERDATA: nat := 3
  const TYPE_SHORT_STRING: nat := 4
  const TYPE_LONG_STRING: nat := 5
  const TYPE_TABLE: nat := 6

  const NUMBER_ZERO: nat := 0
  const NUMBER_BYTE: nat := 1
  const NUMBER_WORD: nat := 2
  const NUMBER_DWORD: nat := 4
  const NUMBER_QWORD: nat := 6
  const NUMBER_REAL: nat := 8

  const MAX_COOKIE: nat := 32
  const MAX_DEPTH: nat := 32

  /** Values without parts. Doubles and pointers are their eight bytes. */
  datatype Atom =
    | ANil
    | ABool(b: bool)
    | AInt(i: int)
    | AReal(bits: seq<byte>)
    | AStr(s: seq<byte>)
    | APtr(bits: seq<byte>)

  /** What a caller packs. A table shows what its accessors give: `arr` the values at 1..n
      where n is its length, `entries` all its entries in traversal order.
      Unsupported stands for functions, full userdata and threads. */
  datatype Packed = Leaf(a: Atom) | Table(arr: seq<Packed>, entries: seq<Pair>) | Unsupported
  datatype Pair = Pair(key: Packed, val: Packed)

  /** What a receiver gets: a table is a map from keys to values. */
  datatype Unpacked = Plain(a: Atom) | Fields(m: map<Atom, Unpacked>)

  function Combine(t: nat, v: nat): byte
    requires t < 8 && v < 32
  {
    (t + 8 * v) as byte
  }

  // ----- packing -----

  predicate Is32(v: int) {
    -0x8000_0000 <= v < 0x8000_0000
  }

  function PackInteger(v: int): seq<byte> {
    if v == 0 then [Combine(TYPE_NUMBER, NUMBER_ZERO)]
    else if !Is32(v) then [Combine(TYPE_NUMBER, NUMBER_QWORD)] + LE(Wrap(v, 8), 8)
    else if v < 0 then [Combine(TYPE_NUMBER, NUMBER_DWORD)] + LE(Wrap(v, 4), 4)
    else if v < 0x100 then [Combine(TYPE_NUMBER, NUMBER_BYTE)] + LE(v, 1)
    else if v < 0x1_0000 then [Combine(TYPE_NUMBER, NUMBER_WORD)] + LE(v, 2)
    else [Combine(TYPE_NUMBER, NUMBER_DWORD)] + LE(v, 4)
  }

  /** The bits of v in n bytes. */
  function Wrap(v: int, n: nat): nat {
    v % Power256(n)
  }

  function PackString(s: seq<byte>): seq<byte> {
    if |s| < MAX_COOKIE then [Combine(TYPE_SHORT_STRING, |s|)] + s
    else if |s| < 0x1_0000 then [Combine(TYPE_LONG_STRING, 2)] + LE(|s|, 2) + s
    else [Combine(TYPE_LONG_STRING, 4)] + LE(|s|, 4) + s
  }

  function PackAtom(a: Atom): seq<byte> {
    match a
    case ANil => [Combine(TYPE_NIL, 0)]
    case ABool(b) => [Combine(TYPE_BOOLEAN, if b then 1 else 0)]
    case AInt(i) => PackInteger(i)
    case AReal(bits) => [Combine(TYPE_NUMBER, NUMBER_REAL)] + bits
    case AStr(s) => PackString(s)
    case APtr(bits) => [Combine(TYPE_USERDATA, 0)] + bits
  }

  function TableHeader(n: nat): seq<byte> {
    if n >= MAX_COOKIE - 1 then [Combine(TYPE_TABLE, MAX_COOKIE - 1)] + PackInteger(n) else [Combine(TYPE_TABLE, n)]
  }

  /** None when the value is nested too deep or has a part that cannot be packed. */
  function PackOne(v: Packed, depth: nat): Option<seq<byte>>
    decreases v, 0
  {
    if depth > MAX_DEPTH then None else
    match v
    case Leaf(a) => Some(PackAtom(a))
    case Unsupported => None
    case Table(arr, entries) =>
      var a := PackSeq(arr, depth + 1);
      var e := PackEntries(entries, |arr|, depth + 1);
      if a.Some? && e.Some? then Some(TableHeader(|arr|) + a.value + e.value + [Combine(TYPE_NIL, 0)]) else None
  }

  function PackSeq(vs: seq<Packed>, depth: nat): Option<seq<byte>>
    decreases vs, 1
  {
    if vs == [] then Some([]) else
    var a := PackOne(vs[0], depth);
    var b := PackSeq(vs[1..], depth);
    if a.Some? && b.Some? then Some(a.value + b.value) else None
  }

  /** Keys that were packed with the array are left out of the second part. */
  predicate Skipped(key: Packed, n: nat) {
    key.Leaf? && key.a.AInt? && Is32(key.a.i) && 0 < key.a.i <= n
  }

  function PackEntries(es: seq<Pair>, n: nat, depth: nat): Option<seq<byte>>
    decreases es, 1
  {
    if es == [] then Some([]) else
    var rest := PackEntries(es[1..], n, depth);
    if Skipped(es[0].key, n) then rest else
    assert es[0].key < es[0] && es[0].val < es[0];
    var k := PackOne(es[0].key, depth);
    var v := PackOne(es[0].val, depth);
    if k.Some? && v.Some? && rest.Some? then Some(k.value + v.value + rest.value) else None
  }

  // ----- unpacking -----

  datatype Parsed<T> = Bad | Good(v: T, rest: seq<byte>)

  function Take(b: seq<byte>, n: nat): Parsed<seq<byte>> {
    if |b| < n then Bad else Good(b[..n], b[n..])
  }

  function ParseInteger(cookie: nat, b: seq<byte>): (p: Parsed<int>)
    ensures p.Good? ==> |p.rest| <= |b|
  {
    if cookie == NUMBER_ZERO then Good(0, b)
    else if cookie == NUMBER_BYTE then ParseUnsigned(1, b)
    else if cookie == NUMBER_WORD then ParseUnsigned(2, b)
    else if cookie == NUMBER_DWORD then ParseSigned(4, b)
    else if cookie == NUMBER_QWORD then ParseSigned(8, b)
    else Bad
  }

  function ParseUnsigned(n: nat, b: seq<byte>): Parsed<int> {
    match Take(b, n)
    case Bad => Bad
    case Good(x, rest) => Good(FromLE(x), rest)
  }

  function ParseSigned(n: nat, b: seq<byte>): Parsed<int> {
    match Take(b, n)
    case Bad => Bad
    case Good(x, rest) => Good(Signed(FromLE(x), n), rest)
  }

  function ParseString(n: nat, b: seq<byte>): Parsed<Unpacked> {
    match Take(b, n)
    case Bad => Bad
    case Good(s, rest) => Good(Plain(AStr(s)), rest)
  }

  function ParseLongString(n: nat, b: seq<byte>): Parsed<Unpacked> {
    match Take(b, n)
    case Bad => Bad
    case Good(x, rest) => ParseString(FromLE(x), rest)
  }

  function ParseOne(b: seq<byte>): (p: Parsed<Unpacked>)
    ensures p.Good? ==> |p.rest| < |b|
    decreases |b|, 0
  {
    if b == [] then Bad else ParseValue(b[0] as nat % 8, b[0] as nat / 8, b[1..])
  }

  function ParseValue(t: nat, cookie: nat, b: seq<byte>): (p: Parsed<Unpacked>)
    ensures p.Good? ==> |p.rest| <= |b|
    decreases |b|, 4
  {
    if t == TYPE_NIL then Good(Plain(ANil), b)
    else if t == TYPE_BOOLEAN then Good(Plain(ABool(cookie != 0)), b)
    else if t == TYPE_NUMBER then
      if cookie == NUMBER_REAL then
        match Take(b, 8)
        case Bad => Bad
        case Good(x, rest) => Good(Plain(AReal(x)), rest)
      else
        (match ParseInteger(cookie, b)
         case Bad => Bad
         case Good(i, rest) => Good(Plain(AInt(i)), rest))
    else if t == TYPE_USERDATA then
      match Take(b, 8)
      case Bad => Bad
      case Good(x, rest) => Good(Plain(APtr(x)), rest)
    else if t == TYPE_SHORT_STRING then ParseString(cookie, b)
    else if t == TYPE_LONG_STRING then
      if cookie == 2 then ParseLongString(2, b) else if cookie == 4 then ParseLongString(4, b) else Bad
    else if t == TYPE_TABLE then ParseTable(cookie, b)
    else Bad
  }

  /** The number of array elements. */
  function ParseSize(cookie: nat, b: seq<byte>): (p: Parsed<int>)
    ensures p.Good? ==> |p.rest| <= |b|
  {
    if cookie != MAX_COOKIE - 1 then Good(cookie, b)
    else if b == [] || b[0] as nat % 8 != TYPE_NUMBER || b[0] as nat / 8 == NUMBER_REAL then Bad
    else ParseInteger(b[0] as nat / 8, b[1..])
  }

  function ParseTable(cookie: nat, b: seq<byte>): (p: Parsed<Unpacked>)
    ensures p.Good? ==> |p.rest| <= |b|
    decreases |b|, 3
  {
    match ParseSize(cookie, b)
    case Bad => Bad
    case Good(n, rest) => ParseArray(1, n, map[], rest)
  }

  /** A raw assignment: nil removes the key. */
  function Assign(m: map<Atom, Unpacked>, k: Atom, v: Unpacked): map<Atom, Unpacked> {
    if v == Plain(ANil) then m - {k} else m[k := v]
  }

  /** Array elements from i up to n, then the other entries. */
  function ParseArray(i: int, n: int, m: map<Atom, Unpacked>, b: seq<byte>): (p: Parsed<Unpacked>)
    ensures p.Good? ==> |p.rest| <= |b|
    decreases |b|, 2
  {
    if i > n then ParseEntries(m, b) else
    match ParseOne(b)
    case Bad => Bad
    case Good(v, rest) => ParseArray(i + 1, n, Assign(m, AInt(i), v), rest)
  }

  /** Key and value pairs up to a nil. */
  function ParseEntries(m: map<Atom, Unpacked>, b: seq<byte>): (p: Parsed<Unpacked>)
    ensures p.Good? ==> |p.rest| <= |b|
    decreases |b|, 1
  {
    match ParseOne(b)
    case Bad => Bad
    case Good(k, rest) =>
      if k == Plain(ANil) then Good(Fields(m), rest)
      else if !k.Plain? then Bad
      else match ParseOne(rest)
        case Bad => Bad
        case Good(v, rest') => ParseEntries(Assign(m, k.a, v), rest')
  }

  /** A whole message. */
  function ParseAll(b: seq<byte>): Option<seq<Unpacked>>
    decreases |b|
  {
    if b == [] then Some([]) else
    match ParseOne(b)
    case Bad => None
    case Good(v, rest) =>
      match ParseAll(rest)
      case None => None
      case Some(vs) => Some([v] + vs)
  }
}
