/** Integers as the bytes of a little-endian machine. */
module SeriBytes {
  newtype byte = x: int | 0 <= x < 256

  function Power256(n: nat): (p: nat)
    ensures p > 0
  {
    if n == 0 then 1 else 256 * Power256(n - 1)
  }

  /** The low n bytes of v, lowest first. */
  function LE(v: nat, n: nat): (b: seq<byte>)
    ensures |b| == n
  {
    if n == 0 then [] else [(v % 256) as byte] + LE(v / 256, n - 1)
  }

  function FromLE(b: seq<byte>): (v: nat) {
    if b == [] then 0 else b[0] as nat + 256 * FromLE(b[1..])
  }

  lemma {:induction false} LERoundTrip(v: nat, n: nat)
    requires v < Power256(n)
    ensures FromLE(LE(v, n)) == v
  {
    if n > 0 {
      assert v / 256 < Power256(n - 1);
      LERoundTrip(v / 256, n - 1);
      assert LE(v, n)[1..] == LE(v / 256, n - 1);
    }
  }

  /** Two's complement in n bytes. */
  function Unsigned(v: int, n: nat): nat
    requires 0 - Power256(n) <= v < Power256(n)
  {
    if v < 0 then v + Power256(n) else v
  }

  function Signed(u: nat, n: nat): int {
    if 2 * u < Power256(n) then u else u - Power256(n)
  }

  lemma SignedRoundTrip(v: int, n: nat)
    requires n > 0 && 0 - Power256(n) <= 2 * v < Power256(n)
    ensures 0 - Power256(n) <= v < Power256(n) && Unsigned(v, n) < Power256(n)
    ensures Signed(Unsigned(v, n), n) == v
    ensures Signed(FromLE(LE(Unsigned(v, n), n)), n) == v
  {
    assert Power256(n) == 256 * Power256(n - 1);
    LERoundTrip(Unsigned(v, n), n);
  }

  lemma Powers()
    ensures Power256(1) == 0x100 && Power256(2) == 0x1_0000 && Power256(4) == 0x1_0000_0000
    ensures Power256(8) == 0x1_0000_0000_0000_0000
  {
  }
}
