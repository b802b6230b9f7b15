/** Machine integers of the source, written out as bounded mathematical integers, and
    the eight-byte big-endian rendering that length prefixes and numbers use. */
module Numbers {
  import opened Wrappers

  const TWO64: int := 0x1_0000_0000_0000_0000
  const TWO63: int := 0x8000_0000_0000_0000
  const U64_MAX: int := 0xFFFF_FFFF_FFFF_FFFF

  type byte = n: int | 0 <= n < 256
  type u64 = n: int | 0 <= n < 0x1_0000_0000_0000_0000
  type u32 = n: int | 0 <= n < 0x1_0000_0000

  function Min(a: int, b: int): int {
    if a <= b then a else b
  }

  function Max(a: int, b: int): int {
    if a >= b then a else b
  }

  function SaturatingAdd(a: u64, b: u64): u64 {
    if a + b < TWO64 then a + b else U64_MAX
  }

  function SaturatingSub(a: nat, b: nat): nat {
    if a >= b then a - b else 0
  }

  function CheckedAdd(a: u64, b: u64): Option<u64> {
    if a + b < TWO64 then Some(a + b) else None
  }

  function CeilDiv(a: nat, b: nat): nat
    requires b > 0
  {
    (a + b - 1) / b
  }

  function Pow256(exponent: nat): (r: nat)
    ensures r > 0
  {
    if exponent == 0 then 1 else 256 * Pow256(exponent - 1)
  }

  /** The low `width` bytes of `n`, most significant first (`to_be_bytes`). */
  function BytesOf(n: nat, width: nat): (r: seq<byte>)
    ensures |r| == width
  {
    if width == 0 then [] else BytesOf(n / 256, width - 1) + [n % 256]
  }

  function FromBytes(bytes: seq<byte>): nat {
    if bytes == [] then 0 else FromBytes(bytes[..|bytes| - 1]) * 256 + bytes[|bytes| - 1]
  }

  /** Reading back a fixed-width rendering gives the number. */
  lemma {:induction false} BytesRoundTrip(n: nat, width: nat)
    requires n < Pow256(width)
    ensures FromBytes(BytesOf(n, width)) == n
  {
    if width > 0 {
      assert BytesOf(n, width)[..width - 1] == BytesOf(n / 256, width - 1);
      BytesRoundTrip(n / 256, width - 1);
    }
  }

  function BigEndian(n: u64): (r: seq<byte>)
    ensures |r| == 8
  {
    BytesOf(n, 8)
  }

  lemma {:induction false} BigEndianInjective(a: u64, b: u64)
    requires BigEndian(a) == BigEndian(b)
    ensures a == b
  {
    assert Pow256(8) == TWO64;
    BytesRoundTrip(a, 8);
    BytesRoundTrip(b, 8);
  }
}
