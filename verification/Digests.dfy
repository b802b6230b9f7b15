/** Thirty-two byte digests, read as big-endian numbers: their numeric order is the byte
    order of the source, and every digest renders as sixty-four hexadecimal characters. */
module Digests {
  import opened Wrappers
  import opened Numbers
  import opened Sequences

  /** Below 2^256; the least number that needs 33 bytes is written out. */
  type Digest = n: int |
    0 <= n < 0x1_0000_0000_0000_0000_0000_0000_0000_0000_0000_0000_0000_0000_0000_0000_0000_0000
  type AtomId = Digest
  type Seed = Digest

  /** SHA-256 over a domain prefix and a payload, as an arbitrary function. */
  type Hash = (seq<byte>, seq<byte>) -> Digest

  /** No two of the given payloads share a digest under the given prefix. */
  ghost predicate CollisionFree(hash: Hash, prefix: seq<byte>, payloads: set<seq<byte>>) {
    forall a, b :: a in payloads && b in payloads && hash(prefix, a) == hash(prefix, b) ==> a == b
  }

  predicate DigestLeq(a: Digest, b: Digest) {
    a <= b
  }

  /** Drops every element equal to its predecessor. */
  function Dedup(s: seq<Digest>): (r: seq<Digest>)
    ensures forall x :: x in r <==> x in s
    ensures Sorted(DigestLeq, s) ==> StrictlyIncreasing(r)
    ensures StrictlyIncreasing(s) ==> r == s
    ensures s != [] ==> r != [] && r[0] == s[0]
  {
    if |s| <= 1 then s
    else
      assert s == [s[0]] + s[1..];
      var rest := Dedup(s[1..]);
      assert Sorted(DigestLeq, s) ==> Sorted(DigestLeq, s[1..]);
      if s[0] == s[1] then rest else
        assert Sorted(DigestLeq, s) ==> forall j :: 0 <= j < |rest| ==> s[0] < rest[j] by {
          if Sorted(DigestLeq, s) {
            forall j | 0 <= j < |rest| ensures s[0] < rest[j] {
              assert rest[0] == s[1] && DigestLeq(s[0], s[1]);
            }
          }
        }
        [s[0]] + rest
  }

  function SortDedup(s: seq<Digest>): (r: seq<Digest>)
    ensures StrictlyIncreasing(r)
    ensures forall x :: x in r <==> x in s
    ensures StrictlyIncreasing(s) ==> r == s
  {
    assert TotalPreorder(DigestLeq);
    SortSorts(DigestLeq, s);
    MembersOfMultiset(s, SortBy(DigestLeq, s));
    if StrictlyIncreasing(s) then
      SortKeepsSorted(DigestLeq, s);
      Dedup(SortBy(DigestLeq, s))
    else Dedup(SortBy(DigestLeq, s))
  }

  function HexChar(nibble: nat): byte
    requires nibble < 16
  {
    if nibble < 10 then 48 + nibble else 87 + nibble
  }

  function HexOfBytes(bytes: seq<byte>): (r: Text)
    ensures |r| == 2 * |bytes|
  {
    if bytes == [] then []
    else [HexChar(bytes[0] / 16), HexChar(bytes[0] % 16)] + HexOfBytes(bytes[1..])
  }

  /** `to_hex`. */
  function Hex(digest: Digest): (r: Text)
    ensures |r| == 64
  {
    HexOfBytes(BytesOf(digest, 32))
  }

  function HexNibble(c: byte): Option<nat> {
    if 48 <= c <= 57 then Some(c - 48) else if 97 <= c <= 102 then Some(c - 87) else None
  }

  function BytesFromHex(text: Text): Option<seq<byte>>
    requires |text| % 2 == 0
  {
    if text == [] then Some([])
    else
      var high :- HexNibble(text[0]);
      var low :- HexNibble(text[1]);
      var rest :- BytesFromHex(text[2..]);
      NibbleRange(text[0]);
      NibbleRange(text[1]);
      Some([high * 16 + low] + rest)
  }

  lemma {:induction false} NibbleRange(c: byte)
    ensures HexNibble(c).Some? ==> HexNibble(c).value < 16 && HexChar(HexNibble(c).value) == c
  {
  }

  lemma {:induction false} HexRoundTrip(bytes: seq<byte>)
    ensures BytesFromHex(HexOfBytes(bytes)) == Some(bytes)
  {
    if bytes != [] {
      HexRoundTrip(bytes[1..]);
      assert HexOfBytes(bytes)[2..] == HexOfBytes(bytes[1..]);
      assert bytes == [bytes[0]] + bytes[1..];
    }
  }

  /** The rendering is strict: text that parses is the rendering of what it parses to. */
  lemma {:induction false} HexIsStrict(text: Text)
    requires |text| % 2 == 0 && BytesFromHex(text).Some?
    ensures HexOfBytes(BytesFromHex(text).value) == text
  {
    if text != [] {
      HexIsStrict(text[2..]);
      NibbleRange(text[0]);
      NibbleRange(text[1]);
      var rest := BytesFromHex(text[2..]).value;
      var first := HexNibble(text[0]).value * 16 + HexNibble(text[1]).value;
      assert ([first] + rest)[1..] == rest;
      assert text == [text[0], text[1]] + text[2..];
    }
  }

  lemma {:induction false} DigestFits(d: Digest)
    ensures d < Pow256(32)
  {
    assert Pow256(8) == TWO64;
    assert Pow256(16) == TWO64 * TWO64;
    assert Pow256(24) == TWO64 * TWO64 * TWO64;
  }

  /** Distinct digests render differently. */
  lemma {:induction false} HexInjective(a: Digest, b: Digest)
    requires Hex(a) == Hex(b)
    ensures a == b
  {
    HexRoundTrip(BytesOf(a, 32));
    HexRoundTrip(BytesOf(b, 32));
    DigestFits(a);
    DigestFits(b);
    BytesRoundTrip(a, 32);
    BytesRoundTrip(b, 32);
  }
}
