/**
 * Object fingerprints (`struct scas_hash_t`: five 32-bit words, 20 bytes)
 * and the byte-level helpers every other module uses: `memcmp` over
 * fingerprints and the little-endian encoding of fixed-width integers.
 */
module Hash {

  type Byte = b: int | 0 <= b < 256

  const HASH_SIZE: nat := 20

  /** A fingerprint is an opaque 20-byte value. */
  type Hash = s: seq<Byte> | |s| == 20 witness seq(20, _ => 0)

  /** The all-zero fingerprint: what a zero-filled `scas_hash_t` holds. */
  const ZERO_HASH: Hash := seq(20, _ => 0)

  /**
   * `memcmp(a, b, n)`: the difference of the first pair of bytes that
   * differ (as unsigned char), or 0.  The C standard fixes only the sign of
   * the result; the magnitude modelled here is what common C libraries
   * return, and it matters for the source's `memcmp(...) == 1` test.
   */
  function Memcmp(a: seq<Byte>, b: seq<Byte>): (r: int)
    requires |a| == |b|
    ensures r == 0 <==> a == b
    ensures -255 <= r <= 255
    decreases |a|
  {
    if |a| == 0 then 0
    else if a[0] != b[0] then a[0] - b[0]
    else
      var r := Memcmp(a[1..], b[1..]);
      assert a == [a[0]] + a[1..] && b == [b[0]] + b[1..];
      r
  }

  /** Lexicographic byte order: the order the CAS index is kept in. */
  predicate Less(a: seq<Byte>, b: seq<Byte>)
    requires |a| == |b|
  {
    Memcmp(a, b) < 0
  }

  lemma {:induction false} MemcmpAntisymmetric(a: seq<Byte>, b: seq<Byte>)
    requires |a| == |b|
    ensures Memcmp(a, b) == -Memcmp(b, a)
    decreases |a|
  {
    if |a| > 0 && a[0] == b[0] {
      MemcmpAntisymmetric(a[1..], b[1..]);
    }
  }

  lemma {:induction false} LessTransitive(a: seq<Byte>, b: seq<Byte>, c: seq<Byte>)
    requires |a| == |b| == |c|
    requires Less(a, b) && Less(b, c)
    ensures Less(a, c)
    decreases |a|
  {
    if a[0] == b[0] && b[0] == c[0] {
      LessTransitive(a[1..], b[1..], c[1..]);
    }
  }

  /** Two distinct fingerprints are ordered one way or the other. */
  lemma LessTotal(a: seq<Byte>, b: seq<Byte>)
    requires |a| == |b| && a != b
    ensures Less(a, b) || Less(b, a)
  {
    MemcmpAntisymmetric(a, b);
  }

  /** 256^n: the number of values n bytes can hold. */
  function Pow256(n: nat): (r: nat)
    ensures r >= 1
  {
    if n == 0 then 1 else 256 * Pow256(n - 1)
  }

  /** The n-byte little-endian encoding of x (least significant byte first). */
  function EncodeLE(x: nat, n: nat): (s: seq<Byte>)
    ensures |s| == n
  {
    if n == 0 then [] else [x % 256] + EncodeLE(x / 256, n - 1)
  }

  /** The value of a little-endian byte string. */
  function DecodeLE(s: seq<Byte>): (x: nat)
    ensures x < Pow256(|s|)
  {
    if |s| == 0 then 0 else s[0] + 256 * DecodeLE(s[1..])
  }

  lemma {:induction false} DecodeEncodeLE(x: nat, n: nat)
    requires x < Pow256(n)
    ensures DecodeLE(EncodeLE(x, n)) == x
  {
    if n > 0 {
      DecodeEncodeLE(x / 256, n - 1);
      assert EncodeLE(x, n)[1..] == EncodeLE(x / 256, n - 1);
    }
  }

  lemma {:induction false} EncodeDecodeLE(s: seq<Byte>)
    ensures EncodeLE(DecodeLE(s), |s|) == s
  {
    if |s| > 0 {
      EncodeDecodeLE(s[1..]);
      var x := DecodeLE(s);
      assert x % 256 == s[0] && x / 256 == DecodeLE(s[1..]);
    }
  }

  /** Byte 0 of a little-endian encoding is the value's lowest byte. */
  lemma LowByteLE(x: nat, n: nat)
    requires n > 0
    ensures EncodeLE(x, n)[0] == x % 256
  {
  }
}
