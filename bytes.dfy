/** Java's fixed-width integers, the octets of a frame, and the 3-byte
    little-endian fields DESFire uses for offsets, lengths and sizes. */
module Bytes {

  /** One octet of a frame or buffer: the bit pattern of a Java `byte`. */
  type byte = x: int | 0 <= x < 0x100

  /** A Java `byte` read as a signed number (key numbers, file numbers). */
  type sbyte = x: int | -0x80 <= x < 0x80

  /** A Java `int`. */
  type int32 = x: int | -0x8000_0000 <= x < 0x8000_0000

  /** The octet stored by `(byte) b`: two's complement, so -1 becomes 0xFF. */
  function Octet(b: int): (r: byte)
    ensures r % 0x100 == b % 0x100
  {
    b % 0x100
  }

  /** The signed Java `byte` whose bit pattern is the octet `o`. */
  function Signed(o: byte): (r: sbyte)
    ensures Octet(r) == o
  {
    if o < 0x80 then o else o - 0x100
  }

  lemma SignedOctet(b: sbyte)
    ensures Signed(Octet(b)) == b
  {
  }

  /** `(n & 0xFF), ((n >> 8) & 0xFF), ((n >> 16) & 0xFF)` for a Java int:
      `>>` is an arithmetic shift, i.e. floor division, which is what Dafny's
      `/` does for a positive divisor. */
  function Le3(n: int): (r: seq<byte>)
    ensures |r| == 3
  {
    [n % 0x100, (n / 0x100) % 0x100, (n / 0x1_0000) % 0x100]
  }

  /** `(d[0] & 0xFF) | ((d[1] & 0xFF) << 8) | ((d[2] & 0xFF) << 16)`: the three
      masks occupy disjoint bits, so the OR is a sum. */
  function Le3Value(d: seq<byte>): (v: int)
    requires |d| == 3
    ensures 0 <= v < 0x100_0000
  {
    (d[0] as int) + 0x100 * (d[1] as int) + 0x1_0000 * (d[2] as int)
  }

  /** Encoding a Java int keeps its low 24 bits; a negative int therefore
      comes back as its two's complement modulo 2^24. */
  lemma Le3RoundTrip(n: int)
    ensures Le3Value(Le3(n)) == n % 0x100_0000
  {
    var q1 := n / 0x100;
    var q2 := q1 / 0x100;
    assert n / 0x1_0000 == q2;
    var r: int := n % 0x100 + 0x100 * (q1 % 0x100) + 0x1_0000 * (q2 % 0x100);
    assert 0 <= r < 0x100_0000;
    assert n == 0x100_0000 * (q2 / 0x100) + r;
  }

  /** Decoding three octets and encoding the value again gives them back. */
  lemma Le3ValueRoundTrip(d: seq<byte>)
    requires |d| == 3
    ensures Le3(Le3Value(d)) == d
  {
    var b0, b1, b2: int := d[0], d[1], d[2];
    var v := Le3Value(d);
    assert v == b0 + 0x100 * (b1 + 0x100 * b2);
    assert v / 0x100 == b1 + 0x100 * b2;
    assert v / 0x1_0000 == b2;
  }

  /** A sequence in reverse order. */
  function Reverse<T>(s: seq<T>): (r: seq<T>)
    ensures |r| == |s|
    ensures forall i :: 0 <= i < |s| ==> r[i] == s[|s| - 1 - i]
  {
    if s == [] then [] else Reverse(s[1..]) + [s[0]]
  }

  /** `new byte[n]`: n zero octets. */
  function Zeros(n: nat): (r: seq<byte>)
    ensures |r| == n && forall i :: 0 <= i < n ==> r[i] == 0
  {
    seq(n, _ => 0)
  }
}
