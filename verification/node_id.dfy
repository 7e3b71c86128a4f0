/** src/dht/node_id.rs: 256-bit node identifiers under the XOR metric. */
module NodeIds {
  import opened Wrappers
  import opened Bytes

  const ID_BYTES := 32
  const ID_BITS := 256

  type NodeId = s: bytes | |s| == ID_BYTES witness seq(ID_BYTES, _ => 0)

  function Pow2(n: nat): (p: nat)
    ensures p > 0
  {
    if n == 0 then 1 else 2 * Pow2(n - 1)
  }

  function Xor(a: bytes, b: bytes): (d: bytes)
    requires |a| == |b|
    ensures |d| == |a|
    ensures forall i :: 0 <= i < |a| ==> d[i] == a[i] ^ b[i]
  {
    seq(|a|, i requires 0 <= i < |a| => a[i] ^ b[i])
  }

  /** The XOR distance read as a 256-bit number. */
  function Dist(a: NodeId, b: NodeId): nat {
    FromBigEndian(Xor(a, b))
  }

  /** `u8::leading_zeros`. */
  function ByteLeadingZeros(b: byte): (z: nat)
    ensures z <= 8
    ensures z == 8 <==> b == 0
  {
    if b >= 128 then 0 else if b >= 64 then 1 else if b >= 32 then 2 else if b >= 16 then 3
    else if b >= 8 then 4 else if b >= 4 then 5 else if b >= 2 then 6 else if b >= 1 then 7 else 8
  }

  /** How many zero bits come before the first one bit, reading bytes most significant first. */
  function LeadingZeros(d: bytes): (z: nat)
    ensures z <= 8 * |d|
  {
    if d == [] then 0
    else if d[0] == 0 then 8 + LeadingZeros(d[1..])
    else ByteLeadingZeros(d[0])
  }

  /** The index of the first bit in which two identifiers differ. */
  function FirstDifferingBit(a: NodeId, b: NodeId): Option<nat> {
    if a == b then None else Some(LeadingZeros(Xor(a, b)))
  }

  method Distance(a: NodeId, b: NodeId) returns (d: bytes)
    ensures d == Xor(a, b)
  {
    var dist := new byte[ID_BYTES](_ => 0);
    for i := 0 to ID_BYTES
      invariant forall k :: 0 <= k < i ==> dist[k] == a[k] ^ b[k]
    {
      dist[i] := a[i] ^ b[i];
    }
    d := dist[..];
  }

  /** The scan finds the first differing bit; numerically, the power-of-two band the distance lies in. */
  method LeadingZeroBits(a: NodeId, b: NodeId) returns (r: Option<nat>)
    ensures r == FirstDifferingBit(a, b)
    ensures r.None? <==> a == b
    ensures r.Some? ==> r.value < ID_BITS && Pow2(255 - r.value) <= Dist(a, b) < Pow2(256 - r.value)
  {
    var dist := Distance(a, b);
    DistanceBand(a, b);
    for i := 0 to |dist|
      invariant LeadingZeros(dist) == 8 * i + LeadingZeros(dist[i..])
      invariant forall k :: 0 <= k < i ==> dist[k] == 0
    {
      assert dist[i..][1..] == dist[i + 1..];
      if dist[i] != 0 {
        DifferentIds(a, b, i);
        return Some(i * 8 + ByteLeadingZeros(dist[i]));
      }
    }
    ZeroDistance(a, b);
    return None;
  }

  lemma DifferentIds(a: NodeId, b: NodeId, i: nat)
    requires i < ID_BYTES && Xor(a, b)[i] != 0
    ensures a != b
  {
    assert a[i] ^ a[i] == 0;
  }

  lemma XorZero(x: byte, y: byte)
    ensures x ^ y == 0 <==> x == y
  {
  }

  lemma ZeroDistance(a: NodeId, b: NodeId)
    requires forall k :: 0 <= k < ID_BYTES ==> Xor(a, b)[k] == 0
    ensures a == b
  {
    forall k | 0 <= k < ID_BYTES ensures a[k] == b[k] {
      assert Xor(a, b)[k] == a[k] ^ b[k];
      XorZero(a[k], b[k]);
    }
  }

  // -------- byte and bit arithmetic --------

  lemma {:induction false} Pow2Add(a: nat, b: nat)
    ensures Pow2(a + b) == Pow2(a) * Pow2(b)
  {
    if a > 0 {
      Pow2Add(a - 1, b);
      assert 2 * (Pow2(a - 1) * Pow2(b)) == (2 * Pow2(a - 1)) * Pow2(b);
    }
  }

  lemma Pow2Monotone(a: nat, b: nat)
    requires a <= b
    ensures Pow2(a) <= Pow2(b)
  {
    if a < b {
      Pow2Monotone(a, b - 1);
    }
  }

  lemma {:induction false} Pow256IsPow2(n: nat)
    ensures Pow256(n) == Pow2(8 * n)
  {
    if n > 0 {
      Pow256IsPow2(n - 1);
      Pow2Add(8, 8 * (n - 1));
      Pow2Of8();
    }
  }

  lemma Pow2Of8()
    ensures Pow2(0) == 1 && Pow2(1) == 2 && Pow2(2) == 4 && Pow2(3) == 8
    ensures Pow2(4) == 16 && Pow2(5) == 32 && Pow2(6) == 64 && Pow2(7) == 128 && Pow2(8) == 256
  {
    assert Pow2(4) == 16;
    assert Pow2(6) == 64;
  }

  lemma ByteBand(b: byte)
    requires b != 0
    ensures Pow2(7 - ByteLeadingZeros(b)) <= b as nat < Pow2(8 - ByteLeadingZeros(b))
  {
    Pow2Of8();
  }

  lemma MulMonotone(x: nat, y: nat, p: nat)
    requires x <= y
    ensures x * p <= y * p
  {
  }

  /** A number whose leading digit b is in a binary band lies in the same band, scaled. */
  lemma ScaledBand(b: nat, v: nat, z: nat, k: nat)
    requires z < 8 && Pow2(7 - z) <= b < Pow2(8 - z) && v < Pow256(k)
    ensures Pow2(8 * k + 7 - z) <= b * Pow256(k) + v < Pow2(8 * k + 8 - z)
  {
    var p := Pow256(k);
    Pow256IsPow2(k);
    Pow2Add(7 - z, 8 * k);
    Pow2Add(8 - z, 8 * k);
    MulMonotone(Pow2(7 - z), b, p);
    MulMonotone(b + 1, Pow2(8 - z), p);
    assert (b + 1) * p == b * p + p;
  }

  lemma ByteIsZero(b: byte)
    ensures b == 0 <==> b as nat == 0
  {
  }

  lemma LeadingByte(d: bytes)
    requires d != []
    ensures LeadingZeros(d) == if d[0] == 0 then 8 + LeadingZeros(d[1..]) else ByteLeadingZeros(d[0])
  {
  }

  /** The leading digit of a number, and the band it lies in. */
  lemma HeadDigit(d: bytes) returns (h: nat)
    requires d != [] && d[0] != 0
    ensures FromBigEndian(d) == h * Pow256(|d| - 1) + FromBigEndian(d[1..])
    ensures Pow2(7 - ByteLeadingZeros(d[0])) <= h < Pow2(8 - ByteLeadingZeros(d[0]))
  {
    h := d[0] as nat;
    FromBigEndianHead(d);
    ByteBand(d[0]);
  }

  /** n has exactly z leading zero bits when written in len bytes. */
  ghost predicate InBand(n: nat, len: nat, z: nat) {
    z < 8 * len && Pow2(8 * len - 1 - z) <= n < Pow2(8 * len - z)
  }

  lemma BandOfLength(n: nat, h: nat, v: nat, z: nat, len: nat)
    requires len > 0 && z < 8 && Pow2(7 - z) <= h < Pow2(8 - z) && v < Pow256(len - 1)
    requires n == h * Pow256(len - 1) + v
    ensures InBand(n, len, z)
  {
    ScaledBand(h, v, z, len - 1);
    assert 8 * (len - 1) + 7 - z == 8 * len - 1 - z;
  }

  lemma NonzeroHeadBand(d: bytes)
    requires d != [] && d[0] != 0
    ensures InBand(FromBigEndian(d), |d|, LeadingZeros(d))
  {
    LeadingByte(d);
    var h := HeadDigit(d);
    BandOfLength(FromBigEndian(d), h, FromBigEndian(d[1..]), ByteLeadingZeros(d[0]), |d|);
  }

  lemma ZeroHead(d: bytes)
    requires d != [] && d[0] == 0
    ensures FromBigEndian(d) == FromBigEndian(d[1..]) && LeadingZeros(d) == 8 + LeadingZeros(d[1..])
  {
    LeadingByte(d);
    ByteIsZero(d[0]);
    FromBigEndianHead(d);
  }

  /** Leading zeros bracket the number between consecutive powers of two. */
  lemma {:induction false} NumericBand(d: bytes)
    ensures LeadingZeros(d) == 8 * |d| <==> FromBigEndian(d) == 0
    ensures FromBigEndian(d) != 0 ==>
              Pow2(8 * |d| - 1 - LeadingZeros(d)) <= FromBigEndian(d) < Pow2(8 * |d| - LeadingZeros(d))
  {
    if d != [] {
      if d[0] == 0 {
        ZeroHead(d);
        NumericBand(d[1..]);
      } else {
        NonzeroHeadBand(d);
      }
    }
  }

  lemma ValueInjective(a: bytes, b: bytes)
    requires |a| == |b| && FromBigEndian(a) == FromBigEndian(b)
    ensures a == b
  {
    FromBigEndianRoundTrip(a);
    FromBigEndianRoundTrip(b);
  }

  lemma DistZero(a: NodeId, b: NodeId)
    ensures Dist(a, b) == 0 <==> a == b
  {
    var zero: bytes := seq(ID_BYTES, _ => 0);
    ValueOfZeros(zero);
    if Dist(a, b) == 0 {
      ValueInjective(Xor(a, b), zero);
      ZeroDistance(a, b);
    }
    if a == b {
      forall k | 0 <= k < ID_BYTES ensures Xor(a, b)[k] == 0 {
        XorZero(a[k], b[k]);
      }
      assert Xor(a, b) == zero;
    }
  }

  lemma {:induction false} ValueOfZeros(z: bytes)
    requires forall k :: 0 <= k < |z| ==> z[k] == 0
    ensures FromBigEndian(z) == 0
  {
    if z != [] {
      ValueOfZeros(z[..|z| - 1]);
    }
  }

  /** A number lies in one binary band only. */
  lemma OneBand(d: nat, z: nat, i: nat)
    requires z < 256 && i < 256 && Pow2(255 - z) <= d < Pow2(256 - z)
    ensures z == i <==> Pow2(255 - i) <= d < Pow2(256 - i)
  {
    if i < z {
      Pow2Monotone(256 - z, 255 - i);
    } else if z < i {
      Pow2Monotone(256 - i, 255 - z);
    }
  }

  /** `leading_zero_bits(a, b) = i` exactly when 2^(255-i) <= d(a, b) < 2^(256-i). */
  lemma DistanceBand(a: NodeId, b: NodeId)
    ensures FirstDifferingBit(a, b).None? <==> Dist(a, b) == 0
    ensures forall i: nat :: i < ID_BITS ==>
              (FirstDifferingBit(a, b) == Some(i) <==> Pow2(255 - i) <= Dist(a, b) < Pow2(256 - i))
  {
    DistZero(a, b);
    NumericBand(Xor(a, b));
    forall i: nat | i < ID_BITS
      ensures FirstDifferingBit(a, b) == Some(i) <==> Pow2(255 - i) <= Dist(a, b) < Pow2(256 - i)
    {
      if Dist(a, b) != 0 {
        OneBand(Dist(a, b), LeadingZeros(Xor(a, b)), i);
      } else {
        Pow2Monotone(0, 255 - i);
      }
    }
  }

  /** Rust's order on `dist.to_vec()`: the first differing byte decides. */
  predicate LexLess(a: bytes, b: bytes)
    requires |a| == |b|
  {
    exists k :: 0 <= k < |a| && a[..k] == b[..k] && a[k] < b[k]
  }

  lemma HeadDecides(x: nat, y: nat, p: nat, v: nat, w: nat)
    requires x < y && v < p
    ensures x * p + v < y * p + w
  {
    MulMonotone(x + 1, y, p);
    assert (x + 1) * p == x * p + p;
  }

  lemma SmallerHead(a: bytes, b: bytes)
    requires |a| == |b| > 0 && (a[0] as nat) < b[0] as nat
    ensures FromBigEndian(a) < FromBigEndian(b)
  {
    FromBigEndianHead(a);
    FromBigEndianHead(b);
    HeadDecides(a[0] as nat, b[0] as nat, Pow256(|a| - 1), FromBigEndian(a[1..]), FromBigEndian(b[1..]));
  }

  /** Comparing distances byte by byte is comparing the 256-bit numbers. */
  lemma {:induction false} LexIsNumeric(a: bytes, b: bytes)
    requires |a| == |b|
    ensures LexLess(a, b) <==> FromBigEndian(a) < FromBigEndian(b)
  {
    if a != [] {
      if a[0] == b[0] {
        LexIsNumeric(a[1..], b[1..]);
        LexTail(a, b);
        FromBigEndianHead(a);
        FromBigEndianHead(b);
      } else if a[0] < b[0] {
        LexHead(a, b);
        SmallerHead(a, b);
      } else {
        LexHead(b, a);
        SmallerHead(b, a);
        NotLexLess(a, b);
      }
    }
  }

  lemma NotLexLess(a: bytes, b: bytes)
    requires |a| == |b| > 0 && b[0] < a[0]
    ensures !LexLess(a, b)
  {
    forall k | 0 < k < |a| ensures a[..k] != b[..k] {
      assert a[..k][0] == a[0] && b[..k][0] == b[0];
    }
  }

  lemma LexHead(a: bytes, b: bytes)
    requires |a| == |b| > 0 && a[0] < b[0]
    ensures LexLess(a, b) && (a[0] as nat) < b[0] as nat
  {
    assert a[..0] == b[..0];
  }

  lemma LexTail(a: bytes, b: bytes)
    requires |a| == |b| > 0 && a[0] == b[0]
    ensures LexLess(a, b) <==> LexLess(a[1..], b[1..])
  {
    if LexLess(a, b) {
      var k :| 0 <= k < |a| && a[..k] == b[..k] && a[k] < b[k];
      assert a[1..][..k - 1] == a[..k][1..] && b[1..][..k - 1] == b[..k][1..];
      assert a[1..][k - 1] < b[1..][k - 1];
    }
    if LexLess(a[1..], b[1..]) {
      var k :| 0 <= k < |a| - 1 && a[1..][..k] == b[1..][..k] && a[1..][k] < b[1..][k];
      assert a[..k + 1] == [a[0]] + a[1..][..k] && b[..k + 1] == [b[0]] + b[1..][..k];
    }
  }

  // -------- the XOR metric and common prefixes --------

  /** The first bit in which x and y differ, read off the first one bits of each. */
  ghost predicate CombinedZeros(z: nat, x: nat, y: nat, bits: nat) {
    && (x < y ==> z == x)
    && (x > y ==> z == y)
    && (x == y < bits ==> z > x)
  }

  lemma ByteXorZeros(x: byte, y: byte)
    ensures CombinedZeros(ByteLeadingZeros(x ^ y), ByteLeadingZeros(x), ByteLeadingZeros(y), 8)
  {
  }

  lemma {:induction false} XorZeros(x: bytes, y: bytes)
    requires |x| == |y|
    ensures CombinedZeros(LeadingZeros(Xor(x, y)), LeadingZeros(x), LeadingZeros(y), 8 * |x|)
  {
    if x != [] {
      assert Xor(x, y)[1..] == Xor(x[1..], y[1..]);
      XorZero(x[0], y[0]);
      if x[0] == 0 && y[0] == 0 {
        XorZeros(x[1..], y[1..]);
      } else {
        ByteXorZeros(x[0], y[0]);
        XorHeadZeros(x, y, Xor(x, y));
      }
    }
  }

  lemma XorHeadZeros(x: bytes, y: bytes, d: bytes)
    requires x != [] && y != [] && d != []
    requires ByteLeadingZeros(x[0]) < 8 || ByteLeadingZeros(y[0]) < 8
    requires CombinedZeros(ByteLeadingZeros(d[0]), ByteLeadingZeros(x[0]), ByteLeadingZeros(y[0]), 8)
    ensures CombinedZeros(LeadingZeros(d), LeadingZeros(x), LeadingZeros(y), 8 * |x|)
  {
    HeadZeros(x);
    HeadZeros(y);
    HeadZeros(d);
    HeadCombination(ByteLeadingZeros(d[0]), ByteLeadingZeros(x[0]), ByteLeadingZeros(y[0]),
                    LeadingZeros(d), LeadingZeros(x), LeadingZeros(y), 8 * |x|);
  }

  ghost predicate ZerosFromHead(head: nat, all: nat) {
    if head < 8 then all == head else all >= 8
  }

  lemma HeadCombination(dh: nat, xh: nat, yh: nat, d: nat, x: nat, y: nat, bits: nat)
    requires ZerosFromHead(dh, d) && ZerosFromHead(xh, x) && ZerosFromHead(yh, y)
    requires (xh < 8 || yh < 8) && CombinedZeros(dh, xh, yh, 8)
    ensures CombinedZeros(d, x, y, bits)
  {
  }

  lemma HeadZeros(d: bytes)
    requires d != []
    ensures ZerosFromHead(ByteLeadingZeros(d[0]), LeadingZeros(d))
  {
  }

  lemma XorByteCancel(l: byte, t: byte, x: byte)
    ensures (l ^ t) ^ (l ^ x) == t ^ x
  {
  }

  lemma XorCancel(l: NodeId, t: NodeId, x: NodeId)
    ensures Xor(Xor(l, t), Xor(l, x)) == Xor(t, x)
  {
    forall k | 0 <= k < ID_BYTES ensures Xor(Xor(l, t), Xor(l, x))[k] == Xor(t, x)[k] {
      XorByteCancel(l[k], t[k], x[k]);
    }
  }

  /** The band of a distance d with z leading zeros, where z combines the zeros s and i. */
  lemma SplitBand(d: nat, z: nat, s: nat, i: nat)
    requires s < 256 && i < 256 && CombinedZeros(z, s, i, 256) && z <= 256
    requires z == 256 <==> d == 0
    requires d != 0 ==> Pow2(255 - z) <= d < Pow2(256 - z)
    ensures i < s ==> Pow2(255 - i) <= d < Pow2(256 - i)
    ensures i == s ==> d < Pow2(255 - s)
    ensures i > s ==> Pow2(255 - s) <= d < Pow2(256 - s)
  {
    if i == s && d != 0 {
      Pow2Monotone(256 - z, 255 - s);
    } else if i == s {
      Pow2Monotone(0, 255 - s);
    }
  }

  /**
   * Where x lies relative to t, knowing only the bits at which each leaves the local id.
   * A node that leaves earlier than t is at distance about 2^(255-i); one that leaves with t is closer
   * than 2^(255-s); one that leaves later is between 2^(255-s) and 2^(256-s).
   */
  lemma DistanceBySplit(local: NodeId, t: NodeId, x: NodeId, s: nat, i: nat)
    requires FirstDifferingBit(local, t) == Some(s) && FirstDifferingBit(local, x) == Some(i)
    requires s < ID_BITS && i < ID_BITS
    ensures i < s ==> Pow2(255 - i) <= Dist(t, x) < Pow2(256 - i)
    ensures i == s ==> Dist(t, x) < Pow2(255 - s)
    ensures i > s ==> Pow2(255 - s) <= Dist(t, x) < Pow2(256 - s)
  {
    XorCancel(local, t, x);
    XorZeros(Xor(local, t), Xor(local, x));
    NumericBand(Xor(t, x));
    SplitBand(Dist(t, x), LeadingZeros(Xor(t, x)), s, i);
  }
}
