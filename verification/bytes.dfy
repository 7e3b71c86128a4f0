/** Byte strings, big-endian integers and the `take_bytes` cursor of src/protocol/wire.rs. */
module Bytes {
  import opened Wrappers

  type byte = bv8
  type bytes = seq<byte>
  type U32 = n: nat | n < 0x1_0000_0000
  type ConnectionId = s: bytes | |s| == 16 witness seq(16, _ => 0)

  function Pow256(n: nat): (p: nat)
    ensures p > 0
  {
    if n == 0 then 1 else 256 * Pow256(n - 1)
  }

  /** The `len` low-order bytes of `n`, most significant first (`to_be_bytes`, and `as` casts to a narrower width). */
  function BigEndian(n: nat, len: nat): (s: bytes)
    ensures |s| == len
  {
    if len == 0 then [] else BigEndian(n / 256, len - 1) + [(n % 256) as byte]
  }

  /** The number a byte string denotes, most significant byte first (`from_be_bytes`). */
  function FromBigEndian(s: bytes): (n: nat)
    ensures n < Pow256(|s|)
  {
    if s == [] then 0
    else
      ByteBelow256(s[|s| - 1]);
      FromBigEndian(s[..|s| - 1]) * 256 + s[|s| - 1] as nat
  }

  lemma ByteBelow256(b: byte)
    ensures 0 <= b as int < 256
  {
  }

  function ByteValue(b: byte): nat {
    b as nat
  }

  lemma ByteValueOf(n: nat)
    requires n < 256
    ensures ByteValue(n as byte) == n
  {
  }

  lemma ByteRoundTrip(n: nat)
    requires n < 256
    ensures (n as byte) as int == n
  {
    ByteValueOf(n);
    assert ByteValue(n as byte) == (n as byte) as nat;
  }

  /** A number that fits in `len` bytes survives writing and reading. */
  lemma {:induction false} BigEndianRoundTrip(n: nat, len: nat)
    requires n < Pow256(len)
    ensures FromBigEndian(BigEndian(n, len)) == n
  {
    if len > 0 {
      var s := BigEndian(n, len);
      assert s[..len - 1] == BigEndian(n / 256, len - 1);
      ByteRoundTrip(n % 256);
      BigEndianRoundTrip(n / 256, len - 1);
    }
  }

  /** Reading a byte string as a number and writing it back restores the string. */
  lemma {:induction false} FromBigEndianRoundTrip(s: bytes)
    ensures BigEndian(FromBigEndian(s), |s|) == s
  {
    if s != [] {
      var k := |s| - 1;
      var hi := FromBigEndian(s[..k]);
      ByteBelow256(s[k]);
      assert FromBigEndian(s) / 256 == hi && FromBigEndian(s) % 256 == s[k] as nat;
      assert (s[k] as nat) as byte == s[k];
      FromBigEndianRoundTrip(s[..k]);
      assert s == s[..k] + [s[k]];
    }
  }

  lemma ScaleBy256(b: nat, p: nat, v: nat, last: nat)
    ensures (b * p + v) * 256 + last == b * (256 * p) + (v * 256 + last)
  {
    assert b * (256 * p) == (b * p) * 256;
  }

  /** The most significant byte carries weight 256^(length - 1). */
  lemma {:induction false} FromBigEndianHead(s: bytes)
    requires s != []
    ensures FromBigEndian(s) == s[0] as nat * Pow256(|s| - 1) + FromBigEndian(s[1..])
  {
    var k := |s| - 1;
    if k == 0 {
      assert s[..0] == [] && s[1..] == [];
    } else {
      var b := s[0] as nat;
      FromBigEndianHead(s[..k]);
      assert s[1..][..k - 1] == s[..k][1..];
      assert s[..k][0] == s[0];
      assert FromBigEndian(s[..k]) == b * Pow256(k - 1) + FromBigEndian(s[1..][..k - 1]);
      ScaleBy256(b, Pow256(k - 1), FromBigEndian(s[1..][..k - 1]), s[k] as nat);
      assert FromBigEndian(s[1..]) == FromBigEndian(s[1..][..k - 1]) * 256 + s[k] as nat;
    }
  }

  // -------- the cursor --------

  /** `take_bytes::<n>`: the first n bytes and what is left, or an error when fewer than n remain. */
  function TakeBytes(s: bytes, n: nat): (r: Result<(bytes, bytes), string>)
    ensures r.Success? <==> n <= |s|
    ensures r.Success? ==> |r.value.0| == n && r.value.0 + r.value.1 == s
  {
    if |s| < n then Failure("expected more bytes") else Success((s[..n], s[n..]))
  }

  lemma AppendThree(a: bytes, b: bytes, c: bytes)
    ensures a + b + c == a + (b + c)
  {
  }

  lemma TakeBytesAppend(front: bytes, rest: bytes)
    ensures TakeBytes(front + rest, |front|) == Success((front, rest))
  {
    assert (front + rest)[..|front|] == front && (front + rest)[|front|..] == rest;
  }
}
