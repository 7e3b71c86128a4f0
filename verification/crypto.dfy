/**
 * The primitives of src/crypto as abstract functions. A suite fixes one function for each library call;
 * everything proved holds for every lawful suite.
 */
module Crypto {
  import opened Wrappers
  import opened Bytes

  type Key32 = s: bytes | |s| == 32 witness seq(32, _ => 0)
  type Nonce = s: bytes | |s| == 12 witness seq(12, _ => 0)

  /** The HKDF info strings handed to `derive_key`. */
  datatype Info = InitChain | MessageKey | ChainKey

  datatype Suite = Suite(
    deriveKey: (Key32, Info) -> Key32,
    kdfRk: (Key32, Key32) -> (Key32, Key32),
    publicKey: Key32 -> Key32,
    diffieHellman: (Key32, Key32) -> Key32,
    seal: (Key32, Nonce, bytes) -> bytes,
    open: (Key32, Nonce, bytes) -> Option<bytes>,
    ratchetRoot: (Key32, Key32) -> Key32,
    connectionId: Key32 -> ConnectionId,
    digest: bytes -> Key32,
    validKey: Key32 -> bool,
    verify: (Key32, bytes, bytes) -> bool)

  /** Diffie-Hellman commutes (RFC 7748, section 6.1), and opening undoes sealing. */
  ghost predicate Lawful(s: Suite) {
    && (forall a: Key32, b: Key32 :: s.diffieHellman(a, s.publicKey(b)) == s.diffieHellman(b, s.publicKey(a)))
    && (forall k: Key32, n: Nonce, p: bytes :: s.open(k, n, s.seal(k, n, p)) == Some(p))
  }

  /** For each fixed other input, distinct inputs of the root derivations give distinct outputs. */
  ghost predicate CollisionFree(s: Suite) {
    && (forall h: Key32, d: Key32, e: Key32 :: s.ratchetRoot(h, d) == s.ratchetRoot(h, e) ==> d == e)
    && (forall r: Key32, q: Key32, d: Key32 :: s.kdfRk(r, d).0 == s.kdfRk(q, d).0 ==> r == q)
    && (forall a: Key32, b: Key32, c: Key32 :: s.diffieHellman(a, s.publicKey(c)) == s.diffieHellman(b, s.publicKey(c)) ==>
          s.publicKey(a) == s.publicKey(b))
  }

  function ZeroKey(): Key32 {
    seq(32, _ => 0)
  }

  function XorKey(a: Key32, b: Key32): (r: Key32)
    ensures forall i :: 0 <= i < 32 ==> r[i] == a[i] ^ b[i]
  {
    seq(32, i requires 0 <= i < 32 => a[i] ^ b[i])
  }

  lemma XorByteCancels(a: byte, b: byte, c: byte)
    ensures a ^ c == b ^ c ==> a == b
  {
  }

  lemma XorCancels(a: Key32, b: Key32, c: Key32)
    ensures XorKey(a, b) == XorKey(b, a)
    ensures XorKey(a, c) == XorKey(b, c) ==> a == b
  {
    if XorKey(a, c) == XorKey(b, c) {
      forall i | 0 <= i < 32 ensures a[i] == b[i] {
        assert XorKey(a, c)[i] == a[i] ^ c[i] && XorKey(b, c)[i] == b[i] ^ c[i];
        XorByteCancels(a[i], b[i], c[i]);
      }
    }
  }

  /** The assumptions can be met together: bytewise XOR as the key exchange, with the identity as public key. */
  lemma LawfulSuiteExists()
    ensures exists s :: Lawful(s) && CollisionFree(s)
  {
    var z := ZeroKey();
    var s := Suite((_, _) => z, (r, _) => (r, r), k => k, XorKey, (_, _, p) => p, (_, _, c) => Some(c),
                   (_, d) => d, _ => seq(16, _ => 0), _ => z, _ => true, (_, _, _) => true);
    forall a: Key32, b: Key32 ensures s.diffieHellman(a, s.publicKey(b)) == s.diffieHellman(b, s.publicKey(a)) {
      XorCancels(a, b, a);
    }
    forall a: Key32, b: Key32, c: Key32
      ensures s.diffieHellman(a, s.publicKey(c)) == s.diffieHellman(b, s.publicKey(c)) ==> s.publicKey(a) == s.publicKey(b)
    {
      XorCancels(a, b, c);
    }
    assert Lawful(s) && CollisionFree(s);
  }
}
