/** The cryptographic primitives that the Noise handshake is built on, and the laws they obey. */
module NoiseSuite {
  import opened Core

  type Byte = x: int | 0 <= x < 256
  type Bytes = seq<Byte>

  const KEY_LEN := 32
  const TAG_LEN := 16

  /** Nonces are unsigned 64-bit counters. */
  const NONCE_SPACE := 0x1_0000_0000_0000_0000

  type Key = k: Bytes | |k| == KEY_LEN witness seq(KEY_LEN, _ => 0)

  datatype KeyPair = KeyPair(priv: Key, pub: Key)

  /** The primitives of Noise_XX_25519_ChaChaPoly_BLAKE2s, as functions. `dh` and `open` may fail. */
  datatype Suite = Suite(
    pub: Key -> Key,
    dh: (Key, Bytes) -> Option<Key>,
    hash: Bytes -> Key,
    hkdf: (Key, Bytes) -> (Key, Key),
    seal: (Key, nat, Bytes, Bytes) -> Bytes,
    open: (Key, nat, Bytes, Bytes) -> Option<Bytes>)

  /** Diffie-Hellman succeeds on public keys and is symmetric, and refuses a key of the wrong length. */
  ghost predicate DhLaws(c: Suite)
  {
    && (forall a: Key, b: Key :: c.dh(a, c.pub(b)).Some? && c.dh(a, c.pub(b)) == c.dh(b, c.pub(a)))
    && (forall a: Key, b: Bytes :: |b| != KEY_LEN ==> c.dh(a, b).None?)
  }

  /** Sealing adds a 16-byte tag, opening undoes it, and nothing else opens. */
  ghost predicate AeadLaws(c: Suite)
  {
    && (forall k: Key, n: nat, ad: Bytes, p: Bytes :: |c.seal(k, n, ad, p)| == |p| + TAG_LEN)
    && (forall k: Key, n: nat, ad: Bytes, p: Bytes :: c.open(k, n, ad, c.seal(k, n, ad, p)) == Some(p))
    && (forall k: Key, n: nat, ad: Bytes, x: Bytes :: c.open(k, n, ad, x).Some? ==> x == c.seal(k, n, ad, c.open(k, n, ad, x).value))
  }

  ghost predicate Laws(c: Suite)
  {
    DhLaws(c) && AeadLaws(c)
  }

  predicate Genuine(c: Suite, k: KeyPair)
  {
    k.pub == c.pub(k.priv)
  }
}
