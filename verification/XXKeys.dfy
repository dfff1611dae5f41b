/**
 What an honest XX handshake puts on the wire and which keys come out of it, written out with
 the primitives alone: no handshake state, no pattern, no cipher object.
 */
module XXKeys {
  import opened Core
  import opened NoiseSuite

  function Ascii(s: string): (r: Bytes)
    requires forall i :: 0 <= i < |s| ==> s[i] < 128 as char
  {
    seq(|s|, i requires 0 <= i < |s| => s[i] as int)
  }

  /** The public values of a handshake and its three shared secrets. */
  datatype Inputs = Inputs(ei: Key, er: Key, si: Key, sr: Key, ee: Key, es: Key, se: Key)

  /** The three messages, the key of each direction, and the final handshake hash. */
  datatype Outputs = Outputs(m1: Bytes, m2: Bytes, m3: Bytes, toResponder: Key, toInitiator: Key, h: Key)

  /** The hash after the first message, which carries an ephemeral in the clear and an empty payload. */
  function Hash1(c: Suite, name: Bytes, ei: Key): (h: Key)
  {
    c.hash(c.hash(c.hash(c.hash(name) + []) + ei) + [])
  }

  /** The whole handshake; the name of the protocol is longer than a hash, so it is hashed. */
  function Expected(c: Suite, name: Bytes, v: Inputs): (r: Outputs)
  {
    // -> e
    var h1 := Hash1(c, name, v.ei);
    // <- e, ee, s, es
    var h2 := c.hash(h1 + v.er);
    var (ck1, k1) := c.hkdf(c.hash(name), v.ee);
    var static2 := c.seal(k1, 0, h2, v.sr);
    var h3 := c.hash(h2 + static2);
    var (ck2, k2) := c.hkdf(ck1, v.es);
    var tag2 := c.seal(k2, 0, h3, []);
    var h4 := c.hash(h3 + tag2);
    // -> s, se: the cipher of the second message goes on
    var static3 := c.seal(k2, 1, h4, v.si);
    var h5 := c.hash(h4 + static3);
    var (ck3, k3) := c.hkdf(ck2, v.se);
    var tag3 := c.seal(k3, 0, h5, []);
    // Split
    var (t1, t2) := c.hkdf(ck3, []);
    Outputs(v.ei, v.er + static2 + tag2, static3 + tag3, t1, t2, c.hash(h5 + tag3))
  }

  /** The inputs of two parties with these key pairs. */
  function InputsOf(c: Suite, si: KeyPair, sr: KeyPair, ei: KeyPair, er: KeyPair): (v: Inputs)
    requires c.dh(ei.priv, er.pub).Some? && c.dh(ei.priv, sr.pub).Some? && c.dh(si.priv, er.pub).Some?
  {
    Inputs(ei.pub, er.pub, si.pub, sr.pub,
           c.dh(ei.priv, er.pub).value, c.dh(ei.priv, sr.pub).value, c.dh(si.priv, er.pub).value)
  }

  function HonestOutputs(c: Suite, si: KeyPair, sr: KeyPair, ei: KeyPair, er: KeyPair): (r: Outputs)
    requires c.dh(ei.priv, er.pub).Some? && c.dh(ei.priv, sr.pub).Some? && c.dh(si.priv, er.pub).Some?
  {
    Expected(c, Ascii("Noise_XX_25519_ChaChaPoly_BLAKE2s"), InputsOf(c, si, sr, ei, er))
  }
}
