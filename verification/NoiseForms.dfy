/**
 The six message steps of pattern XX written out in a straight line, and the proof that each
 is what the pattern interpreter of NoiseSpec computes. The two hand-written implementations
 have this shape; they are compared with the interpreter through it.
 */
module NoiseForms {
  import opened Core
  import opened NoiseSuite
  import opened NoiseSpec

  function Dh(c: Suite, local: Option<KeyPair>, remote: Option<Bytes>): (r: Option<Key>)
  {
    var l :- local;
    var m :- remote;
    c.dh(l.priv, m)
  }

  /** Append the empty payload and count the message. */
  function Sealed(c: Suite, h: Handshake, m: Bytes): (Handshake, Bytes)
  {
    var (y, ct) := EncryptAndHash(c, h.y, []);
    (h.(y := y, step := h.step + 1), m + ct)
  }

  function Opened(c: Suite, h: Handshake, rest: Bytes): Option<Handshake>
  {
    var p :- DecryptAndHash(c, h.y, rest);
    Some(h.(y := p.0, step := h.step + 1))
  }

  /** -> e, by the initiator. */
  function Write1(c: Suite, h: Handshake, eph: KeyPair): (r: (Handshake, Bytes))
  {
    Sealed(c, h.(e := Some(eph), y := MixHash(c, h.y, eph.pub)), eph.pub)
  }

  /** <- e, ee, s, es, by the responder. */
  function Write2(c: Suite, h: Handshake, eph: KeyPair): (r: Option<(Handshake, Bytes)>)
  {
    var y0 := MixHash(c, h.y, eph.pub);
    var ee :- Dh(c, Some(eph), h.re);
    var (y1, ct) := EncryptAndHash(c, MixKey(c, y0, ee), h.s.pub);
    var es :- Dh(c, Some(h.s), h.re);
    Some(Sealed(c, h.(e := Some(eph), y := MixKey(c, y1, es)), eph.pub + ct))
  }

  /** -> s, se, by the initiator. */
  function Write3(c: Suite, h: Handshake): (r: Option<(Handshake, Bytes)>)
  {
    var (y0, ct) := EncryptAndHash(c, h.y, h.s.pub);
    var se :- Dh(c, Some(h.s), h.re);
    Some(Sealed(c, h.(y := MixKey(c, y0, se)), ct))
  }

  /** -> e, read by the responder. */
  function Read1(c: Suite, h: Handshake, m: Bytes): (r: Option<Handshake>)
  {
    if |m| < KEY_LEN then None
    else Opened(c, h.(re := Some(m[..KEY_LEN]), y := MixHash(c, h.y, m[..KEY_LEN])), m[KEY_LEN..])
  }

  /** <- e, ee, s, es, read by the initiator. */
  function Read2(c: Suite, h: Handshake, m: Bytes): (r: Option<Handshake>)
  {
    if |m| < KEY_LEN then None
    else
      var re := m[..KEY_LEN];
      var ee :- Dh(c, h.e, Some(re));
      var y1 := MixKey(c, MixHash(c, h.y, re), ee);
      if |m| < 2 * KEY_LEN + TAG_LEN then None
      else
        var p :- DecryptAndHash(c, y1, m[KEY_LEN..2 * KEY_LEN + TAG_LEN]);
        var es :- Dh(c, h.e, Some(p.1));
        Opened(c, h.(re := Some(re), rs := Some(p.1), y := MixKey(c, p.0, es)), m[2 * KEY_LEN + TAG_LEN..])
  }

  /** -> s, se, read by the responder, whose cipher has a key. */
  function Read3(c: Suite, h: Handshake, m: Bytes): (r: Option<Handshake>)
  {
    if |m| < KEY_LEN + TAG_LEN then None
    else
      var p :- DecryptAndHash(c, h.y, m[..KEY_LEN + TAG_LEN]);
      var se :- Dh(c, h.e, Some(p.1));
      Opened(c, h.(rs := Some(p.1), y := MixKey(c, p.0, se)), m[KEY_LEN + TAG_LEN..])
  }

  lemma Write1Form(c: Suite, h: Handshake, eph: KeyPair)
    requires h.step == 0
    ensures WriteMessage(c, h, eph) == Some(Write1(c, h, eph))
  {
    assert Pattern(0)[1..] == [];
    assert eph.pub + [] == eph.pub;
  }

  lemma Write2Form(c: Suite, h: Handshake, eph: KeyPair)
    requires h.step == 1 && !h.initiator
    ensures WriteMessage(c, h, eph) == Write2(c, h, eph)
  {
    assert [E, EE, S, ES][1..] == [EE, S, ES] && [EE, S, ES][1..] == [S, ES] && [S, ES][1..] == [ES] && [ES][1..] == [];
    var h1 := h.(e := Some(eph), y := MixHash(c, h.y, eph.pub));
    if MixShared(c, h1, EE).Some? {
      var h2 := MixShared(c, h1, EE).value;
      var (y, ct) := EncryptAndHash(c, h2.y, h.s.pub);
      var h3 := h2.(y := y);
      assert WriteTokens(c, h3, [ES], eph)
             == if MixShared(c, h3, ES).Some? then Some((MixShared(c, h3, ES).value, [] + [])) else None;
      assert eph.pub + ([] + (ct + ([] + []))) == eph.pub + ct;
    }
  }

  lemma Write3Form(c: Suite, h: Handshake, eph: KeyPair)
    requires h.step == 2 && h.initiator
    ensures WriteMessage(c, h, eph) == Write3(c, h)
  {
    assert [S, SE][1..] == [SE] && [SE][1..] == [];
    var (y, ct) := EncryptAndHash(c, h.y, h.s.pub);
    assert ct + ([] + []) == ct;
  }

  lemma Read1Form(c: Suite, h: Handshake, m: Bytes)
    requires h.step == 0
    ensures ReadMessage(c, h, m) == Read1(c, h, m)
  {
    assert Pattern(0)[1..] == [];
  }

  lemma Read2Form(c: Suite, h: Handshake, m: Bytes)
    requires h.step == 1 && h.initiator
    ensures ReadMessage(c, h, m) == Read2(c, h, m)
  {
    assert [E, EE, S, ES][1..] == [EE, S, ES] && [EE, S, ES][1..] == [S, ES] && [S, ES][1..] == [ES] && [ES][1..] == [];
    if |m| >= KEY_LEN {
      var m1 := m[KEY_LEN..];
      if |m| >= 2 * KEY_LEN + TAG_LEN {
        assert m1[..KEY_LEN + TAG_LEN] == m[KEY_LEN..2 * KEY_LEN + TAG_LEN];
        assert m1[KEY_LEN + TAG_LEN..] == m[2 * KEY_LEN + TAG_LEN..];
      }
    }
  }

  lemma Read3Form(c: Suite, h: Handshake, m: Bytes)
    requires h.step == 2 && !h.initiator && h.y.cipher.k.Some?
    ensures ReadMessage(c, h, m) == Read3(c, h, m)
  {
    assert [S, SE][1..] == [SE] && [SE][1..] == [];
  }
}
