/**
 The TypeScript SDK's hand-written Noise XX (sdk/ts/src/noise): separate read and write counts
 per role, slices that never fail, an unbounded nonce that is cut to 64 bits when it is encoded.
 Nothing checks message lengths here; that short messages fail all the same is proved in
 NoiseEquivalence.
 */
module TsNoise {
  import opened Core
  import opened NoiseSuite
  import Spec = NoiseSpec
  import Forms = NoiseForms

  // ----- Byte arrays -----

  /** `a.slice(from, to)` on a Uint8Array: bounds beyond the end are cut off. */
  function Slice(a: Bytes, from: nat, to: nat): (r: Bytes)
  {
    var hi := if to < |a| then to else |a|;
    if from < hi then a[from..hi] else []
  }

  function SliceFrom(a: Bytes, from: nat): (r: Bytes)
  {
    if from < |a| then a[from..] else []
  }

  function Flatten(parts: seq<Bytes>): (r: Bytes)
  {
    if parts == [] then [] else Flatten(parts[..|parts| - 1]) + parts[|parts| - 1]
  }

  /** concat and concatAll: measure, then fill a buffer part by part. */
  method Concat(parts: seq<Bytes>) returns (out: Bytes)
    ensures out == Flatten(parts)
  {
    var total := 0;
    for i := 0 to |parts|
      invariant total == |Flatten(parts[..i])|
    {
      assert parts[..i + 1][..i] == parts[..i];
      total := total + |parts[i]|;
    }
    assert parts[..|parts|] == parts;
    var buffer := new Byte[total];
    var offset := 0;
    for i := 0 to |parts|
      invariant offset == |Flatten(parts[..i])| <= total
      invariant buffer[..offset] == Flatten(parts[..i])
    {
      PrefixFits(parts, i + 1);
      assert parts[..i + 1][..i] == parts[..i];
      var p := parts[i];
      forall k | 0 <= k < |p| {
        buffer[offset + k] := p[k];
      }
      assert buffer[..offset + |p|] == Flatten(parts[..i]) + p;
      offset := offset + |p|;
    }
    assert parts[..|parts|] == parts;
    out := buffer[..];
  }

  lemma {:induction false} PrefixFits(parts: seq<Bytes>, i: nat)
    requires i <= |parts|
    ensures |Flatten(parts[..i])| <= |Flatten(parts)|
    decreases |parts| - i
  {
    if i < |parts| {
      assert parts[..i + 1][..i] == parts[..i];
      PrefixFits(parts, i + 1);
    } else {
      assert parts[..i] == parts;
    }
  }

  lemma FlattenShort(a: Bytes, b: Bytes, d: Bytes)
    ensures Flatten([a, b]) == a + b && Flatten([a, b, d]) == a + b + d
  {
    assert [a, b, d][..2] == [a, b] && [a, b][..1] == [a] && [a][..0] == [];
    assert Flatten([a]) == Flatten([]) + a == a;
    assert Flatten([a, b]) == Flatten([a]) + b;
  }

  // ----- cipherState.ts -----

  class CipherState {
    const c: Suite
    var key: Option<Key>
    var n: nat

    ghost function View(): (x: Spec.Cipher)
      reads this
    {
      Spec.Cipher(key, n % NONCE_SPACE)
    }

    constructor (c: Suite)
      ensures this.c == c && View() == Spec.Cipher(None, 0)
    {
      this.c := c;
      key := None;
      n := 0;
    }

    method InitializeKey(k: Key)
      modifies this
      ensures View() == Spec.Cipher(Some(k), 0)
    {
      key := Some(k);
      n := 0;
    }

    method EncryptWithAd(ad: Bytes, plaintext: Bytes) returns (out: Bytes)
      modifies this
      ensures (View(), out) == Spec.EncryptWithAd(c, old(View()), ad, plaintext)
    {
      if key.None? {
        return plaintext;
      }
      out := c.seal(key.value, n % NONCE_SPACE, ad, plaintext);
      n := n + 1;
    }

    method DecryptWithAd(ad: Bytes, ciphertext: Bytes) returns (out: Option<Bytes>)
      modifies this
      ensures out.Some? <==> Spec.DecryptWithAd(c, old(View()), ad, ciphertext).Some?
      ensures out.Some? ==> (View(), out.value) == Spec.DecryptWithAd(c, old(View()), ad, ciphertext).value
      ensures out.None? ==> View() == old(View())
    {
      if key.None? {
        return Some(ciphertext);
      }
      out := c.open(key.value, n % NONCE_SPACE, ad, ciphertext);
      if out.None? {
        return None;
      }
      n := n + 1;
    }
  }

  // ----- symmetricState.ts -----

  class SymmetricState {
    const c: Suite
    const cipher: CipherState
    var ck: Key
    var h: Key

    ghost predicate Valid()
    {
      cipher.c == c
    }

    ghost function View(): (y: Spec.Symmetric)
      reads this, cipher
    {
      Spec.Symmetric(ck, h, cipher.View())
    }

    constructor (c: Suite)
      ensures this.c == c && Valid() && fresh(cipher)
      ensures View() == Spec.InitializeSymmetric(c, Spec.PROTOCOL_NAME)
    {
      var h0: Key := c.hash(Spec.PROTOCOL_NAME);
      this.c := c;
      h := h0;
      ck := h0;
      cipher := new CipherState(c);
    }

    method MixKey(ikm: Bytes)
      requires Valid()
      modifies this, cipher
      ensures View() == Spec.MixKey(c, old(View()), ikm)
    {
      var (newCk, tempK) := c.hkdf(ck, ikm);
      ck := newCk;
      cipher.InitializeKey(tempK);
    }

    method MixHash(data: Bytes)
      requires Valid()
      modifies this
      ensures View() == Spec.MixHash(c, old(View()), data)
    {
      var combined := Concat([h, data]);
      FlattenShort(h, data, []);
      h := c.hash(combined);
    }

    method EncryptAndHash(plaintext: Bytes) returns (ciphertext: Bytes)
      requires Valid()
      modifies this, cipher
      ensures (View(), ciphertext) == Spec.EncryptAndHash(c, old(View()), plaintext)
    {
      ciphertext := cipher.EncryptWithAd(h, plaintext);
      MixHash(ciphertext);
    }

    method DecryptAndHash(ciphertext: Bytes) returns (plaintext: Option<Bytes>)
      requires Valid()
      modifies this, cipher
      ensures plaintext.Some? <==> Spec.DecryptAndHash(c, old(View()), ciphertext).Some?
      ensures plaintext.Some? ==> (View(), plaintext.value) == Spec.DecryptAndHash(c, old(View()), ciphertext).value
      ensures plaintext.None? ==> View() == old(View())
    {
      plaintext := cipher.DecryptWithAd(h, ciphertext);
      if plaintext.Some? {
        MixHash(ciphertext);
      }
    }

    method Split() returns (c1: CipherState, c2: CipherState)
      requires Valid()
      ensures fresh(c1) && fresh(c2) && c1 != c2 && c1.c == c2.c == c
      ensures (c1.View(), c2.View()) == Spec.Split(c, View())
    {
      var (k1, k2) := c.hkdf(ck, []);
      c1 := new CipherState(c);
      c1.InitializeKey(k1);
      c2 := new CipherState(c);
      c2.InitializeKey(k2);
    }
  }

  // ----- handshakeState.ts: reading without length checks -----

  function Read1(c: Suite, h: Spec.Handshake, m: Bytes): (r: Option<Spec.Handshake>)
  {
    var re := Slice(m, 0, KEY_LEN);
    Forms.Opened(c, h.(re := Some(re), y := Spec.MixHash(c, h.y, re)), SliceFrom(m, KEY_LEN))
  }

  function Read2(c: Suite, h: Spec.Handshake, m: Bytes): (r: Option<Spec.Handshake>)
  {
    var re := Slice(m, 0, KEY_LEN);
    var ee :- Forms.Dh(c, h.e, Some(re));
    var y1 := Spec.MixKey(c, Spec.MixHash(c, h.y, re), ee);
    var p :- Spec.DecryptAndHash(c, y1, Slice(m, KEY_LEN, 2 * KEY_LEN + TAG_LEN));
    var es :- Forms.Dh(c, h.e, Some(p.1));
    Forms.Opened(c, h.(re := Some(re), rs := Some(p.1), y := Spec.MixKey(c, p.0, es)), SliceFrom(m, 2 * KEY_LEN + TAG_LEN))
  }

  function Read3(c: Suite, h: Spec.Handshake, m: Bytes): (r: Option<Spec.Handshake>)
  {
    var p :- Spec.DecryptAndHash(c, h.y, Slice(m, 0, KEY_LEN + TAG_LEN));
    var se :- Forms.Dh(c, h.e, Some(p.1));
    Forms.Opened(c, h.(rs := Some(p.1), y := Spec.MixKey(c, p.0, se)), SliceFrom(m, KEY_LEN + TAG_LEN))
  }

  /** readMessage, by role and count. */
  function ReadMessage(c: Suite, h: Spec.Handshake, m: Bytes): (r: Option<Spec.Handshake>)
  {
    if !h.initiator && h.step == 0 then Read1(c, h, m)
    else if h.initiator && h.step == 1 then Read2(c, h, m)
    else if !h.initiator && h.step == 2 then Read3(c, h, m)
    else None
  }

  /** handleHandshakeMessage of a session that is still handshaking. */
  function Advance(c: Suite, h: Spec.Handshake, data: Bytes, eph: KeyPair): (r: Spec.Handled)
  {
    match ReadMessage(c, h, data)
    case None => Spec.Handled(Spec.Failed, None)
    case Some(h1) =>
      if h1.step == 3 then Spec.Handled(Spec.Finish(c, h1), None)
      else
        match Spec.WriteMessage(c, h1, eph)
        case None => Spec.Handled(Spec.Failed, None)
        case Some((h2, m)) =>
          Spec.Handled(if h2.step == 3 then Spec.Finish(c, h2) else Spec.Handshaking(h2), Some(m))
  }

  class HandshakeState {
    const c: Suite
    const initiator: bool
    const symmetric: SymmetricState
    const s: KeyPair
    var e: Option<KeyPair>
    var re: Option<Bytes>
    var rs: Option<Bytes>
    var writeCount: nat
    var readCount: nat

    /** Reads and writes alternate, and what the next message needs is there. */
    ghost predicate Valid()
    reads this
    {
      && symmetric.Valid() && symmetric.c == c
      && (if initiator then readCount <= writeCount <= readCount + 1 && writeCount <= 2
          else writeCount <= readCount <= writeCount + 1 && readCount <= 2)
      && (initiator && writeCount >= 1 ==> e.Some?) && (initiator && readCount >= 1 ==> re.Some? && rs.Some?)
      && (!initiator && readCount >= 1 ==> re.Some?) && (!initiator && writeCount >= 1 ==> e.Some?)
      && (!initiator && readCount >= 2 ==> rs.Some?)
    }

    ghost function View(): (h: Spec.Handshake)
      reads this, symmetric, symmetric.cipher
    {
      Spec.Handshake(initiator, symmetric.View(), s, e, re, rs, writeCount + readCount)
    }

    constructor (c: Suite, initiator: bool, s: KeyPair)
      ensures Valid() && View() == Spec.Initialize(c, initiator, s) && this.c == c && this.initiator == initiator
      ensures writeCount == readCount == 0 && fresh(symmetric) && fresh(symmetric.cipher)
    {
      this.c, this.initiator, this.s := c, initiator, s;
      symmetric := new SymmetricState(c);
      e, re, rs, writeCount, readCount := None, None, None, 0, 0;
      new;
      symmetric.MixHash([]);
    }

    method WriteMessage1(eph: KeyPair) returns (message: Bytes)
      requires Valid() && initiator && writeCount == 0
      modifies this, symmetric, symmetric.cipher
      ensures Valid() && writeCount == 1 && readCount == old(readCount)
      ensures (View(), message) == Forms.Write1(c, old(View()), eph)
    {
      e := Some(eph);
      symmetric.MixHash(eph.pub);
      var payload := symmetric.EncryptAndHash([]);
      writeCount := writeCount + 1;
      message := Concat([eph.pub, payload]);
      FlattenShort(eph.pub, payload, []);
    }

    method WriteMessage2(eph: KeyPair) returns (message: Option<Bytes>)
      requires Valid() && !initiator && writeCount == 0 && readCount == 1
      modifies this, symmetric, symmetric.cipher
      ensures message.Some? <==> Forms.Write2(c, old(View()), eph).Some?
      ensures message.Some? ==> Valid() && writeCount == 1 && readCount == old(readCount)
      ensures message.Some? ==> (View(), message.value) == Forms.Write2(c, old(View()), eph).value
    {
      e := Some(eph);
      symmetric.MixHash(eph.pub);
      var ee := c.dh(eph.priv, re.value);
      if ee.None? {
        return None;
      }
      symmetric.MixKey(ee.value);
      var encryptedS := symmetric.EncryptAndHash(s.pub);
      var es := c.dh(s.priv, re.value);
      if es.None? {
        return None;
      }
      symmetric.MixKey(es.value);
      var payload := symmetric.EncryptAndHash([]);
      writeCount := writeCount + 1;
      var out := Concat([eph.pub, encryptedS, payload]);
      FlattenShort(eph.pub, encryptedS, payload);
      return Some(out);
    }

    method WriteMessage3() returns (message: Option<Bytes>, c1: CipherState?, c2: CipherState?)
      requires Valid() && initiator && writeCount == 1 && readCount == 1
      modifies this, symmetric, symmetric.cipher
      ensures message.Some? <==> Forms.Write3(c, old(View())).Some?
      ensures message.Some? ==> Valid() && writeCount == 2 && readCount == old(readCount)
      ensures message.Some? ==> (View(), message.value) == Forms.Write3(c, old(View())).value
      ensures message.Some? ==>
                && c1 != null && c2 != null && fresh(c1) && fresh(c2) && c1 != c2 && c1.c == c2.c == c
                && (c1.View(), c2.View()) == Spec.Split(c, View().y)
    {
      var encryptedS := symmetric.EncryptAndHash(s.pub);
      var se := c.dh(s.priv, re.value);
      if se.None? {
        return None, null, null;
      }
      symmetric.MixKey(se.value);
      var payload := symmetric.EncryptAndHash([]);
      writeCount := writeCount + 1;
      c1, c2 := symmetric.Split();
      var out := Concat([encryptedS, payload]);
      FlattenShort(encryptedS, payload, []);
      message := Some(out);
    }

    method ReadMessage1(message: Bytes) returns (ok: bool)
      requires Valid() && !initiator && readCount == 0
      modifies this, symmetric, symmetric.cipher
      ensures ok <==> Read1(c, old(View()), message).Some?
      ensures ok ==> Valid() && readCount == 1 && writeCount == old(writeCount) && View() == Read1(c, old(View()), message).value
    {
      re := Some(Slice(message, 0, KEY_LEN));
      symmetric.MixHash(re.value);
      var p := symmetric.DecryptAndHash(SliceFrom(message, KEY_LEN));
      if p.None? {
        return false;
      }
      readCount := readCount + 1;
      return true;
    }

    method ReadMessage2(message: Bytes) returns (ok: bool)
      requires Valid() && initiator && readCount == 0 && writeCount == 1
      modifies this, symmetric, symmetric.cipher
      ensures ok <==> Read2(c, old(View()), message).Some?
      ensures ok ==> Valid() && readCount == 1 && writeCount == old(writeCount) && View() == Read2(c, old(View()), message).value
    {
      re := Some(Slice(message, 0, KEY_LEN));
      symmetric.MixHash(re.value);
      var ee := c.dh(e.value.priv, re.value);
      if ee.None? {
        return false;
      }
      symmetric.MixKey(ee.value);
      var pt := symmetric.DecryptAndHash(Slice(message, KEY_LEN, KEY_LEN + KEY_LEN + TAG_LEN));
      if pt.None? {
        return false;
      }
      rs := pt;
      var es := c.dh(e.value.priv, rs.value);
      if es.None? {
        return false;
      }
      symmetric.MixKey(es.value);
      var p := symmetric.DecryptAndHash(SliceFrom(message, KEY_LEN + KEY_LEN + TAG_LEN));
      if p.None? {
        return false;
      }
      readCount := readCount + 1;
      return true;
    }

    method ReadMessage3(message: Bytes) returns (ok: bool, c1: CipherState?, c2: CipherState?)
      requires Valid() && !initiator && readCount == 1 && writeCount == 1
      modifies this, symmetric, symmetric.cipher
      ensures ok <==> Read3(c, old(View()), message).Some?
      ensures ok ==> Valid() && readCount == 2 && writeCount == old(writeCount) && View() == Read3(c, old(View()), message).value
      ensures ok ==>
                && c1 != null && c2 != null && fresh(c1) && fresh(c2) && c1 != c2 && c1.c == c2.c == c
                && (c1.View(), c2.View()) == Spec.Split(c, View().y)
    {
      var pt := symmetric.DecryptAndHash(Slice(message, 0, KEY_LEN + TAG_LEN));
      if pt.None? {
        return false, null, null;
      }
      rs := pt;
      var se := c.dh(e.value.priv, rs.value);
      if se.None? {
        return false, null, null;
      }
      symmetric.MixKey(se.value);
      var p := symmetric.DecryptAndHash(SliceFrom(message, KEY_LEN + TAG_LEN));
      if p.None? {
        return false, null, null;
      }
      readCount := readCount + 1;
      c1, c2 := symmetric.Split();
      ok := true;
    }

    /** writeMessage, called when it is this party's turn. The ciphers are set by the third message only. */
    method WriteMessage(eph: KeyPair) returns (message: Option<Bytes>, c1: CipherState?, c2: CipherState?)
      requires Valid() && (if initiator then writeCount == readCount else readCount == writeCount + 1)
      requires writeCount + readCount < 3
      modifies this, symmetric, symmetric.cipher
      ensures message.Some? <==> Spec.WriteMessage(c, old(View()), eph).Some?
      ensures message.Some? ==> Valid() && writeCount == old(writeCount) + 1 && readCount == old(readCount)
      ensures message.Some? ==> (View(), message.value) == Spec.WriteMessage(c, old(View()), eph).value
      ensures message.Some? && View().step == 3 ==> c1 != null && c2 != null && Halves(c1, c2)
    {
      c1, c2 := null, null;
      if initiator && writeCount == 0 {
        Forms.Write1Form(c, View(), eph);
        var m := WriteMessage1(eph);
        message := Some(m);
      } else if !initiator && writeCount == 0 {
        Forms.Write2Form(c, View(), eph);
        message := WriteMessage2(eph);
      } else {
        Forms.Write3Form(c, View(), eph);
        message, c1, c2 := WriteMessage3();
      }
    }

    /** readMessage, called when it is the peer's turn to have written. */
    method ReadMessageFrom(message: Bytes) returns (ok: bool, c1: CipherState?, c2: CipherState?)
      requires Valid() && (if initiator then writeCount == readCount + 1 else readCount == writeCount)
      requires writeCount + readCount < 3
      modifies this, symmetric, symmetric.cipher
      ensures ok <==> ReadMessage(c, old(View()), message).Some?
      ensures ok ==> Valid() && readCount == old(readCount) + 1 && writeCount == old(writeCount)
      ensures ok ==> View() == ReadMessage(c, old(View()), message).value
      ensures ok && View().step == 3 ==> c1 != null && c2 != null && Halves(c1, c2)
    {
      c1, c2 := null, null;
      if !initiator && readCount == 0 {
        ok := ReadMessage1(message);
      } else if initiator && readCount == 0 {
        ok := ReadMessage2(message);
      } else {
        ok, c1, c2 := ReadMessage3(message);
      }
    }

    /** The two transport ciphers of this handshake, initiator to responder first. */
    ghost predicate Halves(c1: CipherState, c2: CipherState)
      reads this, symmetric, symmetric.cipher, c1, c2
    {
      c1 != c2 && c1.c == c2.c == c && (c1.View(), c2.View()) == Spec.Split(c, symmetric.View())
    }
  }

  // ----- session.ts -----

  datatype SessionStatus = Handshaking | Ready | Failed

  class NoiseSession {
    const c: Suite
    const initiator: bool
    const handshake: HandshakeState
    var status: SessionStatus
    var gotFirstMessage: bool
    var sendCipher: CipherState?
    var recvCipher: CipherState?
    var peerStaticKey: Option<Bytes>

    ghost predicate Valid()
      reads this, handshake, handshake.symmetric, handshake.symmetric.cipher
    {
      && handshake.c == c && handshake.initiator == initiator
      && (status == Handshaking ==>
            && handshake.Valid() && handshake.writeCount + handshake.readCount < 3
            && (if initiator then handshake.writeCount == 1 && handshake.readCount == 0
                else handshake.writeCount == handshake.readCount && (gotFirstMessage <==> handshake.readCount == 1)))
      && (status == Ready ==>
            && sendCipher != null && recvCipher != null && sendCipher != recvCipher
            && sendCipher.c == recvCipher.c == c && peerStaticKey.Some?)
    }

    ghost function View(): (x: Spec.Session)
      requires Valid()
      reads this, handshake, handshake.symmetric, handshake.symmetric.cipher, sendCipher, recvCipher
    {
      match status
      case Handshaking => Spec.Handshaking(handshake.View())
      case Ready => Spec.Ready(sendCipher.View(), recvCipher.View(), peerStaticKey.value)
      case Failed => Spec.Failed
    }

    /** startAsResponder, and the common part of startAsInitiator. */
    constructor (c: Suite, initiator: bool, s: KeyPair)
      ensures this.c == c && this.initiator == initiator && status == Handshaking && !gotFirstMessage
      ensures handshake.Valid() && handshake.c == c && handshake.initiator == initiator
      ensures handshake.View() == Spec.Initialize(c, initiator, s) && handshake.writeCount == handshake.readCount == 0
      ensures !initiator ==> Valid() && View() == Spec.Handshaking(Spec.Initialize(c, false, s))
      ensures fresh(handshake) && fresh(handshake.symmetric) && fresh(handshake.symmetric.cipher)
    {
      this.c, this.initiator := c, initiator;
      handshake := new HandshakeState(c, initiator, s);
      status := Handshaking;
      gotFirstMessage := false;
      sendCipher, recvCipher, peerStaticKey := null, null, None;
    }

    static method StartAsInitiator(c: Suite, s: KeyPair, eph: KeyPair) returns (session: NoiseSession, msg1: Bytes)
      ensures session.Valid() && session.c == c
      ensures Spec.Start(c, s, eph) == Some((session.View(), msg1))
    {
      Forms.Write1Form(c, Spec.Initialize(c, true, s), eph);
      session := new NoiseSession(c, true, s);
      var m, _, _ := session.handshake.WriteMessage(eph);
      msg1 := m.value;
    }

    method Finish(send: CipherState, recv: CipherState)
      requires handshake.c == c && handshake.initiator == initiator && handshake.rs.Some?
      requires send != recv && send.c == recv.c == c
      modifies this
      ensures Valid() && View() == Spec.Ready(send.View(), recv.View(), handshake.rs.value)
    {
      sendCipher := send;
      recvCipher := recv;
      peerStaticKey := handshake.rs;
      status := Ready;
    }

    /** handleHandshakeMessage. A message after the handshake throws and changes nothing. */
    method HandleHandshakeMessage(data: Bytes, eph: KeyPair) returns (threw: bool, reply: Option<Bytes>)
      requires Valid()
      modifies this, handshake, handshake.symmetric, handshake.symmetric.cipher
      ensures Valid() && threw == (old(status) != Handshaking)
      ensures old(status) == Handshaking ==>
                Spec.Handled(View(), reply) == Advance(c, old(handshake.View()), data, eph)
      ensures threw ==> reply.None? && View() == old(View())
    {
      if status != Handshaking {
        return true, None;
      }
      if initiator {
        var ok, _, _ := handshake.ReadMessageFrom(data);
        if !ok {
          status := Failed;
          return false, None;
        }
        var message, c1, c2 := handshake.WriteMessage(eph);
        if message.None? {
          status := Failed;
          return false, None;
        }
        Finish(c1, c2);
        return false, message;
      }
      if !gotFirstMessage {
        gotFirstMessage := true;
        var ok, _, _ := handshake.ReadMessageFrom(data);
        if !ok {
          status := Failed;
          return false, None;
        }
        var message, _, _ := handshake.WriteMessage(eph);
        if message.None? {
          status := Failed;
          return false, None;
        }
        return false, message;
      }
      var ok, c1, c2 := handshake.ReadMessageFrom(data);
      if !ok {
        status := Failed;
        return false, None;
      }
      Finish(c2, c1);
      return false, None;
    }

    method Encrypt(plaintext: Bytes) returns (out: Option<Bytes>)
      requires Valid()
      modifies sendCipher
      ensures Valid()
      ensures out.Some? <==> Spec.Encrypt(c, old(View()), plaintext).Some?
      ensures out.Some? ==> (View(), out.value) == Spec.Encrypt(c, old(View()), plaintext).value
    {
      if status != Ready || sendCipher == null {
        return None;
      }
      var ct := sendCipher.EncryptWithAd([], plaintext);
      return Some(ct);
    }

    method Decrypt(ciphertext: Bytes) returns (out: Option<Bytes>)
      requires Valid()
      modifies recvCipher
      ensures Valid()
      ensures out.Some? <==> Spec.Decrypt(c, old(View()), ciphertext).Some?
      ensures out.Some? ==> (View(), out.value) == Spec.Decrypt(c, old(View()), ciphertext).value
      ensures out.None? ==> View() == old(View())
    {
      if status != Ready || recvCipher == null {
        return None;
      }
      out := recvCipher.DecryptWithAd([], ciphertext);
    }
  }
}
