/**
 The C++ SDK's hand-written Noise XX (sdk/cpp/src/noise): objects that are updated in place,
 one message index for both roles, a running offset while parsing. A thrown exception is a
 None or false result; after one the handshake object is not used again.
 */
module CppNoise {
  import opened Core
  import opened NoiseSuite
  import Spec = NoiseSpec
  import Forms = NoiseForms

  class CipherState {
    const c: Suite
    var key: Option<Key>
    var n: nat

    ghost function View(): (x: Spec.Cipher)
      reads this
    {
      Spec.Cipher(key, n)
    }

    constructor (c: Suite)
      ensures this.c == c && View() == Spec.Cipher(None, 0)
    {
      this.c := c;
      key := None;
      n := 0;
    }

    method InitializeKey(k: Key)
      modifies this
      ensures View() == Spec.Cipher(Some(k), 0)
    {
      key := Some(k);
      n := 0;
    }

    /** `++n_` on an unsigned 64-bit counter wraps around. */
    method EncryptWithAd(ad: Bytes, plaintext: Bytes) returns (out: Bytes)
      modifies this
      ensures (View(), out) == Spec.EncryptWithAd(c, old(View()), ad, plaintext)
    {
      if key.None? {
        return plaintext;
      }
      out := c.seal(key.value, n, ad, plaintext);
      n := (n + 1) % NONCE_SPACE;
    }

    /** The decryption throws before the counter is touched. */
    method DecryptWithAd(ad: Bytes, ciphertext: Bytes) returns (out: Option<Bytes>)
      modifies this
      ensures out.Some? <==> Spec.DecryptWithAd(c, old(View()), ad, ciphertext).Some?
      ensures out.Some? ==> (View(), out.value) == Spec.DecryptWithAd(c, old(View()), ad, ciphertext).value
      ensures out.None? ==> View() == old(View())
    {
      if key.None? {
        return Some(ciphertext);
      }
      out := c.open(key.value, n, ad, ciphertext);
      if out.None? {
        return None;
      }
      n := (n + 1) % NONCE_SPACE;
    }
  }

  class SymmetricState {
    const c: Suite
    const cipher: CipherState
    var ck: Key
    var h: Key

    ghost predicate Valid()
    {
      cipher.c == c
    }

    ghost function View(): (y: Spec.Symmetric)
      reads this, cipher
    {
      Spec.Symmetric(ck, h, cipher.View())
    }

    /** Initialize: a name of at most 32 bytes is padded with zeros, a longer one is hashed. */
    constructor (c: Suite, name: Bytes)
      ensures this.c == c && Valid() && fresh(cipher) && View() == Spec.InitializeSymmetric(c, name)
    {
      var h0: Key;
      if |name| <= KEY_LEN {
        h0 := name + seq(KEY_LEN - |name|, _ => 0);
      } else {
        h0 := c.hash(name);
      }
      this.c := c;
      h := h0;
      ck := h0;
      cipher := new CipherState(c);
    }

    method MixKey(ikm: Bytes)
      requires Valid()
      modifies this, cipher
      ensures View() == Spec.MixKey(c, old(View()), ikm)
    {
      var (newCk, tempK) := c.hkdf(ck, ikm);
      ck := newCk;
      cipher.InitializeKey(tempK);
    }

    method MixHash(data: Bytes)
      requires Valid()
      modifies this
      ensures View() == Spec.MixHash(c, old(View()), data)
    {
      var combined := h + data;
      h := c.hash(combined);
    }

    method EncryptAndHash(plaintext: Bytes) returns (ciphertext: Bytes)
      requires Valid()
      modifies this, cipher
      ensures (View(), ciphertext) == Spec.EncryptAndHash(c, old(View()), plaintext)
    {
      ciphertext := cipher.EncryptWithAd(h, plaintext);
      MixHash(ciphertext);
    }

    method DecryptAndHash(ciphertext: Bytes) returns (plaintext: Option<Bytes>)
      requires Valid()
      modifies this, cipher
      ensures plaintext.Some? <==> Spec.DecryptAndHash(c, old(View()), ciphertext).Some?
      ensures plaintext.Some? ==> (View(), plaintext.value) == Spec.DecryptAndHash(c, old(View()), ciphertext).value
      ensures plaintext.None? ==> View() == old(View())
    {
      plaintext := cipher.DecryptWithAd(h, ciphertext);
      if plaintext.Some? {
        MixHash(ciphertext);
      }
    }

    method Split() returns (c1: CipherState, c2: CipherState)
      requires Valid()
      ensures fresh(c1) && fresh(c2) && c1 != c2 && c1.c == c2.c == c
      ensures (c1.View(), c2.View()) == Spec.Split(c, View())
    {
      var (k1, k2) := c.hkdf(ck, []);
      c1 := new CipherState(c);
      c2 := new CipherState(c);
      c1.InitializeKey(k1);
      c2.InitializeKey(k2);
    }
  }

  datatype SplitResult = SplitResult(send: CipherState, recv: CipherState, peerStatic: Key)

  class HandshakeState {
    const c: Suite
    const initiator: bool
    const symmetric: SymmetricState
    const s: KeyPair
    var messageIndex: nat
    var e: Option<KeyPair>
    var re: Option<Key>
    var rs: Option<Key>

    /** After each message the fields that the next one dereferences are set. */
    ghost predicate Valid()
      reads this, symmetric.cipher
    {
      && symmetric.Valid() && symmetric.c == c && messageIndex <= 3
      && (messageIndex >= 1 ==> if initiator then e.Some? else re.Some?)
      && (messageIndex >= 2 ==> e.Some? && re.Some? && (initiator ==> rs.Some?) && symmetric.cipher.key.Some?)
      && (messageIndex == 3 ==> rs.Some?)
    }

    ghost function View(): (h: Spec.Handshake)
      reads this, symmetric, symmetric.cipher
    {
      Spec.Handshake(initiator, symmetric.View(), s, e, re, rs, messageIndex)
    }

    constructor (c: Suite, initiator: bool, s: KeyPair)
      ensures Valid() && View() == Spec.Initialize(c, initiator, s) && this.c == c && this.initiator == initiator
      ensures fresh(symmetric) && fresh(symmetric.cipher)
    {
      this.c, this.initiator, this.s := c, initiator, s;
      symmetric := new SymmetricState(c, Spec.PROTOCOL_NAME);
      messageIndex, e, re, rs := 0, None, None, None;
      new;
      symmetric.MixHash([]);
    }

    predicate WriterTurn()
      reads this
    {
      messageIndex >= 3 || initiator == (messageIndex % 2 == 0)
    }

    predicate ReaderTurn()
      reads this
    {
      messageIndex >= 3 || initiator == (messageIndex % 2 == 1)
    }

    /** The branch of WriteMessage for `-> e`; the payload is not yet appended. */
    method WriteE(eph: KeyPair) returns (buffer: Bytes)
      requires Valid()
      modifies this`e, symmetric
      ensures e == Some(eph) && buffer == eph.pub
      ensures symmetric.View() == Spec.MixHash(c, old(symmetric.View()), eph.pub)
    {
      e := Some(eph);
      buffer := eph.pub;
      symmetric.MixHash(eph.pub);
    }

    /** The branch for `<- e, ee, s, es`. */
    method WriteEEeSEs(eph: KeyPair) returns (buffer: Option<Bytes>)
      requires Valid() && messageIndex == 1 && !initiator
      modifies this`e, symmetric, symmetric.cipher
      ensures buffer.Some? <==> Forms.Write2(c, old(View()), eph).Some?
      ensures buffer.Some? ==> Forms.Write2(c, old(View()), eph) == Some(Forms.Sealed(c, View(), buffer.value))
      ensures buffer.Some? ==> Valid() && e.Some? && symmetric.cipher.key.Some?
    {
      var out := WriteE(eph);
      var ee := c.dh(eph.priv, re.value);
      if ee.None? {
        return None;
      }
      symmetric.MixKey(ee.value);
      var ct := symmetric.EncryptAndHash(s.pub);
      out := out + ct;
      var es := c.dh(s.priv, re.value);
      if es.None? {
        return None;
      }
      symmetric.MixKey(es.value);
      return Some(out);
    }

    /** The branch for `-> s, se`. */
    method WriteSSe() returns (buffer: Option<Bytes>)
      requires Valid() && messageIndex == 2 && initiator
      modifies symmetric, symmetric.cipher
      ensures buffer.Some? <==> Forms.Write3(c, old(View())).Some?
      ensures buffer.Some? ==> Forms.Write3(c, old(View())) == Some(Forms.Sealed(c, View(), buffer.value))
      ensures buffer.Some? ==> Valid()
    {
      var ct := symmetric.EncryptAndHash(s.pub);
      var se := c.dh(s.priv, re.value);
      if se.None? {
        return None;
      }
      symmetric.MixKey(se.value);
      return Some(ct);
    }

    /** Append the empty payload to the buffer and count the message. */
    method Seal(buffer: Bytes) returns (message: Bytes)
      requires Valid() && messageIndex < 3
      requires messageIndex == 0 ==> if initiator then e.Some? else re.Some?
      requires messageIndex >= 1 ==> e.Some? && re.Some? && (initiator ==> rs.Some?) && symmetric.cipher.key.Some?
      requires messageIndex == 2 ==> rs.Some?
      modifies this`messageIndex, symmetric, symmetric.cipher
      ensures Valid() && (View(), message) == Forms.Sealed(c, old(View()), buffer)
    {
      var ct := symmetric.EncryptAndHash([]);
      message := buffer + ct;
      messageIndex := messageIndex + 1;
    }

    /** WriteMessage. It is called only when it is this party's turn. */
    method WriteMessage(eph: KeyPair) returns (message: Option<Bytes>, split: Option<SplitResult>)
      requires Valid() && WriterTurn()
      modifies this, symmetric, symmetric.cipher
      ensures message.Some? <==> Spec.WriteMessage(c, old(View()), eph).Some?
      ensures message.Some? ==> Valid() && (View(), message.value) == Spec.WriteMessage(c, old(View()), eph).value
      ensures split.Some? <==> message.Some? && messageIndex == 3
      ensures split.Some? ==>
                && fresh(split.value.send) && fresh(split.value.recv) && split.value.send != split.value.recv
                && split.value.send.c == split.value.recv.c == c && SplitView(split.value) == Spec.Finish(c, View())
    {
      ghost var h := View();
      split := None;
      var buffer: Option<Bytes>;
      if messageIndex == 0 {
        Forms.Write1Form(c, h, eph);
        var out := WriteE(eph);
        buffer := Some(out);
      } else if messageIndex == 1 {
        Forms.Write2Form(c, h, eph);
        buffer := WriteEEeSEs(eph);
      } else if messageIndex == 2 {
        Forms.Write3Form(c, h, eph);
        buffer := WriteSSe();
      } else {
        return None, None;
      }
      if buffer.None? {
        return None, None;
      }
      var out := Seal(buffer.value);
      message := Some(out);
      if messageIndex == 3 {
        var c1, c2 := symmetric.Split();
        split := Some(SplitResult(c1, c2, rs.value));
      }
    }

    /** The branch of ReadMessage for `-> e`; returns the offset of the payload. */
    method ReadE(message: Bytes) returns (offset: Option<nat>)
      requires Valid()
      modifies this`re, symmetric
      ensures offset == if |message| < KEY_LEN then None else Some(KEY_LEN)
      ensures offset.Some? ==>
                && re == Some(message[..KEY_LEN])
                && symmetric.View() == Spec.MixHash(c, old(symmetric.View()), message[..KEY_LEN])
    {
      if KEY_LEN > |message| {
        return None;
      }
      re := Some(message[..KEY_LEN]);
      symmetric.MixHash(message[..KEY_LEN]);
      return Some(KEY_LEN);
    }

    /** The token `s` at `offset`: decrypt 48 bytes into the remote static key, then mix the DH of our ephemeral with it. */
    method ReadSAndMix(message: Bytes, offset: nat) returns (next: Option<nat>)
      requires Valid() && AeadLaws(c) && e.Some? && symmetric.cipher.key.Some? && offset <= |message|
      modifies this`rs, symmetric, symmetric.cipher
      ensures var y := old(symmetric.View());
              var end := offset + KEY_LEN + TAG_LEN;
              if end > |message| || Spec.DecryptAndHash(c, y, message[offset..end]).None? then next.None?
              else
                var (y1, p) := Spec.DecryptAndHash(c, y, message[offset..end]).value;
                if c.dh(e.value.priv, p).None? then next.None?
                else && next == Some(end) && rs == Some(p)
                     && symmetric.View() == Spec.MixKey(c, y1, c.dh(e.value.priv, p).value)
    {
      var end := offset + KEY_LEN + TAG_LEN;
      if end > |message| {
        return None;
      }
      var pt := symmetric.DecryptAndHash(message[offset..end]);
      if pt.None? {
        return None;
      }
      rs := Some(pt.value);
      var k := c.dh(e.value.priv, pt.value);
      if k.None? {
        return None;
      }
      symmetric.MixKey(k.value);
      return Some(end);
    }

    /** The branch for `<- e, ee, s, es`. */
    method ReadEEeSEs(message: Bytes) returns (offset: Option<nat>)
      requires Valid() && AeadLaws(c) && messageIndex == 1 && initiator
      modifies this, symmetric, symmetric.cipher
      ensures offset.None? ==> Forms.Read2(c, old(View()), message).None?
      ensures offset.Some? ==>
                && Valid() && messageIndex == 1 && re.Some? && rs.Some? && symmetric.cipher.key.Some?
                && offset.value == 2 * KEY_LEN + TAG_LEN && offset.value <= |message|
                && Forms.Read2(c, old(View()), message) == Forms.Opened(c, View(), message[offset.value..])
    {
      offset := ReadE(message);
      if offset.None? {
        return None;
      }
      var ee := c.dh(e.value.priv, re.value);
      if ee.None? {
        return None;
      }
      symmetric.MixKey(ee.value);
      offset := ReadSAndMix(message, KEY_LEN);
    }

    /** The branch for `-> s, se`. */
    method ReadSSe(message: Bytes) returns (offset: Option<nat>)
      requires Valid() && AeadLaws(c) && messageIndex == 2 && !initiator
      modifies this`rs, symmetric, symmetric.cipher
      ensures offset.None? ==> Forms.Read3(c, old(View()), message).None?
      ensures offset.Some? ==>
                && Valid() && rs.Some? && offset.value == KEY_LEN + TAG_LEN && offset.value <= |message|
                && Forms.Read3(c, old(View()), message) == Forms.Opened(c, View(), message[offset.value..])
    {
      offset := ReadSAndMix(message, 0);
      assert |message| >= KEY_LEN + TAG_LEN ==> message[0..KEY_LEN + TAG_LEN] == message[..KEY_LEN + TAG_LEN];
    }

    /** Open the payload that is left and count the message. */
    method OpenPayload(remaining: Bytes) returns (ok: bool)
      requires Valid() && messageIndex < 3
      requires messageIndex == 0 ==> if initiator then e.Some? else re.Some?
      requires messageIndex >= 1 ==> e.Some? && re.Some? && (initiator ==> rs.Some?) && symmetric.cipher.key.Some?
      requires messageIndex == 2 ==> rs.Some?
      modifies this`messageIndex, symmetric, symmetric.cipher
      ensures ok <==> Forms.Opened(c, old(View()), remaining).Some?
      ensures ok ==> Valid() && View() == Forms.Opened(c, old(View()), remaining).value
    {
      var p := symmetric.DecryptAndHash(remaining);
      if p.None? {
        return false;
      }
      messageIndex := messageIndex + 1;
      return true;
    }

    /** ReadMessage. */
    method ReadMessage(message: Bytes) returns (ok: bool, split: Option<SplitResult>)
      requires Valid() && AeadLaws(c) && ReaderTurn()
      modifies this, symmetric, symmetric.cipher
      ensures ok <==> Spec.ReadMessage(c, old(View()), message).Some?
      ensures ok ==> Valid() && View() == Spec.ReadMessage(c, old(View()), message).value
      ensures split.Some? <==> ok && messageIndex == 3
      ensures split.Some? ==>
                && fresh(split.value.send) && fresh(split.value.recv) && split.value.send != split.value.recv
                && split.value.send.c == split.value.recv.c == c && SplitView(split.value) == Spec.Finish(c, View())
    {
      ghost var h := View();
      split := None;
      var offset: Option<nat>;
      if messageIndex == 0 {
        Forms.Read1Form(c, h, message);
        offset := ReadE(message);
      } else if messageIndex == 1 {
        Forms.Read2Form(c, h, message);
        offset := ReadEEeSEs(message);
      } else if messageIndex == 2 {
        Forms.Read3Form(c, h, message);
        offset := ReadSSe(message);
      } else {
        return false, None;
      }
      if offset.None? {
        return false, None;
      }
      ok := OpenPayload(message[offset.value..]);
      if ok && messageIndex == 3 {
        var c1, c2 := symmetric.Split();
        if initiator {
          split := Some(SplitResult(c1, c2, rs.value));
        } else {
          split := Some(SplitResult(c2, c1, rs.value));
        }
      }
    }
  }

  ghost function SplitView(r: SplitResult): Spec.Session
    reads r.send, r.recv
  {
    Spec.Ready(r.send.View(), r.recv.View(), r.peerStatic)
  }

  datatype SessionStatus = Handshaking | Ready | Failed

  class NoiseSession {
    const c: Suite
    var status: SessionStatus
    var handshake: HandshakeState?
    var send: CipherState?
    var recv: CipherState?
    var peerStatic: Key

    /** The objects this session owns. */
    ghost function Parts(): set<object>
      reads this
    {
      (if handshake != null then {handshake, handshake.symmetric, handshake.symmetric.cipher} else {})
      + (if send != null then {send} else {}) + (if recv != null then {recv} else {})
    }

    /** While handshaking it is the peer's turn to write. */
    ghost predicate Valid()
      reads this, Parts()
    {
      && (status == Handshaking ==>
            && handshake != null && handshake.Valid() && handshake.c == c
            && handshake.messageIndex < 3 && handshake.ReaderTurn())
      && (status == Ready ==> send != null && recv != null && send != recv && send.c == recv.c == c)
    }

    /** The session as a value: what it can still do. */
    ghost function View(): (x: Spec.Session)
      requires Valid()
      reads this, Parts()
    {
      match status
      case Handshaking => Spec.Handshaking(handshake.View())
      case Ready => Spec.Ready(send.View(), recv.View(), peerStatic)
      case Failed => Spec.Failed
    }

    constructor (c: Suite, initiator: bool, s: KeyPair)
      ensures this.c == c && status == Handshaking && handshake != null && handshake.Valid() && handshake.c == c
      ensures handshake.View() == Spec.Initialize(c, initiator, s) && handshake.initiator == initiator
      ensures fresh(handshake) && fresh(handshake.symmetric) && fresh(handshake.symmetric.cipher) && send == recv == null
    {
      this.c := c;
      status := Handshaking;
      handshake := new HandshakeState(c, initiator, s);
      send, recv := null, null;
      peerStatic := seq(KEY_LEN, _ => 0);
    }

    static method AsInitiator(c: Suite, s: KeyPair, eph: KeyPair) returns (session: NoiseSession, msg1: Bytes)
      ensures fresh(session) && fresh(session.Parts()) && session.Valid() && session.c == c
      ensures Spec.Start(c, s, eph) == Some((session.View(), msg1))
    {
      Forms.Write1Form(c, Spec.Initialize(c, true, s), eph);
      session := new NoiseSession(c, true, s);
      var m, split := session.handshake.WriteMessage(eph);
      msg1 := m.value;
    }

    static method AsResponder(c: Suite, s: KeyPair) returns (session: NoiseSession)
      ensures fresh(session) && fresh(session.Parts()) && session.Valid() && session.c == c
      ensures session.View() == Spec.Handshaking(Spec.Initialize(c, false, s))
    {
      session := new NoiseSession(c, false, s);
    }

    method Finish(split: SplitResult)
      requires split.send != split.recv && split.send.c == split.recv.c == c
      modifies this
      ensures Valid() && View() == SplitView(split) && send == split.send && recv == split.recv && handshake == null
    {
      send := split.send;
      recv := split.recv;
      peerStatic := split.peerStatic;
      status := Ready;
      handshake := null;
    }

    /** HandleHandshakeMessage. A message that arrives after the handshake makes the session fail, even a ready one. */
    method HandleHandshakeMessage(data: Bytes, eph: KeyPair) returns (reply: Option<Bytes>, done: bool)
      requires Valid() && AeadLaws(c)
      modifies this, if handshake != null then {handshake, handshake.symmetric, handshake.symmetric.cipher} else {}
      ensures Valid() && fresh(Parts() - old(Parts()))
      ensures old(status) == Handshaking ==>
                && Spec.Handled(View(), reply) == Spec.Advance(c, old(handshake.View()), data, eph)
                && done == !View().Handshaking?
      ensures old(status) != Handshaking ==> View() == Spec.Failed && reply.None? && done
    {
      if status != Handshaking || handshake == null {
        status := Failed;
        return None, true;
      }
      var ok, readSplit := handshake.ReadMessage(data);
      if !ok {
        status := Failed;
        return None, true;
      }
      if readSplit.Some? {
        Finish(readSplit.value);
        return None, true;
      }
      reply, done := Answer(eph);
    }

    /** The second half of HandleHandshakeMessage: write the next message. */
    method Answer(eph: KeyPair) returns (reply: Option<Bytes>, done: bool)
      requires status == Handshaking && handshake != null && handshake.Valid() && handshake.c == c
      requires handshake.messageIndex < 3 && handshake.WriterTurn()
      modifies this, handshake, handshake.symmetric, handshake.symmetric.cipher
      ensures Valid() && fresh(Parts() - old(Parts())) && done == !View().Handshaking?
      ensures match Spec.WriteMessage(c, old(handshake.View()), eph)
              case None => View() == Spec.Failed && reply.None?
              case Some((h, m)) =>
                View() == (if h.step == 3 then Spec.Finish(c, h) else Spec.Handshaking(h)) && reply == Some(m)
    {
      var message, writeSplit := handshake.WriteMessage(eph);
      if message.None? {
        status := Failed;
        return None, true;
      }
      if writeSplit.Some? {
        Finish(writeSplit.value);
        return message, true;
      }
      return message, false;
    }

    /** Encrypt; None stands for the NotReadyError exception. */
    method Encrypt(plaintext: Bytes) returns (out: Option<Bytes>)
      requires Valid()
      modifies send
      ensures Valid()
      ensures out.Some? <==> Spec.Encrypt(c, old(View()), plaintext).Some?
      ensures out.Some? ==> (View(), out.value) == Spec.Encrypt(c, old(View()), plaintext).value
      ensures out.None? ==> View() == old(View())
    {
      if status != Ready {
        return None;
      }
      var ct := send.EncryptWithAd([], plaintext);
      return Some(ct);
    }

    /** Decrypt; None stands for either exception. */
    method Decrypt(ciphertext: Bytes) returns (out: Option<Bytes>)
      requires Valid()
      modifies recv
      ensures Valid()
      ensures out.Some? <==> Spec.Decrypt(c, old(View()), ciphertext).Some?
      ensures out.Some? ==> (View(), out.value) == Spec.Decrypt(c, old(View()), ciphertext).value
      ensures out.None? ==> View() == old(View())
    {
      if status != Ready {
        return None;
      }
      out := recv.DecryptWithAd([], ciphertext);
    }
  }
}
