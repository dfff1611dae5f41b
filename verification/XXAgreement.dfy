/** Two honest parties agree: the three messages of pattern XX, run through two handshakes. */
module XXAgreement {
  import opened Core
  import opened NoiseSuite
  import opened NoiseSpec
  import opened NoiseForms
  import opened XXKeys

  /** What `b` knows about `a` is true, and it knows exactly the ephemeral `a` has generated. */
  predicate Knows(c: Suite, b: Handshake, a: Handshake)
  {
    && Genuine(c, a.s) && (a.e.Some? ==> Genuine(c, a.e.value))
    && b.re == (if a.e.Some? then Some(a.e.value.pub) else None)
    && (b.rs.Some? ==> b.rs.value == a.s.pub)
  }

  /** Two parties after the same tokens: same symmetric state, opposite roles, true knowledge. */
  predicate Mirror(c: Suite, a: Handshake, b: Handshake)
  {
    a.initiator != b.initiator && a.y == b.y && a.step == b.step && Knows(c, a, b) && Knows(c, b, a)
  }

  /** Which keys have been sent so far: both ephemerals, then both statics. */
  datatype Sent = Sent(ei: bool, er: bool, si: bool, sr: bool)

  function SentSoFar(a: Handshake, b: Handshake): Sent
  {
    var i, r := if a.initiator then a else b, if a.initiator then b else a;
    Sent(i.e.Some?, r.e.Some?, r.rs.Some?, i.rs.Some?)
  }

  function AfterToken(k: Sent, byInitiator: bool, t: Token): Sent
  {
    match t
    case E => if byInitiator then k.(ei := true) else k.(er := true)
    case S => if byInitiator then k.(si := true) else k.(sr := true)
    case _ => k
  }

  /** The keys that `t` combines have been sent. */
  predicate Fits(k: Sent, t: Token)
  {
    match t
    case EE => k.ei && k.er
    case ES => k.ei && k.sr
    case SE => k.er && k.si
    case _ => true
  }

  predicate AllFit(k: Sent, byInitiator: bool, ts: seq<Token>)
    decreases |ts|
  {
    ts == [] || (Fits(k, ts[0]) && AllFit(AfterToken(k, byInitiator, ts[0]), byInitiator, ts[1..]))
  }

  function AfterTokens(k: Sent, byInitiator: bool, ts: seq<Token>): Sent
    decreases |ts|
  {
    if ts == [] then k else AfterTokens(AfterToken(k, byInitiator, ts[0]), byInitiator, ts[1..])
  }

  /** What no token changes. */
  predicate SameParty(h: Handshake, h': Handshake)
  {
    h'.s == h.s && h'.initiator == h.initiator && (h.e.Some? ==> h'.e.Some?) && h'.step == h.step
  }

  /** The reader of what one token wrote ends in the writer's mirror image and leaves the rest. */
  lemma TokenMirrors(c: Suite, w: Handshake, r: Handshake, t: Token, eph: KeyPair, rest: Bytes)
    requires Laws(c) && Mirror(c, w, r) && Fits(SentSoFar(w, r), t) && Genuine(c, eph)
    ensures WriteToken(c, w, t, eph).Some?
    ensures var (w', d) := WriteToken(c, w, t, eph).value;
            && ReadToken(c, r, t, d + rest).Some?
            && var (r', rest') := ReadToken(c, r, t, d + rest).value;
            && rest' == rest && Mirror(c, w', r') && SameParty(w, w') && SameParty(r, r')
            && SentSoFar(w', r') == AfterToken(SentSoFar(w, r), w.initiator, t)
  {
    var (w', d) := WriteToken(c, w, t, eph).value;
    assert (d + rest)[..|d|] == d && (d + rest)[|d|..] == rest;
    if t != E && t != S {
      assert Shared(c, w, t) == Shared(c, r, t);
      assert d + rest == rest;
    }
  }

  lemma {:induction false} TokensMirror(c: Suite, w: Handshake, r: Handshake, ts: seq<Token>, eph: KeyPair, rest: Bytes)
    requires Laws(c) && Mirror(c, w, r) && AllFit(SentSoFar(w, r), w.initiator, ts) && Genuine(c, eph)
    ensures WriteTokens(c, w, ts, eph).Some?
    ensures var (w', m) := WriteTokens(c, w, ts, eph).value;
            && ReadTokens(c, r, ts, m + rest).Some?
            && var (r', rest') := ReadTokens(c, r, ts, m + rest).value;
            && rest' == rest && Mirror(c, w', r') && SameParty(w, w') && SameParty(r, r')
            && SentSoFar(w', r') == AfterTokens(SentSoFar(w, r), w.initiator, ts)
    decreases |ts|
  {
    if ts == [] {
      assert [] + rest == rest;
    } else {
      TokenMirrors(c, w, r, ts[0], eph, rest);
      var (w1, d) := WriteToken(c, w, ts[0], eph).value;
      assert WriteTokens(c, w1, ts[1..], eph).Some? by {
        var (r0, _) := ReadToken(c, r, ts[0], d + rest).value;
        TokensMirror(c, w1, r0, ts[1..], eph, rest);
      }
      var (w2, m) := WriteTokens(c, w1, ts[1..], eph).value;
      TokenMirrors(c, w, r, ts[0], eph, m + rest);
      assert d + (m + rest) == (d + m) + rest;
      var (r1, _) := ReadToken(c, r, ts[0], d + (m + rest)).value;
      TokensMirror(c, w1, r1, ts[1..], eph, rest);
    }
  }

  lemma PayloadOpens(c: Suite, y: Symmetric, p: Bytes)
    requires AeadLaws(c)
    ensures var (y', ct) := EncryptAndHash(c, y, p); DecryptAndHash(c, y, ct) == Some((y', p))
  {
  }

  /** A whole message: what one party writes the other accepts, and they are mirror images again. */
  lemma MessageMirrors(c: Suite, w: Handshake, r: Handshake, eph: KeyPair)
    requires Laws(c) && Mirror(c, w, r) && w.step < 3 && Genuine(c, eph)
    requires AllFit(SentSoFar(w, r), w.initiator, Pattern(w.step))
    ensures WriteMessage(c, w, eph).Some?
    ensures var (w', m) := WriteMessage(c, w, eph).value;
            && ReadMessage(c, r, m).Some?
            && var r' := ReadMessage(c, r, m).value;
            && Mirror(c, w', r') && w'.step == w.step + 1
            && w'.s == w.s && r'.s == r.s && w'.initiator == w.initiator
            && SentSoFar(w', r') == AfterTokens(SentSoFar(w, r), w.initiator, Pattern(w.step))
  {
    assert WriteTokens(c, w, Pattern(w.step), eph).Some? by {
      TokensMirror(c, w, r, Pattern(w.step), eph, []);
    }
    var (w1, m) := WriteTokens(c, w, Pattern(w.step), eph).value;
    var (y, ct) := EncryptAndHash(c, w1.y, []);
    TokensMirror(c, w, r, Pattern(w.step), eph, ct);
    var (r1, rest) := ReadTokens(c, r, Pattern(w.step), m + ct).value;
    PayloadOpens(c, w1.y, []);
    assert ReadMessage(c, r, m + ct) == Some(r1.(y := y, step := w.step + 1));
  }

  /** Pattern XX can be run: each of its messages combines only keys already sent. */
  lemma PatternFits()
    ensures var k0 := Sent(false, false, false, false);
            && AllFit(k0, true, Pattern(0)) && AfterTokens(k0, true, Pattern(0)) == Sent(true, false, false, false)
    ensures var k1 := Sent(true, false, false, false);
            && AllFit(k1, false, Pattern(1)) && AfterTokens(k1, false, Pattern(1)) == Sent(true, true, false, true)
    ensures var k2 := Sent(true, true, false, true);
            && AllFit(k2, true, Pattern(2)) && AfterTokens(k2, true, Pattern(2)) == Sent(true, true, true, true)
  {
    assert Pattern(0)[1..] == [];
    assert [E, EE, S, ES][1..] == [EE, S, ES] && [EE, S, ES][1..] == [S, ES] && [S, ES][1..] == [ES] && [ES][1..] == [];
    assert [S, SE][1..] == [SE] && [SE][1..] == [];
  }

  /** The states of both parties through one honest handshake. */
  datatype Exchange = Exchange(i1: Handshake, m1: Bytes, r1: Handshake, r2: Handshake, m2: Bytes, i2: Handshake,
                               i3: Handshake, m3: Bytes, r3: Handshake)

  ghost predicate HonestExchange(c: Suite, si: KeyPair, sr: KeyPair, ei: KeyPair, er: KeyPair, x: Exchange)
  {
    && WriteMessage(c, Initialize(c, true, si), ei) == Some((x.i1, x.m1))
    && ReadMessage(c, Initialize(c, false, sr), x.m1) == Some(x.r1)
    && WriteMessage(c, x.r1, er) == Some((x.r2, x.m2))
    && ReadMessage(c, x.i1, x.m2) == Some(x.i2)
    && WriteMessage(c, x.i2, ei) == Some((x.i3, x.m3))
    && ReadMessage(c, x.r2, x.m3) == Some(x.r3)
  }

  /** XX agreement: for all genuine keys the handshake runs through, and both sides end with the same chaining
      key, handshake hash and cipher, each knowing the other's static key. */
  lemma XXAgrees(c: Suite, si: KeyPair, sr: KeyPair, ei: KeyPair, er: KeyPair) returns (x: Exchange)
    requires Laws(c) && Genuine(c, si) && Genuine(c, sr) && Genuine(c, ei) && Genuine(c, er)
    ensures HonestExchange(c, si, sr, ei, er, x)
    ensures x.i3.y == x.r3.y && x.i3.step == x.r3.step == 3 && x.i3.initiator && !x.r3.initiator
    ensures x.i3.rs == Some(sr.pub) && x.r3.rs == Some(si.pub)
    ensures x.i1.step == x.r1.step == 1 && x.r2.step == x.i2.step == 2
    ensures Mirror(c, x.i1, x.r1) && Mirror(c, x.r2, x.i2)
    ensures x.r1.s == sr && !x.r1.initiator && x.i2.s == si && x.i2.initiator
  {
    var i0, r0 := Initialize(c, true, si), Initialize(c, false, sr);
    PatternFits();
    MessageMirrors(c, i0, r0, ei);
    var (i1, m1) := WriteMessage(c, i0, ei).value;
    var r1 := ReadMessage(c, r0, m1).value;
    MessageMirrors(c, r1, i1, er);
    var (r2, m2) := WriteMessage(c, r1, er).value;
    var i2 := ReadMessage(c, i1, m2).value;
    MessageMirrors(c, i2, r2, ei);
    var (i3, m3) := WriteMessage(c, i2, ei).value;
    var r3 := ReadMessage(c, r2, m3).value;
    x := Exchange(i1, m1, r1, r2, m2, i2, i3, m3, r3);
  }

  // ----- The bytes and the keys -----

  lemma NameInAscii()
    ensures PROTOCOL_NAME == Ascii("Noise_XX_25519_ChaChaPoly_BLAKE2s")
  {
  }

  lemma Message1Bytes(c: Suite, si: KeyPair, ei: KeyPair)
    ensures var (h, m) := Write1(c, Initialize(c, true, si), ei);
            && m == ei.pub && h.e == Some(ei)
            && h.y == Symmetric(c.hash(PROTOCOL_NAME), Hash1(c, PROTOCOL_NAME, ei.pub), Cipher(None, 0))
  {
    assert ei.pub + [] == ei.pub;
  }

  /** Each message is the one written out, and so are the keys and the final hash. */
  lemma ExchangeBytes(c: Suite, si: KeyPair, sr: KeyPair, ei: KeyPair, er: KeyPair, x: Exchange)
    requires Laws(c) && Genuine(c, si) && Genuine(c, sr) && Genuine(c, ei) && Genuine(c, er)
    requires HonestExchange(c, si, sr, ei, er, x)
    ensures var o := HonestOutputs(c, si, sr, ei, er);
            && x.m1 == o.m1 && x.m2 == o.m2 && x.m3 == o.m3 && x.i3.y.h == o.h
            && Split(c, x.i3.y) == (Cipher(Some(o.toResponder), 0), Cipher(Some(o.toInitiator), 0))
  {
    var x0 := XXAgrees(c, si, sr, ei, er);
    assert x == x0;
    NameInAscii();
    Write1Form(c, Initialize(c, true, si), ei);
    Message1Bytes(c, si, ei);
    Write2Form(c, x.r1, er);
    Write3Form(c, x.i2, ei);
    assert x.r1.re == Some(ei.pub) && x.i2.re == Some(er.pub) && x.i2.y == x.r2.y;
  }

  /** The same for sessions: both become ready, each sends with the cipher the other receives with, and the
      messages and the keys are the ones written out in XXKeys. */
  lemma SessionsAgree(c: Suite, si: KeyPair, sr: KeyPair, ei: KeyPair, er: KeyPair)
    returns (x: Exchange, i: Session, r: Session)
    requires Laws(c) && Genuine(c, si) && Genuine(c, sr) && Genuine(c, ei) && Genuine(c, er)
    ensures Start(c, si, ei) == Some((Handshaking(x.i1), x.m1))
    ensures Advance(c, Initialize(c, false, sr), x.m1, er) == Handled(Handshaking(x.r2), Some(x.m2))
    ensures Advance(c, x.i1, x.m2, ei) == Handled(i, Some(x.m3))
    ensures Advance(c, x.r2, x.m3, er) == Handled(r, None)
    ensures i.Ready? && r.Ready? && i.send == r.recv && i.recv == r.send
    ensures i.peer == sr.pub && r.peer == si.pub
    ensures var o := HonestOutputs(c, si, sr, ei, er);
            && x.m1 == o.m1 && x.m2 == o.m2 && x.m3 == o.m3
            && i.send == Cipher(Some(o.toResponder), 0) && r.send == Cipher(Some(o.toInitiator), 0)
  {
    x := XXAgrees(c, si, sr, ei, er);
    ExchangeBytes(c, si, sr, ei, er, x);
    i, r := Finish(c, x.i3), Finish(c, x.r3);
  }

  // ----- Exactly which messages are accepted -----

  /** A third message for a responder with symmetric state y and ephemeral er: a static key under the cipher of the second
      message, then any payload under the key that it leads to. */
  predicate Third(c: Suite, y: Symmetric, er: KeyPair, m: Bytes, pk: Bytes, p: Bytes)
  {
    && y.cipher.k.Some? && |pk| == KEY_LEN && c.dh(er.priv, pk).Some?
    && var sealed := c.seal(y.cipher.k.value, y.cipher.n, y.h, pk);
    m == sealed + c.seal(c.hkdf(y.ck, c.dh(er.priv, pk).value).1, 0, c.hash(y.h + sealed), p)
  }

  /** A responder that waits for the third message becomes ready, with the static key in it, if and only if the message is
      of that form; any other message fails the session. */
  lemma ThirdAcceptedIff(c: Suite, h: Handshake, er: KeyPair, m: Bytes, eph: KeyPair)
    requires Laws(c) && h.step == 2 && !h.initiator && h.y.cipher.k.Some? && h.e == Some(er)
    ensures forall pk: Bytes, p: Bytes :: Third(c, h.y, er, m, pk, p) ==>
              Advance(c, h, m, eph).session.Ready? && Advance(c, h, m, eph).session.peer == pk
    ensures Advance(c, h, m, eph) != Handled(Failed, None) ==>
              exists pk: Bytes, p: Bytes :: Third(c, h.y, er, m, pk, p)
  {
    Read3Form(c, h, m);
    forall pk: Bytes, p: Bytes | Third(c, h.y, er, m, pk, p)
      ensures Advance(c, h, m, eph).session.Ready? && Advance(c, h, m, eph).session.peer == pk
    {
      ThirdIsRead(c, h, er, m, pk, p);
    }
    if Read3(c, h, m).Some? { var pk, p := ThirdIsForm(c, h, er, m); }
  }

  lemma ThirdIsRead(c: Suite, h: Handshake, er: KeyPair, m: Bytes, pk: Bytes, p: Bytes)
    requires Laws(c) && h.step == 2 && !h.initiator && h.e == Some(er) && Third(c, h.y, er, m, pk, p)
    ensures Read3(c, h, m).Some? && Read3(c, h, m).value.rs == Some(pk) && Read3(c, h, m).value.step == 3
    ensures !Read3(c, h, m).value.initiator
  {
    var n := KEY_LEN + TAG_LEN;
    var sealed := c.seal(h.y.cipher.k.value, h.y.cipher.n, h.y.h, pk);
    assert m[..n] == sealed && m[n..] == m[|sealed|..];
  }

  lemma ThirdIsForm(c: Suite, h: Handshake, er: KeyPair, m: Bytes) returns (pk: Bytes, p: Bytes)
    requires Laws(c) && h.step == 2 && !h.initiator && h.y.cipher.k.Some? && h.e == Some(er) && Read3(c, h, m).Some?
    ensures Third(c, h.y, er, m, pk, p)
  {
    var n := KEY_LEN + TAG_LEN;
    pk := DecryptAndHash(c, h.y, m[..n]).value.1;
    var y1 := DecryptAndHash(c, h.y, m[..n]).value.0;
    var y2 := MixKey(c, y1, c.dh(er.priv, pk).value);
    p := DecryptAndHash(c, y2, m[n..]).value.1;
    assert m == m[..n] + m[n..];
  }

  /** A second message for an initiator with symmetric state y and ephemeral ei. */
  predicate Second(c: Suite, y: Symmetric, ei: KeyPair, m: Bytes, re: Bytes, pk: Bytes, p: Bytes)
  {
    && |re| == KEY_LEN && |pk| == KEY_LEN && c.dh(ei.priv, re).Some? && c.dh(ei.priv, pk).Some?
    && var h1 := c.hash(y.h + re);
    var (ck1, k1) := c.hkdf(y.ck, c.dh(ei.priv, re).value);
    var sealed := c.seal(k1, 0, h1, pk);
    m == re + sealed + c.seal(c.hkdf(ck1, c.dh(ei.priv, pk).value).1, 0, c.hash(h1 + sealed), p)
  }

  lemma SecondIsRead(c: Suite, h: Handshake, ei: KeyPair, m: Bytes, re: Bytes, pk: Bytes, p: Bytes)
    requires Laws(c) && h.step == 1 && h.initiator && h.e == Some(ei) && Second(c, h.y, ei, m, re, pk, p)
    ensures Read2(c, h, m).Some? && Read2(c, h, m).value.rs == Some(pk) && Read2(c, h, m).value.re == Some(re)
    ensures Read2(c, h, m).value.step == 2 && Read2(c, h, m).value.initiator && Read2(c, h, m).value.s == h.s
  {
    var n, l := KEY_LEN, 2 * KEY_LEN + TAG_LEN;
    var (ck1, k1) := c.hkdf(h.y.ck, c.dh(ei.priv, re).value);
    var sealed := c.seal(k1, 0, c.hash(h.y.h + re), pk);
    assert m[..n] == re && m[n..l] == sealed;
    assert m[l..] == m[|re + sealed|..];
  }

  lemma SecondIsForm(c: Suite, h: Handshake, ei: KeyPair, m: Bytes) returns (re: Bytes, pk: Bytes, p: Bytes)
    requires Laws(c) && h.step == 1 && h.initiator && h.e == Some(ei) && Read2(c, h, m).Some?
    ensures Second(c, h.y, ei, m, re, pk, p) && Read2(c, h, m).value.re == Some(re)
  {
    var n, l := KEY_LEN, 2 * KEY_LEN + TAG_LEN;
    re := m[..n];
    var y1 := MixKey(c, MixHash(c, h.y, re), c.dh(ei.priv, re).value);
    var d := DecryptAndHash(c, y1, m[n..l]).value;
    pk := d.1;
    var y2 := MixKey(c, d.0, c.dh(ei.priv, pk).value);
    p := DecryptAndHash(c, y2, m[l..]).value.1;
    assert m == m[..n] + m[n..l] + m[l..];
  }

  /** An initiator that waits for the second message becomes ready, with the static key in it, if and only if the message is
      of that form and its ephemeral agrees with the initiator's static key; any other message fails the session. */
  lemma SecondAcceptedIff(c: Suite, h: Handshake, ei: KeyPair, m: Bytes, eph: KeyPair)
    requires Laws(c) && h.step == 1 && h.initiator && h.e == Some(ei)
    ensures forall re: Bytes, pk: Bytes, p: Bytes :: Second(c, h.y, ei, m, re, pk, p) && c.dh(h.s.priv, re).Some? ==>
              Advance(c, h, m, eph).session.Ready? && Advance(c, h, m, eph).session.peer == pk
    ensures Advance(c, h, m, eph) != Handled(Failed, None) ==>
              exists re: Bytes, pk: Bytes, p: Bytes :: Second(c, h.y, ei, m, re, pk, p) && c.dh(h.s.priv, re).Some?
  {
    Read2Form(c, h, m);
    if Read2(c, h, m).Some? {
      Write3Form(c, Read2(c, h, m).value, eph);
    }
    forall re: Bytes, pk: Bytes, p: Bytes | Second(c, h.y, ei, m, re, pk, p) && c.dh(h.s.priv, re).Some?
      ensures Advance(c, h, m, eph).session.Ready? && Advance(c, h, m, eph).session.peer == pk
    {
      SecondIsRead(c, h, ei, m, re, pk, p);
    }
    if Advance(c, h, m, eph) != Handled(Failed, None) { var re, pk, p := SecondIsForm(c, h, ei, m); }
  }

  // ----- The laws can be met -----

  function ZeroKey(): Key { seq(KEY_LEN, _ => 0) }

  function Padded(p: Bytes): Bytes { p + seq(TAG_LEN, _ => 0) }

  /** A degenerate suite: constant keys, and a tag of zeros. */
  function PlainSuite(): Suite
  {
    Suite(
      (k: Key) => ZeroKey(),
      (k: Key, b: Bytes) => if |b| == KEY_LEN then Some(ZeroKey()) else None,
      (b: Bytes) => ZeroKey(),
      (k: Key, b: Bytes) => (ZeroKey(), ZeroKey()),
      (k: Key, n: nat, ad: Bytes, p: Bytes) => Padded(p),
      (k: Key, n: nat, ad: Bytes, x: Bytes) =>
        if |x| >= TAG_LEN && x == Padded(x[..|x| - TAG_LEN]) then Some(x[..|x| - TAG_LEN]) else None)
  }

  lemma LawsAreSatisfiable()
    ensures Laws(PlainSuite())
  {
    var c := PlainSuite();
    forall k: Key, n: nat, ad: Bytes, p: Bytes ensures c.open(k, n, ad, c.seal(k, n, ad, p)) == Some(p) {
      assert Padded(p)[..|Padded(p)| - TAG_LEN] == p;
    }
  }
}
