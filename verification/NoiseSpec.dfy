/**
 The Noise Protocol Framework, revision 34, as values: CipherState (section 5.1),
 SymmetricState (section 5.2), and HandshakeState as an interpreter of message patterns
 (section 5.3), run on pattern XX (section 7.5). The C++ and the TypeScript implementations,
 which hard-code the pattern in different ways, are both proved against it.

 In one place it follows the code and not the specification: section 5.1 reserves the last
 nonce and makes using it an error, while both implementations let the 64-bit counter wrap.
 */
module NoiseSpec {
  import opened Core
  import opened NoiseSuite

  // ----- Section 5.1, with the counter of the implementations, which wraps -----

  datatype Cipher = Cipher(k: Option<Key>, n: nat)

  function EncryptWithAd(c: Suite, x: Cipher, ad: Bytes, p: Bytes): (r: (Cipher, Bytes))
  {
    if x.k.None? then (x, p)
    else (x.(n := (x.n + 1) % NONCE_SPACE), c.seal(x.k.value, x.n, ad, p))
  }

  /** A failed decryption leaves the nonce where it was. */
  function DecryptWithAd(c: Suite, x: Cipher, ad: Bytes, ct: Bytes): (r: Option<(Cipher, Bytes)>)
  {
    if x.k.None? then Some((x, ct))
    else
      match c.open(x.k.value, x.n, ad, ct)
      case None => None
      case Some(p) => Some((x.(n := (x.n + 1) % NONCE_SPACE), p))
  }

  // ----- Section 5.2 -----

  datatype Symmetric = Symmetric(ck: Key, h: Key, cipher: Cipher)

  /** "Noise_XX_25519_ChaChaPoly_BLAKE2s" in ASCII. */
  const PROTOCOL_NAME: Bytes := [
    78, 111, 105, 115, 101, 95, 88, 88, 95, 50, 53, 53, 49, 57, 95, 67, 104, 97, 67, 104, 97, 80, 111, 108, 121, 95,
    66, 76, 65, 75, 69, 50, 115]

  function InitializeSymmetric(c: Suite, name: Bytes): (r: Symmetric)
  {
    var h: Key := if |name| <= KEY_LEN then name + seq(KEY_LEN - |name|, _ => 0) else c.hash(name);
    Symmetric(h, h, Cipher(None, 0))
  }

  function MixKey(c: Suite, y: Symmetric, ikm: Bytes): (r: Symmetric)
  {
    var (ck, k) := c.hkdf(y.ck, ikm);
    Symmetric(ck, y.h, Cipher(Some(k), 0))
  }

  function MixHash(c: Suite, y: Symmetric, data: Bytes): (r: Symmetric)
  {
    y.(h := c.hash(y.h + data))
  }

  function EncryptAndHash(c: Suite, y: Symmetric, p: Bytes): (r: (Symmetric, Bytes))
  {
    var (x, ct) := EncryptWithAd(c, y.cipher, y.h, p);
    (MixHash(c, y.(cipher := x), ct), ct)
  }

  function DecryptAndHash(c: Suite, y: Symmetric, ct: Bytes): (r: Option<(Symmetric, Bytes)>)
  {
    match DecryptWithAd(c, y.cipher, y.h, ct)
    case None => None
    case Some((x, p)) => Some((MixHash(c, y.(cipher := x), ct), p))
  }

  function Split(c: Suite, y: Symmetric): (r: (Cipher, Cipher))
  {
    var (k1, k2) := c.hkdf(y.ck, []);
    (Cipher(Some(k1), 0), Cipher(Some(k2), 0))
  }

  // ----- Section 5.3 -----

  datatype Token = E | S | EE | ES | SE

  datatype Handshake = Handshake(
    initiator: bool, y: Symmetric, s: KeyPair,
    e: Option<KeyPair>, re: Option<Bytes>, rs: Option<Bytes>,
    step: nat)

  /** Pattern XX: -> e / <- e, ee, s, es / -> s, se. */
  function Pattern(step: nat): seq<Token>
  {
    if step == 0 then [E] else if step == 1 then [E, EE, S, ES] else if step == 2 then [S, SE] else []
  }

  function Initialize(c: Suite, initiator: bool, s: KeyPair): (r: Handshake)
  {
    Handshake(initiator, MixHash(c, InitializeSymmetric(c, PROTOCOL_NAME), []), s, None, None, None, 0)
  }

  /** The shared secret of a DH token, by role. */
  function Shared(c: Suite, h: Handshake, t: Token): (r: Option<Key>)
  {
    var local := if t == EE || (t == ES && h.initiator) || (t == SE && !h.initiator) then h.e else Some(h.s);
    var remote := if t == EE || (t == ES && !h.initiator) || (t == SE && h.initiator) then h.re else h.rs;
    if local.None? || remote.None? then None else c.dh(local.value.priv, remote.value)
  }

  function MixShared(c: Suite, h: Handshake, t: Token): (r: Option<Handshake>)
  {
    match Shared(c, h, t)
    case None => None
    case Some(k) => Some(h.(y := MixKey(c, h.y, k)))
  }

  /** One token of WriteMessage: the new state and the bytes it contributes. `eph` is the ephemeral to generate. */
  function WriteToken(c: Suite, h: Handshake, t: Token, eph: KeyPair): (r: Option<(Handshake, Bytes)>)
  {
    match t
    case E => Some((h.(e := Some(eph), y := MixHash(c, h.y, eph.pub)), eph.pub))
    case S =>
      var (y, ct) := EncryptAndHash(c, h.y, h.s.pub);
      Some((h.(y := y), ct))
    case _ =>
      match MixShared(c, h, t)
      case None => None
      case Some(h') => Some((h', []))
  }

  function WriteTokens(c: Suite, h: Handshake, ts: seq<Token>, eph: KeyPair): (r: Option<(Handshake, Bytes)>)
    decreases |ts|
  {
    if ts == [] then Some((h, []))
    else
      match WriteToken(c, h, ts[0], eph)
      case None => None
      case Some((h1, d)) =>
        match WriteTokens(c, h1, ts[1..], eph)
        case None => None
        case Some((h2, m)) => Some((h2, d + m))
  }

  /** WriteMessage with an empty payload. */
  function WriteMessage(c: Suite, h: Handshake, eph: KeyPair): (r: Option<(Handshake, Bytes)>)
  {
    if h.step >= 3 then None
    else
      match WriteTokens(c, h, Pattern(h.step), eph)
      case None => None
      case Some((h', m)) =>
        var (y, ct) := EncryptAndHash(c, h'.y, []);
        Some((h'.(y := y, step := h.step + 1), m + ct))
  }

  /** One token of ReadMessage; the result carries the unread rest of the message. */
  function ReadToken(c: Suite, h: Handshake, t: Token, msg: Bytes): (r: Option<(Handshake, Bytes)>)
  {
    match t
    case E =>
      if |msg| < KEY_LEN then None
      else Some((h.(re := Some(msg[..KEY_LEN]), y := MixHash(c, h.y, msg[..KEY_LEN])), msg[KEY_LEN..]))
    case S =>
      var len := if h.y.cipher.k.Some? then KEY_LEN + TAG_LEN else KEY_LEN;
      if |msg| < len then None
      else
        (match DecryptAndHash(c, h.y, msg[..len])
         case None => None
         case Some((y, p)) => Some((h.(rs := Some(p), y := y), msg[len..])))
    case _ =>
      match MixShared(c, h, t)
      case None => None
      case Some(h') => Some((h', msg))
  }

  function ReadTokens(c: Suite, h: Handshake, ts: seq<Token>, msg: Bytes): (r: Option<(Handshake, Bytes)>)
    decreases |ts|
  {
    if ts == [] then Some((h, msg))
    else
      match ReadToken(c, h, ts[0], msg)
      case None => None
      case Some((h', rest)) => ReadTokens(c, h', ts[1..], rest)
  }

  /** ReadMessage; the payload is authenticated and discarded. */
  function ReadMessage(c: Suite, h: Handshake, msg: Bytes): (r: Option<Handshake>)
  {
    if h.step >= 3 then None
    else
      match ReadTokens(c, h, Pattern(h.step), msg)
      case None => None
      case Some((h', rest)) =>
        match DecryptAndHash(c, h'.y, rest)
        case None => None
        case Some((y, _)) => Some(h'.(y := y, step := h.step + 1))
  }

  // ----- One session: a handshake and then two transport ciphers -----

  datatype Session =
    | Handshaking(hs: Handshake)
    | Ready(send: Cipher, recv: Cipher, peer: Bytes)
    | Failed

  /** Split by role: the initiator sends with the first cipher, the responder with the second. */
  function Finish(c: Suite, h: Handshake): (r: Session)
  {
    var (c1, c2) := Split(c, h.y);
    var peer := if h.rs.Some? then h.rs.value else [];
    if h.initiator then Ready(c1, c2, peer) else Ready(c2, c1, peer)
  }

  datatype Handled = Handled(session: Session, reply: Option<Bytes>)

  /** Start as initiator: the session and msg1. */
  function Start(c: Suite, s: KeyPair, eph: KeyPair): (r: Option<(Session, Bytes)>)
  {
    match WriteMessage(c, Initialize(c, true, s), eph)
    case None => None
    case Some((h, m)) => Some((Handshaking(h), m))
  }

  /** One incoming handshake message of a session that is still handshaking: read, then write if it is our turn. */
  function Advance(c: Suite, h: Handshake, data: Bytes, eph: KeyPair): (r: Handled)
  {
    match ReadMessage(c, h, data)
    case None => Handled(Failed, None)
    case Some(h1) =>
      if h1.step == 3 then Handled(Finish(c, h1), None)
      else
        match WriteMessage(c, h1, eph)
        case None => Handled(Failed, None)
        case Some((h2, m)) =>
          Handled(if h2.step == 3 then Finish(c, h2) else Handshaking(h2), Some(m))
  }

  /** Transport messages use empty associated data; a session that is not ready refuses both. */
  function Encrypt(c: Suite, x: Session, p: Bytes): (r: Option<(Session, Bytes)>)
  {
    if !x.Ready? then None
    else
      var (send, ct) := EncryptWithAd(c, x.send, [], p);
      Some((x.(send := send), ct))
  }

  function Decrypt(c: Suite, x: Session, ct: Bytes): (r: Option<(Session, Bytes)>)
  {
    if !x.Ready? then None
    else
      var d :- DecryptWithAd(c, x.recv, [], ct);
      Some((x.(recv := d.0), d.1))
  }
}
