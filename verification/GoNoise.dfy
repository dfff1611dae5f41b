/**
 The Go SDK's Noise session (sdk/go/noise.go).

 The Noise library behind it is foreign code. It enters through a symbolic model of one
 Noise XX handshake: a message is a term that names the ephemeral and static keys it was
 built from, and a party accepts a term exactly when it fits the party's own transcript.
 Any 32 bytes are readable as a first message, which carries no authentication; that is
 why a second or third message is also readable as a first one.
 */
module GoNoise {
  import opened Core

  type StaticKey(==, !new) = nat
  type Payload(==, !new) = seq<nat>

  /** An ephemeral public key: generated by one of the modelled parties, or any other 32 bytes. */
  datatype Eph = Fresh(n: nat) | Opaque(n: nat)

  /** All keys mixed into a completed XX handshake; equal transcripts mean equal transport keys. */
  datatype Transcript = Transcript(iEph: Eph, iStatic: StaticKey, rEph: Eph, rStatic: StaticKey)

  datatype HsMsg =
    | Msg1(e: Eph)
    | Msg2(e: Eph, s: StaticKey, to: Eph)
    | Msg3(tr: Transcript)
    | Other(head: Eph)
    | Short

  /** The 32 bytes a responder takes for the initiator's ephemeral, unless there are fewer. */
  function Head(m: HsMsg): (e: Option<Eph>)
  {
    match m
    case Msg1(e) => Some(e)
    case Msg2(e, _, _) => Some(e)
    case Msg3(_) => Some(Opaque(0))
    case Other(h) => Some(h)
    case Short => None
  }

  /** One direction of a transport session. */
  datatype Cipher = Cipher(tr: Transcript, fromInitiator: bool, n: nat)

  datatype Packet = Sealed(tr: Transcript, fromInitiator: bool, n: nat, payload: Payload) | Forged

  /** The library refuses to use a nonce above 2^64 - 2. */
  const MAX_NONCE: nat := 0xFFFF_FFFF_FFFF_FFFE

  function Seal(c: Cipher, p: Payload): (r: Option<(Cipher, Packet)>)
  {
    if c.n > MAX_NONCE then None
    else Some((c.(n := c.n + 1), Sealed(c.tr, c.fromInitiator, c.n, p)))
  }

  function Open(c: Cipher, k: Packet): (r: Option<(Cipher, Payload)>)
  {
    if c.n <= MAX_NONCE && k.Sealed? && k.tr == c.tr && k.fromInitiator == c.fromInitiator && k.n == c.n
    then Some((c.(n := c.n + 1), k.payload))
    else None
  }

  // ----- The library's handshake state -----

  datatype Hs = Hs(initiator: bool, s: StaticKey, e: Option<Eph>, re: Option<Eph>, rs: Option<StaticKey>, next: nat)

  /** Keys from both directions, initiator-to-responder first. */
  datatype Written = Written(hs: Hs, msg: HsMsg, split: Option<(Cipher, Cipher)>)
  datatype Taken = Taken(hs: Hs, split: Option<(Cipher, Cipher)>)

  function SplitOf(tr: Transcript): (Cipher, Cipher)
  {
    (Cipher(tr, true, 0), Cipher(tr, false, 0))
  }

  /** `entropy` is the next ephemeral of the random source, or None when the source fails. */
  function WriteMessage(h: Hs, entropy: Option<Eph>): (r: Option<Written>)
  {
    if h.next == 0 && h.initiator && entropy.Some? then
      Some(Written(h.(e := entropy, next := 1), Msg1(entropy.value), None))
    else if h.next == 1 && !h.initiator && entropy.Some? && h.re.Some? then
      Some(Written(h.(e := entropy, next := 2), Msg2(entropy.value, h.s, h.re.value), None))
    else if h.next == 2 && h.initiator && h.e.Some? && h.re.Some? && h.rs.Some? then
      var tr := Transcript(h.e.value, h.s, h.re.value, h.rs.value);
      Some(Written(h.(next := 3), Msg3(tr), Some(SplitOf(tr))))
    else None
  }

  function ReadMessage(h: Hs, m: HsMsg): (r: Option<Taken>)
  {
    if h.next == 0 && !h.initiator && Head(m).Some? then
      Some(Taken(h.(re := Head(m), next := 1), None))
    else if h.next == 1 && h.initiator && m.Msg2? && h.e == Some(m.to) then
      Some(Taken(h.(re := Some(m.e), rs := Some(m.s), next := 2), None))
    else if h.next == 2 && !h.initiator && m.Msg3?
            && h.e == Some(m.tr.rEph) && h.re == Some(m.tr.iEph) && h.s == m.tr.rStatic then
      Some(Taken(h.(rs := Some(m.tr.iStatic), next := 3), Some(SplitOf(m.tr))))
    else None
  }

  // ----- noiseSession, as a value -----

  /** What a session can still do: the five states a noiseSession object passes through. */
  datatype Session =
    | AwaitMsg1                                          // responder, nothing read
    | AwaitMsg2(e: Eph)                                  // initiator, msg1 written
    | AwaitMsg3(e: Eph, re: Eph)                         // responder, msg2 written
    | Live(initiator: bool, tr: Transcript, sendN: nat, recvN: nat)
    | Dead
  {
    predicate Handshaking() { AwaitMsg1? || AwaitMsg2? || AwaitMsg3? }

    function PeerStatic(): StaticKey
      requires Live?
    {
      if initiator then tr.rStatic else tr.iStatic
    }
  }

  datatype Handled = Handled(session: Session, reply: Option<HsMsg>, done: bool, err: bool)

  const FAILED := Handled(Dead, None, true, true)

  /** handleHandshakeMessage of a session whose own static key is `s`. */
  function Handle(x: Session, s: StaticKey, m: HsMsg, entropy: Option<Eph>): (r: Handled)
  {
    match x
    case AwaitMsg1 =>
      if Head(m).None? || entropy.None? then FAILED
      else Handled(AwaitMsg3(entropy.value, Head(m).value),
                   Some(Msg2(entropy.value, s, Head(m).value)), false, false)
    case AwaitMsg2(e) =>
      if m.Msg2? && m.to == e then
        var tr := Transcript(e, s, m.e, m.s);
        Handled(Live(true, tr, 0, 0), Some(Msg3(tr)), true, false)
      else FAILED
    case AwaitMsg3(e, re) =>
      if m.Msg3? && m.tr.rEph == e && m.tr.iEph == re && m.tr.rStatic == s
      then Handled(Live(false, m.tr, 0, 0), None, true, false)
      else FAILED
    case _ => Handled(x, None, true, true)
  }

  function Encrypt(x: Session, p: Payload): (r: Option<(Session, Packet)>)
  {
    if x.Live? then
      match Seal(Cipher(x.tr, x.initiator, x.sendN), p)
      case None => None
      case Some((c, k)) => Some((x.(sendN := c.n), k))
    else None
  }

  function Decrypt(x: Session, k: Packet): (r: Option<(Session, Payload)>)
  {
    if x.Live? then
      match Open(Cipher(x.tr, !x.initiator, x.recvN), k)
      case None => None
      case Some((c, p)) => Some((x.(recvN := c.n), p))
    else None
  }

  // ----- noiseSession, as the object of the source -----

  datatype Status = StatusHandshaking | StatusReady | StatusFailed

  class NoiseSession {
    var status: Status
    const initiator: bool
    var hs: Hs
    var gotMsg1: bool
    var sendCS: Option<Cipher>
    var recvCS: Option<Cipher>
    var peerStatic: Option<StaticKey>

    /** The handshake position agrees with the role and with gotMsg1, and each role sends and
        receives with its own direction of the split. */
    ghost predicate Valid()
      reads this
    {
      && hs.initiator == initiator
      && (status.StatusHandshaking? ==>
            if initiator then hs.next == 1 && hs.e.Some?
            else if gotMsg1 then hs.next == 2 && hs.e.Some? && hs.re.Some?
            else hs.next == 0)
      && (status.StatusReady? ==>
            && sendCS.Some? && recvCS.Some? && peerStatic.Some?
            && sendCS.value.tr == recvCS.value.tr
            && sendCS.value.fromInitiator == initiator
            && recvCS.value.fromInitiator == !initiator
            && peerStatic.value == (if initiator then sendCS.value.tr.rStatic else sendCS.value.tr.iStatic))
    }

    /** The session as a value. */
    ghost function View(): (x: Session)
      reads this
    {
      match status
      case StatusFailed => Dead
      case StatusReady =>
        if sendCS.Some? && recvCS.Some? then Live(initiator, sendCS.value.tr, sendCS.value.n, recvCS.value.n) else Dead
      case StatusHandshaking =>
        if initiator then if hs.e.Some? then AwaitMsg2(hs.e.value) else Dead
        else if !gotMsg1 then AwaitMsg1
        else if hs.e.Some? && hs.re.Some? then AwaitMsg3(hs.e.value, hs.re.value)
        else Dead
    }

    /** newInitiatorSession, once the library has written msg1 with ephemeral e. */
    constructor Initiator(s: StaticKey, e: Eph)
      ensures Valid() && View() == AwaitMsg2(e) && hs.s == s
    {
      initiator := true;
      status := StatusHandshaking;
      hs := WriteMessage(Hs(true, s, None, None, None, 0), Some(e)).value.hs;
      gotMsg1 := false;
      sendCS, recvCS, peerStatic := None, None, None;
    }

    /** newResponderSession. */
    constructor Responder(s: StaticKey)
      ensures Valid() && View() == AwaitMsg1 && hs.s == s
    {
      initiator := false;
      status := StatusHandshaking;
      hs := Hs(false, s, None, None, None, 0);
      gotMsg1 := false;
      sendCS, recvCS, peerStatic := None, None, None;
    }

    method HandleHandshakeMessage(data: HsMsg, entropy: Option<Eph>)
      returns (reply: Option<HsMsg>, done: bool, err: bool)
      requires Valid()
      modifies this
      ensures Valid() && hs.s == old(hs.s)
      ensures Handled(View(), reply, done, err) == Handle(old(View()), hs.s, data, entropy)
    {
      if status != StatusHandshaking {
        return None, true, true;
      }
      if initiator {
        var read := ReadMessage(hs, data);
        if read.None? {
          Fail();
          return None, true, true;
        }
        hs := read.value.hs;
        // Writing msg3 generates no key, so in the symbolic library it cannot fail.
        var written := WriteMessage(hs, entropy);
        hs := written.value.hs;
        var (cs1, cs2) := written.value.split.value;
        Finish(cs1, cs2);
        return Some(written.value.msg), true, false;
      }
      if !gotMsg1 {
        var read := ReadMessage(hs, data);
        if read.None? {
          Fail();
          return None, true, true;
        }
        hs := read.value.hs;
        gotMsg1 := true;
        var written := WriteMessage(hs, entropy);
        if written.None? {
          Fail();
          return None, true, true;
        }
        hs := written.value.hs;
        return Some(written.value.msg), false, false;
      }
      var read := ReadMessage(hs, data);
      if read.None? {
        Fail();
        return None, true, true;
      }
      hs := read.value.hs;
      var (cs1, cs2) := read.value.split.value;
      Finish(cs2, cs1);
      return None, true, false;
    }

    method Finish(send: Cipher, recv: Cipher)
      requires hs.initiator == initiator && hs.rs.Some? && send.tr == recv.tr
      requires send.fromInitiator == initiator && recv.fromInitiator == !initiator
      requires hs.rs.value == (if initiator then send.tr.rStatic else send.tr.iStatic)
      modifies this
      ensures Valid() && hs == old(hs)
      ensures View() == Live(initiator, send.tr, send.n, recv.n)
    {
      sendCS := Some(send);
      recvCS := Some(recv);
      peerStatic := hs.rs;
      status := StatusReady;
    }

    method Fail()
      requires hs.initiator == initiator
      modifies this`status
      ensures Valid() && View() == Dead
    {
      status := StatusFailed;
    }

    predicate Ready()
      reads this
    {
      status == StatusReady
    }

    method EncryptPayload(p: Payload) returns (k: Option<Packet>)
      requires Valid()
      modifies this
      ensures Valid() && hs == old(hs)
      ensures k.Some? <==> Encrypt(old(View()), p).Some?
      ensures k.Some? ==> (View(), k.value) == Encrypt(old(View()), p).value
      ensures k.None? ==> View() == old(View())
    {
      if status != StatusReady {
        return None;
      }
      match Seal(sendCS.value, p)
      case None => return None;
      case Some((c, out)) =>
        sendCS := Some(c);
        return Some(out);
    }

    method DecryptPacket(k: Packet) returns (p: Option<Payload>)
      requires Valid()
      modifies this
      ensures Valid() && hs == old(hs)
      ensures p.Some? <==> Decrypt(old(View()), k).Some?
      ensures p.Some? ==> (View(), p.value) == Decrypt(old(View()), k).value
      ensures p.None? ==> View() == old(View())
    {
      if status != StatusReady {
        return None;
      }
      match Open(recvCS.value, k)
      case None => return None;
      case Some((c, out)) =>
        recvCS := Some(c);
        return Some(out);
    }
  }
}
