/** Two C++ sessions driven through the three messages (sdk/cpp/src/noise/session.cpp). */
module CppHandshake {
  import opened Core
  import opened NoiseSuite
  import Spec = NoiseSpec
  import XX = XXAgreement
  import opened XXKeys
  import opened CppNoise

  /** Deliver one message whose effect on the session's value is known. */
  method Deliver(session: NoiseSession, data: Bytes, eph: KeyPair, ghost h: Spec.Handshake, ghost to: Spec.Handled)
    returns (reply: Option<Bytes>)
    requires session.Valid() && Laws(session.c) && session.View() == Spec.Handshaking(h)
    requires Spec.Advance(session.c, h, data, eph) == to
    modifies session, session.Parts()
    ensures session.Valid() && fresh(session.Parts() - old(session.Parts()))
    ensures session.View() == to.session && reply == to.reply
  {
    var done;
    reply, done := session.HandleHandshakeMessage(data, eph);
  }

  /** Two sessions that share nothing. */
  ghost predicate Apart(a: NoiseSession, b: NoiseSession)
    reads a, b
  {
    a != b && {a} + a.Parts() !! {b} + b.Parts()
  }

  /** Deliver to one of two sessions; the other is not touched. */
  method DeliverTo(session: NoiseSession, other: NoiseSession, data: Bytes, eph: KeyPair, ghost h: Spec.Handshake, ghost to: Spec.Handled)
    returns (reply: Option<Bytes>)
    requires session.Valid() && Laws(session.c) && session.View() == Spec.Handshaking(h)
    requires Spec.Advance(session.c, h, data, eph) == to
    requires other.Valid() && Apart(session, other)
    modifies session, session.Parts()
    ensures session.Valid() && session.View() == to.session && reply == to.reply
    ensures other.Valid() && other.View() == old(other.View()) && Apart(session, other)
    ensures fresh(session.Parts() - old(session.Parts()))
  {
    reply := Deliver(session, data, eph, h, to);
  }

  method Drive(initiator: NoiseSession, responder: NoiseSession, m1: Bytes, ei: KeyPair, er: KeyPair,
               ghost r0: Spec.Handshake, ghost x: XX.Exchange, ghost i: Spec.Session, ghost r: Spec.Session)
    requires initiator.Valid() && responder.Valid() && Apart(initiator, responder)
    requires Laws(initiator.c) && responder.c == initiator.c
    requires initiator.View() == Spec.Handshaking(x.i1) && responder.View() == Spec.Handshaking(r0)
    requires Spec.Advance(responder.c, r0, m1, er) == Spec.Handled(Spec.Handshaking(x.r2), Some(x.m2))
    requires Spec.Advance(initiator.c, x.i1, x.m2, ei) == Spec.Handled(i, Some(x.m3))
    requires Spec.Advance(responder.c, x.r2, x.m3, er) == Spec.Handled(r, None)
    modifies initiator, responder, initiator.Parts(), responder.Parts()
    ensures initiator.Valid() && responder.Valid() && Apart(initiator, responder)
    ensures initiator.View() == i && responder.View() == r
  {
    var m2 := DeliverTo(responder, initiator, m1, er, r0, Spec.Handled(Spec.Handshaking(x.r2), Some(x.m2)));
    var m3 := DeliverTo(initiator, responder, m2.value, ei, x.i1, Spec.Handled(i, Some(x.m3)));
    var last := DeliverTo(responder, initiator, m3.value, er, x.r2, Spec.Handled(r, None));
  }

  /** A responder next to a session, which keeps its value. */
  method OpenBeside(other: NoiseSession, c: Suite, s: KeyPair) returns (session: NoiseSession)
    requires other.Valid()
    ensures fresh(session) && fresh(session.Parts()) && session.Valid() && session.c == c && Apart(other, session)
    ensures session.View() == Spec.Handshaking(Spec.Initialize(c, false, s))
    ensures other.Valid() && other.View() == old(other.View()) && other.Parts() == old(other.Parts())
  {
    session := NoiseSession.AsResponder(c, s);
  }

  method Open(c: Suite, si: KeyPair, sr: KeyPair, ei: KeyPair)
    returns (initiator: NoiseSession, responder: NoiseSession, m1: Bytes)
    ensures fresh(initiator) && fresh(responder) && fresh(initiator.Parts()) && fresh(responder.Parts())
    ensures initiator.Valid() && responder.Valid() && initiator.c == responder.c == c && Apart(initiator, responder)
    ensures Spec.Start(c, si, ei) == Some((initiator.View(), m1))
    ensures responder.View() == Spec.Handshaking(Spec.Initialize(c, false, sr))
  {
    initiator, m1 := NoiseSession.AsInitiator(c, si, ei);
    responder := OpenBeside(initiator, c, sr);
  }

  /** XX agreement of the objects: for all genuine keys both sessions become ready, each sends with the cipher the other
      receives with, each knows the other's static key, and the keys are the ones written out in XXKeys. */
  method Handshake(c: Suite, si: KeyPair, sr: KeyPair, ei: KeyPair, er: KeyPair)
    returns (initiator: NoiseSession, responder: NoiseSession)
    requires Laws(c) && Genuine(c, si) && Genuine(c, sr) && Genuine(c, ei) && Genuine(c, er)
    ensures initiator.Valid() && responder.Valid() && Apart(initiator, responder)
    ensures var i, r := initiator.View(), responder.View();
            && i.Ready? && r.Ready? && i.send == r.recv && i.recv == r.send
            && i.peer == sr.pub && r.peer == si.pub
            && var o := HonestOutputs(c, si, sr, ei, er);
            i.send == Spec.Cipher(Some(o.toResponder), 0) && r.send == Spec.Cipher(Some(o.toInitiator), 0)
  {
    var m1: Bytes;
    initiator, responder, m1 := Open(c, si, sr, ei);
    ghost var x, i, r := XX.SessionsAgree(c, si, sr, ei, er);
    Drive(initiator, responder, m1, ei, er, Spec.Initialize(c, false, sr), x, i, r);
  }
}
