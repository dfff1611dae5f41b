/**
 The Go SDK's peerConn (sdk/go/peer.go): one active session, at most one pending
 replacement, make-before-break, and throttling of unsolicited first messages.
 */
module GoPeer {
  import opened Core
  import opened GoNoise

  type ChanId(==, !new) = nat

  /** unsolicitedMsg1MinInterval, in nanoseconds. */
  const MIN_INTERVAL: int := 2_000_000_000

  /** `announced` is None for the empty string; `lastUnsolicited` is None for the zero time. */
  datatype Peer = Peer(
    id: DeviceId,
    announced: Option<StaticKey>,
    active: Option<Session>,
    pending: Option<Session>,
    waiter: Option<ChanId>,
    lastUnsolicited: Option<int>)

  predicate Throttled(p: Peer, now: int)
  {
    p.lastUnsolicited.Some? && now - p.lastUnsolicited.value < MIN_INTERVAL
  }

  datatype Fed = Fed(peer: Peer, reply: Option<HsMsg>, completed: bool, wasPending: bool, err: bool)

  /** The choice of the session to feed: the peer with that session in place, whether the message is throttled, and
      whether the session is the pending one. */
  function Choose(p: Peer, now: int): (r: (Peer, bool, bool))
    ensures !r.1 ==> if r.2 then r.0.pending.Some? else r.0.active.Some?
  {
    if p.pending.Some? then (p, false, true)
    else if p.active.Some? && !p.active.value.Live? then (p, false, false)
    else if p.active.None? then (p.(active := Some(AwaitMsg1)), false, false)
    else if Throttled(p, now) then (p, true, false)
    else (p.(pending := Some(AwaitMsg1), lastUnsolicited := Some(now)), false, true)
  }

  /** Feeding the chosen session. */
  function FeedChosen(p: Peer, wasPending: bool, s: StaticKey, m: HsMsg, entropy: Option<Eph>): (r: Fed)
    requires if wasPending then p.pending.Some? else p.active.Some?
  {
    var h := Handle(if wasPending then p.pending.value else p.active.value, s, m, entropy);
    Fed(if wasPending then p.(pending := Some(h.session)) else p.(active := Some(h.session)),
        h.reply, h.done, wasPending, h.err)
  }

  /** handleHandshakeEnvelope: choose the session to feed, then feed it. */
  function Feed(p: Peer, s: StaticKey, m: HsMsg, entropy: Option<Eph>, now: int): (r: Fed)
  {
    var (q, throttled, wasPending) := Choose(p, now);
    if throttled then Fed(p, None, false, false, false) else FeedChosen(q, wasPending, s, m, entropy)
  }

  function Promote(p: Peer): Peer
  {
    if p.pending.Some? then p.(active := p.pending, pending := None) else p
  }

  function Abandon(p: Peer): Peer
  {
    p.(pending := None)
  }

  class PeerConn {
    const id: DeviceId
    const announcedStaticKey: Option<StaticKey>
    var active: NoiseSession?
    var pending: NoiseSession?
    var firstPairWaiter: Option<ChanId>
    var lastUnsolicitedMsg1: Option<int>

    ghost predicate Valid()
      reads this, active, pending
    {
      && (active != null ==> active.Valid())
      && (pending != null ==> pending.Valid())
      && (active != null ==> active != pending)
    }

    /** Both sessions were made from the same private key. */
    ghost predicate Owns(s: StaticKey)
      reads this, active, pending
    {
      && (active != null ==> active.hs.s == s)
      && (pending != null ==> pending.hs.s == s)
    }

    ghost function View(): (p: Peer)
      reads this, active, pending
    {
      Peer(id, announcedStaticKey,
           if active == null then None else Some(active.View()),
           if pending == null then None else Some(pending.View()),
           firstPairWaiter, lastUnsolicitedMsg1)
    }

    /** Each session is one the peer had or a new one. */
    twostate predicate Renewed()
      reads this
    {
      && (active != null ==> active == old(active) || active == old(pending) || fresh(active))
      && (pending != null ==> pending == old(pending) || fresh(pending))
    }

    constructor (id: DeviceId, announced: Option<StaticKey>)
      ensures Valid() && View() == Peer(id, announced, None, None, None, None)
      ensures active == null && pending == null
    {
      this.id := id;
      announcedStaticKey := announced;
      active, pending, firstPairWaiter, lastUnsolicitedMsg1 := null, null, None, None;
    }

    method SetFirstPairWaiter(ch: ChanId)
      requires Valid()
      modifies this`firstPairWaiter
      ensures Valid() && View() == old(View()).(waiter := Some(ch))
    {
      firstPairWaiter := Some(ch);
    }

    method TakeFirstPairWaiter() returns (ch: Option<ChanId>)
      requires Valid()
      modifies this`firstPairWaiter
      ensures Valid() && ch == old(View()).waiter && View() == old(View()).(waiter := None)
    {
      ch := firstPairWaiter;
      firstPairWaiter := None;
    }

    method StartAsInitiator(s: StaticKey, entropy: Option<Eph>) returns (msg1: Option<HsMsg>)
      requires Valid() && Owns(s)
      modifies this`active
      ensures Valid() && Owns(s)
      ensures entropy.None? ==> msg1.None? && View() == old(View())
      ensures entropy.Some? ==>
                && msg1 == Some(Msg1(entropy.value))
                && View() == old(View()).(active := Some(AwaitMsg2(entropy.value)))
      ensures active != old(active) ==> fresh(active)
    {
      if entropy.None? {
        return None;
      }
      active := new NoiseSession.Initiator(s, entropy.value);
      return Some(Msg1(entropy.value));
    }

    method StartRekeyAsInitiator(s: StaticKey, entropy: Option<Eph>) returns (msg1: Option<HsMsg>)
      requires Valid() && Owns(s)
      modifies this`pending
      ensures Valid() && Owns(s)
      ensures entropy.None? ==> msg1.None? && View() == old(View())
      ensures entropy.Some? ==>
                && msg1 == Some(Msg1(entropy.value))
                && View() == old(View()).(pending := Some(AwaitMsg2(entropy.value)))
      ensures pending != old(pending) ==> fresh(pending)
    {
      if entropy.None? {
        return None;
      }
      pending := new NoiseSession.Initiator(s, entropy.value);
      return Some(Msg1(entropy.value));
    }

    /** The first half of handleHandshakeEnvelope: the session to feed, null for a throttled message. */
    method ChooseSession(s: StaticKey, now: int) returns (session: NoiseSession?, wasPending: bool)
      requires Valid() && Owns(s)
      modifies this`active, this`pending, this`lastUnsolicitedMsg1
      ensures Valid() && Owns(s)
      ensures (View(), session == null, wasPending) == Choose(old(View()), now)
      ensures session != null ==> session == if wasPending then pending else active
      ensures active != old(active) ==> fresh(active)
      ensures pending != old(pending) ==> fresh(pending)
    {
      if pending != null {
        return pending, true;
      }
      if active != null && !active.Ready() {
        return active, false;
      }
      if active == null {
        active := new NoiseSession.Responder(s);
        return active, false;
      }
      if lastUnsolicitedMsg1.Some? && now - lastUnsolicitedMsg1.value < MIN_INTERVAL {
        return null, false;
      }
      lastUnsolicitedMsg1 := Some(now);
      pending := new NoiseSession.Responder(s);
      return pending, true;
    }

    method HandleHandshakeEnvelope(s: StaticKey, data: HsMsg, entropy: Option<Eph>, now: int)
      returns (reply: Option<HsMsg>, completed: NoiseSession?, wasPending: bool, err: bool)
      requires Valid() && Owns(s)
      modifies this, active, pending
      ensures Valid() && Owns(s) && firstPairWaiter == old(firstPairWaiter)
      ensures Fed(View(), reply, completed != null, wasPending, err) == Feed(old(View()), s, data, entropy, now)
      ensures completed != null ==>
                completed == (if wasPending then pending else active) && (err || completed.Ready())
      ensures active != old(active) ==> fresh(active)
      ensures pending != old(pending) ==> fresh(pending)
    {
      var session: NoiseSession?;
      session, wasPending := ChooseSession(s, now);
      if session == null {
        return None, null, wasPending, false;
      }
      reply, completed, err := FeedSession(session, wasPending, data, entropy);
    }

    method FeedSession(session: NoiseSession, wasPending: bool, data: HsMsg, entropy: Option<Eph>)
      returns (reply: Option<HsMsg>, completed: NoiseSession?, err: bool)
      requires Valid() && Owns(session.hs.s) && session == if wasPending then pending else active
      modifies session
      ensures Valid() && Owns(old(session.hs.s))
      ensures Fed(View(), reply, completed != null, wasPending, err)
              == FeedChosen(old(View()), wasPending, old(session.hs.s), data, entropy)
      ensures completed != null ==> completed == session && (err || completed.Ready())
    {
      var done: bool;
      reply, done, err := session.HandleHandshakeMessage(data, entropy);
      completed := if done then session else null;
    }

    method PromoteSession(session: NoiseSession)
      requires Valid()
      modifies this
      ensures Valid()
      ensures View() == if old(pending) == session then Promote(old(View())) else old(View())
      ensures active in {old(active), session} && pending in {old(pending), null}
    {
      if pending == session {
        active := session;
        pending := null;
      }
    }

    method AbandonSession(session: NoiseSession)
      requires Valid()
      modifies this
      ensures Valid()
      ensures View() == if old(pending) == session then Abandon(old(View())) else old(View())
      ensures active == old(active) && pending in {old(pending), null}
    {
      if pending == session {
        pending := null;
      }
    }

    method Send(p: Payload) returns (k: Option<Packet>)
      requires Valid()
      modifies active
      ensures Valid() && (active != null ==> active.hs == old(active.hs))
      ensures k.Some? <==> View().active.Some? && Encrypt(old(View()).active.value, p).Some?
      ensures k.Some? ==>
                var e := Encrypt(old(View()).active.value, p).value;
                k.value == e.1 && View() == old(View()).(active := Some(e.0))
      ensures k.None? ==> View() == old(View())
    {
      if active == null {
        return None;
      }
      k := active.EncryptPayload(p);
    }

    method Recv(k: Packet) returns (p: Option<Payload>)
      requires Valid()
      modifies active
      ensures Valid() && (active != null ==> active.hs == old(active.hs))
      ensures p.Some? <==> View().active.Some? && Decrypt(old(View()).active.value, k).Some?
      ensures p.Some? ==>
                var d := Decrypt(old(View()).active.value, k).value;
                p.value == d.1 && View() == old(View()).(active := Some(d.0))
      ensures p.None? ==> View() == old(View())
    {
      if active == null {
        return None;
      }
      p := active.DecryptPacket(k);
    }
  }
}
