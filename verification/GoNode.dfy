/**
 One Go client and its linked peer, as a value (sdk/go/client.go, sdk/go/peerstore.go):
 the read loop's handlers, the client-side pin, and what holds over every sequence of
 events the relay can cause. The relay is untrusted, so the events are arbitrary.
 */
module GoNode {
  import opened Core
  import opened GoNoise
  import opened GoPeer

  type Pins = map<DeviceId, StaticKey>

  datatype Node = Node(me: DeviceId, s: StaticKey, peer: Peer, pins: Pins)

  datatype Pinned = Pinned(pins: Pins, ok: bool)

  /** PinOrVerify. A first pin is kept in memory even when writing it to disk fails. */
  function PinOrVerify(pins: Pins, id: DeviceId, key: StaticKey, saved: bool): (r: Pinned)
  {
    if id in pins then Pinned(pins, pins[id] == key)
    else Pinned(pins[id := key], saved)
  }

  predicate AnnouncedMatches(p: Peer, key: StaticKey)
  {
    p.announced.None? || p.announced.value == key
  }

  /** verifyAndPin: the pin first, then the cross-check against the announced key. */
  function VerifyAndPin(n: Node, key: StaticKey, saved: bool): (r: Pinned)
  {
    var pinned := PinOrVerify(n.pins, n.peer.id, key, saved);
    Pinned(pinned.pins, pinned.ok && AnnouncedMatches(n.peer, key))
  }

  /** How a handshake attempt ended. */
  datatype Verdict = Good(key: StaticKey) | BadHandshake | BadKey

  datatype Judged = Judged(node: Node, verdict: Verdict)

  /** The first half of resolveHandshake: verify the finished session `x`, and mark it failed if it does not pass. */
  function Judge(n: Node, x: Session, wasPending: bool, err: bool, saved: bool): (r: Judged)
  {
    if err || !x.Live? then Judged(n, BadHandshake)
    else
      var v := VerifyAndPin(n, x.PeerStatic(), saved);
      if v.ok then Judged(n.(pins := v.pins), Good(x.PeerStatic()))
      else
        var dead := if wasPending then n.peer.(pending := Some(Dead)) else n.peer.(active := Some(Dead));
        Judged(n.(pins := v.pins, peer := dead), BadKey)
  }

  /** The second half: promote or abandon a replacement, and release the first-pair waiter. */
  function Settle(p: Peer, wasPending: bool, good: bool): (r: Peer)
  {
    if wasPending && !good then Abandon(p)
    else (if wasPending then Promote(p) else p).(waiter := None)
  }

  datatype Outcome = Outcome(wasPending: bool, verdict: Verdict)

  datatype Output = Output(node: Node, reply: Option<HsMsg>, outcome: Option<Outcome>)

  /** The second half of handleHandshakeEnvelope: queue the reply, resolve if the session finished. */
  function AfterFeed(n: Node, fed: Fed, saved: bool): (r: Output)
  {
    var n1 := n.(peer := fed.peer);
    if !fed.completed then Output(n1, fed.reply, None)
    else
      var slot := if fed.wasPending then fed.peer.pending else fed.peer.active;
      var x := if slot.Some? then slot.value else Dead;
      var j := Judge(n1, x, fed.wasPending, fed.err, saved);
      Output(j.node.(peer := Settle(j.node.peer, fed.wasPending, j.verdict.Good?)), fed.reply,
             Some(Outcome(fed.wasPending, j.verdict)))
  }

  /** One incoming handshake envelope. */
  function OnHandshake(n: Node, m: HsMsg, entropy: Option<Eph>, now: int, saved: bool): (r: Output)
  {
    AfterFeed(n, Feed(n.peer, n.s, m, entropy, now), saved)
  }

  /** handlePeerStatus: only the smaller device identifier re-initiates, and only when the peer is online. */
  function OnPeerStatus(n: Node, about: DeviceId, online: bool, entropy: Option<Eph>): (r: Output)
  {
    if online && about == n.peer.id && StringLess(n.me, about) && entropy.Some? then
      Output(n.(peer := n.peer.(pending := Some(AwaitMsg2(entropy.value)))), Some(Msg1(entropy.value)), None)
    else Output(n, None, None)
  }

  /** handleTransportEnvelope: a packet that does not decrypt changes nothing. */
  function OnTransport(n: Node, k: Packet): (r: (Node, Option<Payload>))
  {
    if n.peer.active.Some? && Decrypt(n.peer.active.value, k).Some? then
      var d := Decrypt(n.peer.active.value, k).value;
      (n.(peer := n.peer.(active := Some(d.0))), Some(d.1))
    else (n, None)
  }

  /** Send: encrypt under the active session or report that none is ready. */
  function OnSend(n: Node, p: Payload): (r: (Node, Option<Packet>))
  {
    if n.peer.active.Some? && Encrypt(n.peer.active.value, p).Some? then
      var e := Encrypt(n.peer.active.value, p).value;
      (n.(peer := n.peer.(active := Some(e.0))), Some(e.1))
    else (n, None)
  }

  // ----- Every run of one client -----

  datatype Event =
    | Handshake(m: HsMsg, entropy: Option<Eph>, now: int, saved: bool)
    | PeerStatus(about: DeviceId, online: bool, entropy: Option<Eph>)
    | Transport(k: Packet)
    | SendPayload(p: Payload)

  /** A Send that is cancelled after it has encrypted changes the node as one that succeeds does. */
  function Step(n: Node, ev: Event): (r: Node)
  {
    match ev
    case Handshake(m, entropy, now, saved) => OnHandshake(n, m, entropy, now, saved).node
    case PeerStatus(about, online, entropy) => OnPeerStatus(n, about, online, entropy).node
    case Transport(k) => OnTransport(n, k).0
    case SendPayload(p) => OnSend(n, p).0
  }

  function Run(n: Node, evs: seq<Event>): (r: Node)
    decreases |evs|
  {
    if evs == [] then n else Run(Step(n, evs[0]), evs[1..])
  }

  /** Between frames a replacement either does not exist or is still in progress. */
  predicate PendingInProgress(n: Node)
  {
    n.peer.pending.Some? ==> n.peer.pending.value.Handshaking()
  }

  predicate ActiveReady(n: Node)
  {
    n.peer.active.Some? && n.peer.active.value.Live?
  }

  /** The active session's peer key is the pinned one and agrees with the announced one. */
  predicate Authenticated(n: Node)
    requires ActiveReady(n)
  {
    var key := n.peer.active.value.PeerStatic();
    && n.peer.id in n.pins && n.pins[n.peer.id] == key
    && AnnouncedMatches(n.peer, key)
  }

  predicate SameKeys(n: Node, n': Node)
    requires ActiveReady(n) && ActiveReady(n')
  {
    && n.peer.active.value.tr == n'.peer.active.value.tr
    && n.peer.active.value.initiator == n'.peer.active.value.initiator
  }

  /** What no event changes: identities, the announced key, and every pin already made. */
  predicate Fixed(n: Node, n': Node)
  {
    && n'.me == n.me && n'.s == n.s && n'.peer.id == n.peer.id && n'.peer.announced == n.peer.announced
    && n.pins.Keys <= n'.pins.Keys
    && forall id :: id in n.pins ==> n'.pins[id] == n.pins[id]
  }

  lemma JudgeFixed(n: Node, x: Session, wasPending: bool, err: bool, saved: bool)
    ensures Fixed(n, Judge(n, x, wasPending, err, saved).node)
  {
  }

  lemma StepFixed(n: Node, ev: Event)
    ensures Fixed(n, Step(n, ev))
  {
    if ev.Handshake? {
      var fed := Feed(n.peer, n.s, ev.m, ev.entropy, ev.now);
      var slot := if fed.wasPending then fed.peer.pending else fed.peer.active;
      JudgeFixed(n.(peer := fed.peer), if slot.Some? then slot.value else Dead, fed.wasPending, fed.err, ev.saved);
    }
  }

  lemma StepKeepsPending(n: Node, ev: Event)
    requires PendingInProgress(n)
    ensures PendingInProgress(Step(n, ev))
  {
  }

  lemma StepMakeBeforeBreak(n: Node, ev: Event)
    requires ActiveReady(n) && PendingInProgress(n)
    ensures ActiveReady(Step(n, ev))
    ensures SameKeys(n, Step(n, ev)) || Authenticated(Step(n, ev))
  {
  }

  /** Make-before-break, over every run: a ready active session stays ready and is replaced only
      by a completed session whose key matches the pin and the announced key. */
  lemma {:induction false} MakeBeforeBreak(n: Node, evs: seq<Event>)
    requires ActiveReady(n) && PendingInProgress(n)
    ensures var n' := Run(n, evs);
            && ActiveReady(n') && PendingInProgress(n') && Fixed(n, n')
            && (SameKeys(n, n') || Authenticated(n'))
    decreases |evs|
  {
    if evs != [] {
      var n1 := Step(n, evs[0]);
      StepMakeBeforeBreak(n, evs[0]);
      StepKeepsPending(n, evs[0]);
      StepFixed(n, evs[0]);
      MakeBeforeBreak(n1, evs[1..]);
    }
  }

  predicate ReadyIsAuthenticated(n: Node)
  {
    ActiveReady(n) ==> Authenticated(n)
  }

  /** Feeding alone makes no session usable that was not: a session that completes is still to be judged. */
  lemma FeedKeepsActive(p: Peer, s: StaticKey, m: HsMsg, entropy: Option<Eph>, now: int)
    ensures var fed := Feed(p, s, m, entropy, now);
            && fed.peer.id == p.id && fed.peer.announced == p.announced
            && (!fed.completed || fed.wasPending ==>
                  fed.peer.active == p.active || (fed.peer.active.Some? && !fed.peer.active.value.Live?))
            && (fed.wasPending && fed.completed ==> fed.peer.active == p.active)
  {
  }

  /** The judged session is the one that may become or stay active. */
  lemma JudgeAuthenticates(n: Node, x: Session, wasPending: bool, err: bool, saved: bool)
    requires (if wasPending then n.peer.pending else n.peer.active) == Some(x)
    requires wasPending ==> ReadyIsAuthenticated(n)
    requires x.Live? ==> !err
    ensures var j := Judge(n, x, wasPending, err, saved);
            ReadyIsAuthenticated(j.node.(peer := Settle(j.node.peer, wasPending, j.verdict.Good?)))
  {
  }

  lemma FedSession(p: Peer, s: StaticKey, m: HsMsg, entropy: Option<Eph>, now: int)
    requires p.pending.Some? ==> p.pending.value.Handshaking()
    ensures var fed := Feed(p, s, m, entropy, now);
            fed.completed ==>
              var slot := if fed.wasPending then fed.peer.pending else fed.peer.active;
              slot.Some? && (slot.value.Live? ==> !fed.err)
  {
  }

  lemma HandshakeAuthenticates(n: Node, m: HsMsg, entropy: Option<Eph>, now: int, saved: bool)
    requires PendingInProgress(n) && ReadyIsAuthenticated(n)
    ensures ReadyIsAuthenticated(OnHandshake(n, m, entropy, now, saved).node)
  {
    var fed := Feed(n.peer, n.s, m, entropy, now);
    FeedKeepsActive(n.peer, n.s, m, entropy, now);
    FedSession(n.peer, n.s, m, entropy, now);
    if fed.completed {
      var slot := if fed.wasPending then fed.peer.pending else fed.peer.active;
      JudgeAuthenticates(n.(peer := fed.peer), slot.value, fed.wasPending, fed.err, saved);
    }
  }

  lemma StepAuthenticates(n: Node, ev: Event)
    requires PendingInProgress(n) && ReadyIsAuthenticated(n)
    ensures ReadyIsAuthenticated(Step(n, ev))
  {
    if ev.Handshake? {
      HandshakeAuthenticates(n, ev.m, ev.entropy, ev.now, ev.saved);
    }
  }

  /** From the moment of linking, when no session is ready yet, no event leaves an unauthenticated
      session usable. */
  lemma {:induction false} NeverReadyUnauthenticated(n: Node, evs: seq<Event>)
    requires PendingInProgress(n) && ReadyIsAuthenticated(n)
    ensures PendingInProgress(Run(n, evs)) && ReadyIsAuthenticated(Run(n, evs))
    decreases |evs|
  {
    if evs != [] {
      StepKeepsPending(n, evs[0]);
      StepAuthenticates(n, evs[0]);
      NeverReadyUnauthenticated(Step(n, evs[0]), evs[1..]);
    }
  }

  // ----- A Send in the middle of a handshake envelope -----

  /** A Send that seals after the session has been fed and before it is verified: the read loop holds no lock then. */
  function SendBetween(n: Node, m: HsMsg, entropy: Option<Eph>, now: int, saved: bool, p: Payload)
    : (r: (Output, Option<Packet>))
  {
    var fed := Feed(n.peer, n.s, m, entropy, now);
    var sent := OnSend(n.(peer := fed.peer), p);
    (AfterFeed(n, fed.(peer := sent.0.peer), saved), sent.1)
  }

  /** The envelope completes a first session whose key is refused. */
  predicate RefusesFirst(n: Node, m: HsMsg, entropy: Option<Eph>, now: int, saved: bool)
  {
    OnHandshake(n, m, entropy, now, saved).outcome == Some(Outcome(false, BadKey))
  }

  /** The Send comes before the whole envelope. */
  predicate AsIfBefore(n: Node, m: HsMsg, entropy: Option<Eph>, now: int, saved: bool, p: Payload)
  {
    var sent := OnSend(n, p);
    SendBetween(n, m, entropy, now, saved, p) == (OnHandshake(sent.0, m, entropy, now, saved), sent.1)
  }

  /** The Send comes after it. */
  predicate AsIfAfter(n: Node, m: HsMsg, entropy: Option<Eph>, now: int, saved: bool, p: Payload)
  {
    var out := OnHandshake(n, m, entropy, now, saved);
    var sent := OnSend(out.node, p);
    SendBetween(n, m, entropy, now, saved, p) == (out.(node := sent.0), sent.1)
  }

  /** Beside a ready session only a replacement is fed, whatever the ready session's counters are. */
  lemma FeedBesideReady(q: Peer, x: Session, s: StaticKey, m: HsMsg, entropy: Option<Eph>, now: int)
    requires q.active.Some? && q.active.value.Live? && x.Live?
    ensures var fed := Feed(q, s, m, entropy, now);
            && Feed(q.(active := Some(x)), s, m, entropy, now) == fed.(peer := fed.peer.(active := Some(x)))
            && fed.peer.active == q.active && (fed.completed ==> fed.wasPending)
  {
  }

  lemma SendBesideReady(n: Node, m: HsMsg, entropy: Option<Eph>, now: int, saved: bool, p: Payload)
    requires ActiveReady(n)
    ensures AsIfBefore(n, m, entropy, now, saved, p) && !RefusesFirst(n, m, entropy, now, saved)
  {
    FeedBesideReady(n.peer, OnSend(n, p).0.peer.active.value, n.s, m, entropy, now);
  }

  /** Without a ready session, feeding makes one ready exactly if it completes the first session. */
  lemma FeedFirst(q: Peer, s: StaticKey, m: HsMsg, entropy: Option<Eph>, now: int)
    requires !(q.active.Some? && q.active.value.Live?) && (q.pending.Some? ==> q.pending.value.Handshaking())
    ensures var fed := Feed(q, s, m, entropy, now);
            if fed.completed && !fed.wasPending && !fed.err
            then fed.peer.active.Some? && fed.peer.active.value.Live? && fed.peer.active.value.sendN == 0
            else !(fed.peer.active.Some? && fed.peer.active.value.Live?)
  {
  }

  /** A Send on a peer that was fed like that. */
  lemma SendOnFed(n: Node, fed: Fed, saved: bool, p: Payload)
    requires if fed.completed && !fed.wasPending && !fed.err
             then fed.peer.active.Some? && fed.peer.active.value.Live? && fed.peer.active.value.sendN == 0
             else !(fed.peer.active.Some? && fed.peer.active.value.Live?)
    ensures var sent, out := OnSend(n.(peer := fed.peer), p), AfterFeed(n, fed, saved);
            var r := AfterFeed(n, fed.(peer := sent.0.peer), saved);
            if out.outcome == Some(Outcome(false, BadKey)) then r == out && sent.1.Some? && !ActiveReady(out.node)
            else if fed.completed && !fed.wasPending && !fed.err
            then r == out.(node := OnSend(out.node, p).0) && sent.1 == OnSend(out.node, p).1
            else r == out && sent.1.None?
  {
  }

  lemma SendDuringFirst(n: Node, m: HsMsg, entropy: Option<Eph>, now: int, saved: bool, p: Payload)
    requires !ActiveReady(n) && PendingInProgress(n)
    ensures var r, out := SendBetween(n, m, entropy, now, saved, p), OnHandshake(n, m, entropy, now, saved);
            if RefusesFirst(n, m, entropy, now, saved) then r.0 == out && r.1.Some? && !ActiveReady(out.node)
            else r == (out, None) || r == (out.(node := OnSend(out.node, p).0), OnSend(out.node, p).1)
  {
    FeedFirst(n.peer, n.s, m, entropy, now);
    SendOnFed(n, Feed(n.peer, n.s, m, entropy, now), saved, p);
  }

  /** Such a Send is as if it came before or after the envelope, unless the envelope completes a first session whose key
      is refused. Then, and only then, it seals a packet for the refused key; the session fails all the same. */
  lemma SendBetweenIsOrdered(n: Node, m: HsMsg, entropy: Option<Eph>, now: int, saved: bool, p: Payload)
    requires PendingInProgress(n)
    ensures AsIfBefore(n, m, entropy, now, saved, p) || AsIfAfter(n, m, entropy, now, saved, p)
            <==> !RefusesFirst(n, m, entropy, now, saved)
    ensures RefusesFirst(n, m, entropy, now, saved) ==>
              var r := SendBetween(n, m, entropy, now, saved, p);
              r.0 == OnHandshake(n, m, entropy, now, saved) && r.1.Some? && !ActiveReady(r.0.node)
  {
    if ActiveReady(n) {
      SendBesideReady(n, m, entropy, now, saved, p);
    } else {
      SendDuringFirst(n, m, entropy, now, saved, p);
      assert OnSend(n, p) == (n, None);
    }
  }

  /** It happens: an initiator whose peer answers with a key other than the pinned one. */
  lemma RefusedKeyGetsPacket(n: Node, e: Eph, re: Eph, key: StaticKey, now: int, saved: bool, p: Payload)
    requires n.peer.active == Some(AwaitMsg2(e)) && n.peer.pending.None?
    requires n.peer.id in n.pins && n.pins[n.peer.id] != key
    ensures var m := Msg2(re, key, e);
            && RefusesFirst(n, m, None, now, saved)
            && SendBetween(n, m, None, now, saved, p).1 == Some(Sealed(Transcript(e, n.s, re, key), true, 0, p))
  {
    assert Feed(n.peer, n.s, Msg2(re, key, e), None, now).peer.active == Some(Live(true, Transcript(e, n.s, re, key), 0, 0));
  }

  // ----- Throttling of unsolicited first messages -----

  /** This event makes the client build a responder session beside a healthy one. */
  predicate StartsResponder(n: Node, ev: Event)
  {
    ev.Handshake? && n.peer.pending.None? && ActiveReady(n) && !Throttled(n.peer, ev.now)
  }

  /** The times at which a run starts such sessions. */
  function Starts(n: Node, evs: seq<Event>): (ts: seq<int>)
    decreases |evs|
  {
    if evs == [] then []
    else
      var rest := Starts(Step(n, evs[0]), evs[1..]);
      if StartsResponder(n, evs[0]) then [evs[0].now] + rest else rest
  }

  lemma StepLastUnsolicited(n: Node, ev: Event)
    ensures Step(n, ev).peer.lastUnsolicited
            == if StartsResponder(n, ev) then Some(ev.now) else n.peer.lastUnsolicited
  {
  }

  lemma {:induction false} FirstStartIsLate(n: Node, evs: seq<Event>)
    requires n.peer.lastUnsolicited.Some?
    ensures Starts(n, evs) != [] ==> Starts(n, evs)[0] - n.peer.lastUnsolicited.value >= MIN_INTERVAL
    decreases |evs|
  {
    if evs != [] && !StartsResponder(n, evs[0]) {
      StepLastUnsolicited(n, evs[0]);
      FirstStartIsLate(Step(n, evs[0]), evs[1..]);
    }
  }

  /** Whatever the relay injects and whatever the clock does, k later starts need k intervals. */
  lemma {:induction false} StartsAreSpaced(n: Node, evs: seq<Event>, i: nat, j: nat)
    requires i <= j < |Starts(n, evs)|
    ensures Starts(n, evs)[j] - Starts(n, evs)[i] >= (j - i) * MIN_INTERVAL
    decreases |evs|, j
  {
    var n1 := Step(n, evs[0]);
    StepLastUnsolicited(n, evs[0]);
    if !StartsResponder(n, evs[0]) {
      StartsAreSpaced(n1, evs[1..], i, j);
    } else if i > 0 {
      StartsAreSpaced(n1, evs[1..], i - 1, j - 1);
    } else if j > 0 {
      FirstStartIsLate(n1, evs[1..]);
      StartsAreSpaced(n1, evs[1..], 0, j - 1);
    }
  }
}
