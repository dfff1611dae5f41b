/**
 A whole Go client as a value (sdk/go/client.go): every linked peer, the pins they share, and
 the pairing channels. The acts are everything that the relay can deliver and the application
 can call, in any order; incoming envelopes carry no sender, so an act names the peer that
 getSolePeer happens to pick.
 */
module GoAccount {
  import opened Core
  import opened GoNoise
  import opened GoPeer
  import Value = GoNode
  import opened GoPairing

  datatype Account = Account(
    me: DeviceId,
    s: StaticKey,
    peers: map<DeviceId, Peer>,
    pins: Value.Pins,
    pairing: Pairing)

  /** What the application or a control frame does to the waiters, other than link a peer. */
  type WaiterOp = op: Op | !op.Complete? && !op.Settled? witness Request

  datatype Act =
    | Envelope(pick: DeviceId, m: HsMsg, entropy: Option<Eph>, now: int, saved: bool)
    | Status(about: DeviceId, online: bool, entropy: Option<Eph>)
    | Arrival(pick: DeviceId, k: Packet)
    | SendTo(peer: DeviceId, p: Payload, cancelled: bool)
    | Waiters(op: WaiterOp)
    | Link(code: string, peer: DeviceId, announced: Option<StaticKey>, entropy: Option<Eph>)
    | Welcome(linked: seq<(DeviceId, Option<StaticKey>)>)

  /** The peer that an act is about, and what happens to it. */
  function EventOf(act: Act): (r: Option<(DeviceId, Value.Event)>)
  {
    match act
    case Envelope(pick, m, entropy, now, saved) => Some((pick, Value.Handshake(m, entropy, now, saved)))
    case Status(about, online, entropy) => Some((about, Value.PeerStatus(about, online, entropy)))
    case Arrival(pick, k) => Some((pick, Value.Transport(k)))
    case SendTo(peer, p, _) => Some((peer, Value.SendPayload(p)))
    case _ => None
  }

  function NodeOf(a: Account, id: DeviceId): Value.Node
    requires id in a.peers
  {
    Value.Node(a.me, a.s, a.peers[id], a.pins)
  }

  /** What the first-pair waiter is told about a finished session. */
  function ResultFor(id: DeviceId, v: Value.Verdict): (r: PairResult)
  {
    match v
    case Good(key) => Paired(id, key)
    case BadHandshake => PairError(HandshakeFailed)
    case BadKey => PairError(KeyMismatch)
  }

  /** What an act does to the channels, if anything. */
  function OpOf(a: Account, act: Act): (r: Option<Op>)
  {
    match act
    case Envelope(pick, m, entropy, now, saved) =>
      if pick !in a.peers then None
      else OpFor(pick, Value.OnHandshake(NodeOf(a, pick), m, entropy, now, saved).outcome)
    case Waiters(op) => Some(op)
    case Link(code, peer, _, entropy) => Some(Complete(code, peer, entropy.None?))
    case _ => None
  }

  function OpFor(id: DeviceId, o: Option<Value.Outcome>): (r: Option<Op>)
  {
    if o.Some? then Some(Settled(id, o.value.wasPending, ResultFor(id, o.value.verdict))) else None
  }

  ghost function AfterOp(p: Pairing, op: Option<Op>): Pairing
  {
    if op.Some? then Apply(p, op.value) else p
  }

  function Ops(op: Option<Op>): seq<Op>
  {
    if op.Some? then [op.value] else []
  }

  /** A newly linked peer. The accepting side has started its handshake, or reported that it cannot. */
  function LinkedPeer(id: DeviceId, announced: Option<StaticKey>, w: Waiter, entropy: Option<Eph>): Peer
  {
    var starting := w.weAreAcceptor && entropy.Some?;
    Peer(id, announced, if starting then Some(AwaitMsg2(entropy.value)) else None, None,
         if w.weAreAcceptor && entropy.None? then None else Some(w.ch), None)
  }

  /** applyWelcomePeers: a peer that is already known is left alone. */
  function Welcomed(peers: map<DeviceId, Peer>, linked: seq<(DeviceId, Option<StaticKey>)>): (r: map<DeviceId, Peer>)
    decreases |linked|
  {
    if linked == [] then peers
    else
      var (id, announced) := linked[0];
      Welcomed(if id in peers then peers else peers[id := Peer(id, announced, None, None, None, None)], linked[1..])
  }

  /** The act on peers and pins. */
  function Touch(a: Account, act: Act): (r: Account)
  {
    match EventOf(act)
    case Some((id, ev)) =>
      if id !in a.peers then a
      else
        var n := Value.Step(NodeOf(a, id), ev);
        a.(peers := a.peers[id := n.peer], pins := n.pins)
    case None =>
      if act.Link? && act.code in a.pairing.waiters then
        a.(peers := a.peers[act.peer := LinkedPeer(act.peer, act.announced, a.pairing.waiters[act.code], act.entropy)])
      else if act.Welcome? then a.(peers := Welcomed(a.peers, act.linked))
      else a
  }

  ghost function Step(a: Account, act: Act): (r: Account)
  {
    Touch(a, act).(pairing := AfterOp(a.pairing, OpOf(a, act)))
  }

  ghost function Run(a: Account, acts: seq<Act>): (r: Account)
    decreases |acts|
  {
    if acts == [] then a else Run(Step(a, acts[0]), acts[1..])
  }

  function Start(me: DeviceId, s: StaticKey, pins: Value.Pins): Account
  {
    Account(me, s, map[], pins, NO_PAIRING)
  }

  /** An event of a known peer. */
  lemma EventStep(a: Account, act: Act)
    requires EventOf(act).Some? && EventOf(act).value.0 in a.peers
    ensures var (id, ev) := EventOf(act).value;
            var n := Value.Step(NodeOf(a, id), ev);
            Step(a, act) == a.(peers := a.peers[id := n.peer], pins := n.pins, pairing := AfterOp(a.pairing, OpOf(a, act)))
  {
  }

  lemma UnknownPeer(a: Account, act: Act)
    requires EventOf(act).Some? && EventOf(act).value.0 !in a.peers
    ensures Step(a, act) == a
  {
  }

  lemma OwnAct(a: Account, act: Act, id: DeviceId)
    requires id in a.peers && EventOf(act).Some? && EventOf(act).value.0 == id
    ensures id in Step(a, act).peers
    ensures NodeOf(Step(a, act), id) == Value.Step(NodeOf(a, id), EventOf(act).value.1).(me := a.me, s := a.s)
  {
  }

  // ----- Every run keeps all peers authenticated and all channels linear -----

  /** The peer is stored under its identifier, a replacement is in progress, and a ready session is authenticated. */
  predicate SoundPeer(a: Account, id: DeviceId)
    requires id in a.peers
  {
    var n := NodeOf(a, id);
    n.peer.id == id && Value.PendingInProgress(n) && Value.ReadyIsAuthenticated(n)
  }

  /** The peer's first-pair slot is the one the channels know. */
  predicate SlotAgrees(a: Account, id: DeviceId)
    requires id in a.peers
  {
    a.peers[id].waiter == if id in a.pairing.first then Some(a.pairing.first[id]) else None
  }

  ghost predicate Sound(a: Account)
  {
    && (forall id :: id in a.peers ==> SoundPeer(a, id) && SlotAgrees(a, id))
    && a.pairing.first.Keys <= a.peers.Keys
    && Linear(a.pairing)
  }

  predicate PinsKept(a: Account, a': Account)
  {
    && a'.me == a.me && a'.s == a.s
    && forall id :: id in a.pins ==> id in a'.pins && a'.pins[id] == a.pins[id]
  }

  lemma {:induction false} WelcomeAdds(peers: map<DeviceId, Peer>, linked: seq<(DeviceId, Option<StaticKey>)>, id: DeviceId)
    ensures id in peers ==> id in Welcomed(peers, linked) && Welcomed(peers, linked)[id] == peers[id]
    ensures id !in peers && id in Welcomed(peers, linked) ==>
              var p := Welcomed(peers, linked)[id]; p == Peer(id, p.announced, None, None, None, None)
    decreases |linked|
  {
    if linked != [] {
      var (who, announced) := linked[0];
      WelcomeAdds(if who in peers then peers else peers[who := Peer(who, announced, None, None, None, None)], linked[1..], id);
    }
  }

  /** Every reported peer is known afterwards, one that was not known before with the first key announced for it. */
  lemma {:induction false} WelcomeKnows(peers: map<DeviceId, Peer>, linked: seq<(DeviceId, Option<StaticKey>)>, i: nat)
    requires i < |linked|
    ensures var id, r := linked[i].0, Welcomed(peers, linked);
            && id in r
            && (id !in peers && (forall j :: 0 <= j < i ==> linked[j].0 != id) ==>
                  r[id] == Peer(id, linked[i].1, None, None, None, None))
    decreases |linked|
  {
    var (who, announced) := linked[0];
    var peers1 := if who in peers then peers else peers[who := Peer(who, announced, None, None, None, None)];
    if i == 0 {
      WelcomeAdds(peers1, linked[1..], who);
    } else {
      WelcomeKnows(peers1, linked[1..], i - 1);
      assert linked[0].0 == who;
      forall j | 0 <= j < i - 1 ensures linked[1..][j] == linked[j + 1] {}
    }
  }

  lemma EventSound(a: Account, act: Act, id: DeviceId)
    requires Sound(a) && EventOf(act).Some? && id in Touch(a, act).peers
    ensures SoundPeer(Touch(a, act), id) && PinsKept(a, Touch(a, act))
  {
    var (who, ev) := EventOf(act).value;
    if who in a.peers {
      var n := NodeOf(a, who);
      assert SoundPeer(a, who) && SoundPeer(a, id);
      Value.StepFixed(n, ev);
      Value.StepKeepsPending(n, ev);
      Value.StepAuthenticates(n, ev);
    }
  }

  lemma TouchSound(a: Account, act: Act, id: DeviceId)
    requires Sound(a) && id in Touch(a, act).peers
    ensures SoundPeer(Touch(a, act), id) && PinsKept(a, Touch(a, act))
  {
    if EventOf(act).Some? {
      EventSound(a, act, id);
    } else {
      if act.Welcome? { WelcomeAdds(a.peers, act.linked, id); }
      if id in a.peers { assert SoundPeer(a, id); }
    }
  }

  /** What one event does to the peer's slot is what the settling does to the channels. */
  lemma EventSlots(n: Value.Node, ev: Value.Event, p: Pairing)
    requires n.peer.waiter == if n.peer.id in p.first then Some(p.first[n.peer.id]) else None
    ensures var o := if ev.Handshake? then Value.OnHandshake(n, ev.m, ev.entropy, ev.now, ev.saved).outcome else None;
            var p' := AfterOp(p, OpFor(n.peer.id, o));
            && Value.Step(n, ev).peer.waiter == (if n.peer.id in p'.first then Some(p'.first[n.peer.id]) else None)
            && p'.first.Keys <= p.first.Keys
            && forall d :: d in p.first && d != n.peer.id ==> d in p'.first && p'.first[d] == p.first[d]
  {
  }

  lemma EventKeepsSlots(a: Account, act: Act, id: DeviceId)
    requires Sound(a) && EventOf(act).Some? && id in a.peers
    ensures id in Step(a, act).peers && SlotAgrees(Step(a, act), id)
  {
    var (who, ev) := EventOf(act).value;
    assert SlotAgrees(a, id);
    if who in a.peers {
      assert SoundPeer(a, who) && SlotAgrees(a, who);
      EventSlots(NodeOf(a, who), ev, a.pairing);
    }
  }

  lemma WaiterOpFirst(p: Pairing, op: WaiterOp)
    ensures Apply(p, op).first == p.first
  {
  }

  lemma LinkSlots(p: Pairing, act: Act)
    requires act.Link? && act.code in p.waiters
    ensures var p', w := Apply(p, Complete(act.code, act.peer, act.entropy.None?)), p.waiters[act.code];
            && p'.first.Keys <= p.first.Keys + {act.peer}
            && (LinkedPeer(act.peer, act.announced, w, act.entropy).waiter
                == if act.peer in p'.first then Some(p'.first[act.peer]) else None)
            && forall d :: d in p.first && d != act.peer ==> d in p'.first && p'.first[d] == p.first[d]
  {
  }

  lemma StepSlots(a: Account, act: Act, id: DeviceId)
    requires Sound(a) && id in Step(a, act).peers
    ensures SlotAgrees(Step(a, act), id)
  {
    if EventOf(act).Some? {
      EventKeepsSlots(a, act, id);
    } else {
      if id in a.peers { assert SlotAgrees(a, id); }
      if act.Welcome? {
        WelcomeAdds(a.peers, act.linked, id);
      } else if act.Waiters? {
        WaiterOpFirst(a.pairing, act.op);
      } else if act.code in a.pairing.waiters {
        LinkSlots(a.pairing, act);
      }
    }
  }

  lemma StepKnowsSlots(a: Account, act: Act)
    requires Sound(a)
    ensures Step(a, act).pairing.first.Keys <= Step(a, act).peers.Keys
  {
    if act.Welcome? {
      forall id | id in a.peers ensures id in Welcomed(a.peers, act.linked) { WelcomeAdds(a.peers, act.linked, id); }
    }
  }

  lemma StepSound(a: Account, act: Act)
    requires Sound(a)
    ensures Sound(Step(a, act)) && PinsKept(a, Step(a, act))
  {
    var a' := Step(a, act);
    forall id | id in a'.peers ensures SoundPeer(a', id) && SlotAgrees(a', id) {
      TouchSound(a, act, id);
      StepSlots(a, act, id);
    }
    StepKnowsSlots(a, act);
    StepPins(a, act);
    if OpOf(a, act).Some? { ApplyKeepsLinear(a.pairing, OpOf(a, act).value); }
  }

  lemma StepPins(a: Account, act: Act)
    ensures PinsKept(a, Step(a, act))
  {
    if EventOf(act).Some? && EventOf(act).value.0 in a.peers {
      Value.StepFixed(NodeOf(a, EventOf(act).value.0), EventOf(act).value.1);
    }
  }

  lemma StartSound(me: DeviceId, s: StaticKey, pins: Value.Pins)
    ensures Sound(Start(me, s, pins))
  {
  }

  /** Over every run of a client: no pin ever changes, no peer has an unauthenticated ready session, a peer's slot and
      the channels agree, and no channel is ever written twice. */
  lemma {:induction false} RunSound(a: Account, acts: seq<Act>)
    requires Sound(a)
    ensures Sound(Run(a, acts)) && PinsKept(a, Run(a, acts))
    decreases |acts|
  {
    if acts != [] {
      StepSound(a, acts[0]);
      RunSound(Step(a, acts[0]), acts[1..]);
    }
  }

  // ----- Make-before-break -----

  /** The act replaces the peer's connection by a newly linked one. */
  predicate Relinks(a: Account, act: Act, id: DeviceId)
  {
    act.Link? && act.peer == id && act.code in a.pairing.waiters
  }

  ghost predicate NeverRelinked(a: Account, acts: seq<Act>, id: DeviceId)
    decreases |acts|
  {
    acts != [] ==> !Relinks(a, acts[0], id) && NeverRelinked(Step(a, acts[0]), acts[1..], id)
  }

  predicate Ready(a: Account, id: DeviceId)
  {
    id in a.peers && Value.ActiveReady(NodeOf(a, id))
  }

  lemma QuietEvent(n: Value.Node, ev: Value.Event)
    requires Value.ActiveReady(n) && !ev.Handshake?
    ensures Value.ActiveReady(Value.Step(n, ev)) && Value.SameKeys(n, Value.Step(n, ev))
  {
  }

  /** A ready session survives an act if and only if the act does not link its peer anew, and its keys change only
      with a handshake envelope for that peer. */
  lemma ReadySurvives(a: Account, act: Act, id: DeviceId)
    requires Sound(a) && Ready(a, id)
    ensures Ready(Step(a, act), id) <==> !Relinks(a, act, id)
    ensures Ready(Step(a, act), id) && !(act.Envelope? && act.pick == id) ==>
              Value.SameKeys(NodeOf(a, id), NodeOf(Step(a, act), id))
  {
    assert SoundPeer(a, id);
    if act.Welcome? {
      WelcomeAdds(a.peers, act.linked, id);
    } else if EventOf(act).Some? && EventOf(act).value.0 == id {
      OwnAct(a, act, id);
      Value.StepMakeBeforeBreak(NodeOf(a, id), EventOf(act).value.1);
      if !act.Envelope? { QuietEvent(NodeOf(a, id), EventOf(act).value.1); }
    }
  }

  /** Make-before-break for the whole client: until its peer is linked anew, a ready session is replaced only by another
      ready one, and every one of them is authenticated under the pin that was there first. */
  lemma {:induction false} RunKeepsReady(a: Account, acts: seq<Act>, id: DeviceId)
    requires Sound(a) && Ready(a, id) && NeverRelinked(a, acts, id)
    ensures var a' := Run(a, acts);
            && Ready(a', id) && Value.Authenticated(NodeOf(a', id))
            && id in a.pins && id in a'.pins && a'.pins[id] == a.pins[id]
    decreases |acts|
  {
    assert SoundPeer(a, id);
    if acts != [] {
      StepSound(a, acts[0]);
      ReadySurvives(a, acts[0], id);
      RunKeepsReady(Step(a, acts[0]), acts[1..], id);
    }
  }

  // ----- Peers do not interfere -----

  /** The two nodes differ at most in pins for other devices. */
  predicate Alike(n: Value.Node, n': Value.Node)
  {
    && n'.me == n.me && n'.s == n.s && n'.peer == n.peer
    && (n.peer.id in n.pins <==> n.peer.id in n'.pins)
    && (n.peer.id in n.pins ==> n'.pins[n.peer.id] == n.pins[n.peer.id])
  }

  lemma AlikeTransitive(n: Value.Node, n1: Value.Node, n2: Value.Node)
    requires Alike(n, n1) && Alike(n1, n2)
    ensures Alike(n, n2)
  {
  }

  lemma AfterFeedAlike(n: Value.Node, n': Value.Node, fed: Fed, saved: bool)
    requires Alike(n, n') && fed.peer.id == n.peer.id
    ensures Alike(Value.AfterFeed(n, fed, saved).node, Value.AfterFeed(n', fed, saved).node)
  {
  }

  lemma StepAlike(n: Value.Node, n': Value.Node, ev: Value.Event)
    requires Alike(n, n')
    ensures Alike(Value.Step(n, ev), Value.Step(n', ev))
  {
    if ev.Handshake? {
      Value.FeedKeepsActive(n.peer, n.s, ev.m, ev.entropy, ev.now);
      AfterFeedAlike(n, n', Feed(n.peer, n.s, ev.m, ev.entropy, ev.now), ev.saved);
    }
  }

  /** An event writes no pin but its peer's. */
  lemma StepPinsOnlyPeer(n: Value.Node, ev: Value.Event, id: DeviceId)
    requires id != n.peer.id
    ensures var pins := Value.Step(n, ev).pins;
            (id in pins <==> id in n.pins) && (id in n.pins ==> pins[id] == n.pins[id])
  {
    if ev.Handshake? {
      Value.FeedKeepsActive(n.peer, n.s, ev.m, ev.entropy, ev.now);
    }
  }

  /** The events of one peer. */
  function EventsOf(acts: seq<Act>, id: DeviceId): (evs: seq<Value.Event>)
    decreases |acts|
  {
    if acts == [] then []
    else
      var rest := EventsOf(acts[1..], id);
      if EventOf(acts[0]).Some? && EventOf(acts[0]).value.0 == id then [EventOf(acts[0]).value.1] + rest else rest
  }

  lemma OtherActAlike(a: Account, act: Act, id: DeviceId)
    requires Sound(a) && id in a.peers && !Relinks(a, act, id)
    requires EventOf(act).Some? ==> EventOf(act).value.0 != id
    ensures id in Step(a, act).peers && Alike(NodeOf(a, id), NodeOf(Step(a, act), id))
  {
    assert SoundPeer(a, id);
    if act.Welcome? {
      WelcomeAdds(a.peers, act.linked, id);
    } else if EventOf(act).Some? {
      var (who, ev) := EventOf(act).value;
      if who in a.peers {
        assert SoundPeer(a, who);
        StepPinsOnlyPeer(NodeOf(a, who), ev, id);
      }
    }
  }

  /** Whatever else the client does, a peer that is not linked anew goes through exactly its own events. */
  lemma {:induction false} RunProjects(a: Account, acts: seq<Act>, id: DeviceId, n: Value.Node)
    requires Sound(a) && id in a.peers && NeverRelinked(a, acts, id) && Alike(n, NodeOf(a, id))
    ensures id in Run(a, acts).peers && Alike(Value.Run(n, EventsOf(acts, id)), NodeOf(Run(a, acts), id))
    decreases |acts|
  {
    if acts != [] {
      var act, rest := acts[0], EventsOf(acts[1..], id);
      StepSound(a, act);
      if EventOf(act).Some? && EventOf(act).value.0 == id {
        var ev := EventOf(act).value.1;
        OwnActAlike(a, act, id, n);
        assert ([ev] + rest)[0] == ev && ([ev] + rest)[1..] == rest;
        RunProjects(Step(a, act), acts[1..], id, Value.Step(n, ev));
      } else {
        OtherActAlike(a, act, id);
        AlikeTransitive(n, NodeOf(a, id), NodeOf(Step(a, act), id));
        RunProjects(Step(a, act), acts[1..], id, n);
      }
    }
  }

  lemma OwnActAlike(a: Account, act: Act, id: DeviceId, n: Value.Node)
    requires id in a.peers && EventOf(act).Some? && EventOf(act).value.0 == id && Alike(n, NodeOf(a, id))
    ensures id in Step(a, act).peers && Alike(Value.Step(n, EventOf(act).value.1), NodeOf(Step(a, act), id))
  {
    var ev := EventOf(act).value.1;
    OwnAct(a, act, id);
    StepAlike(n, NodeOf(a, id), ev);
    Value.StepFixed(NodeOf(a, id), ev);
  }

  // ----- The channels of a run -----

  ghost function OpsOf(a: Account, acts: seq<Act>): (ops: seq<Op>)
    decreases |acts|
  {
    if acts == [] then [] else Ops(OpOf(a, acts[0])) + OpsOf(Step(a, acts[0]), acts[1..])
  }

  /** The channels of a run are what the pairing operations in it make of them. */
  lemma {:induction false} RunPairs(a: Account, acts: seq<Act>)
    ensures Run(a, acts).pairing == ApplyAll(a.pairing, OpsOf(a, acts))
    decreases |acts|
  {
    if acts != [] {
      var op, rest := OpOf(a, acts[0]), OpsOf(Step(a, acts[0]), acts[1..]);
      RunPairs(Step(a, acts[0]), acts[1..]);
      if op.Some? {
        assert ([op.value] + rest)[0] == op.value && ([op.value] + rest)[1..] == rest;
      } else {
        assert [] + rest == rest;
      }
    }
  }

  /** A result channel that neither a waiter nor a slot holds is never written again, whatever the client does. */
  lemma RunLeavesRetired(a: Account, acts: seq<Act>, ch: ChanId)
    requires Sound(a) && Retired(a.pairing, ch)
    ensures var p := Run(a, acts).pairing; ch in p.sent && p.sent[ch] == a.pairing.sent[ch]
  {
    RunPairs(a, acts);
    NoLateResult(a.pairing, OpsOf(a, acts), ch);
  }
}
