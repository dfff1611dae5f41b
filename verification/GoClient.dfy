/**
 The Go SDK's Client as an object (sdk/go/client.go, sdk/go/peerstore.go): its maps, its
 outgoing queue, and the handlers of the read loop. Each handler is proved against the value
 functions of GoNode (sessions and pins) and GoPairing (result channels), and any sequence of
 calls against GoAccount.
 */
module GoClient {
  import opened Core
  import opened GoNoise
  import opened GoPeer
  import Value = GoNode
  import opened GoPairing
  import Whole = GoAccount

  datatype OutFrame =
    | HandshakeOut(m: HsMsg)
    | TransportOut(k: Packet)
    | PairRequestOut
    | PairAcceptOut(code: string)

  /** The capacity of the channel that hands payloads to the application. */
  const MESSAGE_BUFFER := 64

  function WithHandshake(sends: seq<OutFrame>, reply: Option<HsMsg>): seq<OutFrame>
  {
    if reply.Some? then sends + [HandshakeOut(reply.value)] else sends
  }

  /** What is sent when a peer is linked: the accepting side's first message, if it could be made. */
  function FirstMessage(w: Waiter, entropy: Option<Eph>): seq<OutFrame>
  {
    if w.weAreAcceptor && entropy.Some? then [HandshakeOut(Msg1(entropy.value))] else []
  }

  /** The result channels after a handshake envelope with that outcome. */
  ghost function PairingAfter(p: Pairing, id: DeviceId, o: Option<Value.Outcome>): Pairing
  {
    Whole.AfterOp(p, Whole.OpFor(id, o))
  }

  lemma PairingAfterKeepsLinear(p: Pairing, id: DeviceId, o: Option<Value.Outcome>)
    requires Linear(p)
    ensures Linear(PairingAfter(p, id, o))
  {
    if o.Some? {
      ApplyKeepsLinear(p, Whole.OpFor(id, o).value);
    }
  }

  class PeerStore {
    var pins: map<DeviceId, StaticKey>

    constructor (pins: map<DeviceId, StaticKey>)
      ensures this.pins == pins
    {
      this.pins := pins;
    }

    /** `saved` is whether the store could be written to disk. */
    method PinOrVerify(id: DeviceId, key: StaticKey, saved: bool) returns (ok: bool)
      modifies this
      ensures Value.Pinned(pins, ok) == Value.PinOrVerify(old(pins), id, key, saved)
    {
      if id in pins {
        return pins[id] == key;
      }
      pins := pins[id := key];
      return saved;
    }
  }

  class Client {
    const me: DeviceId
    const s: StaticKey
    const store: PeerStore
    var peers: map<DeviceId, PeerConn>
    var waiters: map<string, Waiter>
    var sent: map<ChanId, seq<PairResult>>
    var made: ChanId
    var sends: seq<OutFrame>
    var messages: seq<(DeviceId, Payload)>

    /** The filled first-pair slots of the linked peers. */
    ghost var slots: map<DeviceId, ChanId>

    /** The peer that each session was made for. */
    ghost var owner: map<NoiseSession, DeviceId>

    ghost function PairView(): (p: Pairing)
      reads this`waiters, this`slots, this`sent, this`made
    {
      Pairing(waiters, slots, sent, made)
    }

    /** Every entry of the peer map is stored under its own identifier, and `slots` is what it says. */
    ghost predicate Indexed()
      reads this`peers, this`slots, peers.Values
    {
      && (forall id :: id in peers ==>
            && peers[id].id == id
            && peers[id].firstPairWaiter == if id in slots then Some(slots[id]) else None)
      && slots.Keys <= peers.Keys
    }

    ghost predicate OwnedBy(id: DeviceId)
      requires id in peers
      reads this`peers, this`owner, peers[id]
    {
      && (peers[id].active != null ==> peers[id].active in owner && owner[peers[id].active] == id)
      && (peers[id].pending != null ==> peers[id].pending in owner && owner[peers[id].pending] == id)
    }

    /** No two peers share a session. */
    ghost predicate Owned()
      reads this`peers, this`owner, peers.Values
    {
      forall id :: id in peers ==> OwnedBy(id)
    }

    /** The objects are in order. */
    ghost predicate Tidy()
      reads this`peers, this`slots, this`owner, peers.Values, owner.Keys
    {
      Indexed() && Owned() && forall id :: id in peers ==> Usable(id)
    }

    /** Everything that holds between two calls. */
    ghost predicate Valid()
      reads this, peers.Values, owner.Keys
    {
      Tidy() && Linear(PairView())
    }

    ghost function Sessions(): set<NoiseSession>
      reads this`peers, peers.Values
    {
      (set id | id in peers && peers[id].active != null :: peers[id].active as NoiseSession)
      + (set id | id in peers && peers[id].pending != null :: peers[id].pending as NoiseSession)
    }

    ghost function Views(): (r: map<DeviceId, Peer>)
      reads this`peers, peers.Values, Sessions()
    {
      map id | id in peers :: peers[id].View()
    }

    /** The client as a value. */
    ghost function View(): (a: Whole.Account)
      reads this, store, peers.Values, Sessions()
    {
      Whole.Account(me, s, Views(), store.pins, PairView())
    }

    /** Writing to the channel in this peer's first-pair slot does not block. */
    ghost predicate SlotFree(id: DeviceId)
      reads this`slots, this`sent
    {
      id in slots ==> slots[id] in sent && sent[slots[id]] == []
    }

    ghost predicate Usable(id: DeviceId)
      requires id in peers
      reads this`peers, peers[id], peers[id].active, peers[id].pending
    {
      peers[id].Valid() && peers[id].Owns(s)
    }

    ghost function NodeView(id: DeviceId): (n: Value.Node)
      requires id in peers
      reads this`peers, peers[id], peers[id].active, peers[id].pending, store
    {
      Value.Node(me, s, peers[id].View(), store.pins)
    }

    constructor (me: DeviceId, s: StaticKey, store: PeerStore)
      ensures Valid() && peers == map[] && PairView() == NO_PAIRING && sends == [] && messages == [] && owner == map[]
      ensures this.me == me && this.s == s && this.store == store
    {
      this.me, this.s, this.store := me, s, store;
      peers, waiters, sent, made, sends, messages, slots, owner := map[], map[], map[], 0, [], [], map[], map[];
    }

    /** Write a result to a channel of capacity one. The precondition is that the write does not block. */
    method Deliver(ch: ChanId, r: PairResult)
      requires ch in sent && sent[ch] == []
      modifies this`sent
      ensures sent == old(sent)[ch := old(sent)[ch] + [r]]
    {
      sent := sent[ch := sent[ch] + [r]];
    }

    method AddWaiter(key: string, acceptor: bool) returns (ch: ChanId)
      requires Valid()
      modifies this`waiters, this`sent, this`made
      ensures Valid() && PairView() == Register(old(PairView()), key, acceptor) && ch == old(made)
    {
      RegisterKeepsLinear(PairView(), key, acceptor);
      ch := made;
      waiters := waiters[key := Waiter(ch, acceptor)];
      sent := sent[ch := []];
      made := made + 1;
    }

    /** RequestPairCode up to the point where it waits for the code. */
    method BeginRequest() returns (ch: ChanId)
      requires Valid()
      modifies this`waiters, this`sent, this`made, this`sends
      ensures Valid() && PairView() == Apply(old(PairView()), Request)
      ensures sends == old(sends) + [PairRequestOut]
    {
      ch := AddWaiter(REQUEST_KEY, false);
      sends := sends + [PairRequestOut];
    }

    /** RequestPairCode once the code has arrived: wait for the peer under that code. */
    method EndRequest(code: string) returns (ch: ChanId)
      requires Valid()
      modifies this`waiters, this`sent, this`made
      ensures Valid() && PairView() == Apply(old(PairView()), AwaitCode(code))
    {
      ch := AddWaiter(code, false);
    }

    method AcceptPair(code: string) returns (ch: ChanId)
      requires Valid()
      modifies this`waiters, this`sent, this`made, this`sends
      ensures Valid() && PairView() == Apply(old(PairView()), Accept(code))
      ensures sends == old(sends) + [PairAcceptOut(code)]
    {
      ch := AddWaiter(code, true);
      sends := sends + [PairAcceptOut(code)];
    }

    method RemovePairWaiter(key: string)
      requires Valid()
      modifies this`waiters
      ensures Valid() && PairView() == Apply(old(PairView()), Forget(key))
    {
      ApplyKeepsLinear(PairView(), Forget(key));
      waiters := waiters - {key};
    }

    method HandlePairCode(code: string, expiresIn: int)
      requires Valid()
      modifies this`waiters, this`sent
      ensures Valid() && PairView() == Apply(old(PairView()), CodeArrived(code, expiresIn))
    {
      ApplyKeepsLinear(PairView(), CodeArrived(code, expiresIn));
      if REQUEST_KEY in waiters {
        var w := waiters[REQUEST_KEY];
        assert PairView().waiters[REQUEST_KEY] == w;
        waiters := waiters - {REQUEST_KEY};
        Deliver(w.ch, GotCode(code, expiresIn));
      }
    }

    /** The first half of handlePairComplete: move the waiter's channel to a new peer's first-pair slot. */
    method Link(code: string, peerId: DeviceId, announced: Option<StaticKey>) returns (peer: PeerConn)
      requires Indexed() && code in waiters
      modifies this`waiters, this`peers, this`slots
      ensures Indexed()
      ensures PairView() == DropWaiter(old(PairView()), code).(first := old(slots)[peerId := old(waiters)[code].ch])
      ensures fresh(peer) && peers == old(peers)[peerId := peer] && peer.Valid()
      ensures peer.View() == Peer(peerId, announced, None, None, Some(old(waiters)[code].ch), None)
      ensures peer.active == null && peer.pending == null
    {
      var w := waiters[code];
      waiters := waiters - {code};
      peer := new PeerConn(peerId, announced);
      peer.SetFirstPairWaiter(w.ch);
      peers := peers[peerId := peer];
      slots := slots[peerId := w.ch];
    }

    /** Take the peer's first-pair slot, if it is filled, and write the result. */
    method NotifyFirst(peer: PeerConn, r: PairResult)
      requires Indexed() && peer.id in peers && peers[peer.id] == peer && peer.Valid() && SlotFree(peer.id)
      modifies peer`firstPairWaiter, this`slots, this`sent
      ensures Indexed() && PairView() == Notify(old(PairView()), peer.id, r)
      ensures peer.Valid() && peer.View() == old(peer.View()).(waiter := None)
    {
      var ch := peer.TakeFirstPairWaiter();
      if ch.Some? {
        slots := slots - {peer.id};
        Deliver(ch.value, r);
      }
      assert PairView() == Notify(old(PairView()), peer.id, r);
    }

    /** handlePairComplete for a waiter that exists: link the peer; the accepting side also starts the first handshake. */
    method LinkPeer(code: string, peerId: DeviceId, announced: Option<StaticKey>, entropy: Option<Eph>)
      requires Indexed() && code in waiters && waiters[code].ch in sent && sent[waiters[code].ch] == []
      modifies this`waiters, this`sent, this`peers, this`sends, this`slots
      ensures Indexed() && PairView() == Apply(old(PairView()), Complete(code, peerId, entropy.None?))
      ensures peerId in peers && peers == old(peers)[peerId := peers[peerId]] && fresh(peers[peerId]) && Usable(peerId)
      ensures peers[peerId].pending == null && (peers[peerId].active != null ==> fresh(peers[peerId].active))
      ensures peers[peerId].View() == Whole.LinkedPeer(peerId, announced, old(waiters)[code], entropy)
      ensures sends == old(sends) + FirstMessage(old(waiters)[code], entropy)
    {
      var w := waiters[code];
      var peer := Link(code, peerId, announced);
      if w.weAreAcceptor {
        StartFirst(peer, entropy);
      }
    }

    /** The accepting half of handlePairComplete: start the first handshake or report that it cannot start. */
    method StartFirst(peer: PeerConn, entropy: Option<Eph>)
      requires Indexed() && peer.id in peers && peers[peer.id] == peer && Usable(peer.id) && SlotFree(peer.id)
      requires peer.active == null && peer.pending == null
      modifies peer`active, peer`firstPairWaiter, this`sends, this`slots, this`sent
      ensures Indexed() && Usable(peer.id)
      ensures PairView() == if entropy.None? then Notify(old(PairView()), peer.id, PairError(StartFailed)) else old(PairView())
      ensures peer.View() == if entropy.None? then old(peer.View()).(waiter := None)
                             else old(peer.View()).(active := Some(AwaitMsg2(entropy.value)))
      ensures sends == old(sends) + if entropy.Some? then [HandshakeOut(Msg1(entropy.value))] else []
      ensures peer.active != null ==> fresh(peer.active)
    {
      var msg1 := peer.StartAsInitiator(s, entropy);
      if msg1.None? {
        NotifyFirst(peer, PairError(StartFailed));
        return;
      }
      sends := sends + [HandshakeOut(msg1.value)];
    }

    /** verifyAndPin, and marking a session failed that does not pass it. */
    method VerifySession(peer: PeerConn, session: NoiseSession, saved: bool) returns (verdict: Value.Verdict)
      requires session.Valid() && session.Ready()
      modifies store, session
      ensures var key := old(session.View()).PeerStatic();
              var v := Value.VerifyAndPin(Value.Node(me, s, old(peer.View()), old(store.pins)), key, saved);
              && store.pins == v.pins && verdict == (if v.ok then Value.Good(key) else Value.BadKey)
              && session.Valid() && session.hs == old(session.hs)
              && session.View() == (if v.ok then old(session.View()) else Dead)
    {
      var authenticated := session.peerStatic.value;
      var ok := store.PinOrVerify(peer.id, authenticated, saved);
      if ok && (peer.announcedStaticKey.None? || peer.announcedStaticKey.value == authenticated) {
        return Value.Good(authenticated);
      }
      session.Fail();
      return Value.BadKey;
    }

    /** The end of resolveHandshake: promote or abandon, then tell the first-pair waiter. */
    method SettleHandshake(peer: PeerConn, session: NoiseSession, wasPending: bool, result: PairResult)
      requires Indexed() && peer.id in peers && peers[peer.id] == peer && Usable(peer.id) && SlotFree(peer.id)
      requires session == (if wasPending then peer.pending else peer.active)
      modifies this`slots, this`sent, peer
      ensures Indexed() && Usable(peer.id)
      ensures peer.View() == Value.Settle(old(peer.View()), wasPending, !result.PairError?)
      ensures PairView() == Apply(old(PairView()), Settled(peer.id, wasPending, result))
      ensures peer.active in {old(peer.active), session} && peer.pending in {old(peer.pending), null}
    {
      if wasPending {
        if result.PairError? {
          peer.AbandonSession(session);
          return;
        }
        peer.PromoteSession(session);
      }
      NotifyFirst(peer, result);
    }

    /** The first half of handleHandshakeEnvelope: feed the peer's session and queue its reply. */
    method FeedPeer(pick: DeviceId, data: HsMsg, entropy: Option<Eph>, now: int)
      returns (reply: Option<HsMsg>, completed: NoiseSession?, wasPending: bool, err: bool)
      requires Indexed() && pick in peers && Usable(pick)
      modifies this`sends, peers[pick], peers[pick].active, peers[pick].pending
      ensures Indexed() && Usable(pick) && PairView() == old(PairView())
      ensures Fed(peers[pick].View(), reply, completed != null, wasPending, err)
              == Feed(old(peers[pick].View()), s, data, entropy, now)
      ensures sends == WithHandshake(old(sends), reply)
      ensures completed != null ==>
                && completed == (if wasPending then peers[pick].pending else peers[pick].active)
                && (err || completed.Ready())
      ensures peers[pick].active == old(peers[pick].active) || fresh(peers[pick].active)
      ensures peers[pick].pending == old(peers[pick].pending) || fresh(peers[pick].pending)
    {
      reply, completed, wasPending, err := peers[pick].HandleHandshakeEnvelope(s, data, entropy, now);
      QueueReply(reply);
    }

    method QueueReply(reply: Option<HsMsg>)
      modifies this`sends
      ensures sends == WithHandshake(old(sends), reply)
    {
      if reply.Some? {
        sends := sends + [HandshakeOut(reply.value)];
      }
    }

    /** The first half of resolveHandshake. */
    method JudgeSession(peer: PeerConn, session: NoiseSession, wasPending: bool, err: bool, saved: bool)
      returns (verdict: Value.Verdict)
      requires peer.Valid() && peer.Owns(s) && (err || session.Ready())
      requires session == (if wasPending then peer.pending else peer.active)
      modifies store, session
      ensures peer.Valid() && peer.Owns(s)
      ensures Value.Judged(Value.Node(me, s, peer.View(), store.pins), verdict)
              == Value.Judge(Value.Node(me, s, old(peer.View()), old(store.pins)), old(session.View()), wasPending, err, saved)
    {
      verdict := Value.BadHandshake;
      if !err {
        verdict := VerifySession(peer, session, saved);
      }
    }

    /** resolveHandshake. */
    method ResolveHandshake(peer: PeerConn, session: NoiseSession, wasPending: bool, err: bool, saved: bool)
      returns (verdict: Value.Verdict)
      requires Indexed() && peer.id in peers && peers[peer.id] == peer && Usable(peer.id) && SlotFree(peer.id)
      requires session == (if wasPending then peer.pending else peer.active) && (err || session.Ready())
      modifies this`slots, this`sent, store, peer, session
      ensures Indexed() && Usable(peer.id)
      ensures var j := Value.Judge(old(NodeView(peer.id)), old(session.View()), wasPending, err, saved);
              && verdict == j.verdict
              && NodeView(peer.id) == j.node.(peer := Value.Settle(j.node.peer, wasPending, verdict.Good?))
      ensures PairView() == PairingAfter(old(PairView()), peer.id, Some(Value.Outcome(wasPending, verdict)))
      ensures peer.active in {old(peer.active), session} && peer.pending in {old(peer.pending), null}
    {
      verdict := JudgeSession(peer, session, wasPending, err, saved);
      SettleHandshake(peer, session, wasPending, Whole.ResultFor(peer.id, verdict));
    }

    /** Feed the picked peer's session and resolve it if it finished. */
    method FeedAndResolve(pick: DeviceId, data: HsMsg, entropy: Option<Eph>, now: int, saved: bool)
      returns (outcome: Option<Value.Outcome>)
      requires Indexed() && pick in peers && Usable(pick) && SlotFree(pick)
      modifies this`slots, this`sent, this`sends, store, peers[pick], peers[pick].active, peers[pick].pending
      ensures Indexed() && Usable(pick) && peers[pick].Renewed()
      ensures var out := Value.OnHandshake(old(NodeView(pick)), data, entropy, now, saved);
              NodeView(pick) == out.node && sends == WithHandshake(old(sends), out.reply) && outcome == out.outcome
      ensures PairView() == PairingAfter(old(PairView()), pick, outcome)
    {
      ghost var n := NodeView(pick);
      ghost var x, y := peers[pick].active, peers[pick].pending;
      var reply, completed, wasPending, err := FeedPeer(pick, data, entropy, now);
      assert completed in {null, x, y} || fresh(completed);
      outcome := ResolveFed(pick, reply, completed, wasPending, err, saved, n);
    }

    /** The second half of handleHandshakeEnvelope, for a node that was `n` before it was fed. */
    method ResolveFed(pick: DeviceId, reply: Option<HsMsg>, completed: NoiseSession?, wasPending: bool, err: bool,
                      saved: bool, ghost n: Value.Node)
      returns (outcome: Option<Value.Outcome>)
      requires Indexed() && pick in peers && Usable(pick) && SlotFree(pick)
      requires NodeView(pick) == n.(peer := peers[pick].View())
      requires completed != null ==>
                 && completed == (if wasPending then peers[pick].pending else peers[pick].active)
                 && (err || completed.Ready())
      modifies this`slots, this`sent, store, peers[pick], completed
      ensures Indexed() && Usable(pick)
      ensures var out := Value.AfterFeed(n, Fed(old(peers[pick].View()), reply, completed != null, wasPending, err), saved);
              NodeView(pick) == out.node && reply == out.reply && outcome == out.outcome
      ensures PairView() == PairingAfter(old(PairView()), pick, outcome)
      ensures peers[pick].active == old(peers[pick].active) || peers[pick].active == old(peers[pick].pending)
      ensures peers[pick].pending == old(peers[pick].pending) || peers[pick].pending == null
    {
      outcome := None;
      if completed != null {
        var verdict := ResolveHandshake(peers[pick], completed, wasPending, err, saved);
        outcome := Some(Value.Outcome(wasPending, verdict));
      }
    }

    /** Start a replacement handshake with a known peer that is to be re-initiated. */
    method StartRekey(about: DeviceId, entropy: Option<Eph>)
      requires Indexed() && about in peers && Usable(about) && StringLess(me, about)
      modifies this`sends, peers[about]
      ensures Indexed() && Usable(about) && peers[about].Renewed()
      ensures var out := Value.OnPeerStatus(old(NodeView(about)), about, true, entropy);
              NodeView(about) == out.node && sends == WithHandshake(old(sends), out.reply)
    {
      var msg1 := peers[about].StartRekeyAsInitiator(s, entropy);
      if msg1.Some? {
        sends := sends + [HandshakeOut(msg1.value)];
      }
    }

    /** The loop of handleError. The iteration order over the map is arbitrary. */
    method TellAll(reason: Reason, ghost p: Pairing)
      requires PairView() == p && Linear(p)
      modifies this`waiters, this`sent
      ensures waiters == map[] && Told(p, map[], sent, reason)
    {
      while waiters.Keys != {}
        invariant Told(p, waiters, sent, reason)
        decreases waiters.Keys
      {
        var k :| k in waiters.Keys;
        TellOne(p, waiters, sent, reason, k);
        ghost var before := waiters.Keys;
        Deliver(waiters[k].ch, PairError(reason));
        waiters := waiters - {k};
        assert k in before && k !in waiters.Keys;
      }
      assert waiters == map[];
    }

    /** handleError: every waiter is told and forgotten. */
    method HandleError(reason: Reason)
      requires Valid()
      modifies this`waiters, this`sent
      ensures Valid() && PairView() == Apply(old(PairView()), Fail(reason))
    {
      ghost var p := PairView();
      TellAll(reason, p);
      AllTold(p, sent, reason);
      ApplyKeepsLinear(p, Fail(reason));
    }

    // ----- The objects of one peer change, the others stay -----

    /** The peers and sessions of before, and new ones. */
    twostate predicate Grown(peers0: map<DeviceId, PeerConn>, owner0: map<NoiseSession, DeviceId>)
      reads this`peers, this`owner
    {
      && (forall id :: id in peers ==> (id in peers0 && peers[id] == peers0[id]) || fresh(peers[id]))
      && (forall x :: x in owner ==> x in owner0 || fresh(x))
    }

    /** Every other peer, and every session of another peer, is as it was. */
    twostate predicate OnlyTouched(id: DeviceId)
      requires id in peers
      reads this`peers, this`owner, peers.Values, owner.Keys
    {
      && peers == old(peers)[id := peers[id]] && owner == old(owner)
      && (forall j :: j in peers && j != id ==> unchanged(peers[j]))
      && (forall x :: x in owner && owner[x] != id ==> unchanged(x))
    }

    /** Only this peer's sessions may still have to be recorded. */
    ghost predicate TidyBut(id: DeviceId)
      requires id in peers
      reads this`peers, this`slots, this`owner, peers.Values, owner.Keys, peers[id].active, peers[id].pending
    {
      && Indexed() && Usable(id)
      && (forall j :: j in peers && j != id ==> OwnedBy(j) && Usable(j))
      && (peers[id].active in owner ==> owner[peers[id].active] == id)
      && (peers[id].pending in owner ==> owner[peers[id].pending] == id)
    }

    /** No other peer's value has changed. */
    twostate predicate OthersSame(id: DeviceId)
      reads this`peers, peers.Values, Sessions()
    {
      forall j :: j in old(peers) && j != id ==> j in peers && peers[j].View() == old(peers[j].View())
    }

    twostate lemma OthersKept(id: DeviceId)
      requires old(Tidy()) && id in peers && OnlyTouched(id)
      ensures forall j :: j in peers && j != id ==> OwnedBy(j) && Usable(j) && peers[j].View() == old(peers[j].View())
    {
      forall j | j in peers && j != id ensures OwnedBy(j) && Usable(j) && peers[j].View() == old(peers[j].View()) {
        assert old(OwnedBy(j)) && old(Usable(j)) && unchanged(peers[j]);
      }
    }

    /** A peer that was known has changed. */
    twostate lemma PeerChanged(id: DeviceId)
      requires old(Tidy()) && Indexed() && id in old(peers) && id in peers && peers == old(peers)
      requires OnlyTouched(id) && peers[id].Renewed() && Usable(id)
      ensures TidyBut(id) && OthersSame(id)
    {
      OthersKept(id);
      assert old(OwnedBy(id));
    }

    ghost function Recorded(o: map<NoiseSession, DeviceId>, x: NoiseSession?, id: DeviceId): map<NoiseSession, DeviceId>
    {
      if x == null then o else o[x := id]
    }

    /** Record whose sessions the peer's are. */
    ghost method Adopt(id: DeviceId)
      requires id in peers && TidyBut(id)
      modifies this`owner
      ensures Tidy() && NodeView(id) == old(NodeView(id)) && forall j :: j in peers ==> peers[j].View() == old(peers[j].View())
      ensures forall x :: x in owner ==> x in old(owner) || x == peers[id].active || x == peers[id].pending
    {
      var x, y := peers[id].active, peers[id].pending;
      owner := Recorded(Recorded(owner, x, id), y, id);
      forall j | j in peers ensures OwnedBy(j) && Usable(j) {}
    }

    // ----- The handlers -----

    method TouchEnvelope(pick: DeviceId, data: HsMsg, entropy: Option<Eph>, now: int, saved: bool)
      returns (outcome: Option<Value.Outcome>)
      requires Tidy() && pick in peers && SlotFree(pick)
      modifies this`slots, this`sent, this`sends, store, peers[pick], peers[pick].active, peers[pick].pending
      ensures TidyBut(pick) && OthersSame(pick) && peers[pick].Renewed()
      ensures var out := Value.OnHandshake(old(NodeView(pick)), data, entropy, now, saved);
              NodeView(pick) == out.node && sends == WithHandshake(old(sends), out.reply) && outcome == out.outcome
      ensures PairView() == PairingAfter(old(PairView()), pick, outcome)
    {
      assert OwnedBy(pick);
      outcome := FeedAndResolve(pick, data, entropy, now, saved);
      PeerChanged(pick);
    }

    method TidyEnvelope(pick: DeviceId, data: HsMsg, entropy: Option<Eph>, now: int, saved: bool)
      returns (outcome: Option<Value.Outcome>)
      requires Tidy() && pick in peers && SlotFree(pick)
      modifies this`slots, this`sent, this`sends, this`owner, store, peers[pick], peers[pick].active, peers[pick].pending
      ensures Tidy() && OthersSame(pick) && Grown(peers, old(owner))
      ensures var out := Value.OnHandshake(old(NodeView(pick)), data, entropy, now, saved);
              NodeView(pick) == out.node && sends == WithHandshake(old(sends), out.reply) && outcome == out.outcome
      ensures PairView() == PairingAfter(old(PairView()), pick, outcome)
    {
      assert OwnedBy(pick);
      outcome := TouchEnvelope(pick, data, entropy, now, saved);
      Adopt(pick);
    }

    /** handleHandshakeEnvelope for the peer that getSolePeer picks; any entry of the map may be picked. */
    method HandleHandshakeEnvelope(pick: DeviceId, data: HsMsg, entropy: Option<Eph>, now: int, saved: bool)
      returns (outcome: Option<Value.Outcome>)
      requires Valid() && pick in peers
      modifies this`slots, this`sent, this`sends, this`owner, store, peers[pick], peers[pick].active, peers[pick].pending
      ensures Valid() && OthersSame(pick) && Grown(peers, old(owner))
      ensures var out := Value.OnHandshake(old(NodeView(pick)), data, entropy, now, saved);
              NodeView(pick) == out.node && sends == WithHandshake(old(sends), out.reply) && outcome == out.outcome
      ensures PairView() == PairingAfter(old(PairView()), pick, outcome)
    {
      ghost var p := PairView();
      assert SlotFree(pick) by {
        assert pick in slots ==> p.first[pick] == slots[pick];
      }
      outcome := TidyEnvelope(pick, data, entropy, now, saved);
      PairingAfterKeepsLinear(p, pick, outcome);
    }

    method TouchStatus(about: DeviceId, entropy: Option<Eph>)
      requires Tidy() && about in peers && StringLess(me, about)
      modifies this`sends, peers[about]
      ensures TidyBut(about) && OthersSame(about) && peers[about].Renewed()
      ensures var out := Value.OnPeerStatus(old(NodeView(about)), about, true, entropy);
              NodeView(about) == out.node && sends == WithHandshake(old(sends), out.reply)
    {
      StartRekey(about, entropy);
      PeerChanged(about);
    }

    /** handlePeerStatus. */
    method HandlePeerStatus(about: DeviceId, online: bool, entropy: Option<Eph>)
      requires Valid()
      modifies this`sends, this`owner, if about in peers then {peers[about]} else {}
      ensures Valid() && PairView() == old(PairView()) && OthersSame(about) && Grown(peers, old(owner))
      ensures about !in peers ==> sends == old(sends)
      ensures about in peers ==>
                var out := Value.OnPeerStatus(old(NodeView(about)), about, online, entropy);
                NodeView(about) == out.node && sends == WithHandshake(old(sends), out.reply)
    {
      if !online || about !in peers || me == about || !StringLess(me, about) {
        StringLessTrichotomy(me, about);
        return;
      }
      TouchStatus(about, entropy);
      Adopt(about);
    }

    method Open(pick: DeviceId, k: Packet) returns (p: Option<Payload>)
      requires Valid() && pick in peers
      modifies peers[pick].active
      ensures Valid() && PairView() == old(PairView()) && OthersSame(pick)
      ensures (NodeView(pick), p) == Value.OnTransport(old(NodeView(pick)), k)
    {
      assert OwnedBy(pick);
      p := peers[pick].Recv(k);
      PeerChanged(pick);
    }

    /** handleTransportEnvelope: the payload is dropped when the application's buffer is full. */
    method HandleTransportEnvelope(pick: DeviceId, k: Packet)
      requires Valid() && pick in peers
      modifies this`messages, peers[pick].active
      ensures Valid() && PairView() == old(PairView()) && OthersSame(pick)
      ensures var out := Value.OnTransport(old(NodeView(pick)), k);
              && NodeView(pick) == out.0
              && messages == if out.1.Some? && |old(messages)| < MESSAGE_BUFFER
                             then old(messages) + [(pick, out.1.value)] else old(messages)
    {
      var p := Open(pick, k);
      if p.Some? && |messages| < MESSAGE_BUFFER {
        messages := messages + [(pick, p.value)];
      }
    }

    /** The first half of Send: encrypt under the peer's active session. */
    method Seal(id: DeviceId, payload: Payload) returns (k: Option<Packet>)
      requires Valid() && id in peers
      modifies peers[id].active
      ensures Valid() && PairView() == old(PairView()) && OthersSame(id)
      ensures (NodeView(id), k) == Value.OnSend(old(NodeView(id)), payload)
    {
      assert OwnedBy(id);
      k := peers[id].Send(payload);
      PeerChanged(id);
    }

    /** Send. False stands for the errors: no such peer, no ready session, and a context that is cancelled or a client
        that is closed by the time the encrypted frame would be queued. In the last case the nonce is used up. Other
        calls may come between the two halves (see Rekey). */
    method Send(id: DeviceId, payload: Payload, cancelled: bool) returns (ok: bool)
      requires Valid()
      modifies this`sends, if id in peers then {peers[id].active} else {}
      ensures Valid() && PairView() == old(PairView()) && OthersSame(id)
      ensures id !in peers ==> !ok && sends == old(sends)
      ensures id in peers ==>
                var out := Value.OnSend(old(NodeView(id)), payload);
                && NodeView(id) == out.0 && ok == (out.1.Some? && !cancelled)
                && sends == if ok then old(sends) + [TransportOut(out.1.value)] else old(sends)
    {
      if id !in peers {
        return false;
      }
      var k := Seal(id, payload);
      if k.None? || cancelled {
        return false;
      }
      sends := sends + [TransportOut(k.value)];
      return true;
    }

    /** handlePairComplete: link the peer if its code has a waiter. */
    method HandlePairComplete(code: string, peerId: DeviceId, announced: Option<StaticKey>, entropy: Option<Eph>)
      requires Valid()
      modifies this`waiters, this`sent, this`peers, this`sends, this`slots, this`owner
      ensures Valid() && PairView() == Apply(old(PairView()), Complete(code, peerId, entropy.None?))
      ensures OthersSame(peerId) && Grown(old(peers), old(owner))
      ensures code !in old(waiters) ==> peers == old(peers) && sends == old(sends) && Views() == old(Views())
      ensures code in old(waiters) ==>
                && peerId in peers && peers == old(peers)[peerId := peers[peerId]] && fresh(peers[peerId])
                && peers[peerId].View() == Whole.LinkedPeer(peerId, announced, old(waiters)[code], entropy)
                && sends == old(sends) + FirstMessage(old(waiters)[code], entropy)
    {
      ApplyKeepsLinear(PairView(), Complete(code, peerId, entropy.None?));
      if code !in waiters {
        return;
      }
      assert PairView().waiters[code] == waiters[code];
      LinkPeer(code, peerId, announced, entropy);
      PeerLinked(peerId);
      Adopt(peerId);
    }

    twostate lemma PeerLinked(id: DeviceId)
      requires old(Tidy()) && Indexed() && id in peers && fresh(peers[id]) && Usable(id) && OnlyTouched(id)
      requires peers[id].pending == null && (peers[id].active != null ==> fresh(peers[id].active))
      ensures TidyBut(id) && OthersSame(id)
    {
      OthersKept(id);
    }

    /** applyWelcomePeers: register the peers that the server reports and that are not known yet. */
    method ApplyWelcomePeers(linked: seq<(DeviceId, Option<StaticKey>)>)
      requires Valid()
      modifies this`peers
      ensures Valid() && PairView() == old(PairView()) && Views() == Whole.Welcomed(old(Views()), linked)
      ensures forall id :: id in old(peers) ==> id in peers && peers[id] == old(peers)[id]
      ensures Grown(old(peers), owner)
    {
      ghost var views := Views();
      assert linked[0..] == linked;
      for i := 0 to |linked|
        invariant Tidy() && PairView() == old(PairView()) && Grown(old(peers), owner)
        invariant Whole.Welcomed(Views(), linked[i..]) == Whole.Welcomed(views, linked)
        invariant forall id :: id in old(peers) ==> id in peers && peers[id] == old(peers)[id]
      {
        var (id, announced) := linked[i];
        assert linked[i..][0] == linked[i] && linked[i..][1..] == linked[i + 1..];
        if id !in peers {
          AddPeer(id, announced);
        }
      }
      assert linked[|linked|..] == [];
    }

    method AddPeer(id: DeviceId, announced: Option<StaticKey>)
      requires Tidy() && id !in peers
      modifies this`peers
      ensures Tidy() && id in peers && fresh(peers[id]) && peers == old(peers)[id := peers[id]]
      ensures Views() == old(Views())[id := Peer(id, announced, None, None, None, None)]
    {
      var peer := new PeerConn(id, announced);
      peers := peers[id := peer];
      assert id !in slots;
      PeerLinked(id);
      OneViewChanged(id);
    }

    twostate lemma OneViewChanged(id: DeviceId)
      requires id in peers && peers.Keys == old(peers).Keys + {id} && OthersSame(id)
      ensures Views() == old(Views())[id := peers[id].View()]
    {
      ghost var v, w := Views(), old(Views())[id := peers[id].View()];
      assert v.Keys == w.Keys;
      forall j | j in v ensures v[j] == w[j] {}
    }

    // ----- Any sequence of calls -----

    method PerformEnvelope(act: Whole.Act)
      requires Valid() && act.Envelope? && act.pick in peers
      modifies this, store, peers.Values, owner.Keys
      ensures Valid() && View() == Whole.Step(old(View()), act) && Grown(old(peers), old(owner))
    {
      assert OwnedBy(act.pick);
      Whole.EventStep(View(), act);
      var _ := HandleHandshakeEnvelope(act.pick, act.m, act.entropy, act.now, act.saved);
      OneViewChanged(act.pick);
    }

    method PerformStatus(act: Whole.Act)
      requires Valid() && act.Status? && act.about in peers
      modifies this, store, peers.Values, owner.Keys
      ensures Valid() && View() == Whole.Step(old(View()), act) && Grown(old(peers), old(owner))
    {
      Whole.EventStep(View(), act);
      HandlePeerStatus(act.about, act.online, act.entropy);
      OneViewChanged(act.about);
    }

    method PerformArrival(act: Whole.Act)
      requires Valid() && act.Arrival? && act.pick in peers
      modifies this, store, peers.Values, owner.Keys
      ensures Valid() && View() == Whole.Step(old(View()), act) && Grown(old(peers), old(owner))
    {
      assert OwnedBy(act.pick);
      Whole.EventStep(View(), act);
      HandleTransportEnvelope(act.pick, act.k);
      OneViewChanged(act.pick);
    }

    method PerformSend(act: Whole.Act)
      requires Valid() && act.SendTo? && act.peer in peers
      modifies this, store, peers.Values, owner.Keys
      ensures Valid() && View() == Whole.Step(old(View()), act) && Grown(old(peers), old(owner))
    {
      assert OwnedBy(act.peer);
      Whole.EventStep(View(), act);
      var _ := Send(act.peer, act.p, act.cancelled);
      OneViewChanged(act.peer);
    }

    method PerformLink(act: Whole.Act)
      requires Valid() && act.Link?
      modifies this, store, peers.Values, owner.Keys
      ensures Valid() && View() == Whole.Step(old(View()), act) && Grown(old(peers), old(owner))
    {
      HandlePairComplete(act.code, act.peer, act.announced, act.entropy);
      if act.code in old(waiters) {
        OneViewChanged(act.peer);
      }
    }

    method PerformWaiters(op: Whole.WaiterOp)
      requires Valid()
      modifies this`waiters, this`sent, this`made, this`sends
      ensures Valid() && PairView() == Apply(old(PairView()), op)
    {
      match op {
        case Request => { var _ := BeginRequest(); }
        case CodeArrived(code, expiresIn) => HandlePairCode(code, expiresIn);
        case AwaitCode(code) => { var _ := EndRequest(code); }
        case Accept(code) => { var _ := AcceptPair(code); }
        case Forget(key) => RemovePairWaiter(key);
        case Fail(reason) => HandleError(reason);
      }
    }

    method PerformOp(act: Whole.Act)
      requires Valid() && act.Waiters?
      modifies this, store, peers.Values, owner.Keys
      ensures Valid() && View() == Whole.Step(old(View()), act) && Grown(old(peers), old(owner))
    {
      PerformWaiters(act.op);
      AllSame();
    }

    twostate lemma AllSame()
      requires peers == old(peers) && forall j :: j in peers ==> peers[j].View() == old(peers[j].View())
      ensures Views() == old(Views())
    {
    }

    /** An act about a peer; nothing happens if the peer is not known. */
    method PerformEvent(act: Whole.Act)
      requires Valid() && Whole.EventOf(act).Some?
      modifies this, store, peers.Values, owner.Keys
      ensures Valid() && View() == Whole.Step(old(View()), act) && Grown(old(peers), old(owner))
    {
      if Whole.EventOf(act).value.0 !in peers {
        Whole.UnknownPeer(View(), act);
        return;
      }
      if act.Envelope? {
        PerformEnvelope(act);
      } else if act.Status? {
        PerformStatus(act);
      } else if act.Arrival? {
        PerformArrival(act);
      } else {
        PerformSend(act);
      }
    }

    /** One call or one incoming frame, on the objects. */
    method Perform(act: Whole.Act)
      requires Valid()
      modifies this, store, peers.Values, owner.Keys
      ensures Valid() && View() == Whole.Step(old(View()), act) && Grown(old(peers), old(owner))
    {
      if Whole.EventOf(act).Some? {
        PerformEvent(act);
      } else if act.Link? {
        PerformLink(act);
      } else if act.Welcome? {
        ApplyWelcomePeers(act.linked);
      } else {
        PerformOp(act);
      }
    }

    /** Any sequence of them. */
    method PerformAll(acts: seq<Whole.Act>)
      requires Valid()
      modifies this, store, peers.Values, owner.Keys
      ensures Valid() && View() == Whole.Run(old(View()), acts) && Grown(old(peers), old(owner))
    {
      assert acts[0..] == acts;
      for i := 0 to |acts|
        invariant Valid() && Grown(old(peers), old(owner)) && Whole.Run(View(), acts[i..]) == Whole.Run(old(View()), acts)
      {
        assert acts[i..][0] == acts[i] && acts[i..][1..] == acts[i + 1..];
        Perform(acts[i]);
      }
    }
  }
}
