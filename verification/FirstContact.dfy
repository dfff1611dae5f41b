/**
 Two Go clients that have never met (sdk/go/client.go, sdk/go/peerstore.go): the pairing code,
 the link, the first handshake, the first pins, and what the two applications are told.
 */
module FirstContact {
  import opened Core
  import opened GoNoise
  import opened GoPeer
  import opened GoNode
  import opened GoPairing
  import Whole = GoAccount

  // ----- When a key is accepted -----

  /** The key is the pinned one, or none is pinned and the new pin could be saved; and it is the announced one, if any. */
  predicate Acceptable(n: Node, key: StaticKey, saved: bool)
  {
    && (if n.peer.id in n.pins then n.pins[n.peer.id] == key else saved)
    && (n.peer.announced.Some? ==> n.peer.announced.value == key)
  }

  /** A session that completes is accepted if and only if its key is acceptable. Either way a first key is pinned, an
      existing pin stays, and no other pin changes. */
  lemma AcceptedIff(n: Node, x: Session, wasPending: bool, saved: bool)
    requires x.Live?
    ensures var j, key := Judge(n, x, wasPending, false, saved), x.PeerStatic();
            && (j.verdict == Good(key) <==> Acceptable(n, key, saved)) && (j.verdict.Good? ==> j.verdict.key == key)
            && j.node.pins == if n.peer.id in n.pins then n.pins else n.pins[n.peer.id := key]
  {
  }

  /** A first session that completes with an acceptable key stays, and the outcome names the key. */
  lemma FirstSessionGood(n: Node, m: HsMsg, entropy: Option<Eph>, now: int, saved: bool)
    requires var fed := Feed(n.peer, n.s, m, entropy, now);
             && fed.completed && !fed.wasPending && !fed.err && fed.peer.active.Some? && fed.peer.active.value.Live?
             && fed.peer.id == n.peer.id && fed.peer.announced == n.peer.announced
             && Acceptable(n, fed.peer.active.value.PeerStatic(), saved)
    ensures var fed, out := Feed(n.peer, n.s, m, entropy, now), OnHandshake(n, m, entropy, now, saved);
            var key := fed.peer.active.value.PeerStatic();
            && out.outcome == Some(Outcome(false, Good(key)))
            && out.node.peer == fed.peer.(waiter := None)
            && out.node.pins == if n.peer.id in n.pins then n.pins else n.pins[n.peer.id := key]
  {
  }

  // ----- The three messages of a first handshake -----

  /** A client that has just been linked and has no session; the accepting side has sent its first message. */
  predicate JustLinked(n: Node, e: Option<Eph>)
  {
    && n.peer.pending.None?
    && n.peer.active == match e { case Some(x) => Some(AwaitMsg2(x)) case None => None }
  }

  /** The two clients have each other's identity and may accept each other's key. */
  predicate Strangers(a: Node, b: Node)
  {
    && a.peer.id == b.me && b.peer.id == a.me
    && Acceptable(a, b.s, true) && Acceptable(b, a.s, true)
  }

  function KnownAfter(pins: Pins, id: DeviceId, key: StaticKey): Pins
  {
    if id in pins then pins else pins[id := key]
  }

  /** The responder answers the first message. */
  lemma FirstAnswer(b: Node, e: Eph, e2: Eph, now: int, saved: bool)
    requires JustLinked(b, None)
    ensures OnHandshake(b, Msg1(e), Some(e2), now, saved)
            == Output(b.(peer := b.peer.(active := Some(AwaitMsg3(e2, e)))), Some(Msg2(e2, b.s, e)), None)
  {
  }

  /** The initiator takes the answer, pins the key and sends the third message. */
  lemma FirstFinish(a: Node, e: Eph, e2: Eph, key: StaticKey, entropy: Option<Eph>, now: int)
    requires JustLinked(a, Some(e)) && Acceptable(a, key, true)
    ensures var tr := Transcript(e, a.s, e2, key);
            OnHandshake(a, Msg2(e2, key, e), entropy, now, true)
            == Output(a.(peer := a.peer.(active := Some(Live(true, tr, 0, 0)), waiter := None),
                         pins := KnownAfter(a.pins, a.peer.id, key)),
                      Some(Msg3(tr)), Some(Outcome(false, Good(key))))
  {
    var fed := Feed(a.peer, a.s, Msg2(e2, key, e), entropy, now);
    assert fed.peer == a.peer.(active := Some(Live(true, Transcript(e, a.s, e2, key), 0, 0)));
  }

  /** The responder takes the third message and pins the key. */
  lemma FirstAccept(b: Node, tr: Transcript, entropy: Option<Eph>, now: int)
    requires b.peer.pending.None? && b.peer.active == Some(AwaitMsg3(tr.rEph, tr.iEph)) && tr.rStatic == b.s
    requires Acceptable(b, tr.iStatic, true)
    ensures OnHandshake(b, Msg3(tr), entropy, now, true)
            == Output(b.(peer := b.peer.(active := Some(Live(false, tr, 0, 0)), waiter := None),
                         pins := KnownAfter(b.pins, b.peer.id, tr.iStatic)),
                      None, Some(Outcome(false, Good(tr.iStatic))))
  {
    var fed := Feed(b.peer, b.s, Msg3(tr), entropy, now);
    assert fed.peer == b.peer.(active := Some(Live(false, tr, 0, 0)));
  }

  /** First contact succeeds: two linked strangers with working random sources and saved stores exchange three messages,
      each the reply to the one before. Then both are ready under one transcript in opposite roles, each has the other's
      static key pinned, and each outcome names that key. */
  lemma FirstContactSucceeds(a: Node, b: Node, e: Eph, e2: Eph, entropyA: Option<Eph>, entropyB: Option<Eph>, now: seq<int>)
    requires JustLinked(a, Some(e)) && JustLinked(b, None) && Strangers(a, b) && |now| == 3
    ensures var out1 := OnHandshake(b, Msg1(e), Some(e2), now[0], true);
            && out1.reply.Some?
            && var outA := OnHandshake(a, out1.reply.value, entropyA, now[1], true);
            && outA.reply.Some?
            && var outB := OnHandshake(out1.node, outA.reply.value, entropyB, now[2], true);
            var tr := Transcript(e, a.s, e2, b.s);
            && outA.node.peer.active == Some(Live(true, tr, 0, 0)) && outB.node.peer.active == Some(Live(false, tr, 0, 0))
            && outA.node.pins == KnownAfter(a.pins, b.me, b.s) && outB.node.pins == KnownAfter(b.pins, a.me, a.s)
            && outA.outcome == Some(Outcome(false, Good(b.s))) && outB.outcome == Some(Outcome(false, Good(a.s)))
  {
    FirstAnswer(b, e, e2, now[0], true);
    FirstFinish(a, e, e2, b.s, entropyA, now[1]);
    var b1 := b.(peer := b.peer.(active := Some(AwaitMsg3(e2, e))));
    FirstAccept(b1, Transcript(e, a.s, e2, b.s), entropyB, now[2]);
  }

  // ----- Who starts again, and who is answered -----

  /** When two linked devices are told that the other is online, exactly the one with the smaller identifier starts a
      replacement, beside the session it has; a notice that the other is offline starts nothing. */
  lemma OneSideStarts(a: Node, b: Node, ea: Eph, eb: Eph)
    requires a.me != b.me && a.peer.id == b.me && b.peer.id == a.me
    ensures var outA, outB := OnPeerStatus(a, b.me, true, Some(ea)), OnPeerStatus(b, a.me, true, Some(eb));
            && outA.reply == (if StringLess(a.me, b.me) then Some(Msg1(ea)) else None)
            && outB.reply == (if StringLess(a.me, b.me) then None else Some(Msg1(eb)))
            && outA.node.peer.active == a.peer.active && outB.node.peer.active == b.peer.active
    ensures OnPeerStatus(a, b.me, false, Some(ea)) == Output(a, None, None)
  {
    StringLessTrichotomy(a.me, b.me);
  }

  /** A peer with a healthy session answers an unsolicited first message two seconds after the last one, or if it is the
      first such message. */
  lemma SpacedStartIsAnswered(n: Node, m: HsMsg, e: Eph, now: int, saved: bool)
    requires ActiveReady(n) && n.peer.pending.None? && Head(m).Some?
    requires n.peer.lastUnsolicited.Some? ==> now - n.peer.lastUnsolicited.value >= 2_000_000_000
    ensures var out := OnHandshake(n, m, Some(e), now, saved);
            && out.reply == Some(Msg2(e, n.s, Head(m).value)) && out.node.peer.active == n.peer.active
            && out.node.peer.pending == Some(AwaitMsg3(e, Head(m).value))
  {
    var fed := Feed(n.peer, n.s, m, Some(e), now);
    assert fed.reply == Some(Msg2(e, n.s, Head(m).value)) && !fed.completed;
  }

  // ----- What the two applications are told -----

  /** The waiter's channel is unwritten and is the one that this key or this peer leads to. */
  predicate WaitsUnder(p: Pairing, code: string, ch: ChanId, acceptor: bool)
  {
    code in p.waiters && p.waiters[code] == Waiter(ch, acceptor) && ch in p.sent && p.sent[ch] == []
  }

  predicate InSlot(p: Pairing, peer: DeviceId, ch: ChanId)
  {
    peer in p.first && p.first[peer] == ch && ch in p.sent && p.sent[ch] == []
  }

  /** Requesting a code: the code goes to the channel of the request, and nowhere else. */
  lemma CodeIsHandedOver(p: Pairing, code: string, ttl: int)
    requires Linear(p)
    ensures var p' := Apply(Apply(p, Request), CodeArrived(code, ttl));
            && p'.sent == p.sent[p.made := [GotCode(code, ttl)]] && p'.made == p.made + 1
            && REQUEST_KEY !in p'.waiters && p'.first == p.first
  {
    assert [] + [GotCode(code, ttl)] == [GotCode(code, ttl)];
  }

  lemma LinkMovesWaiter(a: Whole.Account, code: string, peer: DeviceId, announced: Option<StaticKey>, e: Option<Eph>, ch: ChanId,
                        acceptor: bool)
    requires WaitsUnder(a.pairing, code, ch, acceptor) && (acceptor ==> e.Some?)
    ensures var a' := Whole.Step(a, Whole.Link(code, peer, announced, e));
            && InSlot(a'.pairing, peer, ch) && a'.pins == a.pins && a'.me == a.me && a'.s == a.s
            && a'.pairing.sent == a.pairing.sent && peer in a'.peers
            && a'.peers[peer] == Peer(peer, announced, if acceptor then Some(AwaitMsg2(e.value)) else None, None, Some(ch), None)
  {
  }

  /** A handshake envelope that completes a first session with a good key writes the peer and its key to the channel. */
  lemma GoodIsReported(a: Whole.Account, act: Whole.Act, ch: ChanId, out: Output, key: StaticKey)
    requires act.Envelope? && act.pick in a.peers && InSlot(a.pairing, act.pick, ch)
    requires OnHandshake(Whole.NodeOf(a, act.pick), act.m, act.entropy, act.now, act.saved) == out
    requires out.outcome == Some(Outcome(false, Good(key)))
    ensures var a' := Whole.Step(a, act);
            && a'.pairing.sent == a.pairing.sent[ch := [Paired(act.pick, key)]]
            && a'.pins == out.node.pins && a'.peers == a.peers[act.pick := out.node.peer]
  {
    Whole.EventStep(a, act);
    assert Whole.OpOf(a, act) == Some(Settled(act.pick, false, Paired(act.pick, key)));
    assert a.pairing.sent[ch] + [Paired(act.pick, key)] == [Paired(act.pick, key)];
  }

  /** One that ends a first session badly says why; a replacement that ends badly is not reported at all. */
  lemma BadIsReported(a: Whole.Account, act: Whole.Act, ch: ChanId, out: Output)
    requires act.Envelope? && act.pick in a.peers && InSlot(a.pairing, act.pick, ch)
    requires OnHandshake(Whole.NodeOf(a, act.pick), act.m, act.entropy, act.now, act.saved) == out
    requires out.outcome.Some? && !out.outcome.value.verdict.Good?
    ensures var why := if out.outcome.value.verdict.BadKey? then KeyMismatch else HandshakeFailed;
            Whole.Step(a, act).pairing.sent
            == if out.outcome.value.wasPending then a.pairing.sent else a.pairing.sent[ch := [PairError(why)]]
  {
    Whole.EventStep(a, act);
    assert a.pairing.sent[ch] + [PairError(KeyMismatch)] == [PairError(KeyMismatch)];
    assert a.pairing.sent[ch] + [PairError(HandshakeFailed)] == [PairError(HandshakeFailed)];
  }

  /** An accepting side that cannot make its first message reports that. */
  lemma FailedStartIsReported(a: Whole.Account, code: string, peer: DeviceId, announced: Option<StaticKey>, ch: ChanId)
    requires WaitsUnder(a.pairing, code, ch, true)
    ensures var a' := Whole.Step(a, Whole.Link(code, peer, announced, None));
            a'.pairing.sent == a.pairing.sent[ch := [PairError(StartFailed)]] && peer !in a'.pairing.first
  {
    assert a.pairing.sent[ch] + [PairError(StartFailed)] == [PairError(StartFailed)];
  }

  /** One that completes nothing leaves the channels and pins alone. */
  lemma UnfinishedIsSilent(a: Whole.Account, act: Whole.Act, out: Output)
    requires act.Envelope? && act.pick in a.peers
    requires OnHandshake(Whole.NodeOf(a, act.pick), act.m, act.entropy, act.now, act.saved) == out
    requires out.outcome.None?
    ensures Whole.Step(a, act) == a.(peers := a.peers[act.pick := out.node.peer], pins := out.node.pins)
  {
    Whole.EventStep(a, act);
  }

  predicate Welcoming(a: Whole.Account, peer: DeviceId, announced: Option<StaticKey>, key: StaticKey)
  {
    && (peer in a.pins ==> a.pins[peer] == key)
    && (announced.Some? ==> announced.value == key)
  }

  /** The accepting application waits under the code. */
  lemma AcceptorWaits(a: Whole.Account, code: string)
    ensures var a' := Whole.Step(a, Whole.Waiters(Accept(code)));
            && WaitsUnder(a'.pairing, code, a.pairing.made, true) && a' == a.(pairing := a'.pairing)
            && a'.pairing.sent == a.pairing.sent[a.pairing.made := []]
  {
  }

  lemma AcceptorFinishes(a: Whole.Account, peer: DeviceId, announced: Option<StaticKey>, ch: ChanId, tr: Transcript,
                         entropy: Option<Eph>, now: int)
    requires InSlot(a.pairing, peer, ch) && Welcoming(a, peer, announced, tr.rStatic) && tr.iStatic == a.s
    requires peer in a.peers && a.peers[peer] == Peer(peer, announced, Some(AwaitMsg2(tr.iEph)), None, Some(ch), None)
    ensures var a' := Whole.Step(a, Whole.Envelope(peer, Msg2(tr.rEph, tr.rStatic, tr.iEph), entropy, now, true));
            && a'.pairing.sent == a.pairing.sent[ch := [Paired(peer, tr.rStatic)]]
            && a'.pins == KnownAfter(a.pins, peer, tr.rStatic)
            && peer in a'.peers && a'.peers[peer].active == Some(Live(true, tr, 0, 0))
  {
    var act := Whole.Envelope(peer, Msg2(tr.rEph, tr.rStatic, tr.iEph), entropy, now, true);
    var n := Whole.NodeOf(a, peer);
    FirstFinish(n, tr.iEph, tr.rEph, tr.rStatic, entropy, now);
    GoodIsReported(a, act, ch, OnHandshake(n, act.m, entropy, now, true), tr.rStatic);
  }

  /** The accepting application, which waits under the code, is linked and takes the answer: it is told the peer and its
      key, the key is pinned, and the session is ready. */
  lemma AcceptorIsTold(a: Whole.Account, code: string, ch: ChanId, peer: DeviceId, announced: Option<StaticKey>,
                       tr: Transcript, entropy: Option<Eph>, now: int)
    requires WaitsUnder(a.pairing, code, ch, true) && Welcoming(a, peer, announced, tr.rStatic) && tr.iStatic == a.s
    ensures var a1 := Whole.Step(a, Whole.Link(code, peer, announced, Some(tr.iEph)));
            var a2 := Whole.Step(a1, Whole.Envelope(peer, Msg2(tr.rEph, tr.rStatic, tr.iEph), entropy, now, true));
            && a2.pairing.sent == a.pairing.sent[ch := [Paired(peer, tr.rStatic)]]
            && a2.pins == KnownAfter(a.pins, peer, tr.rStatic)
            && peer in a2.peers && a2.peers[peer].active == Some(Live(true, tr, 0, 0))
  {
    LinkMovesWaiter(a, code, peer, announced, Some(tr.iEph), ch, true);
    AcceptorFinishes(Whole.Step(a, Whole.Link(code, peer, announced, Some(tr.iEph))), peer, announced, ch, tr, entropy, now);
  }

  /** The requesting application asks for a code, is given it, and waits under it. */
  lemma RequesterWaits(a: Whole.Account, code: string, ttl: int)
    requires Linear(a.pairing)
    ensures var a2 := Whole.Step(Whole.Step(a, Whole.Waiters(Request)), Whole.Waiters(CodeArrived(code, ttl)));
            var a3, ch := Whole.Step(a2, Whole.Waiters(AwaitCode(code))), a.pairing.made;
            && WaitsUnder(a3.pairing, code, ch + 1, false) && a3 == a.(pairing := a3.pairing)
            && a3.pairing.sent == a.pairing.sent[ch := [GotCode(code, ttl)]][ch + 1 := []]
  {
    CodeIsHandedOver(a.pairing, code, ttl);
    var a2 := Whole.Step(Whole.Step(a, Whole.Waiters(Request)), Whole.Waiters(CodeArrived(code, ttl)));
    assert a2 == a.(pairing := Apply(Apply(a.pairing, Request), CodeArrived(code, ttl)));
    assert Whole.Step(a2, Whole.Waiters(AwaitCode(code))).pairing == Register(a2.pairing, code, false);
  }

  /** The first and the third message of a linked requester. */
  lemma RequesterFinishes(a: Whole.Account, peer: DeviceId, announced: Option<StaticKey>, ch: ChanId, tr: Transcript,
                          entropy: Option<Eph>, now1: int, now3: int)
    requires InSlot(a.pairing, peer, ch) && Welcoming(a, peer, announced, tr.iStatic) && tr.rStatic == a.s
    requires peer in a.peers && a.peers[peer] == Peer(peer, announced, None, None, Some(ch), None)
    ensures var first := Whole.Envelope(peer, Msg1(tr.iEph), Some(tr.rEph), now1, true);
            var third := Whole.Envelope(peer, Msg3(tr), entropy, now3, true);
            var a' := Whole.Step(Whole.Step(a, first), third);
            && a'.pairing.sent == a.pairing.sent[ch := [Paired(peer, tr.iStatic)]]
            && a'.pins == KnownAfter(a.pins, peer, tr.iStatic)
            && peer in a'.peers && a'.peers[peer].active == Some(Live(false, tr, 0, 0))
  {
    var first := Whole.Envelope(peer, Msg1(tr.iEph), Some(tr.rEph), now1, true);
    var third := Whole.Envelope(peer, Msg3(tr), entropy, now3, true);
    var n := Whole.NodeOf(a, peer);
    FirstAnswer(n, tr.iEph, tr.rEph, now1, true);
    UnfinishedIsSilent(a, first, OnHandshake(n, first.m, first.entropy, now1, true));
    var a1 := Whole.Step(a, first);
    var n1 := n.(peer := n.peer.(active := Some(AwaitMsg3(tr.rEph, tr.iEph))));
    assert Whole.NodeOf(a1, peer) == n1;
    FirstAccept(n1, tr, entropy, now3);
    GoodIsReported(a1, third, ch, OnHandshake(n1, third.m, entropy, now3, true), tr.iStatic);
  }

  /** The requesting application, which waits under its code, is linked and takes the first and the third message: it is
      told the peer and its key, the key is pinned, and the session is ready. */
  lemma RequesterIsTold(a: Whole.Account, code: string, ch: ChanId, peer: DeviceId, announced: Option<StaticKey>,
                        tr: Transcript, entropy: Option<Eph>, now1: int, now3: int)
    requires WaitsUnder(a.pairing, code, ch, false) && Welcoming(a, peer, announced, tr.iStatic) && tr.rStatic == a.s
    ensures var a1 := Whole.Step(a, Whole.Link(code, peer, announced, None));
            var a2 := Whole.Step(a1, Whole.Envelope(peer, Msg1(tr.iEph), Some(tr.rEph), now1, true));
            var a3 := Whole.Step(a2, Whole.Envelope(peer, Msg3(tr), entropy, now3, true));
            && a3.pairing.sent == a.pairing.sent[ch := [Paired(peer, tr.iStatic)]]
            && a3.pins == KnownAfter(a.pins, peer, tr.iStatic)
            && peer in a3.peers && a3.peers[peer].active == Some(Live(false, tr, 0, 0))
  {
    LinkMovesWaiter(a, code, peer, announced, None, ch, false);
    RequesterFinishes(Whole.Step(a, Whole.Link(code, peer, announced, None)), peer, announced, ch, tr, entropy, now1, now3);
  }
}
