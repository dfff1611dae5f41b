/** The results about client runs, for the objects: a client on which any sequence of acts has been performed. */
module GoObjects {
  import opened Core
  import opened GoNoise
  import opened GoPairing
  import Value = GoNode
  import Whole = GoAccount
  import opened GoClient

  /** The peer has a session under which payloads can be sent. */
  predicate HasReady(c: Client, id: DeviceId)
    reads c`peers, c.peers.Values, c.Sessions()
  {
    id in c.peers && c.peers[id].active != null && c.peers[id].active.status.StatusReady?
  }

  /** The peer's ready session, if it has one, is with the pinned key, and with the announced one if any. */
  predicate Trusted(c: Client, id: DeviceId)
    reads c`peers, c.peers.Values, c.Sessions(), c.store
  {
    HasReady(c, id) ==>
      && id in c.store.pins && c.peers[id].active.peerStatic == Some(c.store.pins[id])
      && (c.peers[id].announcedStaticKey.None? || c.peers[id].announcedStaticKey.value == c.store.pins[id])
  }

  lemma ReadyInView(c: Client, id: DeviceId)
    requires c.Valid()
    ensures HasReady(c, id) <==> Whole.Ready(c.View(), id)
    ensures id in c.peers ==> Whole.NodeOf(c.View(), id) == c.NodeView(id)
  {
    if id in c.peers { assert c.Usable(id); }
  }

  lemma TrustedInView(c: Client, id: DeviceId)
    requires c.Valid() && Whole.Sound(c.View())
    ensures Trusted(c, id)
  {
    ReadyInView(c, id);
    if HasReady(c, id) {
      assert c.Usable(id) && Whole.SoundPeer(c.View(), id);
    }
  }

  /** A new client on an existing pin store, after the given acts: no pin has changed, every ready session is trusted,
      and no result channel has been written twice. */
  method Operate(me: DeviceId, s: StaticKey, store: PeerStore, acts: seq<Whole.Act>) returns (c: Client)
    modifies store
    ensures fresh(c) && c.Valid() && c.store == store
    ensures c.View() == Whole.Run(Whole.Start(me, s, old(store.pins)), acts) && Whole.Sound(c.View())
    ensures forall id :: id in old(store.pins) ==> id in store.pins && store.pins[id] == old(store.pins)[id]
    ensures forall id :: Trusted(c, id)
    ensures forall ch :: ch in c.sent ==> |c.sent[ch]| <= 1
  {
    c := new Client(me, s, store);
    ghost var a := Whole.Start(me, s, store.pins);
    assert c.View() == a;
    c.PerformAll(acts);
    Whole.StartSound(me, s, a.pins);
    Whole.RunSound(a, acts);
    forall id ensures Trusted(c, id) { TrustedInView(c, id); }
    assert c.PairView().sent == c.sent;
  }

  /** From any such state, whatever happens next: a peer that is not linked anew goes through exactly its own events, and
      its ready session is replaced only by another one with the same pinned key. */
  method Continue(c: Client, acts: seq<Whole.Act>, id: DeviceId)
    requires c.Valid() && Whole.Sound(c.View()) && id in c.peers && Whole.NeverRelinked(c.View(), acts, id)
    modifies c, c.store, c.peers.Values, c.owner.Keys
    ensures c.Valid() && Whole.Sound(c.View()) && id in c.peers
    ensures Whole.Alike(Value.Run(old(c.NodeView(id)), Whole.EventsOf(acts, id)), c.NodeView(id))
    ensures old(HasReady(c, id)) ==>
              && HasReady(c, id) && Trusted(c, id)
              && id in old(c.store.pins) && c.store.pins[id] == old(c.store.pins)[id]
  {
    ghost var a := c.View();
    ReadyInView(c, id);
    c.PerformAll(acts);
    Whole.RunSound(a, acts);
    Whole.RunProjects(a, acts, id, Whole.NodeOf(a, id));
    if Whole.Ready(a, id) { Whole.RunKeepsReady(a, acts, id); }
    ReadyInView(c, id);
    TrustedInView(c, id);
  }

  /** The channels after any acts are what the pairing operations in them make of the channels before, and a channel that
      is in no place keeps what it holds. */
  method ContinuePairing(c: Client, acts: seq<Whole.Act>)
    requires c.Valid() && Whole.Sound(c.View())
    modifies c, c.store, c.peers.Values, c.owner.Keys
    ensures c.Valid() && c.PairView() == ApplyAll(old(c.PairView()), Whole.OpsOf(old(c.View()), acts))
    ensures forall ch :: Retired(old(c.PairView()), ch) ==> ch in c.sent && c.sent[ch] == old(c.sent)[ch]
  {
    ghost var a := c.View();
    c.PerformAll(acts);
    Whole.RunPairs(a, acts);
    assert c.PairView() == c.View().pairing;
    forall ch | Retired(a.pairing, ch) ensures ch in c.sent && c.sent[ch] == a.pairing.sent[ch] {
      Whole.RunLeavesRetired(a, acts, ch);
    }
  }
}
