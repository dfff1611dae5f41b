/** The results about server runs, for the objects: a hub on which any sequence of steps has been performed. */
module RelayObjects {
  import opened Frames
  import opened Relay
  import opened RelayServer
  import Delivery = RelayDelivery
  import Routing = RelayRouting
  import Devices
  import opened RelayEffects

  /** A hub on an existing database, after the given steps. */
  method Serve(db: Devices.DB, steps: seq<Step>) returns (hub: Hub)
    modifies db
    ensures fresh(hub) && hub.db == db && hub.Valid() && hub.View() == Run(Boot(old(db.rows)), steps)
  {
    hub := new Hub(db);
    hub.RunSteps(steps);
  }

  /** Verbatim delivery: what has been written to each client is a prefix, in order, of the envelopes routed to it, and
      none is missing from its queue while it is neither closed nor stopped. */
  method ServeDelivers(db: Devices.DB, steps: seq<Step>) returns (hub: Hub)
    modifies db
    ensures fresh(hub) && hub.Valid()
    ensures forall c :: c in hub.all ==>
              var k := hub.all[c];
              && Delivery.Envelopes(k.written) <= k.routed
              && (!k.stopped && !k.closed ==> k.routed == Delivery.Envelopes(k.written) + Delivery.Envelopes(k.send))
  {
    hub := Serve(db, steps);
    forall c | c in hub.all
      ensures var k := hub.all[c];
              && Delivery.Envelopes(k.written) <= k.routed
              && (!k.stopped && !k.closed ==> k.routed == Delivery.Envelopes(k.written) + Delivery.Envelopes(k.send))
    {
      assert hub.View().conns[c] == hub.all[c].View();
      Delivery.VerbatimRelay(old(db.rows), steps, c);
    }
  }

  /** Routing agreement: after an in-band run on a symmetric table every registered client's peer is its row's
      paired_with, and a linked pair of registered clients point at each other. */
  method ServeAgrees(db: Devices.DB, steps: seq<Step>) returns (hub: Hub)
    requires Devices.Symmetric(db.rows) && Routing.InBandRun(Boot(db.rows), steps)
    modifies db
    ensures fresh(hub) && hub.Valid() && hub.db == db && Devices.Symmetric(db.rows)
    ensures forall d :: d in hub.clients ==>
              && d in db.rows && hub.clients[d].deviceId == d
              && hub.clients[d].pairedWith == PeerOf(db.rows[d].pairedWith)
              && (db.rows[d].pairedWith.Some? && hub.clients[d].pairedWith in hub.clients ==>
                    hub.clients[hub.clients[d].pairedWith].pairedWith == d)
  {
    hub := Serve(db, steps);
    Routing.BootAgrees(old(db.rows));
    Routing.RoutingAgreement(Boot(old(db.rows)), steps);
    ghost var s := hub.View();
    forall d | d in hub.clients
      ensures d in db.rows && hub.clients[d].deviceId == d && hub.clients[d].pairedWith == PeerOf(db.rows[d].pairedWith)
    {
      assert s.registry[d] == hub.clients[d].id && s.conns[hub.clients[d].id] == hub.clients[d].View();
      assert Routing.Faces(s)[s.registry[d]] == Routing.FaceOf(hub.clients[d].View());
    }
  }

  /** Linked devices reach each other: after an in-band run, an envelope from one registered client is written, verbatim and
      after what was queued, to the other's socket. */
  method ServeReaches(db: Devices.DB, steps: seq<Step>, c: ConnId, k: ConnId, payload: Payload) returns (hub: Hub)
    requires Devices.Symmetric(db.rows) && Routing.InBandRun(Boot(db.rows), steps)
    requires Linked(Run(Boot(db.rows), steps), c, k) && Flowing(Run(Boot(db.rows), steps), k)
    modifies db
    ensures fresh(hub) && hub.Valid() && k in hub.all
    ensures var was := Run(Boot(old(db.rows)), steps).conns[k];
            hub.all[k].written == was.written + was.queue.frames + [Binary(payload)]
  {
    var s := Run(Boot(db.rows), steps);
    var more := [BinaryFrame(c, payload)] + Writes(k, |s.conns[k].queue.frames| + 1);
    LinkedDeviceIsReached(db.rows, steps, c, k, payload);
    RunSplit(Boot(db.rows), steps, more);
    RunSplit(s, [BinaryFrame(c, payload)], Writes(k, |s.conns[k].queue.frames| + 1));
    RunSnoc(s, [], BinaryFrame(c, payload));
    hub := Serve(db, steps + more);
    assert hub.View().conns[k] == hub.all[k].View();
  }
}
