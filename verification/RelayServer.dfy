/**
 The server's objects (internal/relay/hub.go, client.go, control.go), proved against the
 state machine. Each method runs without interruption, as under the hub's lock or in one
 client's read loop; SendQueue covers the queue's own interleavings.
 */
module RelayServer {
  import opened Core
  import opened Frames
  import Q = SendQueue
  import opened Relay
  import Devices
  import PairCodes

  class Client {
    const id: ConnId
    const deviceId: DeviceId
    const linked: Option<DeviceId>
    var pairedWith: DeviceId
    var closed: bool
    var send: seq<Frame>
    var greeted: bool
    var stopped: bool
    ghost var written: seq<Frame>
    ghost var routed: seq<Payload>

    ghost function View(): Conn
      reads this
    {
      Conn(deviceId, pairedWith, linked, greeted, Q.Queue(closed, send), stopped, written, routed)
    }

    /** NewClient. */
    constructor (id: ConnId, deviceId: DeviceId, linked: Option<DeviceId>)
      ensures this.id == id && View() == NewConn(deviceId, linked)
    {
      this.id, this.deviceId, this.linked := id, deviceId, linked;
      pairedWith := match linked case None => "" case Some(p) => p;
      closed, send, greeted, stopped, written, routed := false, [], false, false, [], [];
    }

    method Enqueue(f: Frame) returns (ok: bool)
      modifies this`send
      ensures (Q.Queue(closed, send), ok) == Q.Enqueue(old(Q.Queue(closed, send)), f)
    {
      if closed {
        return false;
      }
      if |send| < Q.CAPACITY {
        send := send + [f];
        return true;
      }
      return false;
    }

    /** close, which sync.Once makes idempotent. */
    method CloseSocket()
      modifies this`closed
      ensures View() == Shut(old(View()))
    {
      if !closed {
        closed := true;
      }
    }

    method SendJson(msg: Control)
      modifies this`send
      ensures View() == Told(old(View()), msg)
    {
      var _ := Enqueue(Text(msg, false));
    }

    /** sendWelcome. */
    method Greet(key: string, online: bool)
      modifies this`greeted, this`send
      ensures View() == Greeted(old(View()), key, online)
    {
      greeted := true;
      if linked.None? {
        SendJson(Welcome(deviceId, []));
      } else {
        SendJson(Welcome(deviceId, [(linked.value, key)]));
        SendJson(PeerStatus(linked.value, online));
      }
    }

    method SendErrorAndClose(e: ErrorCode)
      modifies this`send, this`closed
      ensures View() == Expelled(old(View()), e)
    {
      var ok := Enqueue(Text(Error(e), true));
      if !ok {
        CloseSocket();
      }
    }

    /** The receiving half of Route. */
    method Accept(payload: Payload) returns (ok: bool)
      modifies this
      ensures View() == Offered(old(View()), payload)
      ensures ok == Q.Enqueue(old(View()).queue, Binary(payload)).1
    {
      routed := routed + [payload];
      ok := Enqueue(Binary(payload));
      if !ok {
        CloseSocket();
      }
    }

    /** One successful round of the write loop. */
    method WriteNext()
      modifies this
      ensures View() == Wrote(old(View()))
    {
      if !stopped && send != [] {
        var f := send[0];
        send, written := send[1..], written + [f];
        if f.Text? && f.closeAfter {
          stopped := true;
        }
      }
    }

    /** The write loop returns: a frame in hand is lost. */
    method HaltWriting()
      modifies this
      ensures View() == Halted(old(View()))
    {
      if !stopped {
        if send != [] {
          send := send[1..];
        }
        stopped := true;
      }
    }

    method SetPeerTo(p: DeviceId)
      modifies this`pairedWith
      ensures View() == old(View()).(peer := p)
    {
      pairedWith := p;
    }
  }

  class Hub {
    const db: Devices.DB
    const pairCodes: PairCodes.PairCodeRegistry
    var clients: map<DeviceId, Client>
    /** Every client, as the goroutines of its connection hold it, and those in the Register channel. */
    var all: map<ConnId, Client>
    var waiting: set<ConnId>
    ghost var hist: seq<PairCodes.Event>
    ghost var links: seq<Link>
    ghost var notices: seq<Notice>

    constructor (db: Devices.DB)
      ensures Valid() && this.db == db && View() == Boot(db.rows) && all == map[] && fresh(pairCodes)
    {
      this.db := db;
      pairCodes := new PairCodes.PairCodeRegistry();
      clients, all, waiting, hist, links, notices := map[], map[], {}, [], [], [];
    }

    ghost predicate Valid()
      reads this
    {
      && (forall c :: c in all ==> all[c].id == c)
      && (forall d :: d in clients ==> Known(clients[d]))
    }

    /** The clients of `before` and new ones. */
    twostate predicate Grown(before: map<ConnId, Client>)
      reads this`all
    {
      && (forall c :: c in before ==> c in all && all[c] == before[c])
      && (forall c :: c in all ==> c in before || fresh(all[c]))
    }

    /** A client that some handler created. */
    ghost predicate Known(c: Client)
      reads this`all
    {
      c.id in all && all[c.id] == c
    }

    ghost function Conns(): map<ConnId, Conn>
      reads this`all, all.Values
    {
      map c | c in all :: all[c].View()
    }

    ghost function Registry(): map<DeviceId, ConnId>
      reads this`clients
    {
      map d | d in clients :: clients[d].id
    }

    ghost function View(): State
      reads this, all.Values, db, pairCodes
    {
      State(db.rows, pairCodes.entries, Conns(), Registry(), waiting, hist, links, notices)
    }

    /** sendJSON on one of the hub's clients. */
    method TellClient(c: Client, msg: Control)
      requires Valid() && Known(c)
      modifies c`send
      ensures View() == Tell(old(View()), c.id, msg)
    {
      c.SendJson(msg);
      assert Conns() == old(Conns())[c.id := Told(old(c.View()), msg)];
    }

    ghost method RecordNotice(n: Notice)
      requires Valid()
      modifies this`notices
      ensures Valid() && View() == old(View()).(notices := old(notices) + [n])
    {
      notices := notices + [n];
    }

    method NotifyPeerStatus(target: DeviceId, about: DeviceId, online: bool)
      requires Valid()
      modifies this`notices, clients.Values
      ensures Valid() && View() == Notify(old(View()), target, about, online)
    {
      if target in clients {
        assert Known(clients[target]);
        RecordNotice(Notice(target, about, online));
        TellClient(clients[target], PeerStatus(about, online));
      }
    }

    /** close on one of the hub's clients. */
    method CloseClient(c: Client)
      requires Valid() && Known(c)
      modifies c`closed
      ensures View() == Upd(old(View()), c.id, Shut(old(c.View())))
    {
      c.CloseSocket();
      assert Conns() == old(Conns())[c.id := Shut(old(c.View()))];
    }

    /** setPeer and sendJSON on one of the hub's clients. */
    method PointClient(c: Client, p: DeviceId, msg: Control)
      requires Valid() && Known(c)
      modifies c`send, c`pairedWith
      ensures View() == Point(old(View()), c.id, p, msg)
    {
      c.SetPeerTo(p);
      c.SendJson(msg);
      assert Conns() == old(Conns())[c.id := Told(old(c.View()).(peer := p), msg)];
    }

    method RepointDevice(d: DeviceId, p: DeviceId, msg: Control)
      requires Valid()
      modifies clients.Values
      ensures View() == Repoint(old(View()), d, p, msg)
    {
      if d in clients {
        PointClient(clients[d], p, msg);
      }
    }

    /** A connection that the device still has is closed. */
    method EvictPrior(deviceId: DeviceId)
      requires Valid()
      modifies clients.Values`closed
      ensures View() == Evict(old(View()), deviceId)
    {
      if deviceId in clients {
        CloseClient(clients[deviceId]);
      }
    }

    method PutClient(client: Client)
      requires Valid() && Known(client)
      modifies this`clients, this`waiting
      ensures Valid()
      ensures View() == old(View()).(registry := old(Registry())[client.deviceId := client.id], waiting := old(waiting) - {client.id})
    {
      clients := clients[client.deviceId := client];
      waiting := waiting - {client.id};
      assert Registry() == old(Registry())[client.deviceId := client.id];
    }

    /** The locked section of the Register case. */
    method EnterClient(client: Client)
      requires Valid() && Known(client)
      modifies this`clients, this`waiting, all.Values
      ensures Valid() && View() == Enter(old(View()), client.id) && unchanged(client`pairedWith)
    {
      assert View().conns[client.id] == client.View();
      EvictPrior(client.deviceId);
      PutClient(client);
    }

    /** The hub loop, on a client from the Register channel. */
    method RegisterClient(client: Client)
      requires Valid() && Known(client)
      modifies this`clients, this`waiting, this`notices, all.Values
      ensures Valid() && View() == DoRegister(old(View()), client.id)
    {
      assert View().conns[client.id] == client.View();
      EnterClient(client);
      if client.pairedWith != "" {
        NotifyPeerStatus(client.pairedWith, client.deviceId, true);
      }
    }

    /** The locked section of the Unregister case. */
    method RemoveClient(client: Client) returns (wasCurrent: bool)
      requires Valid() && Known(client)
      modifies this`clients
      ensures Valid() && wasCurrent == (Lookup(old(View()), client.deviceId) == Some(client.id))
      ensures View() == old(View()).(registry := View().registry)
      ensures Registry() == if wasCurrent then old(Registry()) - {client.deviceId} else old(Registry())
    {
      wasCurrent := client.deviceId in clients && clients[client.deviceId] == client;
      if wasCurrent {
        clients := clients - {client.deviceId};
      }
    }

    /** The hub loop, on a client from the Unregister channel. */
    method UnregisterClient(client: Client)
      requires Valid() && Known(client)
      modifies this`clients, this`notices, all.Values
      ensures Valid() && View() == DoUnregister(old(View()), client.id)
    {
      assert View().conns[client.id] == client.View();
      var wasCurrent := RemoveClient(client);
      if wasCurrent && client.pairedWith != "" {
        NotifyPeerStatus(client.pairedWith, client.deviceId, false);
      }
    }

    /** Route. A peer that does not take the frame is closed and returned, to be handed to the Unregister channel; the
        hub loop takes it from there in a step of its own. */
    method Route(payload: Payload, pairedDeviceId: DeviceId) returns (evicted: Option<Client>)
      requires Valid()
      modifies clients.Values
      ensures View() == match Lookup(old(View()), pairedDeviceId)
                        case None => old(View())
                        case Some(k) => Upd(old(View()), k, Offered(old(View()).conns[k], payload))
      ensures match Lookup(old(View()), pairedDeviceId)
              case None => evicted.None?
              case Some(k) =>
                if Q.Enqueue(old(View()).conns[k].queue, Binary(payload)).1 then evicted.None?
                else evicted.Some? && evicted.value.id == k && View().conns[k].queue.closed
    {
      evicted := None;
      if pairedDeviceId in clients {
        var peer := clients[pairedDeviceId];
        assert Known(peer);
        var ok := peer.Accept(payload);
        assert Conns() == old(Conns())[peer.id := Offered(old(peer.View()), payload)];
        if !ok {
          evicted := Some(peer);
        }
      }
    }

    /** The read loop, on a binary frame. */
    method HandleBinary(c: Client, payload: Payload)
      requires Valid() && Known(c)
      modifies clients.Values
      ensures View() == DoBinary(old(View()), c.id, payload)
    {
      assert View().conns[c.id] == c.View();
      if c.pairedWith != "" {
        var _ := Route(payload, c.pairedWith);
      }
    }

    method KeepCode(code: string, requester: DeviceId, now: int)
      requires Valid()
      modifies this`hist, pairCodes
      ensures Valid()
      ensures var exp := now + PairCodes.CODE_TTL;
              View() == old(View()).(codes := PairCodes.Put(old(pairCodes.entries), code, requester, exp),
                                     hist := old(hist) + [PairCodes.PutEvent(code, requester, exp)])
    {
      pairCodes.PutCode(code, requester, PairCodes.CODE_TTL, now);
      hist := hist + [PairCodes.PutEvent(code, requester, now + PairCodes.CODE_TTL)];
      assert Conns() == old(Conns());
    }

    /** handlePairRequest; `code` is None when no code could be generated. */
    method HandlePairRequest(c: Client, code: Option<string>, now: int)
      requires Valid() && Known(c)
      modifies this`hist, pairCodes, c
      ensures Valid() && View() == DoPairRequest(old(View()), c.id, code, now)
    {
      if code.None? {
        TellClient(c, Error(Internal));
        return;
      }
      assert View().conns[c.id] == c.View();
      KeepCode(code.value, c.deviceId, now);
      TellClient(c, PairCode(code.value));
    }

    method ExpelClient(c: Client, e: ErrorCode)
      requires Valid() && Known(c)
      modifies c`send, c`closed
      ensures View() == Upd(old(View()), c.id, Expelled(old(c.View()), e))
    {
      c.SendErrorAndClose(e);
      assert Conns() == old(Conns())[c.id := Expelled(old(c.View()), e)];
    }

    method HandleAnnounceKey(c: Client, key: string)
      requires Valid() && Known(c)
      modifies db, c
      ensures View() == DoAnnounceKey(old(View()), c.id, key)
    {
      if key == "" {
        TellClient(c, Error(Malformed));
        return;
      }
      var err := db.SetStaticKeyIfUnset(c.deviceId, key);
      if err == Devices.StaticKeyMismatch {
        ExpelClient(c, KeyMismatch);
      } else if err != Devices.NoError {
        TellClient(c, Error(Internal));
      }
    }

    method HandleUnpair(c: Client)
      requires Valid() && Known(c)
      modifies db, c, clients.Values
      ensures View() == DoUnpair(old(View()), c.id)
    {
      assert View().conns[c.id] == c.View();
      var peerId := c.pairedWith;
      db.UnpairDevice(c.deviceId);
      assert Conns() == old(Conns());
      PointClient(c, "", Unpaired(peerId));
      if peerId != "" {
        RepointDevice(peerId, "", Unpaired(c.deviceId));
      }
    }

    ghost method RecordLink(l: Link)
      requires Valid()
      modifies this`links
      ensures Valid() && View() == old(View()).(links := old(links) + [l])
    {
      links := links + [l];
    }

    /** handlePairAccept, once the table has taken the pair: both connections learn their peer. */
    method LinkPeers(c: Client, code: string, requesterId: DeviceId)
      requires Valid() && Known(c)
      modifies c, clients.Values
      ensures View() == Repoint(Point(old(View()), c.id, requesterId, PairComplete(code, requesterId, KeyOf(db.rows, requesterId))),
                                requesterId, c.deviceId, PairComplete(code, c.deviceId, KeyOf(db.rows, c.deviceId)))
    {
      var myKey := KeyOf(db.rows, c.deviceId);
      var requesterKey := KeyOf(db.rows, requesterId);
      PointClient(c, requesterId, PairComplete(code, requesterId, requesterKey));
      RepointDevice(requesterId, c.deviceId, PairComplete(code, c.deviceId, myKey));
    }

    /** handlePairAccept: redeeming the code. */
    method TakeCode(code: string, now: int) returns (requesterId: DeviceId, expired: bool, ok: bool)
      requires Valid()
      modifies this`hist, pairCodes
      ensures Valid() && View() == Redeeming(old(View()), code, now)
      ensures PairCodes.Take(old(pairCodes.entries), code, now).1
              == if ok then PairCodes.Redeemed(requesterId) else if expired then PairCodes.CodeExpired else PairCodes.Unknown
    {
      requesterId, expired, ok := pairCodes.TakeCode(code, now);
      hist := hist + [PairCodes.TakeEvent(code, now)];
      assert Conns() == old(Conns());
    }

    method HandlePairAccept(c: Client, code: string, now: int)
      requires Valid() && Known(c)
      modifies this`hist, this`links, db, pairCodes, c, clients.Values
      ensures Valid() && View() == DoPairAccept(old(View()), c.id, code, now)
    {
      assert View().conns[c.id] == c.View();
      if code == "" {
        TellClient(c, Error(Malformed));
        return;
      }
      var requesterId, expired, ok := TakeCode(code, now);
      if !ok {
        TellClient(c, Error(if expired then ErrorCode.CodeExpired else InvalidCode));
        return;
      }
      if requesterId == c.deviceId {
        TellClient(c, Error(InvalidCode));
        return;
      }
      PairAndLink(c, code, requesterId, |old(hist)|);
    }

    method LinkNow(c: Client, code: string, requesterId: DeviceId, ghost at: nat)
      requires Valid() && Known(c)
      modifies this`links, c, clients.Values
      ensures Valid() && View() == DoLink(old(View()), c.id, code, requesterId, db.rows, at)
    {
      assert View().conns[c.id] == c.View();
      RecordLink(Link(requesterId, c.deviceId, at));
      LinkPeers(c, code, requesterId);
    }

    method PairRows(a: DeviceId, b: DeviceId) returns (err: Devices.DbError)
      requires Valid()
      modifies db
      ensures View() == old(View()).(table := Devices.Pair(old(db.rows), a, b).table)
      ensures err == Devices.Pair(old(db.rows), a, b).err
    {
      err := db.PairDevices(a, b);
      assert Conns() == old(Conns());
    }

    /** handlePairAccept: pairing in the table, and then on the connections. */
    method PairAndLink(c: Client, code: string, requesterId: DeviceId, ghost at: nat)
      requires Valid() && Known(c)
      modifies this`links, db, c, clients.Values
      ensures Valid() && View() == Pairing(old(View()), c.id, code, requesterId, at)
    {
      assert View().conns[c.id] == c.View();
      var err := PairRows(requesterId, c.deviceId);
      if err == Devices.NoError {
        LinkNow(c, code, requesterId, at);
      } else {
        TellClient(c, Error(if err == Devices.AlreadyPaired then ErrorCode.AlreadyPaired else InvalidCode));
      }
    }

    method GreetClient(c: Client, key: string, online: bool)
      requires Valid() && Known(c)
      modifies c
      ensures View() == Upd(old(View()), c.id, Greeted(old(c.View()), key, online))
    {
      c.Greet(key, online);
      assert Conns() == old(Conns())[c.id := Greeted(old(c.View()), key, online)];
    }

    /** sendWelcome. */
    method SendWelcome(c: Client)
      requires Valid() && Known(c)
      modifies c
      ensures View() == DoGreet(old(View()), c.id)
    {
      assert View().conns[c.id] == c.View();
      var p := PeerOf(c.linked);
      GreetClient(c, KeyOf(db.rows, p), p in clients);
    }

    /** The connection handler, up to handing the client to the Register channel. */
    method HandleConnect(id: ConnId, deviceId: DeviceId, token: string, now: int) returns (a: Devices.Admission)
      requires Valid() && id !in all
      modifies this`all, this`waiting
      ensures Valid() && a == Devices.Admit(old(db.rows), deviceId, token, now)
      ensures View() == DoOpen(old(View()), id, deviceId, token, now)
      ensures Grown(old(all))
    {
      if deviceId == "" || token == "" {
        return Devices.BadRequest;
      }
      if deviceId !in db.rows || db.rows[deviceId].token != token {
        return Devices.Unauthorized;
      }
      var device := db.rows[deviceId];
      if device.expiresAt.Some? && now > device.expiresAt.value {
        return Devices.Expired;
      }
      var client := new Client(id, deviceId, device.pairedWith);
      all := all[id := client];
      waiting := waiting + {id};
      assert Conns() == old(Conns())[id := NewConn(deviceId, device.pairedWith)];
      return Devices.Admitted(device.pairedWith);
    }

    /** One round of a client's write loop. */
    method WriteClient(c: Client)
      requires Valid() && Known(c)
      modifies c
      ensures View() == Upd(old(View()), c.id, Wrote(old(c.View())))
    {
      c.WriteNext();
      assert Conns() == old(Conns())[c.id := Wrote(old(c.View()))];
    }

    method HaltClient(c: Client)
      requires Valid() && Known(c)
      modifies c
      ensures View() == Upd(old(View()), c.id, Halted(old(c.View())))
    {
      c.HaltWriting();
      assert Conns() == old(Conns())[c.id := Halted(old(c.View()))];
    }

    // ----- Driving the objects -----

    /** A step of the hub loop or of a write loop. */
    method PerformLifecycle(st: Step)
      requires Valid() && (st.Register? || st.Greet? || st.Unregister? || st.Drop? || st.Write? || st.Halt?)
      modifies this, all.Values
      ensures Valid() && View() == Next(old(View()), st) && all == old(all)
    {
      if st.c in all {
        var c := all[st.c];
        assert View().conns[st.c] == c.View();
        match st
        case Register(_) => if st.c in waiting { RegisterClient(c); }
        case Greet(_) => if !c.greeted { SendWelcome(c); }
        case Unregister(_) => UnregisterClient(c);
        case Drop(_) => CloseClient(c);
        case Write(_) => WriteClient(c);
        case Halt(_) => HaltClient(c);
      }
    }

    /** A frame that a client's read loop has read. */
    method PerformFrame(st: Step)
      requires Valid()
      requires st.AnnounceKey? || st.PairRequest? || st.PairAccept? || st.Unpair? || st.Ping? || st.BinaryFrame?
      modifies this, all.Values, db, pairCodes
      ensures Valid() && View() == Next(old(View()), st) && all == old(all)
    {
      if st.c in all {
        var c := all[st.c];
        match st
        case AnnounceKey(_, key) => HandleAnnounceKey(c, key);
        case PairRequest(_, code, now) => HandlePairRequest(c, code, now);
        case PairAccept(_, code, now) => HandlePairAccept(c, code, now);
        case Unpair(_) => HandleUnpair(c);
        case Ping(_) => TellClient(c, Pong);
        case BinaryFrame(_, payload) => HandleBinary(c, payload);
      }
    }

    method PerformOpen(st: Step)
      requires Valid() && st.Open?
      modifies this`all, this`waiting
      ensures Valid() && View() == Next(old(View()), st) && Grown(old(all))
    {
      if st.c !in all {
        var _ := HandleConnect(st.c, st.id, st.token, st.now);
      }
    }

    method Perform(st: Step)
      requires Valid()
      modifies this, all.Values, db, pairCodes
      ensures Valid() && View() == Next(old(View()), st) && Grown(old(all))
    {
      if st.Open? {
        PerformOpen(st);
      } else if st.Register? || st.Greet? || st.Unregister? || st.Drop? || st.Write? || st.Halt? {
        PerformLifecycle(st);
      } else {
        PerformFrame(st);
      }
    }

    /** Any sequence of steps, on the objects. */
    method RunSteps(steps: seq<Step>)
      requires Valid()
      modifies this, all.Values, db, pairCodes
      ensures Valid() && View() == Run(old(View()), steps) && Grown(old(all))
    {
      assert steps[0..] == steps;
      for i := 0 to |steps|
        invariant Valid() && Grown(old(all)) && Run(View(), steps[i..]) == Run(old(View()), steps)
      {
        assert steps[i..][0] == steps[i] && steps[i..][1..] == steps[i + 1..];
        Perform(steps[i]);
      }
    }
  }
}
