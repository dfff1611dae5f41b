/**
 What the steps of the server do for the devices: who gets in, who is told what, and that an
 envelope for a linked peer is queued and then written. The other results about the server say
 what never goes wrong; these say what happens.
 */
module RelayEffects {
  import opened Core
  import opened Frames
  import Q = SendQueue
  import opened Relay
  import opened RelayHistory
  import Routing = RelayRouting
  import Devices
  import PairCodes

  // ----- One connection -----

  /** Frames that do not fit are dropped or close the connection; the queue holds 256. */
  lemma RoomIsUsed(k: Conn, msg: Control)
    ensures HasRoom(k) <==> !k.queue.closed && |k.queue.frames| < 256
    ensures Told(k, msg) == if HasRoom(k) then k.(queue := Q.Queue(false, k.queue.frames + [Text(msg, false)])) else k
  {
  }

  /** No frame among the first n closes the connection. */
  predicate NoClosing(fs: seq<Frame>, n: nat)
    requires n <= |fs|
  {
    forall i :: 0 <= i < n ==> !(fs[i].Text? && fs[i].closeAfter)
  }

  function Writes(c: ConnId, n: nat): (sts: seq<Step>)
    decreases n
  {
    if n == 0 then [] else [Write(c)] + Writes(c, n - 1)
  }

  function Rounds(k: Conn, n: nat): (r: Conn)
    decreases n
  {
    if n == 0 then k else Rounds(Wrote(k), n - 1)
  }

  lemma {:induction false} WritesAreRounds(s: State, c: ConnId, n: nat)
    requires c in s.conns
    ensures Run(s, Writes(c, n)) == Upd(s, c, Rounds(s.conns[c], n))
    decreases n
  {
    if n == 0 {
      assert s.conns[c := s.conns[c]] == s.conns;
    } else {
      var s1 := Upd(s, c, Wrote(s.conns[c]));
      assert Next(s, Write(c)) == s1;
      assert ([Write(c)] + Writes(c, n - 1))[1..] == Writes(c, n - 1);
      WritesAreRounds(s1, c, n - 1);
      assert s1.conns[c := Rounds(s1.conns[c], n - 1)] == s.conns[c := Rounds(s1.conns[c], n - 1)];
    }
  }

  lemma {:induction false} RoundsDrain(k: Conn, n: nat)
    requires n <= |k.queue.frames| && !k.stopped && NoClosing(k.queue.frames, n)
    ensures Rounds(k, n) == k.(queue := k.queue.(frames := k.queue.frames[n..]), written := k.written + k.queue.frames[..n])
    decreases n
  {
    var fs := k.queue.frames;
    if n == 0 {
      assert fs[0..] == fs && k.written + fs[..0] == k.written;
    } else {
      RoundsDrain(Wrote(k), n - 1);
      assert fs[1..][n - 1..] == fs[n..];
      assert (k.written + [fs[0]]) + fs[1..][..n - 1] == k.written + fs[..n];
    }
  }

  /** The write loop writes what is queued, oldest first. */
  lemma WritesDrain(s: State, c: ConnId, n: nat)
    requires c in s.conns && n <= |s.conns[c].queue.frames| && !s.conns[c].stopped && NoClosing(s.conns[c].queue.frames, n)
    ensures var k := s.conns[c];
            Run(s, Writes(c, n))
            == s.(conns := s.conns[c := k.(queue := k.queue.(frames := k.queue.frames[n..]),
                                           written := k.written + k.queue.frames[..n])])
  {
    WritesAreRounds(s, c, n);
    RoundsDrain(s.conns[c], n);
  }

  /** A closing frame is written last: the write loop stops after it. */
  lemma ClosingFrameIsLast(s: State, c: ConnId, e: ErrorCode)
    requires c in s.conns && !s.conns[c].stopped
    requires s.conns[c].queue.frames != [] && s.conns[c].queue.frames[0] == Text(Error(e), true)
    ensures var k := Next(s, Write(c)).conns[c]; k.stopped && k.written == s.conns[c].written + [Text(Error(e), true)]
    ensures Next(Next(s, Write(c)), Write(c)).conns[c].written == Next(s, Write(c)).conns[c].written
  {
  }

  // ----- Envelopes -----

  /** Nothing but one connection differs. */
  predicate OnlyConn(s: State, s': State, c: ConnId)
  {
    && s'.conns.Keys == s.conns.Keys && s'.registry == s.registry && s'.table == s.table
    && forall j :: j in s.conns && j != c ==> s'.conns[j] == s.conns[j]
  }

  /** Route: an envelope is queued for the peer's connection if there is room, and otherwise closes it. */
  lemma EnvelopeIsQueued(s: State, c: ConnId, k: ConnId, payload: Payload)
    requires c in s.conns && s.conns[c].peer != "" && Lookup(s, s.conns[c].peer) == Some(k)
    ensures var s' := Next(s, BinaryFrame(c, payload));
            && OnlyConn(s, s', k)
            && s'.conns[k].queue == (if HasRoom(s.conns[k]) then Q.Queue(false, s.conns[k].queue.frames + [Binary(payload)])
                                     else Q.Queue(true, s.conns[k].queue.frames))
            && s'.conns[k].written == s.conns[k].written && s'.conns[k].stopped == s.conns[k].stopped
  {
  }

  /** An envelope without a connected peer changes nothing. */
  lemma EnvelopeIsDiscarded(s: State, c: ConnId, payload: Payload)
    requires c in s.conns && (s.conns[c].peer == "" || Lookup(s, s.conns[c].peer).None?)
    ensures Next(s, BinaryFrame(c, payload)) == s
  {
  }

  /** An envelope reaches the peer: if the peer's connection has room, is being written and has no closing frame queued,
      writing what is queued writes the envelope, verbatim and last. */
  lemma EnvelopeArrives(s: State, c: ConnId, k: ConnId, payload: Payload)
    requires c in s.conns && s.conns[c].peer != "" && Lookup(s, s.conns[c].peer) == Some(k)
    requires Flowing(s, k)
    ensures var n := |s.conns[k].queue.frames| + 1;
            var s' := Run(Next(s, BinaryFrame(c, payload)), Writes(k, n));
            && k in s'.conns && s'.conns[k].queue == Q.Queue(false, []) && !s'.conns[k].stopped
            && s'.conns[k].written == s.conns[k].written + s.conns[k].queue.frames + [Binary(payload)]
  {
    EnvelopeIsQueued(s, c, k, payload);
    var s1, n := Next(s, BinaryFrame(c, payload)), |s.conns[k].queue.frames| + 1;
    WritesDrain(s1, k, n);
    var fs := s1.conns[k].queue.frames;
    assert fs[n..] == [] && fs[..n] == fs;
    assert s.conns[k].written + fs == s.conns[k].written + s.conns[k].queue.frames + [Binary(payload)];
  }

  /** Registered connections of two devices that the table links. */
  predicate Linked(s: State, c: ConnId, k: ConnId)
  {
    && Routing.Current(s, c) && Routing.Current(s, k) && s.conns[c].device in s.table
    && s.table[s.conns[c].device].pairedWith == Some(s.conns[k].device)
  }

  /** The connection has room, is being written, and has no closing frame queued. */
  predicate Flowing(s: State, k: ConnId)
  {
    k in s.conns && HasRoom(s.conns[k]) && !s.conns[k].stopped && NoClosing(s.conns[k].queue.frames, |s.conns[k].queue.frames|)
  }

  /** So linked devices reach each other, in every state of an in-band run. */
  lemma LinkedDeviceIsReached(table: Devices.Table, sts: seq<Step>, c: ConnId, k: ConnId, payload: Payload)
    requires Devices.Symmetric(table) && Routing.InBandRun(Boot(table), sts)
    requires Linked(Run(Boot(table), sts), c, k) && Flowing(Run(Boot(table), sts), k)
    ensures var s := Run(Boot(table), sts);
            var s' := Run(Next(s, BinaryFrame(c, payload)), Writes(k, |s.conns[k].queue.frames| + 1));
            k in s'.conns && s'.conns[k].written == s.conns[k].written + s.conns[k].queue.frames + [Binary(payload)]
  {
    var s := Run(Boot(table), sts);
    Routing.BootAgrees(table);
    Routing.RoutingAgreement(Boot(table), sts);
    var me := s.conns[c].device;
    assert Routing.Faces(s)[s.registry[me]] == Routing.FaceOf(s.conns[c]);
    assert Routing.Faces(s)[k] == Routing.FaceOf(s.conns[k]);
    EnvelopeArrives(s, c, k, payload);
  }

  // ----- Closed connections -----

  predicate SameQueue(s: State, s': State, c: ConnId)
    requires c in s.conns
  {
    c in s'.conns && s'.conns[c].queue == s.conns[c].queue
  }

  lemma PointKeepsClosed(s: State, a: ConnId, p: DeviceId, msg: Control, c: ConnId)
    requires a in s.conns && c in s.conns && s.conns[c].queue.closed
    ensures SameQueue(s, Point(s, a, p, msg), c) && SameQueue(s, Tell(s, a, msg), c)
  {
  }

  lemma RepointKeepsClosed(s: State, d: DeviceId, p: DeviceId, msg: Control, c: ConnId)
    requires c in s.conns && s.conns[c].queue.closed
    ensures SameQueue(s, Repoint(s, d, p, msg), c)
  {
    if Lookup(s, d).Some? { PointKeepsClosed(s, Lookup(s, d).value, p, msg, c); }
  }

  lemma NotifyKeepsClosed(s: State, target: DeviceId, about: DeviceId, online: bool, c: ConnId)
    requires c in s.conns && s.conns[c].queue.closed
    ensures SameQueue(s, Notify(s, target, about, online), c)
  {
    if Lookup(s, target).Some? {
      PointKeepsClosed(s.(notices := s.notices + [Notice(target, about, online)]), Lookup(s, target).value, "",
                       PeerStatus(about, online), c);
    }
  }

  lemma HubKeepsClosed(s: State, a: ConnId, c: ConnId)
    requires a in s.conns && c in s.conns && s.conns[c].queue.closed
    ensures SameQueue(s, DoRegister(s, a), c) && SameQueue(s, DoUnregister(s, a), c)
  {
    var k, s1 := s.conns[a], Enter(s, a);
    assert SameQueue(s, s1, c);
    NotifyKeepsClosed(s1, k.peer, k.device, true, c);
    NotifyKeepsClosed(s.(registry := s.registry - {k.device}), k.peer, k.device, false, c);
  }

  lemma LinkKeepsClosed(s: State, a: ConnId, code: string, requester: DeviceId, table: Devices.Table, at: nat, c: ConnId)
    requires a in s.conns && c in s.conns && s.conns[c].queue.closed
    ensures SameQueue(s, DoLink(s, a, code, requester, table, at), c)
  {
    var me := s.conns[a].device;
    var s1 := s.(table := table, links := s.links + [Link(requester, me, at)]);
    var msg := PairComplete(code, requester, KeyOf(table, requester));
    PointKeepsClosed(s1, a, requester, msg, c);
    RepointKeepsClosed(Point(s1, a, requester, msg), requester, me, PairComplete(code, me, KeyOf(table, me)), c);
  }

  lemma AcceptKeepsClosed(s: State, a: ConnId, code: string, now: int, c: ConnId)
    requires a in s.conns && c in s.conns && s.conns[c].queue.closed
    ensures SameQueue(s, DoPairAccept(s, a, code, now), c)
  {
    var taken, s1 := PairCodes.Take(s.codes, code, now).1, Redeeming(s, code, now);
    if taken.Redeemed? {
      LinkKeepsClosed(s1, a, code, taken.requester, Devices.Pair(s.table, taken.requester, s.conns[a].device).table, |s.hist|, c);
    }
  }

  lemma UnpairKeepsClosed(s: State, a: ConnId, c: ConnId)
    requires a in s.conns && c in s.conns && s.conns[c].queue.closed
    ensures SameQueue(s, DoUnpair(s, a), c)
  {
    var me, p := s.conns[a].device, s.conns[a].peer;
    var s1 := s.(table := Devices.Unpair(s.table, me));
    PointKeepsClosed(s1, a, "", Unpaired(p), c);
    RepointKeepsClosed(Point(s1, a, "", Unpaired(p)), p, "", Unpaired(me), c);
  }

  /** No step but its own write loop changes the queue of a closed connection. */
  lemma ClosedTakesNothing(s: State, st: Step, c: ConnId)
    requires c in s.conns && s.conns[c].queue.closed && !((st.Write? || st.Halt?) && st.c == c)
    ensures SameQueue(s, Next(s, st), c)
  {
    if st.c in s.conns && !st.Open? {
      if st.Register? || st.Unregister? {
        HubKeepsClosed(s, st.c, c);
      } else if st.PairAccept? {
        AcceptKeepsClosed(s, st.c, st.code, st.now, c);
      } else if st.Unpair? {
        UnpairKeepsClosed(s, st.c, c);
      } else {
        OtherKeepsClosed(s, st, c);
      }
    }
  }

  lemma OtherKeepsClosed(s: State, st: Step, c: ConnId)
    requires c in s.conns && s.conns[c].queue.closed && st.c in s.conns
    requires st.Greet? || st.Drop? || st.AnnounceKey? || st.PairRequest? || st.Ping? || st.BinaryFrame?
             || ((st.Write? || st.Halt?) && st.c != c)
    ensures SameQueue(s, Next(s, st), c)
  {
  }

  /** A connection that ends is closed, and then takes nothing more; a ping is answered. */
  lemma DropCloses(s: State, c: ConnId)
    requires c in s.conns
    ensures Next(s, Drop(c)).conns[c] == s.conns[c].(queue := Q.Queue(true, s.conns[c].queue.frames))
    ensures HasRoom(s.conns[c]) ==> Next(s, Ping(c)).conns[c].queue.frames == s.conns[c].queue.frames + [Text(Pong, false)]
  {
  }

  /** A write loop that gives up loses the frame in its hand and writes nothing more. */
  lemma HaltStops(s: State, c: ConnId)
    requires c in s.conns && !s.conns[c].stopped
    ensures var k, k' := s.conns[c], Next(s, Halt(c)).conns[c];
            && k'.stopped && k'.written == k.written && k'.queue.closed == k.queue.closed
            && k'.queue.frames == if k.queue.frames == [] then [] else k.queue.frames[1..]
    ensures Next(Next(s, Halt(c)), Write(c)).conns[c].written == s.conns[c].written
  {
  }

  /** Registering a connection closes the older one of the same device and puts the new one in its place. */
  lemma OlderConnectionIsClosed(s: State, c: ConnId, prior: ConnId)
    requires c in s.conns && c in s.waiting && Lookup(s, s.conns[c].device) == Some(prior)
    ensures var s' := Next(s, Register(c));
            && Lookup(s', s.conns[c].device) == Some(c)
            && prior in s'.conns && s'.conns[prior].queue.closed && s'.conns[prior].written == s.conns[prior].written
  {
  }

  // ----- Who gets in -----

  /** The caller names a device, holds its token, and the row has not expired. */
  predicate RightCaller(t: Devices.Table, id: DeviceId, token: string, now: int)
  {
    && id != "" && token != "" && id in t && t[id].token == token
    && (t[id].expiresAt.Some? ==> now <= t[id].expiresAt.value)
  }

  /** A connect opens a connection exactly for the right caller; it is the device's, routes to the paired device of the row
      and has nothing queued. Anyone else changes nothing. */
  lemma ConnectIffRightCaller(s: State, c: ConnId, id: DeviceId, token: string, now: int)
    requires c !in s.conns
    ensures var s' := Next(s, Step.Open(c, id, token, now));
            && (c in s'.conns <==> RightCaller(s.table, id, token, now))
            && (c !in s'.conns ==> s' == s)
            && (c in s'.conns ==>
                  && s'.conns == s.conns[c := s'.conns[c]] && c in s'.waiting
                  && s'.conns[c].device == id && s'.conns[c].peer == PeerOf(s.table[id].pairedWith)
                  && s'.conns[c].queue == Q.Queue(false, []) && !s'.conns[c].stopped && s'.conns[c].written == [])
  {
  }

  /** The reason given to a caller that is turned away. */
  lemma RefusalNamesReason(t: Devices.Table, id: DeviceId, token: string, now: int)
    ensures var a := Devices.Admit(t, id, token, now);
            && (a.Admitted? <==> RightCaller(t, id, token, now))
            && (a == Devices.Expired <==> id != "" && token != "" && id in t && t[id].token == token && !RightCaller(t, id, token, now))
            && (a == Devices.BadRequest <==> id == "" || token == "")
  {
  }

  /** The device of each connection. */
  function DevicesOf(s: State): (r: map<ConnId, DeviceId>)
  {
    map c | c in s.conns :: s.conns[c].device
  }

  /** The connections are the same, and each belongs to the same device. */
  predicate SameDevices(s: State, s': State)
  {
    DevicesOf(s') == DevicesOf(s)
  }

  lemma UpdSameDevices(s: State, c: ConnId, k: Conn)
    requires c in s.conns && k.device == s.conns[c].device
    ensures SameDevices(s, Upd(s, c, k))
  {
  }

  lemma PointSameDevices(s: State, c: ConnId, p: DeviceId, msg: Control)
    requires c in s.conns
    ensures SameDevices(s, Point(s, c, p, msg)) && SameDevices(s, Tell(s, c, msg))
  {
    UpdSameDevices(s, c, Told(s.conns[c].(peer := p), msg));
    UpdSameDevices(s, c, Told(s.conns[c], msg));
  }

  lemma RepointSameDevices(s: State, d: DeviceId, p: DeviceId, msg: Control)
    ensures SameDevices(s, Repoint(s, d, p, msg))
  {
    if Lookup(s, d).Some? { PointSameDevices(s, Lookup(s, d).value, p, msg); }
  }

  lemma NotifySameDevices(s: State, target: DeviceId, about: DeviceId, online: bool)
    ensures SameDevices(s, Notify(s, target, about, online))
  {
    if Lookup(s, target).Some? {
      PointSameDevices(s.(notices := s.notices + [Notice(target, about, online)]), Lookup(s, target).value, "", PeerStatus(about, online));
    }
  }

  lemma HubSameDevices(s: State, c: ConnId)
    requires c in s.conns
    ensures SameDevices(s, DoRegister(s, c)) && SameDevices(s, DoUnregister(s, c))
  {
    var k := s.conns[c];
    if Lookup(s, k.device).Some? {
      var prior := Lookup(s, k.device).value;
      UpdSameDevices(s, prior, Shut(s.conns[prior]));
    }
    assert SameDevices(s, Enter(s, c));
    NotifySameDevices(Enter(s, c), k.peer, k.device, true);
    NotifySameDevices(s.(registry := s.registry - {k.device}), k.peer, k.device, false);
  }

  lemma LinkSameDevices(s: State, c: ConnId, code: string, requester: DeviceId, table: Devices.Table, at: nat)
    requires c in s.conns
    ensures SameDevices(s, DoLink(s, c, code, requester, table, at))
  {
    var me := s.conns[c].device;
    var s1 := s.(table := table, links := s.links + [Link(requester, me, at)]);
    var msg := PairComplete(code, requester, KeyOf(table, requester));
    PointSameDevices(s1, c, requester, msg);
    RepointSameDevices(Point(s1, c, requester, msg), requester, me, PairComplete(code, me, KeyOf(table, me)));
  }

  lemma PairingSameDevices(s: State, c: ConnId, code: string, requester: DeviceId, at: nat)
    requires c in s.conns
    ensures SameDevices(s, Pairing(s, c, code, requester, at))
  {
    LinkSameDevices(s, c, code, requester, Devices.Pair(s.table, requester, s.conns[c].device).table, at);
    PointSameDevices(s, c, "", Error(ErrorCode.AlreadyPaired));
    PointSameDevices(s, c, "", Error(InvalidCode));
  }

  lemma AcceptSameDevices(s: State, c: ConnId, code: string, now: int)
    requires c in s.conns
    ensures SameDevices(s, DoPairAccept(s, c, code, now))
  {
    var taken, s1 := PairCodes.Take(s.codes, code, now).1, Redeeming(s, code, now);
    PointSameDevices(s, c, "", Error(Malformed));
    PointSameDevices(s1, c, "", Error(ErrorCode.CodeExpired));
    PointSameDevices(s1, c, "", Error(InvalidCode));
    if taken.Redeemed? { PairingSameDevices(s1, c, code, taken.requester, |s.hist|); }
  }

  lemma UnpairSameDevices(s: State, c: ConnId)
    requires c in s.conns
    ensures SameDevices(s, DoUnpair(s, c))
  {
    var me, p := s.conns[c].device, s.conns[c].peer;
    var s1 := s.(table := Devices.Unpair(s.table, me));
    PointSameDevices(s1, c, "", Unpaired(p));
    RepointSameDevices(Point(s1, c, "", Unpaired(p)), p, "", Unpaired(me));
  }

  lemma KeySameDevices(s: State, c: ConnId, key: string)
    requires c in s.conns
    ensures SameDevices(s, DoAnnounceKey(s, c, key))
  {
    PointSameDevices(s, c, "", Error(Malformed));
    PointSameDevices(s, c, "", Error(Internal));
    UpdSameDevices(s, c, Expelled(s.conns[c], KeyMismatch));
  }

  lemma BinarySameDevices(s: State, c: ConnId, x: Payload)
    requires c in s.conns
    ensures SameDevices(s, DoBinary(s, c, x))
  {
    if Lookup(s, s.conns[c].peer).Some? {
      var k := Lookup(s, s.conns[c].peer).value;
      UpdSameDevices(s, k, Offered(s.conns[k], x));
    }
  }

  lemma RequestSameDevices(s: State, c: ConnId, code: Option<string>, now: int)
    requires c in s.conns
    ensures SameDevices(s, DoPairRequest(s, c, code, now))
  {
    UpdSameDevices(s, c, Told(s.conns[c], match code { case None => Error(Internal) case Some(x) => PairCode(x) }));
  }

  lemma OtherSameDevices(s: State, st: Step)
    requires st.c in s.conns && (st.Greet? || st.Drop? || st.Ping? || st.Write? || st.Halt?)
    ensures SameDevices(s, Next(s, st))
  {
    var k := s.conns[st.c];
    var p := PeerOf(k.linked);
    UpdSameDevices(s, st.c, Greeted(k, KeyOf(s.table, p), Lookup(s, p).Some?));
    UpdSameDevices(s, st.c, Shut(k));
    UpdSameDevices(s, st.c, Told(k, Pong));
    UpdSameDevices(s, st.c, Wrote(k));
    UpdSameDevices(s, st.c, Halted(k));
  }

  /** No step but a connect adds a connection, and none changes which device a connection belongs to. */
  lemma NextSameDevices(s: State, st: Step)
    requires !st.Open? || st.c in s.conns
    ensures SameDevices(s, Next(s, st))
  {
    if st.c in s.conns && !st.Open? {
      if st.Register? || st.Unregister? {
        HubSameDevices(s, st.c);
      } else if st.PairAccept? {
        AcceptSameDevices(s, st.c, st.code, st.now);
      } else if st.Unpair? {
        UnpairSameDevices(s, st.c);
      } else if st.AnnounceKey? {
        KeySameDevices(s, st.c, st.key);
      } else if st.PairRequest? {
        RequestSameDevices(s, st.c, st.made, st.now);
      } else if st.BinaryFrame? {
        BinarySameDevices(s, st.c, st.payload);
      } else {
        OtherSameDevices(s, st);
      }
    }
  }

  /** Step i of the run opened c for the device with the token that the device's row held at that moment. */
  predicate OpenedAt(table: Devices.Table, sts: seq<Step>, i: nat, c: ConnId, d: DeviceId)
  {
    && i < |sts| && sts[i].Open? && sts[i].c == c && sts[i].id == d
    && RightCaller(Run(Boot(table), sts[..i]).table, d, sts[i].token, sts[i].now)
  }

  lemma {:induction false} RunSplit(s: State, xs: seq<Step>, ys: seq<Step>)
    ensures Run(s, xs + ys) == Run(Run(s, xs), ys)
    decreases |xs|
  {
    if xs == [] {
      assert xs + ys == ys;
    } else {
      assert (xs + ys)[1..] == xs[1..] + ys;
      RunSplit(Next(s, xs[0]), xs[1..], ys);
    }
  }

  lemma RunSnoc(s: State, sts: seq<Step>, st: Step)
    ensures Run(s, sts + [st]) == Next(Run(s, sts), st)
  {
    RunSplit(s, sts, [st]);
    assert [st][1..] == [];
  }

  /** Where a connection comes from: it was there before, for the same device, or this step opened it. */
  lemma StepOrigin(s: State, st: Step, s': State, c: ConnId)
    requires s' == Next(s, st) && c in s'.conns
    ensures c in s.conns ==> s'.conns[c].device == s.conns[c].device
    ensures c !in s.conns ==>
              st.Open? && st.c == c && st.id == s'.conns[c].device && RightCaller(s.table, st.id, st.token, st.now)
  {
    if st.Open? && st.c !in s.conns {
      ConnectIffRightCaller(s, st.c, st.id, st.token, st.now);
    } else {
      NextSameDevices(s, st);
      assert DevicesOf(s').Keys == DevicesOf(s).Keys && DevicesOf(s')[c] == DevicesOf(s)[c];
    }
  }

  /** Every connection of a run was opened by its device's token. */
  lemma {:induction false} EveryConnectionWasAdmitted(table: Devices.Table, sts: seq<Step>, c: ConnId) returns (i: nat)
    requires c in Run(Boot(table), sts).conns
    ensures OpenedAt(table, sts, i, c, Run(Boot(table), sts).conns[c].device)
    decreases |sts|
  {
    if sts == [] {
      assert false;
    } else {
      var n := |sts| - 1;
      var s, s' := Run(Boot(table), sts[..n]), Run(Boot(table), sts);
      assert sts == sts[..n] + [sts[n]];
      RunSnoc(Boot(table), sts[..n], sts[n]);
      StepOrigin(s, sts[n], s', c);
      if c in s.conns {
        i := EveryConnectionWasAdmitted(table, sts[..n], c);
        assert sts[..n][..i] == sts[..i];
      } else {
        i := n;
      }
    }
  }

  // ----- Presence, as the peer sees it -----

  /** Registering a device tells its connected peer, and unregistering its current connection does too. */
  lemma RegisterTells(s: State, c: ConnId, k: ConnId)
    requires c in s.conns && c in s.waiting
    requires var d, p := s.conns[c].device, s.conns[c].peer; p != "" && p != d && Lookup(s, p) == Some(k) && Lookup(s, d) != Some(k)
    requires HasRoom(s.conns[k])
    ensures var s' := Next(s, Register(c));
            && k in s'.conns && !s'.conns[k].queue.closed
            && s'.conns[k].queue.frames == s.conns[k].queue.frames + [Text(PeerStatus(s.conns[c].device, true), false)]
  {
    var s1 := Enter(s, c);
    assert Lookup(s1, s.conns[c].peer) == Some(k) && s1.conns[k] == s.conns[k];
  }

  lemma UnregisterTells(s: State, c: ConnId, k: ConnId)
    requires c in s.conns && Lookup(s, s.conns[c].device) == Some(c)
    requires var d, p := s.conns[c].device, s.conns[c].peer; p != "" && p != d && Lookup(s, p) == Some(k)
    requires HasRoom(s.conns[k])
    ensures var s' := Next(s, Unregister(c));
            && s.conns[c].device !in s'.registry && k in s'.conns && !s'.conns[k].queue.closed
            && s'.conns[k].queue.frames == s.conns[k].queue.frames + [Text(PeerStatus(s.conns[c].device, false), false)]
  {
    var s1 := s.(registry := s.registry - {s.conns[c].device});
    assert Lookup(s1, s.conns[c].peer) == Some(k);
  }

  /** What a step of the hub loop adds to the queue of connection k. */
  function HubFrames(s: State, st: Step, k: ConnId): (fs: seq<Frame>)
  {
    var s' := Next(s, st);
    if (st.Register? || st.Unregister?) && k in s.conns && k in s'.conns && s.conns[k].queue.frames <= s'.conns[k].queue.frames
    then s'.conns[k].queue.frames[|s.conns[k].queue.frames|..] else []
  }

  function AllHubFrames(s: State, sts: seq<Step>, k: ConnId): (fs: seq<Frame>)
    decreases |sts|
  {
    if sts == [] then [] else HubFrames(s, sts[0], k) + AllHubFrames(Next(s, sts[0]), sts[1..], k)
  }

  /** The last peer_status about d among some frames. */
  function LastStatus(fs: seq<Frame>, d: DeviceId): (r: Option<bool>)
  {
    if fs == [] then None
    else
      var f := fs[|fs| - 1];
      if f.Text? && f.msg.PeerStatus? && f.msg.peer == d then Some(f.msg.online) else LastStatus(fs[..|fs| - 1], d)
  }

  lemma {:induction false} LastStatusConcat(a: seq<Frame>, b: seq<Frame>, d: DeviceId)
    ensures LastStatus(a + b, d) == if LastStatus(b, d).Some? then LastStatus(b, d) else LastStatus(a, d)
    decreases |b|
  {
    if b == [] {
      assert a + b == a;
    } else {
      assert (a + b)[..|a + b| - 1] == a + b[..|b| - 1];
      LastStatusConcat(a, b[..|b| - 1], d);
    }
  }

  /** k is the registered connection of p throughout, and no notice of the hub loop is dropped for want of room. */
  predicate Heard(s: State, sts: seq<Step>, p: DeviceId, d: DeviceId, k: ConnId)
    decreases |sts|
  {
    && Lookup(s, p) == Some(k) && Lookup(s, d) != Some(k)
    && (sts == [] ||
        (&& (sts[0].Register? || sts[0].Unregister? ==> HasRoom(s.conns[k]))
         && Heard(Next(s, sts[0]), sts[1..], p, d, k)))
  }

  /** What telling the target does to the queue of k. */
  lemma NotifyFrames(s: State, target: DeviceId, about: DeviceId, online: bool, k: ConnId)
    requires k in s.conns
    ensures var s', q := Notify(s, target, about, online), s.conns[k].queue;
            && k in s'.conns
            && s'.conns[k].queue == if Lookup(s, target) == Some(k) && HasRoom(s.conns[k])
                                    then q.(frames := q.frames + [Text(PeerStatus(about, online), false)]) else q
  {
  }

  lemma OneStatus(about: DeviceId, online: bool, d: DeviceId)
    ensures LastStatus([], d) == None
    ensures LastStatus([Text(PeerStatus(about, online), false)], d) == if about == d then Some(online) else None
  {
    var fs := [Text(PeerStatus(about, online), false)];
    assert fs[..0] == [];
  }

  lemma OneNotice(target: DeviceId, about: DeviceId, online: bool, p: DeviceId, d: DeviceId)
    ensures LastNotice([], p, d) == None
    ensures LastNotice([Notice(target, about, online)], p, d) == if target == p && about == d then Some(online) else None
  {
    var ns := [Notice(target, about, online)];
    assert ns[..0] == [];
  }

  lemma RegisterIsSeen(s: State, c: ConnId, p: DeviceId, d: DeviceId, k: ConnId)
    requires c in s.conns && c in s.waiting && p != d && Watched(s, p, d)
    requires Lookup(s, p) == Some(k) && Lookup(s, d) != Some(k) && HasRoom(s.conns[k])
    requires Lookup(DoRegister(s, c), p) == Some(k)
    ensures LastStatus(HubFrames(s, Register(c), k), d) == LastNotice(Since(s, DoRegister(s, c)), p, d)
  {
    var x, s1 := s.conns[c], Enter(s, c);
    RegisterIssues(s, c);
    OneStatus(x.device, true, d);
    OneNotice(x.peer, x.device, true, p, d);
    NotifyFrames(s1, x.peer, x.device, true, k);
    assert s1.conns[k].queue.frames == s.conns[k].queue.frames;
    var q := s.conns[k].queue.frames;
    assert (q + [Text(PeerStatus(x.device, true), false)])[|q|..] == [Text(PeerStatus(x.device, true), false)] && q[|q|..] == [];
  }

  lemma UnregisterIsSeen(s: State, c: ConnId, p: DeviceId, d: DeviceId, k: ConnId)
    requires c in s.conns && p != d && Watched(s, p, d)
    requires Lookup(s, p) == Some(k) && Lookup(s, d) != Some(k) && HasRoom(s.conns[k])
    requires Lookup(DoUnregister(s, c), p) == Some(k)
    ensures LastStatus(HubFrames(s, Unregister(c), k), d) == LastNotice(Since(s, DoUnregister(s, c)), p, d)
  {
    var x := s.conns[c];
    UnregisterIssues(s, c);
    OneStatus(x.device, false, d);
    OneNotice(x.peer, x.device, false, p, d);
    NotifyFrames(s.(registry := s.registry - {x.device}), x.peer, x.device, false, k);
    var q := s.conns[k].queue.frames;
    assert (q + [Text(PeerStatus(x.device, false), false)])[|q|..] == [Text(PeerStatus(x.device, false), false)] && q[|q|..] == [];
  }

  lemma StepIsSeen(s: State, st: Step, p: DeviceId, d: DeviceId, k: ConnId)
    requires p != d && Watched(s, p, d) && Lookup(s, p) == Some(k) && Lookup(s, d) != Some(k) && Lookup(Next(s, st), p) == Some(k)
    requires st.Register? || st.Unregister? ==> HasRoom(s.conns[k])
    ensures LastStatus(HubFrames(s, st, k), d) == LastNotice(Since(s, Next(s, st)), p, d)
  {
    if st.Register? && st.c in s.conns && st.c in s.waiting {
      RegisterIsSeen(s, st.c, p, d, k);
    } else if st.Unregister? && st.c in s.conns {
      UnregisterIsSeen(s, st.c, p, d, k);
    } else {
      if !st.Register? && !st.Unregister? { OthersAreSilent(s, st); }
      OneStatus(d, true, d);
      OneNotice(p, d, true, p, d);
      assert Since(s, Next(s, st)) == [] && HubFrames(s, st, k) == [];
    }
  }

  lemma SeenCompose(s: State, m: State, s': State, fs: seq<Frame>, gs: seq<Frame>, p: DeviceId, d: DeviceId)
    requires s.notices <= m.notices <= s'.notices
    requires LastStatus(fs, d) == LastNotice(Since(s, m), p, d) && LastStatus(gs, d) == LastNotice(Since(m, s'), p, d)
    ensures LastStatus(fs + gs, d) == LastNotice(Since(s, s'), p, d)
  {
    assert Since(s, s') == Since(s, m) + Since(m, s');
    LastNoticeConcat(Since(s, m), Since(m, s'), p, d);
    LastStatusConcat(fs, gs, d);
  }

  lemma {:induction false} FramesFollowNotices(s: State, sts: seq<Step>, p: DeviceId, d: DeviceId, k: ConnId)
    requires p != d && WatchedRun(s, sts, p, d) && Heard(s, sts, p, d, k)
    ensures s.notices <= Run(s, sts).notices
    ensures LastStatus(AllHubFrames(s, sts, k), d) == LastNotice(Since(s, Run(s, sts)), p, d)
    decreases |sts|
  {
    if sts == [] {
      assert Since(s, s) == [];
    } else {
      var m := Next(s, sts[0]);
      StepIsSeen(s, sts[0], p, d, k);
      NextTracks(s, sts[0], p, d);
      FramesFollowNotices(m, sts[1..], p, d, k);
      SeenCompose(s, m, Run(m, sts[1..]), HubFrames(s, sts[0], k), AllHubFrames(m, sts[1..], k), p, d);
    }
  }

  /** Presence as the peer sees it: over any run in which p stays connected on k and the live connections of d keep p as
      peer, the last peer_status about d that the hub loop queued for p says whether d is connected now; if there was
      none, d is connected now exactly if it was. */
  lemma PresenceIsSeen(s: State, sts: seq<Step>, p: DeviceId, d: DeviceId, k: ConnId)
    requires p != d && WatchedRun(s, sts, p, d) && Heard(s, sts, p, d, k)
    ensures match LastStatus(AllHubFrames(s, sts, k), d)
            case Some(online) => online == (d in Run(s, sts).registry)
            case None => (d in s.registry) == (d in Run(s, sts).registry)
  {
    Presence(s, sts, p, d);
    FramesFollowNotices(s, sts, p, d, k);
  }

  // ----- Welcome -----

  /** A new connection is welcomed with its paired device and that device's key, and told whether it is connected. */
  lemma WelcomeIsQueued(s: State, c: ConnId)
    requires c in s.conns && !s.conns[c].greeted && s.conns[c].queue == Q.Queue(false, [])
    ensures var k, fs := s.conns[c], Next(s, Greet(c)).conns[c].queue.frames;
            match k.linked
            case None => fs == [Text(Welcome(k.device, []), false)]
            case Some(p) =>
              var key := if p in s.table then s.table[p].staticKey else "";
              fs == [Text(Welcome(k.device, [(p, key)]), false), Text(PeerStatus(p, Lookup(s, p).Some?), false)]
  {
  }

  /** It is welcomed once. */
  lemma WelcomeIsOnce(s: State, c: ConnId)
    requires c in s.conns
    ensures Next(Next(s, Greet(c)), Greet(c)) == Next(s, Greet(c))
  {
  }

  // ----- What is malformed or fails -----

  /** An empty key is malformed; a key for a device without a row, and a code that cannot be made, are internal errors. The
      connection is told, and nothing else happens. */
  lemma ErrorsAreReported(s: State, c: ConnId, key: string, now: int)
    requires c in s.conns && HasRoom(s.conns[c])
    ensures var told := (e: ErrorCode) =>
              s.(conns := s.conns[c := s.conns[c].(queue := Q.Queue(false, s.conns[c].queue.frames + [Text(Error(e), false)]))]);
            && Next(s, AnnounceKey(c, "")) == told(Malformed)
            && (key != "" && s.conns[c].device !in s.table ==> Next(s, AnnounceKey(c, key)) == told(Internal))
            && Next(s, PairRequest(c, None, now)) == told(Internal)
  {
  }

  // ----- Announcing a key -----

  /** The first key announced for a device is stored, and announcing it again changes nothing. */
  lemma FirstKeyIsStored(s: State, c: ConnId, key: string)
    requires c in s.conns && key != "" && s.conns[c].device in s.table
    requires s.table[s.conns[c].device].staticKey in {"", key}
    ensures var d, s' := s.conns[c].device, Next(s, AnnounceKey(c, key));
            s' == s.(table := s.table[d := s.table[d].(staticKey := key)])
  {
    assert s.table[s.conns[c].device].staticKey == key
           ==> s.table[s.conns[c].device := s.table[s.conns[c].device].(staticKey := key)] == s.table;
  }

  /** Any other key is refused and expels the connection: what was queued is written, then the error, then nothing more. */
  lemma OtherKeyExpels(s: State, c: ConnId, key: string)
    requires c in s.conns && key != "" && s.conns[c].device in s.table
    requires s.table[s.conns[c].device].staticKey != "" && s.table[s.conns[c].device].staticKey != key
    requires HasRoom(s.conns[c]) && !s.conns[c].stopped && NoClosing(s.conns[c].queue.frames, |s.conns[c].queue.frames|)
    ensures var s1, n := Next(s, AnnounceKey(c, key)), |s.conns[c].queue.frames|;
            var s2 := Next(Run(s1, Writes(c, n)), Write(c));
            && s1.table == s.table && c in s2.conns && s2.conns[c].stopped
            && s2.conns[c].written == s.conns[c].written + s.conns[c].queue.frames + [Text(Error(KeyMismatch), true)]
  {
    var k, n := s.conns[c], |s.conns[c].queue.frames|;
    var s1 := Next(s, AnnounceKey(c, key));
    var fs := k.queue.frames + [Text(Error(KeyMismatch), true)];
    assert s1 == s.(conns := s.conns[c := k.(queue := Q.Queue(false, fs))]);
    WritesDrain(s1, c, n);
    assert fs[n..] == [Text(Error(KeyMismatch), true)] && fs[..n] == k.queue.frames;
    ClosingFrameIsLast(Run(s1, Writes(c, n)), c, KeyMismatch);
  }

  /** If there is no room for the error the connection is closed at once. */
  lemma OtherKeyCloses(s: State, c: ConnId, key: string)
    requires c in s.conns && key != "" && s.conns[c].device in s.table
    requires s.table[s.conns[c].device].staticKey != "" && s.table[s.conns[c].device].staticKey != key
    requires !HasRoom(s.conns[c])
    ensures Next(s, AnnounceKey(c, key)).conns[c].queue == Q.Queue(true, s.conns[c].queue.frames)
  {
  }

  // ----- Pairing and unpairing -----

  /** The connections of two unpaired devices that exist, with room for what they are to be told. */
  predicate CanPair(s: State, c: ConnId, k: ConnId)
  {
    && c in s.conns && k in s.conns && c != k && s.conns[c].device != s.conns[k].device
    && s.conns[c].device in s.table && s.table[s.conns[c].device].pairedWith.None?
    && s.conns[k].device in s.table && s.table[s.conns[k].device].pairedWith.None?
    && Lookup(s, s.conns[k].device) == Some(k)
    && HasRoom(s.conns[c]) && HasRoom(s.conns[k])
  }

  lemma RequestGivesCode(s: State, k: ConnId, code: string, now: int)
    requires k in s.conns && HasRoom(s.conns[k])
    ensures var s' := Next(s, PairRequest(k, Some(code), now));
            && s'.codes == s.codes[code := PairCodes.Entry(s.conns[k].device, now + 300_000_000_000)]
            && s'.conns == s.conns[k := s.conns[k].(queue := Q.Queue(false, s.conns[k].queue.frames + [Text(PairCode(code), false)]))]
            && s'.table == s.table && s'.registry == s.registry
  {
  }

  lemma AcceptLinks(s: State, c: ConnId, k: ConnId, code: string, now: int)
    requires CanPair(s, c, k) && code != "" && code in s.codes
    requires s.codes[code].requester == s.conns[k].device && now <= s.codes[code].expiresAt
    ensures var s', a, b := Next(s, PairAccept(c, code, now)), s.conns[c].device, s.conns[k].device;
            && s'.table == s.table[b := s.table[b].(pairedWith := Some(a), expiresAt := None)]
                                  [a := s.table[a].(pairedWith := Some(b), expiresAt := None)]
            && s'.conns[c].peer == b && s'.conns[k].peer == a && code !in s'.codes
            && s'.conns[c].queue.frames == s.conns[c].queue.frames + [Text(PairComplete(code, b, s.table[b].staticKey), false)]
            && s'.conns[k].queue.frames == s.conns[k].queue.frames + [Text(PairComplete(code, a, s.table[a].staticKey), false)]
  {
    PairAcceptRecords(s, c, code, now);
    LinkTellsBothSides(s, c, k, code, now);
  }

  /** A code that one device asks for and another accepts within five minutes pairs the two: both rows name each other and
      no longer expire, both connections route to each other, and both are told the other's identifier and key. */
  lemma RequestedCodePairs(s: State, c: ConnId, k: ConnId, code: string, asked: int, accepted: int)
    requires CanPair(s, c, k) && |s.conns[k].queue.frames| < 255 && code != "" && accepted <= asked + 300_000_000_000
    ensures var s1 := Next(s, PairRequest(k, Some(code), asked));
            var s2, a, b := Next(s1, PairAccept(c, code, accepted)), s.conns[c].device, s.conns[k].device;
            && s2.table == s.table[b := s.table[b].(pairedWith := Some(a), expiresAt := None)]
                                  [a := s.table[a].(pairedWith := Some(b), expiresAt := None)]
            && c in s2.conns && k in s2.conns && s2.conns[c].peer == b && s2.conns[k].peer == a && code !in s2.codes
            && s2.conns[c].queue.frames == s.conns[c].queue.frames + [Text(PairComplete(code, b, s.table[b].staticKey), false)]
            && s2.conns[k].queue.frames == s.conns[k].queue.frames + [Text(PairCode(code), false)]
                                           + [Text(PairComplete(code, a, s.table[a].staticKey), false)]
  {
    RequestGivesCode(s, k, code, asked);
    AcceptLinks(Next(s, PairRequest(k, Some(code), asked)), c, k, code, accepted);
  }

  /** Every other accept is answered with an error that names the reason, and pairs nothing; a code that was looked up is
      gone. */
  lemma RefusedAccept(s: State, c: ConnId, code: string, now: int)
    requires c in s.conns && HasRoom(s.conns[c])
    ensures var s', me := Next(s, PairAccept(c, code, now)), s.conns[c].device;
            var valid := code in s.codes && now <= s.codes[code].expiresAt;
            var other := if code in s.codes then s.codes[code].requester else me;
            var e := if code == "" then Malformed
                     else if code !in s.codes then InvalidCode
                     else if now > s.codes[code].expiresAt then ErrorCode.CodeExpired
                     else if other == me || other !in s.table then InvalidCode
                     else if s.table[other].pairedWith.Some? then ErrorCode.AlreadyPaired
                     else if me !in s.table then InvalidCode
                     else ErrorCode.AlreadyPaired;
            var pairs := && code != "" && valid && other != me && other in s.table && me in s.table
                         && s.table[other].pairedWith.None? && s.table[me].pairedWith.None?;
            !pairs ==>
              && s'.table == s.table && s'.codes == (if code == "" then s.codes else s.codes - {code})
              && s'.conns == s.conns[c := s.conns[c].(queue := Q.Queue(false, s.conns[c].queue.frames + [Text(Error(e), false)]))]
  {
    assert code !in s.codes ==> s.codes - {code} == s.codes;
  }

  /** Unpairing clears both rows and both connections, tells both, and cuts the route. */
  lemma UnpairSevers(s: State, c: ConnId, k: ConnId, x: Payload)
    requires c in s.conns && k in s.conns && c != k && s.conns[c].peer == s.conns[k].device != ""
    requires Lookup(s, s.conns[k].device) == Some(k) && HasRoom(s.conns[c]) && HasRoom(s.conns[k])
    requires s.conns[c].device in s.table && s.conns[k].device in s.table
    requires s.table[s.conns[k].device].pairedWith == Some(s.conns[c].device)
    ensures var s', a, b := Next(s, Unpair(c)), s.conns[c].device, s.conns[k].device;
            && c in s'.conns && k in s'.conns && a in s'.table && b in s'.table
            && s'.table[a].pairedWith.None? && s'.table[b].pairedWith.None?
            && s'.conns[c].queue.frames == s.conns[c].queue.frames + [Text(Unpaired(b), false)]
            && s'.conns[k].queue.frames == s.conns[k].queue.frames + [Text(Unpaired(a), false)]
            && Next(s', BinaryFrame(c, x)) == s' && Next(s', BinaryFrame(k, x)) == s'
  {
  }

  /** Nobody else's row changes. */
  lemma UnpairSparesOthers(s: State, c: ConnId, d: DeviceId)
    requires c in s.conns && d in s.table && d != s.conns[c].device && s.table[d].pairedWith != Some(s.conns[c].device)
    ensures d in Next(s, Unpair(c)).table && Next(s, Unpair(c)).table[d] == s.table[d]
  {
  }
}
