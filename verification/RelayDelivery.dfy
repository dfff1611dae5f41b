/** Envelopes pass through the relay verbatim, in order and without a gap, in every run of the server. */
module RelayDelivery {
  import opened Core
  import opened Frames
  import opened Relay
  import Devices
  import PairCodes

  /** The envelopes among some frames. */
  function Envelopes(fs: seq<Frame>): (r: seq<Payload>)
  {
    if fs == [] then []
    else
      var n := |fs| - 1;
      if fs[n].Binary? then Envelopes(fs[..n]) + [fs[n].payload] else Envelopes(fs[..n])
  }

  lemma {:induction false} EnvelopesConcat(a: seq<Frame>, b: seq<Frame>)
    ensures Envelopes(a + b) == Envelopes(a) + Envelopes(b)
    decreases |b|
  {
    if b == [] {
      assert a + b == a;
    } else {
      var n := |b| - 1;
      assert (a + b)[..|a| + n] == a + b[..n];
      EnvelopesConcat(a, b[..n]);
    }
  }

  /** What was written and what is queued: everything routed while the connection is whole, a prefix once it is
      closed; a stopped connection has written a prefix and writes no more. */
  ghost predicate GapFree(k: Conn)
  {
    && Envelopes(k.written) <= k.routed
    && (!k.stopped ==> Envelopes(k.written + k.queue.frames) <= k.routed)
    && (!k.stopped && !k.queue.closed ==> Envelopes(k.written + k.queue.frames) == k.routed)
  }

  lemma AppendEnvelopes(k: Conn, f: Frame)
    ensures Envelopes(k.written + (k.queue.frames + [f]))
            == Envelopes(k.written + k.queue.frames) + if f.Binary? then [f.payload] else []
  {
    assert k.written + (k.queue.frames + [f]) == (k.written + k.queue.frames) + [f];
    EnvelopesConcat(k.written + k.queue.frames, [f]);
    assert [f][..0] == [];
  }

  lemma ToldKeeps(k: Conn, msg: Control)
    requires GapFree(k)
    ensures GapFree(Told(k, msg))
  {
    AppendEnvelopes(k, Text(msg, false));
  }

  lemma ExpelledKeeps(k: Conn, e: ErrorCode)
    requires GapFree(k)
    ensures GapFree(Expelled(k, e))
  {
    AppendEnvelopes(k, Text(Error(e), true));
  }

  lemma OfferedKeeps(k: Conn, payload: Payload)
    requires GapFree(k)
    ensures GapFree(Offered(k, payload))
  {
    AppendEnvelopes(k, Binary(payload));
  }

  lemma WroteKeeps(k: Conn)
    requires GapFree(k)
    ensures GapFree(Wrote(k))
  {
    if !k.stopped && k.queue.frames != [] {
      var f, rest := k.queue.frames[0], k.queue.frames[1..];
      assert k.written + k.queue.frames == (k.written + [f]) + rest;
      EnvelopesConcat(k.written + [f], rest);
    }
  }

  ghost predicate AllGapFree(s: State)
  {
    forall c :: c in s.conns ==> GapFree(s.conns[c])
  }

  lemma TellKeeps(s: State, c: ConnId, msg: Control)
    requires AllGapFree(s) && c in s.conns
    ensures AllGapFree(Tell(s, c, msg))
  {
    ToldKeeps(s.conns[c], msg);
  }

  lemma PointKeeps(s: State, c: ConnId, p: DeviceId, msg: Control)
    requires AllGapFree(s) && c in s.conns
    ensures AllGapFree(Point(s, c, p, msg))
  {
    ToldKeeps(s.conns[c].(peer := p), msg);
  }

  lemma NotifyKeeps(s: State, target: DeviceId, about: DeviceId, online: bool)
    requires AllGapFree(s)
    ensures AllGapFree(Notify(s, target, about, online))
  {
    var n := s.(notices := s.notices + [Notice(target, about, online)]);
    if Lookup(s, target).Some? {
      TellKeeps(n, Lookup(s, target).value, PeerStatus(about, online));
    }
  }

  lemma RegisterKeeps(s: State, c: ConnId)
    requires AllGapFree(s) && c in s.conns
    ensures AllGapFree(DoRegister(s, c))
  {
    assert AllGapFree(Enter(s, c));
    NotifyKeeps(Enter(s, c), s.conns[c].peer, s.conns[c].device, true);
  }

  lemma UnregisterKeeps(s: State, c: ConnId)
    requires AllGapFree(s) && c in s.conns
    ensures AllGapFree(DoUnregister(s, c))
  {
    var k := s.conns[c];
    NotifyKeeps(s.(registry := s.registry - {k.device}), k.peer, k.device, false);
  }

  lemma GreetedKeeps(k: Conn, key: string, online: bool)
    requires GapFree(k)
    ensures GapFree(Greeted(k, key, online))
  {
    var k1 := k.(greeted := true);
    match k.linked
    case None => ToldKeeps(k1, Welcome(k.device, []));
    case Some(p) =>
      ToldKeeps(k1, Welcome(k.device, [(p, key)]));
      ToldKeeps(Told(k1, Welcome(k.device, [(p, key)])), PeerStatus(p, online));
  }

  lemma GreetKeeps(s: State, c: ConnId)
    requires AllGapFree(s) && c in s.conns
    ensures AllGapFree(DoGreet(s, c))
  {
    var p := PeerOf(s.conns[c].linked);
    GreetedKeeps(s.conns[c], KeyOf(s.table, p), Lookup(s, p).Some?);
  }

  lemma LinkKeeps(s: State, c: ConnId, code: string, requester: DeviceId, table: Devices.Table, at: nat)
    requires AllGapFree(s) && c in s.conns
    ensures AllGapFree(DoLink(s, c, code, requester, table, at))
  {
    var me := s.conns[c].device;
    var s1 := s.(table := table, links := s.links + [Link(requester, me, at)]);
    PointKeeps(s1, c, requester, PairComplete(code, requester, KeyOf(table, requester)));
    var s2 := Point(s1, c, requester, PairComplete(code, requester, KeyOf(table, requester)));
    if Lookup(s2, requester).Some? {
      PointKeeps(s2, Lookup(s2, requester).value, me, PairComplete(code, me, KeyOf(table, me)));
    }
  }

  lemma UnpairKeeps(s: State, c: ConnId)
    requires AllGapFree(s) && c in s.conns
    ensures AllGapFree(DoUnpair(s, c))
  {
    var me, p := s.conns[c].device, s.conns[c].peer;
    var s1 := s.(table := Devices.Unpair(s.table, me));
    PointKeeps(s1, c, "", Unpaired(p));
    var s2 := Point(s1, c, "", Unpaired(p));
    if p != "" && Lookup(s2, p).Some? {
      PointKeeps(s2, Lookup(s2, p).value, "", Unpaired(me));
    }
  }

  lemma PairAcceptKeeps(s: State, c: ConnId, code: string, now: int)
    requires AllGapFree(s) && c in s.conns
    ensures AllGapFree(DoPairAccept(s, c, code, now))
  {
    var taken, s1 := PairCodes.Take(s.codes, code, now).1, Redeeming(s, code, now);
    TellKeeps(s, c, Error(Malformed));
    TellKeeps(s1, c, Error(ErrorCode.CodeExpired));
    TellKeeps(s1, c, Error(InvalidCode));
    TellKeeps(s1, c, Error(ErrorCode.AlreadyPaired));
    if taken.Redeemed? {
      LinkKeeps(s1, c, code, taken.requester, Devices.Pair(s.table, taken.requester, s.conns[c].device).table, |s.hist|);
    }
  }

  predicate FrameStep(st: Step)
  {
    st.AnnounceKey? || st.PairRequest? || st.PairAccept? || st.Unpair? || st.Ping? || st.BinaryFrame?
  }

  /** What a read loop does with a frame. */
  lemma FrameKeeps(s: State, st: Step)
    requires AllGapFree(s) && FrameStep(st) && st.c in s.conns
    ensures AllGapFree(Next(s, st))
  {
    var c := st.c;
    match st
    case AnnounceKey(_, _) =>
      TellKeeps(s, c, Error(Malformed));
      TellKeeps(s, c, Error(Internal));
      ExpelledKeeps(s.conns[c], KeyMismatch);
    case PairRequest(_, code, _) =>
      ToldKeeps(s.conns[c], match code { case None => Error(Internal) case Some(x) => PairCode(x) });
    case PairAccept(_, code, now) => PairAcceptKeeps(s, c, code, now);
    case Unpair(_) => UnpairKeeps(s, c);
    case Ping(_) => TellKeeps(s, c, Pong);
    case BinaryFrame(_, payload) =>
      if Lookup(s, s.conns[c].peer).Some? {
        OfferedKeeps(s.conns[Lookup(s, s.conns[c].peer).value], payload);
      }
  }

  lemma NextKeeps(s: State, st: Step)
    requires AllGapFree(s)
    ensures AllGapFree(Next(s, st))
  {
    var c := st.c;
    if c in s.conns {
      if FrameStep(st) {
        FrameKeeps(s, st);
      } else if st.Register? {
        RegisterKeeps(s, c);
      } else if st.Greet? {
        GreetKeeps(s, c);
      } else if st.Unregister? {
        UnregisterKeeps(s, c);
      } else if st.Write? {
        WroteKeeps(s.conns[c]);
      }
    }
  }

  lemma {:induction false} RunKeeps(s: State, sts: seq<Step>)
    requires AllGapFree(s)
    ensures AllGapFree(Run(s, sts))
    decreases |sts|
  {
    if sts != [] {
      NextKeeps(s, sts[0]);
      RunKeeps(Next(s, sts[0]), sts[1..]);
    }
  }

  /** Verbatim relay: in every run, the envelopes written to a connection are a prefix of those routed to it, and
      none is missing from its queue while it is neither closed nor stopped. */
  lemma VerbatimRelay(table: Devices.Table, sts: seq<Step>, c: ConnId)
    requires c in Run(Boot(table), sts).conns
    ensures var k := Run(Boot(table), sts).conns[c];
            && Envelopes(k.written) <= k.routed
            && (!k.stopped && !k.queue.closed ==> k.routed == Envelopes(k.written) + Envelopes(k.queue.frames))
  {
    RunKeeps(Boot(table), sts);
    var k := Run(Boot(table), sts).conns[c];
    EnvelopesConcat(k.written, k.queue.frames);
  }
}
