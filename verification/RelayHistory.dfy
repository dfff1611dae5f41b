/** What the records of a server run show: presence notices are accurate, and every link was asked for. */
module RelayHistory {
  import opened Core
  import opened Frames
  import Q = SendQueue
  import opened Relay
  import Devices
  import PairCodes

  // ----- Presence -----

  /** p is connected, and every live connection of d routes to p: the registered one and those still in the Register
      channel. Connections of d that were evicted or unregistered may have any peer. */
  predicate Watched(s: State, p: DeviceId, d: DeviceId)
  {
    && p != "" && Lookup(s, p).Some?
    && forall c :: c in s.conns && s.conns[c].device == d && (c in s.waiting || Lookup(s, d) == Some(c)) ==>
         s.conns[c].peer == p
  }

  predicate WatchedRun(s: State, sts: seq<Step>, p: DeviceId, d: DeviceId)
    decreases |sts|
  {
    Watched(s, p, d) && (sts == [] || WatchedRun(Next(s, sts[0]), sts[1..], p, d))
  }

  /** The last notice about d among those issued to p. */
  function LastNotice(ns: seq<Notice>, p: DeviceId, d: DeviceId): (r: Option<bool>)
  {
    if ns == [] then None
    else
      var n := ns[|ns| - 1];
      if n.target == p && n.about == d then Some(n.online) else LastNotice(ns[..|ns| - 1], p, d)
  }

  lemma {:induction false} LastNoticeConcat(a: seq<Notice>, b: seq<Notice>, p: DeviceId, d: DeviceId)
    ensures LastNotice(a + b, p, d) == if LastNotice(b, p, d).Some? then LastNotice(b, p, d) else LastNotice(a, p, d)
    decreases |b|
  {
    if b == [] {
      assert a + b == a;
    } else {
      assert (a + b)[..|a + b| - 1] == a + b[..|b| - 1];
      LastNoticeConcat(a, b[..|b| - 1], p, d);
    }
  }

  predicate SamePresence(s: State, s': State)
  {
    s'.registry == s.registry && s'.notices == s.notices
  }

  lemma LinkIsSilent(s: State, c: ConnId, code: string, requester: DeviceId, t: Devices.Table, at: nat)
    requires c in s.conns
    ensures SamePresence(s, DoLink(s, c, code, requester, t, at))
  {
  }

  lemma PairAcceptIsSilent(s: State, c: ConnId, code: string, now: int)
    requires c in s.conns
    ensures SamePresence(s, DoPairAccept(s, c, code, now))
  {
    var taken, s1 := PairCodes.Take(s.codes, code, now).1, Redeeming(s, code, now);
    if taken.Redeemed? {
      LinkIsSilent(s1, c, code, taken.requester, Devices.Pair(s.table, taken.requester, s.conns[c].device).table, |s.hist|);
    }
  }

  lemma UnpairIsSilent(s: State, c: ConnId)
    requires c in s.conns
    ensures SamePresence(s, DoUnpair(s, c))
  {
  }

  /** Only the hub loop changes the registry or issues notices. */
  lemma OthersAreSilent(s: State, st: Step)
    requires !st.Register? && !st.Unregister?
    ensures SamePresence(s, Next(s, st))
  {
    if st.c in s.conns {
      if st.PairAccept? { PairAcceptIsSilent(s, st.c, st.code, st.now); }
      if st.Unpair? { UnpairIsSilent(s, st.c); }
    }
  }

  /** The notices issued between two states. */
  function Since(s: State, s': State): (r: seq<Notice>)
  {
    if s.notices <= s'.notices then s'.notices[|s.notices|..] else []
  }

  /** The last notice about d issued to p in between says whether d is registered now; with none, d is registered
      now exactly if it was. */
  predicate Tracks(s: State, s': State, p: DeviceId, d: DeviceId)
  {
    && s.notices <= s'.notices
    && match LastNotice(Since(s, s'), p, d)
       case Some(online) => online == (d in s'.registry)
       case None => (d in s.registry) == (d in s'.registry)
  }

  lemma NotifyIssues(s: State, target: DeviceId, about: DeviceId, online: bool)
    ensures var s' := Notify(s, target, about, online);
            && s'.registry == s.registry && s'.conns.Keys == s.conns.Keys && s.notices <= s'.notices
            && Since(s, s') == if Lookup(s, target).Some? then [Notice(target, about, online)] else []
  {
  }

  /** What registering does: one notice if the peer is connected by then. */
  lemma RegisterIssues(s: State, c: ConnId)
    requires c in s.conns
    ensures var s', k := DoRegister(s, c), s.conns[c];
            && s'.registry == s.registry[k.device := c] && s'.conns.Keys == s.conns.Keys && s.notices <= s'.notices
            && Since(s, s') == if k.peer != "" && Lookup(s', k.peer).Some? then [Notice(k.peer, k.device, true)] else []
  {
    var s1, k := Enter(s, c), s.conns[c];
    assert s1.registry == s.registry[k.device := c] && s1.conns.Keys == s.conns.Keys && s1.notices == s.notices;
    NotifyIssues(s1, k.peer, k.device, true);
  }

  lemma RegisterTracks(s: State, c: ConnId, p: DeviceId, d: DeviceId)
    requires c in s.conns && c in s.waiting && Watched(s, p, d) && Watched(DoRegister(s, c), p, d)
    ensures Tracks(s, DoRegister(s, c), p, d)
  {
    RegisterIssues(s, c);
    var k := s.conns[c];
    assert k.device == d ==> k.peer == p;
    assert LastNotice([], p, d) == None;
    assert LastNotice([Notice(k.peer, k.device, true)], p, d)
           == if k.peer == p && k.device == d then Some(true) else None;
  }

  /** What unregistering does: nothing unless the connection is the current one. */
  lemma UnregisterIssues(s: State, c: ConnId)
    requires c in s.conns
    ensures var s', k := DoUnregister(s, c), s.conns[c];
            && s'.conns.Keys == s.conns.Keys && s.notices <= s'.notices
            && if Lookup(s, k.device) != Some(c) then s' == s && Since(s, s') == []
               else && s'.registry == s.registry - {k.device}
                    && Since(s, s') == if k.peer != "" && Lookup(s', k.peer).Some? then [Notice(k.peer, k.device, false)] else []
  {
  }

  lemma UnregisterTracks(s: State, c: ConnId, p: DeviceId, d: DeviceId)
    requires c in s.conns && Watched(s, p, d) && Watched(DoUnregister(s, c), p, d)
    ensures Tracks(s, DoUnregister(s, c), p, d)
  {
    UnregisterIssues(s, c);
    var k := s.conns[c];
    assert LastNotice([], p, d) == None;
    assert LastNotice([Notice(k.peer, k.device, false)], p, d)
           == if k.peer == p && k.device == d then Some(false) else None;
  }

  lemma NextTracks(s: State, st: Step, p: DeviceId, d: DeviceId)
    requires Watched(s, p, d) && Watched(Next(s, st), p, d)
    ensures Tracks(s, Next(s, st), p, d)
  {
    if st.Register? && st.c in s.conns && st.c in s.waiting {
      RegisterTracks(s, st.c, p, d);
    } else if st.Unregister? && st.c in s.conns {
      UnregisterTracks(s, st.c, p, d);
    } else {
      if !st.Register? && !st.Unregister? { OthersAreSilent(s, st); }
      assert Since(s, Next(s, st)) == [];
    }
  }

  lemma TracksCompose(s: State, m: State, s': State, p: DeviceId, d: DeviceId)
    requires Tracks(s, m, p, d) && Tracks(m, s', p, d)
    ensures Tracks(s, s', p, d)
  {
    assert Since(s, s') == Since(s, m) + Since(m, s');
    LastNoticeConcat(Since(s, m), Since(m, s'), p, d);
  }

  /** Presence: over any run in which p stays connected and the live connections of d keep p as peer, whatever
      reconnects, evictions and late or repeated unregistrations of dead connections it contains. */
  lemma {:induction false} Presence(s: State, sts: seq<Step>, p: DeviceId, d: DeviceId)
    requires WatchedRun(s, sts, p, d)
    ensures Tracks(s, Run(s, sts), p, d)
    decreases |sts|
  {
    if sts == [] {
      assert Since(s, s) == [];
    } else {
      NextTracks(s, sts[0], p, d);
      Presence(Next(s, sts[0]), sts[1..], p, d);
      TracksCompose(s, Next(s, sts[0]), Run(s, sts), p, d);
    }
  }

  // ----- Links -----

  /** The registry of codes is what its history makes it, and every link redeemed a code of the other device, each
      in a take of its own. */
  ghost predicate Traced(s: State)
  {
    && s.codes == PairCodes.Replay(s.hist)
    && (forall k :: 0 <= k < |s.links| ==>
          && s.links[k].requester != s.links[k].acceptor
          && PairCodes.Redeems(s.hist, s.links[k].at, s.links[k].requester))
    && (forall j, k :: 0 <= j < k < |s.links| ==> s.links[j].at < s.links[k].at)
  }

  /** Every pairing in the table was there at the start or is a recorded link. */
  ghost predicate PairedByLinks(t0: Devices.Table, s: State)
  {
    forall a :: a in s.table && s.table[a].pairedWith.Some? ==>
      var b := s.table[a].pairedWith.value;
      (a in t0 && t0[a].pairedWith == Some(b)) || IsLink(s.links, a, b)
  }

  predicate IsLink(links: seq<Link>, a: DeviceId, b: DeviceId)
  {
    exists k :: 0 <= k < |links| && {links[k].requester, links[k].acceptor} == {a, b}
  }

  lemma RedeemsExtends(hist: seq<PairCodes.Event>, e: PairCodes.Event, i: nat, r: DeviceId)
    requires PairCodes.Redeems(hist, i, r)
    ensures PairCodes.Redeems(hist + [e], i, r)
  {
    assert (hist + [e])[..i] == hist[..i];
  }

  lemma ReplayExtends(hist: seq<PairCodes.Event>, e: PairCodes.Event)
    ensures PairCodes.Replay(hist + [e]) == PairCodes.After(PairCodes.Replay(hist), e)
  {
    assert (hist + [e])[..|hist|] == hist;
  }

  /** The other steps touch neither codes nor links. */
  predicate SameRecords(s: State, s': State)
  {
    s'.codes == s.codes && s'.hist == s.hist && s'.links == s.links
  }

  lemma HubKeepsRecords(s: State, c: ConnId)
    requires c in s.conns
    ensures SameRecords(s, DoRegister(s, c)) && SameRecords(s, DoUnregister(s, c))
  {
  }

  lemma OthersDoNotLink(s: State, st: Step)
    requires !st.PairRequest? && !st.PairAccept?
    ensures SameRecords(s, Next(s, st))
  {
    if (st.Register? || st.Unregister?) && st.c in s.conns { HubKeepsRecords(s, st.c); }
  }

  /** Two of them touch the table. */
  lemma OthersKeepTable(s: State, st: Step)
    requires !st.PairAccept?
    ensures st.AnnounceKey? || st.Unpair? || Next(s, st).table == s.table
  {
  }

  /** No step but pair_accept adds a pairing. */
  lemma OthersDoNotPair(s: State, st: Step)
    requires !st.PairAccept?
    ensures var s' := Next(s, st);
            forall a :: a in s'.table && s'.table[a].pairedWith.Some? ==>
              a in s.table && s.table[a].pairedWith == s'.table[a].pairedWith
  {
    OthersKeepTable(s, st);
  }

  lemma PairRequestTraced(s: State, c: ConnId, code: Option<string>, now: int)
    requires Traced(s) && c in s.conns
    ensures Traced(DoPairRequest(s, c, code, now))
  {
    if code.Some? {
      var e := PairCodes.PutEvent(code.value, s.conns[c].device, now + PairCodes.CODE_TTL);
      ReplayExtends(s.hist, e);
      forall k | 0 <= k < |s.links| ensures PairCodes.Redeems(s.hist + [e], s.links[k].at, s.links[k].requester) {
        RedeemsExtends(s.hist, e, s.links[k].at, s.links[k].requester);
      }
    }
  }

  /** What pair_accept records: a take unless the code is empty, and a link exactly when the take succeeds for another
      device and the table accepts the pair. */
  lemma PairAcceptRecords(s: State, c: ConnId, code: string, now: int)
    requires c in s.conns
    ensures var s', me := DoPairAccept(s, c, code, now), s.conns[c].device;
            var taken := PairCodes.Take(s.codes, code, now).1;
            if code == "" then s'.codes == s.codes && s'.hist == s.hist && s'.links == s.links && s'.table == s.table
            else
              && s'.codes == PairCodes.Take(s.codes, code, now).0
              && s'.hist == s.hist + [PairCodes.TakeEvent(code, now)]
              && if taken.Redeemed? && taken.requester != me && Devices.Pair(s.table, taken.requester, me).err == Devices.NoError
                 then s'.links == s.links + [Link(taken.requester, me, |s.hist|)] && s'.table == Devices.Pair(s.table, taken.requester, me).table
                 else s'.links == s.links && s'.table == s.table
  {
  }

  lemma PairAcceptTraced(s: State, c: ConnId, code: string, now: int)
    requires Traced(s) && c in s.conns
    ensures Traced(DoPairAccept(s, c, code, now))
  {
    var s' := DoPairAccept(s, c, code, now);
    PairAcceptRecords(s, c, code, now);
    if code != "" {
      var e := PairCodes.TakeEvent(code, now);
      ReplayExtends(s.hist, e);
      forall k | 0 <= k < |s.links| ensures PairCodes.Redeems(s.hist + [e], s.links[k].at, s.links[k].requester) {
        RedeemsExtends(s.hist, e, s.links[k].at, s.links[k].requester);
      }
      assert (s.hist + [e])[..|s.hist|] == s.hist;
    }
  }

  lemma LinkExtends(links: seq<Link>, l: Link, a: DeviceId, b: DeviceId)
    requires IsLink(links, a, b) || {l.requester, l.acceptor} == {a, b}
    ensures IsLink(links + [l], a, b)
  {
    if IsLink(links, a, b) {
      var k :| 0 <= k < |links| && {links[k].requester, links[k].acceptor} == {a, b};
      assert (links + [l])[k] == links[k];
    } else {
      assert (links + [l])[|links|] == l;
    }
  }

  lemma PairAcceptPairs(t0: Devices.Table, s: State, c: ConnId, code: string, now: int)
    requires PairedByLinks(t0, s) && c in s.conns
    ensures PairedByLinks(t0, DoPairAccept(s, c, code, now))
  {
    var s' := DoPairAccept(s, c, code, now);
    PairAcceptRecords(s, c, code, now);
    if |s'.links| > |s.links| {
      var l := s'.links[|s.links|];
      forall a | a in s'.table && s'.table[a].pairedWith.Some?
        ensures (a in t0 && t0[a].pairedWith == s'.table[a].pairedWith) || IsLink(s'.links, a, s'.table[a].pairedWith.value)
      {
        var b := s'.table[a].pairedWith.value;
        if IsLink(s.links, a, b) || {l.requester, l.acceptor} == {a, b} {
          LinkExtends(s.links, l, a, b);
        }
      }
    }
  }

  lemma NextTraced(t0: Devices.Table, s: State, st: Step)
    requires Traced(s) && PairedByLinks(t0, s)
    ensures Traced(Next(s, st)) && PairedByLinks(t0, Next(s, st))
  {
    if !st.PairAccept? { OthersDoNotPair(s, st); }
    if !st.PairRequest? && !st.PairAccept? {
      OthersDoNotLink(s, st);
    } else if st.c in s.conns {
      if st.PairRequest? {
        PairRequestTraced(s, st.c, st.made, st.now);
      } else {
        PairAcceptTraced(s, st.c, st.code, st.now);
        PairAcceptPairs(t0, s, st.c, st.code, st.now);
      }
    }
  }

  lemma {:induction false} RunTraced(t0: Devices.Table, s: State, sts: seq<Step>)
    requires Traced(s) && PairedByLinks(t0, s)
    ensures Traced(Run(s, sts)) && PairedByLinks(t0, Run(s, sts))
    decreases |sts|
  {
    if sts != [] {
      NextTraced(t0, s, sts[0]);
      RunTraced(t0, Next(s, sts[0]), sts[1..]);
    }
  }

  /** Every pairing made in a run is a link, and every link used up an unexpired code of the other device. */
  lemma LinksTraceToCodes(table: Devices.Table, sts: seq<Step>)
    ensures var s := Run(Boot(table), sts);
            && PairedByLinks(table, s)
            && forall k :: 0 <= k < |s.links| ==>
                 && s.links[k].requester != s.links[k].acceptor
                 && exists j: nat :: PairCodes.Uses(s.hist, s.links[k].at, j, s.links[k].requester)
  {
    RunTraced(table, Boot(table), sts);
    var s := Run(Boot(table), sts);
    forall k | 0 <= k < |s.links|
      ensures exists j: nat :: PairCodes.Uses(s.hist, s.links[k].at, j, s.links[k].requester)
    {
      PairCodes.RedeemsIffUses(s.hist, s.links[k].at, s.links[k].requester);
    }
  }

  /** Two links never use the same code request. */
  lemma LinksUseDistinctCodes(table: Devices.Table, sts: seq<Step>, k1: nat, k2: nat, j1: nat, j2: nat)
    requires var s := Run(Boot(table), sts);
             && k1 < k2 < |s.links|
             && PairCodes.Uses(s.hist, s.links[k1].at, j1, s.links[k1].requester)
             && PairCodes.Uses(s.hist, s.links[k2].at, j2, s.links[k2].requester)
    ensures j1 != j2
  {
    RunTraced(table, Boot(table), sts);
    var s := Run(Boot(table), sts);
    if j1 == j2 {
      PairCodes.PutUsedOnce(s.hist, s.links[k1].at, s.links[k2].at, j1, s.links[k1].requester, s.links[k2].requester);
    }
  }

  // ----- What the two sides of a link are told -----

  predicate HasRoom(k: Conn)
  {
    !k.queue.closed && |k.queue.frames| < Q.CAPACITY
  }

  /** A pair_accept that links two connected devices tells each the other's identifier and locked key. */
  lemma LinkTellsBothSides(s: State, c: ConnId, k: ConnId, code: string, now: int)
    requires c in s.conns && k in s.conns && c != k && HasRoom(s.conns[c]) && HasRoom(s.conns[k])
    requires Lookup(s, s.conns[k].device) == Some(k)
    requires |DoPairAccept(s, c, code, now).links| > |s.links|
    requires PairCodes.Take(s.codes, code, now).1 == PairCodes.Redeemed(s.conns[k].device)
    ensures var s', me, other := DoPairAccept(s, c, code, now), s.conns[c].device, s.conns[k].device;
            && me in s.table && other in s.table && me != other
            && s'.conns[c].queue.frames == s.conns[c].queue.frames + [Text(PairComplete(code, other, s.table[other].staticKey), false)]
            && s'.conns[k].queue.frames == s.conns[k].queue.frames + [Text(PairComplete(code, me, s.table[me].staticKey), false)]
            && s'.conns[c].peer == other && s'.conns[k].peer == me
  {
    PairAcceptRecords(s, c, code, now);
  }
}
