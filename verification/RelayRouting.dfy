/**
 Routing agreement: while devices link and unlink through the relay itself, what each registered
 connection routes to is what the device table says, and the link is mutual.
 */
module RelayRouting {
  import opened Core
  import opened Frames
  import opened Relay
  import Devices
  import PairCodes

  /** What routing depends on in a connection. */
  datatype Face = Face(device: DeviceId, peer: DeviceId, linked: Option<DeviceId>)

  function FaceOf(k: Conn): Face
  {
    Face(k.device, k.peer, k.linked)
  }

  function Faces(s: State): (r: map<ConnId, Face>)
  {
    map c | c in s.conns :: FaceOf(s.conns[c])
  }

  /** Every registered connection is its device's, and its peer is its row's paired_with. */
  ghost predicate Agree(t: Devices.Table, registry: map<DeviceId, ConnId>, faces: map<ConnId, Face>)
  {
    && Devices.Symmetric(t)
    && (forall c :: c in faces ==> faces[c].device != "" && faces[c].device in t)
    && (forall d :: d in registry ==>
          && registry[d] in faces && d in t
          && faces[registry[d]].device == d && faces[registry[d]].peer == PeerOf(t[d].pairedWith))
  }

  ghost predicate Agreement(s: State)
  {
    Agree(s.table, s.registry, Faces(s))
  }

  /** c is the connection that the registry holds for its device. */
  predicate Current(s: State, c: ConnId)
  {
    c in s.conns && s.conns[c].device in s.registry && s.registry[s.conns[c].device] == c
  }

  /** The row names the peer that it named when the handler read it. */
  predicate Fresh(s: State, c: ConnId)
  {
    && c in s.conns && s.conns[c].device in s.table
    && PeerOf(s.conns[c].linked) == PeerOf(s.table[s.conns[c].device].pairedWith)
  }

  predicate Unlisted(s: State, c: ConnId)
  {
    forall d :: d in s.registry ==> s.registry[d] != c
  }

  /** A connection in the Register channel is not registered and still has the peer that the handler gave it. */
  predicate Untouched(s: State)
  {
    forall c :: c in s.waiting ==> c in s.conns && s.conns[c].peer == PeerOf(s.conns[c].linked) && Unlisted(s, c)
  }

  /** Handlers run on behalf of registered connections, and a connection is registered while fresh. */
  predicate InBand(s: State, st: Step)
  {
    match st
    case Register(c) => c in s.conns && c in s.waiting ==> Fresh(s, c)
    case AnnounceKey(c, _) => c in s.conns ==> Current(s, c)
    case PairRequest(c, _, _) => c in s.conns ==> Current(s, c)
    case PairAccept(c, _, _) => c in s.conns ==> Current(s, c)
    case Unpair(c) => c in s.conns ==> Current(s, c)
    case BinaryFrame(c, _) => c in s.conns ==> Current(s, c)
    case _ => true
  }

  predicate InBandRun(s: State, sts: seq<Step>)
    decreases |sts|
  {
    sts == [] || (InBand(s, sts[0]) && InBandRun(Next(s, sts[0]), sts[1..]))
  }

  // ----- What each operation does to the faces -----

  lemma UpdFaces(s: State, c: ConnId, k: Conn)
    ensures Faces(Upd(s, c, k)) == Faces(s)[c := FaceOf(k)]
  {
  }

  /** An update that keeps the face is invisible. */
  lemma UpdSame(s: State, c: ConnId, k: Conn)
    requires c in s.conns && FaceOf(k) == FaceOf(s.conns[c])
    ensures Faces(Upd(s, c, k)) == Faces(s)
  {
  }

  lemma NotifySame(s: State, target: DeviceId, about: DeviceId, online: bool)
    ensures var s' := Notify(s, target, about, online);
            s'.table == s.table && s'.registry == s.registry && s'.waiting == s.waiting && Faces(s') == Faces(s)
  {
    var n := s.(notices := s.notices + [Notice(target, about, online)]);
    if Lookup(s, target).Some? {
      var k := Lookup(s, target).value;
      UpdSame(n, k, Told(s.conns[k], PeerStatus(about, online)));
    }
  }

  lemma RegisterFaces(s: State, c: ConnId)
    requires c in s.conns
    ensures var s' := DoRegister(s, c);
            s'.table == s.table && s'.registry == s.registry[s.conns[c].device := c] && Faces(s') == Faces(s)
  {
    var d := s.conns[c].device;
    if Lookup(s, d).Some? {
      UpdSame(s, Lookup(s, d).value, Shut(s.conns[Lookup(s, d).value]));
    }
    assert Faces(Enter(s, c)) == Faces(s);
    NotifySame(Enter(s, c), s.conns[c].peer, d, true);
  }

  lemma PointFaces(s: State, c: ConnId, p: DeviceId, msg: Control)
    requires c in s.conns
    ensures Faces(Point(s, c, p, msg)) == Faces(s)[c := FaceOf(s.conns[c]).(peer := p)]
  {
    UpdFaces(s, c, Told(s.conns[c].(peer := p), msg));
  }

  lemma LinkFaces(s: State, c: ConnId, code: string, requester: DeviceId, t: Devices.Table, at: nat)
    requires c in s.conns && requester != s.conns[c].device
    ensures var s', me, mine := DoLink(s, c, code, requester, t, at), s.conns[c].device, FaceOf(s.conns[c]);
            && s'.table == t && s'.registry == s.registry
            && Faces(s') == match Lookup(s, requester)
                 case None => Faces(s)[c := mine.(peer := requester)]
                 case Some(k) =>
                   if k == c then Faces(s)[c := mine.(peer := me)]
                   else Faces(s)[c := mine.(peer := requester)][k := FaceOf(s.conns[k]).(peer := me)]
  {
    var me := s.conns[c].device;
    var s1 := s.(table := t, links := s.links + [Link(requester, me, at)]);
    assert Faces(s1) == Faces(s);
    PointFaces(s1, c, requester, PairComplete(code, requester, KeyOf(t, requester)));
    var s2 := Point(s1, c, requester, PairComplete(code, requester, KeyOf(t, requester)));
    if Lookup(s2, requester).Some? {
      PointFaces(s2, Lookup(s2, requester).value, me, PairComplete(code, me, KeyOf(t, me)));
    }
  }

  lemma UnpairFaces(s: State, c: ConnId)
    requires c in s.conns
    ensures var s', me, p := DoUnpair(s, c), s.conns[c].device, s.conns[c].peer;
            && s'.table == Devices.Unpair(s.table, me) && s'.registry == s.registry
            && var f := Faces(s)[c := FaceOf(s.conns[c]).(peer := "")];
               Faces(s') == if p == "" || Lookup(s, p).None? then f
                            else var k := Lookup(s, p).value; f[k := FaceOf(s.conns[k]).(peer := "")]
  {
    var me, p := s.conns[c].device, s.conns[c].peer;
    var s1 := s.(table := Devices.Unpair(s.table, me));
    assert Faces(s1) == Faces(s);
    PointFaces(s1, c, "", Unpaired(p));
    var s2 := Point(s1, c, "", Unpaired(p));
    if p != "" && Lookup(s2, p).Some? {
      PointFaces(s2, Lookup(s2, p).value, "", Unpaired(me));
    }
  }

  // ----- Every in-band step keeps agreement -----

  /** Registering keeps agreement exactly when the connection is fresh. */
  lemma RegisterAgreesIffFresh(s: State, c: ConnId)
    requires Agreement(s) && Untouched(s) && c in s.waiting
    ensures Agreement(DoRegister(s, c)) <==> Fresh(s, c)
  {
    RegisterFaces(s, c);
    assert Faces(s)[c] == FaceOf(s.conns[c]);
    assert DoRegister(s, c).registry[s.conns[c].device] == c;
  }

  /** A connect with nothing between its halves is fresh. */
  lemma AtomicConnectIsFresh(s: State, c: ConnId, id: DeviceId, token: string, now: int)
    requires c !in s.conns && Devices.Admit(s.table, id, token, now).Admitted?
    ensures Fresh(Next(s, Open(c, id, token, now)), c) && c in Next(s, Open(c, id, token, now)).waiting
  {
  }

  lemma UnregisterKeeps(s: State, c: ConnId)
    requires Agreement(s) && c in s.conns
    ensures Agreement(DoUnregister(s, c))
  {
    var k := s.conns[c];
    var s1 := s.(registry := s.registry - {k.device});
    assert Faces(s1) == Faces(s);
    NotifySame(s1, k.peer, k.device, false);
  }

  /** The routing faces after a link, or after its removal: those of the registered connections change. */
  function Relinked(r: map<DeviceId, ConnId>, f: map<ConnId, Face>, me: DeviceId, other: DeviceId, mine: DeviceId, theirs: DeviceId): map<ConnId, Face>
    requires me in r && r[me] in f && (other in r ==> r[other] in f)
  {
    var f1 := f[r[me] := f[r[me]].(peer := mine)];
    if other in r then f1[r[other] := f[r[other]].(peer := theirs)] else f1
  }

  lemma LinkAgrees(t: Devices.Table, r: map<DeviceId, ConnId>, f: map<ConnId, Face>, me: DeviceId, other: DeviceId)
    requires Agree(t, r, f) && me in r && other != me
    requires Devices.Pair(t, other, me).err == Devices.NoError
    ensures Agree(Devices.Pair(t, other, me).table, r, Relinked(r, f, me, other, other, me))
  {
    var t', f' := Devices.Pair(t, other, me).table, Relinked(r, f, me, other, other, me);
    assert Devices.Symmetric(t');
    forall d | d in r ensures r[d] in f' && d in t' && f'[r[d]].device == d && f'[r[d]].peer == PeerOf(t'[d].pairedWith) {
      assert f[r[d]].device == d && f[r[me]].device == me;
    }
  }

  lemma LinkKeeps(s: State, c: ConnId, code: string, requester: DeviceId, at: nat)
    requires Agreement(s) && Current(s, c) && requester != s.conns[c].device
    requires Devices.Pair(s.table, requester, s.conns[c].device).err == Devices.NoError
    ensures Agreement(DoLink(s, c, code, requester, Devices.Pair(s.table, requester, s.conns[c].device).table, at))
  {
    var me := s.conns[c].device;
    var t := Devices.Pair(s.table, requester, me).table;
    var s' := DoLink(s, c, code, requester, t, at);
    LinkAgrees(s.table, s.registry, Faces(s), me, requester);
    assert Faces(s') == Relinked(s.registry, Faces(s), me, requester, requester, me) by {
      LinkFaces(s, c, code, requester, t, at);
      if requester in s.registry {
        assert Faces(s)[s.registry[requester]].device == requester;
      }
    }
  }

  lemma UnpairSymmetric(t: Devices.Table, id: DeviceId)
    requires Devices.Symmetric(t)
    ensures Devices.Symmetric(Devices.Unpair(t, id))
    ensures forall d :: d in t ==>
              Devices.Unpair(t, id)[d].pairedWith
              == if d == id || (id in t && t[id].pairedWith == Some(d)) then None else t[d].pairedWith
  {
  }

  lemma UnpairAgrees(t: Devices.Table, r: map<DeviceId, ConnId>, f: map<ConnId, Face>, me: DeviceId)
    requires Agree(t, r, f) && me in r
    ensures Agree(Devices.Unpair(t, me), r, Relinked(r, f, me, PeerOf(t[me].pairedWith), "", ""))
  {
    var p := PeerOf(t[me].pairedWith);
    var t', f' := Devices.Unpair(t, me), Relinked(r, f, me, p, "", "");
    UnpairSymmetric(t, me);
    assert f[r[me]].device == me;
    forall d | d in r ensures r[d] in f' && d in t' && f'[r[d]].device == d && f'[r[d]].peer == PeerOf(t'[d].pairedWith) {
      assert f[r[d]].device == d;
      if p in r { assert f[r[p]].device == p; }
    }
    forall c | c in f' ensures f'[c].device != "" && f'[c].device in t' {
      if p in r { assert f[r[p]].device == p; }
    }
  }

  lemma UnpairKeeps(s: State, c: ConnId)
    requires Agreement(s) && Current(s, c)
    ensures Agreement(DoUnpair(s, c))
  {
    var me, p := s.conns[c].device, s.conns[c].peer;
    assert Faces(s)[c] == FaceOf(s.conns[c]) && p == PeerOf(s.table[me].pairedWith);
    UnpairAgrees(s.table, s.registry, Faces(s), me);
    assert Faces(DoUnpair(s, c)) == Relinked(s.registry, Faces(s), me, p, "", "") by {
      UnpairFaces(s, c);
      if p in s.registry {
        assert Faces(s)[s.registry[p]].device == p;
      }
    }
    assert DoUnpair(s, c).table == Devices.Unpair(s.table, me) by { UnpairFaces(s, c); }
  }

  lemma OpenKeeps(s: State, c: ConnId, id: DeviceId, token: string, now: int)
    requires Agreement(s) && c !in s.conns
    ensures Agreement(DoOpen(s, c, id, token, now))
  {
    if Devices.Admit(s.table, id, token, now).Admitted? {
      var k := NewConn(id, Devices.Admit(s.table, id, token, now).pairedWith);
      UpdFaces(s, c, k);
      assert Faces(DoOpen(s, c, id, token, now)) == Faces(s)[c := FaceOf(k)];
    }
  }

  lemma PairRequestSame(s: State, c: ConnId, code: Option<string>, now: int)
    requires c in s.conns
    ensures var s' := DoPairRequest(s, c, code, now);
            s'.table == s.table && s'.registry == s.registry && Faces(s') == Faces(s)
  {
    if code.None? {
      UpdSame(s, c, Told(s.conns[c], Error(Internal)));
    } else {
      var d, exp := s.conns[c].device, now + PairCodes.CODE_TTL;
      var s1 := s.(codes := PairCodes.Put(s.codes, code.value, d, exp),
                   hist := s.hist + [PairCodes.PutEvent(code.value, d, exp)]);
      UpdSame(s1, c, Told(s.conns[c], PairCode(code.value)));
    }
  }

  lemma GreetSame(s: State, c: ConnId)
    requires c in s.conns
    ensures var s' := DoGreet(s, c); s'.table == s.table && s'.registry == s.registry && Faces(s') == Faces(s)
  {
    UpdSame(s, c, DoGreet(s, c).conns[c]);
  }

  /** The steps that leave the routing alone. */
  lemma OtherSame(s: State, st: Step)
    requires st.c in s.conns
    requires st.Greet? || st.Drop? || st.PairRequest? || st.Ping? || st.BinaryFrame? || st.Write? || st.Halt?
    ensures var s' := Next(s, st); s'.table == s.table && s'.registry == s.registry && Faces(s') == Faces(s)
  {
    var c := st.c;
    match st
    case Greet(_) => GreetSame(s, c);
    case Drop(_) => UpdSame(s, c, Shut(s.conns[c]));
    case PairRequest(_, code, now) => PairRequestSame(s, c, code, now);
    case Ping(_) => UpdSame(s, c, Told(s.conns[c], Pong));
    case BinaryFrame(_, payload) =>
      if Lookup(s, s.conns[c].peer).Some? {
        var k := Lookup(s, s.conns[c].peer).value;
        UpdSame(s, k, Offered(s.conns[k], payload));
      }
    case Write(_) => UpdSame(s, c, Wrote(s.conns[c]));
    case Halt(_) => UpdSame(s, c, Halted(s.conns[c]));
  }

  /** Agreement reads only paired_with. */
  lemma SameLinksAgree(t: Devices.Table, t': Devices.Table, r: map<DeviceId, ConnId>, f: map<ConnId, Face>)
    requires Agree(t, r, f) && t'.Keys == t.Keys && forall d :: d in t ==> t'[d].pairedWith == t[d].pairedWith
    ensures Agree(t', r, f)
  {
  }

  lemma TellSame(s: State, c: ConnId, msg: Control)
    requires c in s.conns
    ensures var s' := Tell(s, c, msg); s'.table == s.table && s'.registry == s.registry && Faces(s') == Faces(s)
  {
    UpdSame(s, c, Told(s.conns[c], msg));
  }

  lemma AnnounceKeySame(s: State, c: ConnId, key: string)
    requires c in s.conns
    ensures var s' := DoAnnounceKey(s, c, key);
            && s'.registry == s.registry && Faces(s') == Faces(s) && s'.table.Keys == s.table.Keys
            && forall d :: d in s.table ==> s'.table[d].pairedWith == s.table[d].pairedWith
  {
    if key == "" {
      TellSame(s, c, Error(Malformed));
    } else {
      match Devices.SetStaticKey(s.table, s.conns[c].device, key).err
      case NoError =>
      case StaticKeyMismatch => UpdSame(s, c, Expelled(s.conns[c], KeyMismatch));
      case _ => TellSame(s, c, Error(Internal));
    }
  }

  lemma AnnounceKeyKeeps(s: State, c: ConnId, key: string)
    requires Agreement(s) && c in s.conns
    ensures Agreement(DoAnnounceKey(s, c, key))
  {
    AnnounceKeySame(s, c, key);
    SameLinksAgree(s.table, DoAnnounceKey(s, c, key).table, s.registry, Faces(s));
  }

  /** The pair_accept that links: a live code of another device, both sides unpaired. */
  predicate Links(s: State, c: ConnId, code: string, now: int)
    requires c in s.conns
  {
    var taken := PairCodes.Take(s.codes, code, now).1;
    && code != "" && taken.Redeemed? && taken.requester != s.conns[c].device
    && Devices.Pair(s.table, taken.requester, s.conns[c].device).err == Devices.NoError
  }

  lemma PairAcceptSame(s: State, c: ConnId, code: string, now: int)
    requires c in s.conns && !Links(s, c, code, now)
    ensures var s' := DoPairAccept(s, c, code, now);
            s'.table == s.table && s'.registry == s.registry && Faces(s') == Faces(s)
  {
    var taken, s1 := PairCodes.Take(s.codes, code, now).1, Redeeming(s, code, now);
    assert Faces(s1) == Faces(s);
    TellSame(s, c, Error(Malformed));
    TellSame(s1, c, Error(ErrorCode.CodeExpired));
    TellSame(s1, c, Error(InvalidCode));
    TellSame(s1, c, Error(ErrorCode.AlreadyPaired));
  }

  lemma PairAcceptKeeps(s: State, c: ConnId, code: string, now: int)
    requires Agreement(s) && Current(s, c)
    ensures Agreement(DoPairAccept(s, c, code, now))
  {
    if Links(s, c, code, now) {
      var taken, s1 := PairCodes.Take(s.codes, code, now).1, Redeeming(s, code, now);
      assert Faces(s1) == Faces(s);
      LinkKeeps(s1, c, code, taken.requester, |s.hist|);
    } else {
      PairAcceptSame(s, c, code, now);
    }
  }

  // ----- Connections in the Register channel are left alone -----

  predicate Spared(s: State, s': State, w: ConnId)
    requires w in s.conns
  {
    w in s'.conns && FaceOf(s'.conns[w]) == FaceOf(s.conns[w])
  }

  lemma SameFacesSpare(s: State, s': State, w: ConnId)
    requires w in s.conns && Faces(s') == Faces(s)
    ensures Spared(s, s', w)
  {
    assert w in Faces(s') && Faces(s')[w] == Faces(s)[w];
  }

  lemma PairAcceptSpares(s: State, c: ConnId, code: string, now: int, w: ConnId)
    requires c in s.conns && w in s.conns && c != w && Unlisted(s, w)
    ensures Spared(s, DoPairAccept(s, c, code, now), w)
  {
    var s' := DoPairAccept(s, c, code, now);
    if Links(s, c, code, now) {
      var requester, s1 := PairCodes.Take(s.codes, code, now).1.requester, Redeeming(s, code, now);
      LinkFaces(s1, c, code, requester, Devices.Pair(s.table, requester, s.conns[c].device).table, |s.hist|);
      assert Faces(s1) == Faces(s);
      assert w in Faces(s') && Faces(s')[w] == Faces(s)[w];
    } else {
      PairAcceptSame(s, c, code, now);
      SameFacesSpare(s, s', w);
    }
  }

  lemma UnpairSpares(s: State, c: ConnId, w: ConnId)
    requires c in s.conns && w in s.conns && c != w && Unlisted(s, w)
    ensures Spared(s, DoUnpair(s, c), w)
  {
    UnpairFaces(s, c);
    assert w in Faces(DoUnpair(s, c)) && Faces(DoUnpair(s, c))[w] == Faces(s)[w];
  }

  lemma UnregisterSame(s: State, c: ConnId)
    requires c in s.conns
    ensures Faces(DoUnregister(s, c)) == Faces(s)
  {
    var s1 := s.(registry := s.registry - {s.conns[c].device});
    assert Faces(s1) == Faces(s);
    NotifySame(s1, s.conns[c].peer, s.conns[c].device, false);
  }

  lemma NextSpares(s: State, st: Step, w: ConnId)
    requires w in s.conns && Unlisted(s, w) && InBand(s, st)
    ensures Spared(s, Next(s, st), w)
  {
    var c := st.c;
    if c in s.conns && st.PairAccept? {
      PairAcceptSpares(s, c, st.code, st.now, w);
    } else if c in s.conns && st.Unpair? {
      UnpairSpares(s, c, w);
    } else if c in s.conns && !st.Open? {
      if st.Register? {
        RegisterFaces(s, c);
      } else if st.Unregister? {
        UnregisterSame(s, c);
      } else if st.AnnounceKey? {
        AnnounceKeySame(s, c, st.key);
      } else {
        OtherSame(s, st);
      }
      SameFacesSpare(s, Next(s, st), w);
    }
  }

  lemma RegisterListing(s: State, c: ConnId)
    requires c in s.conns
    ensures var s' := DoRegister(s, c);
            s'.registry == s.registry[s.conns[c].device := c] && s'.waiting == s.waiting - {c}
  {
    NotifySame(Enter(s, c), s.conns[c].peer, s.conns[c].device, true);
  }

  lemma UnregisterListing(s: State, c: ConnId)
    requires c in s.conns
    ensures var s' := DoUnregister(s, c);
            && s'.registry.Keys <= s.registry.Keys && (forall d :: d in s'.registry ==> s'.registry[d] == s.registry[d])
            && s'.waiting == s.waiting
  {
    NotifySame(s.(registry := s.registry - {s.conns[c].device}), s.conns[c].peer, s.conns[c].device, false);
  }

  lemma PairAcceptListing(s: State, c: ConnId, code: string, now: int)
    requires c in s.conns
    ensures var s' := DoPairAccept(s, c, code, now); s'.registry == s.registry && s'.waiting == s.waiting
  {
  }

  lemma UnpairListing(s: State, c: ConnId)
    requires c in s.conns
    ensures var s' := DoUnpair(s, c); s'.registry == s.registry && s'.waiting == s.waiting
  {
  }

  /** What a step does to the registry and to the Register channel. */
  lemma NextListing(s: State, st: Step)
    ensures var s' := Next(s, st);
            if st.Open? then
              s'.registry == s.registry && s'.waiting <= s.waiting + (if st.c in s.conns then {} else {st.c})
            else if st.Register? && st.c in s.conns && st.c in s.waiting then
              s'.registry == s.registry[s.conns[st.c].device := st.c] && s'.waiting == s.waiting - {st.c}
            else
              s'.registry.Keys <= s.registry.Keys && (forall d :: d in s'.registry ==> s'.registry[d] == s.registry[d])
              && s'.waiting == s.waiting
  {
    if st.c in s.conns {
      if st.Register? { RegisterListing(s, st.c); }
      if st.Unregister? { UnregisterListing(s, st.c); }
      if st.PairAccept? { PairAcceptListing(s, st.c, st.code, st.now); }
      if st.Unpair? { UnpairListing(s, st.c); }
    }
  }

  lemma NextUntouched(s: State, st: Step)
    requires Agreement(s) && Untouched(s) && InBand(s, st)
    ensures Untouched(Next(s, st))
  {
    var s' := Next(s, st);
    NextListing(s, st);
    forall w | w in s'.waiting
      ensures w in s'.conns && s'.conns[w].peer == PeerOf(s'.conns[w].linked) && Unlisted(s', w)
    {
      if w in s.conns {
        NextSpares(s, st, w);
      } else {
        assert st.Open? && forall d :: d in s.registry ==> s.registry[d] in Faces(s);
      }
    }
  }

  lemma NextKeeps(s: State, st: Step)
    requires Agreement(s) && Untouched(s) && InBand(s, st)
    ensures Agreement(Next(s, st)) && Untouched(Next(s, st))
  {
    NextUntouched(s, st);
    var c := st.c;
    if st.Open? {
      if c !in s.conns { OpenKeeps(s, c, st.id, st.token, st.now); }
    } else if c in s.conns {
      match st
      case Register(_) => if c in s.waiting { RegisterAgreesIffFresh(s, c); }
      case Unregister(_) => UnregisterKeeps(s, c);
      case AnnounceKey(_, key) => AnnounceKeyKeeps(s, c, key);
      case PairAccept(_, code, now) => PairAcceptKeeps(s, c, code, now);
      case Unpair(_) => UnpairKeeps(s, c);
      case _ => OtherSame(s, st);
    }
  }

  /** Routing agreement: in every in-band run from a symmetric table. */
  lemma {:induction false} RoutingAgreement(s: State, sts: seq<Step>)
    requires Agreement(s) && Untouched(s) && InBandRun(s, sts)
    ensures Agreement(Run(s, sts)) && Untouched(Run(s, sts))
    decreases |sts|
  {
    if sts != [] {
      NextKeeps(s, sts[0]);
      RoutingAgreement(Next(s, sts[0]), sts[1..]);
    }
  }

  /** In every state that an in-band run reaches, registering a waiting connection keeps agreement if and only if its
      row names the peer that it named when the handler read it. */
  lemma RegisterAgreesIff(table: Devices.Table, sts: seq<Step>, c: ConnId)
    requires Devices.Symmetric(table) && InBandRun(Boot(table), sts) && c in Run(Boot(table), sts).waiting
    ensures var s := Run(Boot(table), sts);
            && c in s.conns && s.conns[c].device in s.table
            && (Agreement(DoRegister(s, c)) <==>
                PeerOf(s.conns[c].linked) == PeerOf(s.table[s.conns[c].device].pairedWith))
  {
    BootAgrees(table);
    RoutingAgreement(Boot(table), sts);
    var s := Run(Boot(table), sts);
    assert Faces(s)[c].device in s.table;
    RegisterAgreesIffFresh(s, c);
  }

  lemma BootAgrees(table: Devices.Table)
    requires Devices.Symmetric(table)
    ensures Agreement(Boot(table)) && Untouched(Boot(table))
  {
  }

  /** a and b point at each other. */
  predicate MutuallyLinked(t: Devices.Table, a: DeviceId, b: DeviceId)
  {
    a in t && b in t && t[a].pairedWith == Some(b) && t[b].pairedWith == Some(a)
  }

  /** In a state in agreement, a binary frame touches only the sender's mutually linked, registered peer. */
  lemma BinaryReachesPeer(s: State, c: ConnId, payload: Payload)
    requires Agreement(s) && Current(s, c) && DoBinary(s, c, payload) != s
    ensures var j := s.registry[s.conns[c].peer];
            && Current(s, j) && MutuallyLinked(s.table, s.conns[c].device, s.conns[j].device)
            && s.conns[j].peer == s.conns[c].device
            && DoBinary(s, c, payload) == Upd(s, j, Offered(s.conns[j], payload))
  {
    var me, p := s.conns[c].device, s.conns[c].peer;
    assert Faces(s)[c] == FaceOf(s.conns[c]) && p == PeerOf(s.table[me].pairedWith);
    assert Faces(s)[s.registry[p]] == FaceOf(s.conns[s.registry[p]]);
  }

  lemma BinaryTouchesPeer(s: State, c: ConnId, payload: Payload, j: ConnId)
    requires Agreement(s) && Current(s, c) && j in s.conns && Next(s, BinaryFrame(c, payload)).conns[j] != s.conns[j]
    ensures Current(s, j) && MutuallyLinked(s.table, s.conns[c].device, s.conns[j].device)
    ensures s.conns[j].peer == s.conns[c].device
    ensures Next(s, BinaryFrame(c, payload)).conns[j] == Offered(s.conns[j], payload)
  {
    BinaryReachesPeer(s, c, payload);
  }

  /** A binary frame reaches nobody but the sender's mutually linked peer, on that device's registered connection. */
  lemma RoutesToMutualPeer(table: Devices.Table, sts: seq<Step>, c: ConnId, payload: Payload, j: ConnId)
    requires Devices.Symmetric(table) && InBandRun(Boot(table), sts) && Current(Run(Boot(table), sts), c)
    requires var s := Run(Boot(table), sts);
             j in s.conns && Next(s, BinaryFrame(c, payload)).conns[j] != s.conns[j]
    ensures var s := Run(Boot(table), sts);
            && Current(s, j) && MutuallyLinked(s.table, s.conns[c].device, s.conns[j].device)
            && s.conns[j].peer == s.conns[c].device
            && Next(s, BinaryFrame(c, payload)).conns[j] == Offered(s.conns[j], payload)
  {
    BootAgrees(table);
    RoutingAgreement(Boot(table), sts);
    BinaryTouchesPeer(Run(Boot(table), sts), c, payload, j);
  }

  lemma LinkedPeerIsOffered(s: State, c: ConnId, k: ConnId, payload: Payload)
    requires Agreement(s) && Current(s, c) && Current(s, k)
    requires MutuallyLinked(s.table, s.conns[c].device, s.conns[k].device)
    ensures Next(s, BinaryFrame(c, payload)).conns[k].routed == s.conns[k].routed + [payload]
  {
    assert Faces(s)[c] == FaceOf(s.conns[c]) && s.conns[c].peer == s.conns[k].device;
    assert Faces(s)[k].device != "";
  }

  /** And it is offered to that peer whenever the peer is registered. */
  lemma LinkedPeersReachEachOther(table: Devices.Table, sts: seq<Step>, c: ConnId, k: ConnId, payload: Payload)
    requires Devices.Symmetric(table) && InBandRun(Boot(table), sts)
    requires var s := Run(Boot(table), sts);
             && Current(s, c) && Current(s, k)
             && MutuallyLinked(s.table, s.conns[c].device, s.conns[k].device)
    ensures var s := Run(Boot(table), sts);
            Next(s, BinaryFrame(c, payload)).conns[k].routed == s.conns[k].routed + [payload]
  {
    BootAgrees(table);
    RoutingAgreement(Boot(table), sts);
    LinkedPeerIsOffered(Run(Boot(table), sts), c, k, payload);
  }

  // ----- A connect split by a pairing -----

  /** A device with current connection `mine` is reconnecting on `late`, whose handler has already read the row; another
      device is connected on `theirs`; nobody is paired. */
  predicate Reconnecting(s: State, mine: ConnId, theirs: ConnId, late: ConnId)
  {
    && Current(s, mine) && Current(s, theirs) && late in s.conns && late in s.waiting
    && s.conns[late].device == s.conns[mine].device != s.conns[theirs].device
    && late != mine && s.conns[late].linked.None?
    && s.conns[mine].device in s.table && s.table[s.conns[mine].device].pairedWith.None?
    && s.conns[theirs].device in s.table && s.table[s.conns[theirs].device].pairedWith.None?
  }

  lemma AcceptMakesStale(s: State, mine: ConnId, theirs: ConnId, late: ConnId, code: string, now: int)
    requires Agreement(s) && Untouched(s) && Reconnecting(s, mine, theirs, late) && code != ""
    requires code in s.codes && s.codes[code].requester == s.conns[mine].device && now <= s.codes[code].expiresAt
    ensures var s' := DoPairAccept(s, theirs, code, now);
            Agreement(s') && Untouched(s') && late in s'.waiting && !Fresh(s', late)
  {
    PairAcceptKeeps(s, theirs, code, now);
    NextUntouched(s, PairAccept(theirs, code, now));
    NextListing(s, PairAccept(theirs, code, now));
    PairAcceptSpares(s, theirs, code, now, late);
    var a, b := s.conns[mine].device, s.conns[theirs].device;
    var s1 := Redeeming(s, code, now);
    assert Faces(s1) == Faces(s) && Faces(s)[late] == Face(a, "", None);
    var t := Devices.Pair(s.table, a, b).table;
    LinkFaces(s1, theirs, code, a, t, |s.hist|);
    assert Faces(DoPairAccept(s, theirs, code, now))[late] == Face(a, "", None);
    assert t[a].pairedWith == Some(b);
    assert Faces(s)[theirs].device != "";
  }

  lemma RequestPutsCode(s: State, mine: ConnId, theirs: ConnId, late: ConnId, code: string, now: int)
    requires Agreement(s) && Untouched(s) && Reconnecting(s, mine, theirs, late)
    ensures var s' := DoPairRequest(s, mine, Some(code), now);
            && Agreement(s') && Untouched(s') && Reconnecting(s', mine, theirs, late) && code in s'.codes
            && s'.codes[code] == PairCodes.Entry(s'.conns[mine].device, now + PairCodes.CODE_TTL)
  {
    PairRequestSame(s, mine, Some(code), now);
    NextUntouched(s, PairRequest(mine, Some(code), now));
    var f, f' := Faces(s), Faces(DoPairRequest(s, mine, Some(code), now));
    assert f'[late] == f[late] && f'[mine] == f[mine] && f'[theirs] == f[theirs];
  }

  /** Without freshness agreement fails: if the two devices pair between the halves of the reconnect, the new connection
      is registered as unpaired while the table pairs its device. */
  lemma SplitConnectDisagrees(s: State, mine: ConnId, theirs: ConnId, late: ConnId, code: string, now: int)
    requires Agreement(s) && Untouched(s) && Reconnecting(s, mine, theirs, late) && code != ""
    ensures var s1 := DoPairRequest(s, mine, Some(code), now);
            theirs in s1.conns &&
            var s2 := DoPairAccept(s1, theirs, code, now);
            Agreement(s2) && late in s2.conns && late in s2.waiting && !Agreement(DoRegister(s2, late))
  {
    var s1 := DoPairRequest(s, mine, Some(code), now);
    RequestPutsCode(s, mine, theirs, late, code, now);
    AcceptMakesStale(s1, mine, theirs, late, code, now);
    RegisterAgreesIffFresh(DoPairAccept(s1, theirs, code, now), late);
  }

  lemma ConnectUnpaired(s: State, c: ConnId, id: DeviceId, token: string, now: int)
    requires c !in s.conns && id !in s.registry && Devices.Admit(s.table, id, token, now) == Devices.Admitted(None)
    ensures var s' := Next(Next(s, Open(c, id, token, now)), Register(c));
            && s'.table == s.table && s'.registry == s.registry[id := c]
            && s'.conns == s.conns[c := NewConn(id, None)]
  {
  }

  /** An undivided connect keeps agreement. */
  lemma ConnectKeeps(s: State, c: ConnId, id: DeviceId, token: string, now: int)
    requires Agreement(s) && Untouched(s) && c !in s.conns && Devices.Admit(s.table, id, token, now).Admitted?
    ensures var s' := Next(Next(s, Open(c, id, token, now)), Register(c)); Agreement(s') && Untouched(s')
  {
    AtomicConnectIsFresh(s, c, id, token, now);
    NextKeeps(s, Open(c, id, token, now));
    NextKeeps(Next(s, Open(c, id, token, now)), Register(c));
  }

  /** Two unpaired devices connected on connections 0 and 1. */
  function BothConnected(t: Devices.Table, a: DeviceId, b: DeviceId, now: int): State
    requires a in t && b in t
  {
    var s1 := Next(Next(Boot(t), Open(0, a, t[a].token, now)), Register(0));
    Next(Next(s1, Open(1, b, t[b].token, now)), Register(1))
  }

  lemma BothConnectedState(t: Devices.Table, a: DeviceId, b: DeviceId, now: int)
    requires Devices.Symmetric(t) && a != b && a in t && b in t
    requires Devices.Admit(t, a, t[a].token, now) == Devices.Admit(t, b, t[b].token, now) == Devices.Admitted(None)
    ensures var s := BothConnected(t, a, b, now);
            && Agreement(s) && Untouched(s) && s.table == t && s.registry == map[a := 0, b := 1]
            && s.conns == map[0 := NewConn(a, None), 1 := NewConn(b, None)]
  {
    BootAgrees(t);
    ConnectUnpaired(Boot(t), 0, a, t[a].token, now);
    ConnectKeeps(Boot(t), 0, a, t[a].token, now);
    var s1 := Next(Next(Boot(t), Open(0, a, t[a].token, now)), Register(0));
    ConnectUnpaired(s1, 1, b, t[b].token, now);
    ConnectKeeps(s1, 1, b, t[b].token, now);
  }

  lemma LateOpen(s: State, a: DeviceId, b: DeviceId, token: string, now: int)
    requires a != b && a in s.table && b in s.table && s.table[b].pairedWith.None?
    requires Devices.Admit(s.table, a, token, now) == Devices.Admitted(None)
    requires s.registry == map[a := 0, b := 1] && s.conns == map[0 := NewConn(a, None), 1 := NewConn(b, None)]
    ensures Reconnecting(Next(s, Open(2, a, token, now)), 0, 1, 2)
  {
  }

  /** Such a state is reached, in agreement, from any start with two unpaired devices whose tokens have not expired. */
  lemma ReconnectHappens(t: Devices.Table, a: DeviceId, b: DeviceId, now: int)
    requires Devices.Symmetric(t) && a != b && a in t && b in t
    requires Devices.Admit(t, a, t[a].token, now) == Devices.Admit(t, b, t[b].token, now) == Devices.Admitted(None)
    ensures var s := Next(BothConnected(t, a, b, now), Open(2, a, t[a].token, now));
            Agreement(s) && Untouched(s) && Reconnecting(s, 0, 1, 2)
  {
    BothConnectedState(t, a, b, now);
    var s := BothConnected(t, a, b, now);
    LateOpen(s, a, b, t[a].token, now);
    NextKeeps(s, Open(2, a, t[a].token, now));
  }
}
