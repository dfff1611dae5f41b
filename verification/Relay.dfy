/**
 The relay server as a state machine (internal/relay/hub.go, client.go, control.go, handler.go):
 the hub's registry, every connection with its queue and its routing peer, the pairing codes
 and the device table. A step is one iteration of the hub loop, one control or binary frame
 read from a connection, one frame written to it, or one half of a connect.
 */
module Relay {
  import opened Core
  import opened Frames
  import Q = SendQueue
  import Devices
  import PairCodes

  type ConnId = nat
  type Payload = seq<nat>

  // ----- One connection -----

  /** A Client. `peer` is "" when unpaired; `linked` is paired_with as read by the handler; `stopped` says that the
      write loop has returned. `written` records the frames written to the socket and `routed` the binary frames
      that Route handed to this connection, in order. */
  datatype Conn = Conn(device: DeviceId, peer: DeviceId, linked: Option<DeviceId>, greeted: bool,
                       queue: Q.Queue, stopped: bool, written: seq<Frame>, routed: seq<Payload>)

  /** The peer that a paired_with column stands for. */
  function PeerOf(pairedWith: Option<DeviceId>): DeviceId
  {
    match pairedWith case None => "" case Some(p) => p
  }

  function NewConn(device: DeviceId, linked: Option<DeviceId>): Conn
  {
    Conn(device, PeerOf(linked), linked, false, Q.Queue(false, []), false, [], [])
  }

  /** sendJSON: a control frame that does not fit is dropped. */
  function Told(k: Conn, msg: Control): (r: Conn)
  {
    k.(queue := Q.Enqueue(k.queue, Text(msg, false)).0)
  }

  /** sendWelcome, given the peer's static key and whether it is connected. */
  function Greeted(k: Conn, key: string, online: bool): (r: Conn)
  {
    var k1 := k.(greeted := true);
    match k.linked
    case None => Told(k1, Welcome(k.device, []))
    case Some(p) => Told(Told(k1, Welcome(k.device, [(p, key)])), PeerStatus(p, online))
  }

  /** sendErrorAndClose: the frame closes the connection once written, or the connection is closed at once. */
  function Expelled(k: Conn, e: ErrorCode): (r: Conn)
  {
    var (q, ok) := Q.Enqueue(k.queue, Text(Error(e), true));
    k.(queue := if ok then q else Q.Close(k.queue))
  }

  function Shut(k: Conn): (r: Conn)
  {
    k.(queue := Q.Close(k.queue))
  }

  /** Route, on the receiving connection: one failed enqueue closes it. */
  function Offered(k: Conn, payload: Payload): (r: Conn)
  {
    var (q, ok) := Q.Enqueue(k.queue, Binary(payload));
    k.(queue := if ok then q else Q.Close(k.queue), routed := k.routed + [payload])
  }

  /** One round of the write loop that succeeds. */
  function Wrote(k: Conn): (r: Conn)
  {
    if k.stopped || k.queue.frames == [] then k
    else
      var f := k.queue.frames[0];
      k.(queue := k.queue.(frames := k.queue.frames[1..]), written := k.written + [f],
         stopped := f.Text? && f.closeAfter)
  }

  /** The write loop gives up: a write or a ping failed, or the closed queue ran empty. A frame in hand is lost. */
  function Halted(k: Conn): (r: Conn)
  {
    if k.stopped then k
    else k.(queue := k.queue.(frames := if k.queue.frames == [] then [] else k.queue.frames[1..]), stopped := true)
  }

  // ----- The server -----

  /** A peer_status that the hub loop issued to a connected target. */
  datatype Notice = Notice(target: DeviceId, about: DeviceId, online: bool)

  /** A pair_accept that linked two devices; `at` is the position of its Take in the history of the code registry. */
  datatype Link = Link(requester: DeviceId, acceptor: DeviceId, at: nat)

  /** `waiting` holds the connections in the Register channel; `hist`, `links` and `notices` are records. */
  datatype State = State(
    table: Devices.Table, codes: PairCodes.Codes, conns: map<ConnId, Conn>,
    registry: map<DeviceId, ConnId>, waiting: set<ConnId>,
    hist: seq<PairCodes.Event>, links: seq<Link>, notices: seq<Notice>)

  datatype Step =
    | Open(c: ConnId, id: DeviceId, token: string, now: int)
    | Register(c: ConnId)
    | Greet(c: ConnId)
    | Unregister(c: ConnId)
    | Drop(c: ConnId)
    | AnnounceKey(c: ConnId, key: string)
    | PairRequest(c: ConnId, made: Option<string>, now: int)
    | PairAccept(c: ConnId, code: string, now: int)
    | Unpair(c: ConnId)
    | Ping(c: ConnId)
    | BinaryFrame(c: ConnId, payload: Payload)
    | Write(c: ConnId)
    | Halt(c: ConnId)

  /** GetClient. */
  function Lookup(s: State, d: DeviceId): (r: Option<ConnId>)
  {
    if d in s.registry && s.registry[d] in s.conns then Some(s.registry[d]) else None
  }

  function Upd(s: State, c: ConnId, k: Conn): (r: State)
  {
    s.(conns := s.conns[c := k])
  }

  function Tell(s: State, c: ConnId, msg: Control): (r: State)
    requires c in s.conns
  {
    Upd(s, c, Told(s.conns[c], msg))
  }

  /** setPeer and the message that announces it. */
  function Point(s: State, c: ConnId, p: DeviceId, msg: Control): (r: State)
    requires c in s.conns
  {
    Upd(s, c, Told(s.conns[c].(peer := p), msg))
  }

  /** The same, for whichever connection a device has registered. */
  function Repoint(s: State, d: DeviceId, p: DeviceId, msg: Control): (r: State)
  {
    match Lookup(s, d)
    case None => s
    case Some(k) => Point(s, k, p, msg)
  }

  /** notifyPeerStatus: nothing happens if the target is not connected. */
  function Notify(s: State, target: DeviceId, about: DeviceId, online: bool): (r: State)
  {
    match Lookup(s, target)
    case None => s
    case Some(k) => Tell(s.(notices := s.notices + [Notice(target, about, online)]), k, PeerStatus(about, online))
  }

  /** The handler up to handing the client to the hub. */
  function DoOpen(s: State, c: ConnId, id: DeviceId, token: string, now: int): (r: State)
  {
    match Devices.Admit(s.table, id, token, now)
    case Admitted(p) => Upd(s, c, NewConn(id, p)).(waiting := s.waiting + {c})
    case _ => s
  }

  function Evict(s: State, d: DeviceId): (r: State)
  {
    match Lookup(s, d)
    case None => s
    case Some(prior) => Upd(s, prior, Shut(s.conns[prior]))
  }

  /** The hub loop takes a client from the Register channel: an older connection of the device is closed. */
  function Enter(s: State, c: ConnId): (r: State)
    requires c in s.conns
  {
    var d := s.conns[c].device;
    var s1 := Evict(s, d);
    s1.(registry := s1.registry[d := c], waiting := s1.waiting - {c})
  }

  function DoRegister(s: State, c: ConnId): (r: State)
    requires c in s.conns
  {
    var k, s1 := s.conns[c], Enter(s, c);
    if k.peer == "" then s1 else Notify(s1, k.peer, k.device, true)
  }

  /** The hub loop takes a client from the Unregister channel: a stale one is ignored. */
  function DoUnregister(s: State, c: ConnId): (r: State)
    requires c in s.conns
  {
    var k := s.conns[c];
    if Lookup(s, k.device) != Some(c) then s
    else
      var s1 := s.(registry := s.registry - {k.device});
      if k.peer == "" then s1 else Notify(s1, k.peer, k.device, false)
  }

  /** The static key of a row, "" when there is none. */
  function KeyOf(t: Devices.Table, d: DeviceId): string
  {
    if d in t then t[d].staticKey else ""
  }

  /** sendWelcome. */
  function DoGreet(s: State, c: ConnId): (r: State)
    requires c in s.conns
  {
    var p := PeerOf(s.conns[c].linked);
    Upd(s, c, Greeted(s.conns[c], KeyOf(s.table, p), Lookup(s, p).Some?))
  }

  function DoAnnounceKey(s: State, c: ConnId, key: string): (r: State)
    requires c in s.conns
  {
    if key == "" then Tell(s, c, Error(Malformed))
    else
      var o := Devices.SetStaticKey(s.table, s.conns[c].device, key);
      match o.err
      case NoError => s.(table := o.table)
      case StaticKeyMismatch => Upd(s, c, Expelled(s.conns[c], KeyMismatch))
      case _ => Tell(s, c, Error(Internal))
  }

  /** handlePairRequest; `code` is None when no code could be generated. */
  function DoPairRequest(s: State, c: ConnId, code: Option<string>, now: int): (r: State)
    requires c in s.conns
  {
    match code
    case None => Tell(s, c, Error(Internal))
    case Some(x) =>
      var d, exp := s.conns[c].device, now + PairCodes.CODE_TTL;
      Tell(s.(codes := PairCodes.Put(s.codes, x, d, exp), hist := s.hist + [PairCodes.PutEvent(x, d, exp)]), c, PairCode(x))
  }

  /** The linking half of handlePairAccept: both table rows, then both connections. */
  function DoLink(s: State, c: ConnId, code: string, requester: DeviceId, table: Devices.Table, at: nat): (r: State)
    requires c in s.conns
  {
    var me := s.conns[c].device;
    var s1 := s.(table := table, links := s.links + [Link(requester, me, at)]);
    var s2 := Point(s1, c, requester, PairComplete(code, requester, KeyOf(table, requester)));
    Repoint(s2, requester, me, PairComplete(code, me, KeyOf(table, me)))
  }

  /** handlePairAccept: taking the code. */
  function Redeeming(s: State, code: string, now: int): (r: State)
  {
    s.(codes := PairCodes.Take(s.codes, code, now).0, hist := s.hist + [PairCodes.TakeEvent(code, now)])
  }

  /** handlePairAccept: pairing with the requester in the table. */
  function Pairing(s: State, c: ConnId, code: string, requester: DeviceId, at: nat): (r: State)
    requires c in s.conns
  {
    var o := Devices.Pair(s.table, requester, s.conns[c].device);
    match o.err
    case NoError => DoLink(s, c, code, requester, o.table, at)
    case AlreadyPaired => Tell(s, c, Error(ErrorCode.AlreadyPaired))
    case _ => Tell(s, c, Error(InvalidCode))
  }

  function DoPairAccept(s: State, c: ConnId, code: string, now: int): (r: State)
    requires c in s.conns
  {
    if code == "" then Tell(s, c, Error(Malformed))
    else
      var s1 := Redeeming(s, code, now);
      match PairCodes.Take(s.codes, code, now).1
      case CodeExpired => Tell(s1, c, Error(ErrorCode.CodeExpired))
      case Unknown => Tell(s1, c, Error(InvalidCode))
      case Redeemed(requester) =>
        if requester == s.conns[c].device then Tell(s1, c, Error(InvalidCode))
        else Pairing(s1, c, code, requester, |s.hist|)
  }

  function DoUnpair(s: State, c: ConnId): (r: State)
    requires c in s.conns
  {
    var me, p := s.conns[c].device, s.conns[c].peer;
    var s1 := s.(table := Devices.Unpair(s.table, me));
    var s2 := Point(s1, c, "", Unpaired(p));
    if p == "" then s2 else Repoint(s2, p, "", Unpaired(me))
  }

  /** A binary frame: Route to the current peer, which is evicted if it does not take the frame. */
  function DoBinary(s: State, c: ConnId, payload: Payload): (r: State)
    requires c in s.conns
  {
    if s.conns[c].peer == "" then s
    else match Lookup(s, s.conns[c].peer)
      case None => s
      case Some(k) => Upd(s, k, Offered(s.conns[k], payload))
  }

  function Next(s: State, st: Step): (r: State)
  {
    if st.Open? then (if st.c in s.conns then s else DoOpen(s, st.c, st.id, st.token, st.now))
    else if st.c !in s.conns then s
    else match st
      case Register(c) => if c in s.waiting then DoRegister(s, c) else s
      case Greet(c) => if s.conns[c].greeted then s else DoGreet(s, c)
      case Unregister(c) => DoUnregister(s, c)
      case Drop(c) => Upd(s, c, Shut(s.conns[c]))
      case AnnounceKey(c, key) => DoAnnounceKey(s, c, key)
      case PairRequest(c, code, now) => DoPairRequest(s, c, code, now)
      case PairAccept(c, code, now) => DoPairAccept(s, c, code, now)
      case Unpair(c) => DoUnpair(s, c)
      case Ping(c) => Tell(s, c, Pong)
      case BinaryFrame(c, payload) => DoBinary(s, c, payload)
      case Write(c) => Upd(s, c, Wrote(s.conns[c]))
      case Halt(c) => Upd(s, c, Halted(s.conns[c]))
  }

  function Run(s: State, sts: seq<Step>): (r: State)
    decreases |sts|
  {
    if sts == [] then s else Run(Next(s, sts[0]), sts[1..])
  }

  /** A server that has just started on an existing device table. */
  function Boot(table: Devices.Table): State
  {
    State(table, map[], map[], map[], {}, [], [], [])
  }
}
