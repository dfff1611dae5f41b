/**
 Two Go clients that share a ready session and rekey over lossless first-in first-out
 channels (sdk/go/peer.go, sdk/go/client.go). The device with the smaller identifier, here
 called the left one, re-initiates on every peer_status; handshakes may overlap, any clock
 value may be read, and the random source may fail.

 A Send is two steps with no lock around them: it seals a packet under the active session, and
 later it queues the packet or, if it is cancelled, drops it. Any number of Sends may overlap, so
 packets may be queued in any order and after the session they belong to has been replaced. Reading
 a frame is one step: a Send that falls between the queueing of a third message and the promotion
 seals as before the step and queues as after it.

 `ReadAll` carries the proof: it reads a channel frame by frame as the receiver will. On the
 left-to-right channel it ends in the left client's active session, at the nonce after the packets
 that were queued in order.
 */
module Rekey {
  import opened Core
  import opened GoNoise
  import opened GoPeer
  import opened GoNode

  datatype Frame = HandshakeFrame(m: HsMsg) | TransportFrame(k: Packet)

  /** A payload whose packet was queued, and whether it was queued cleanly (see `InOrder`). */
  datatype Sent = Sent(payload: Payload, clean: bool)

  /** Both clients, both channels, the packets that each client has sealed and not yet queued, how many packets of the
      active session it has queued in order, the number of ephemerals made, and what was sent and received. */
  datatype System = System(
    left: Node, right: Node,
    lr: seq<Frame>, rl: seq<Frame>,
    leftHeld: seq<Packet>, rightHeld: seq<Packet>,
    leftNext: nat, rightNext: nat,
    made: nat,
    leftSent: seq<Sent>, rightGot: seq<Payload>)

  datatype Move =
    | LeftStatus(online: bool, entropyOk: bool)
    | RightStatus(online: bool, entropyOk: bool)
    | LeftSeal(p: Payload)
    | RightSeal(p: Payload)
    | LeftQueue(i: nat)
    | RightQueue(i: nat)
    | LeftDrop(i: nat)
    | RightDrop(i: nat)
    | LeftRead(entropyOk: bool, now: int, saved: bool)
    | RightRead(entropyOk: bool, now: int, saved: bool)

  function Entropy(s: System, ok: bool): Option<Eph>
  {
    if ok then Some(Fresh(s.made)) else None
  }

  function Queue(ch: seq<Frame>, reply: Option<HsMsg>): seq<Frame>
  {
    if reply.Some? then ch + [HandshakeFrame(reply.value)] else ch
  }

  function Hold(held: seq<Packet>, k: Option<Packet>): seq<Packet>
  {
    if k.Some? then held + [k.value] else held
  }

  predicate Holds(held: seq<Packet>, i: nat)
  {
    i < |held| && held[i].Sealed?
  }

  function Without(held: seq<Packet>, i: nat): seq<Packet>
    requires i < |held|
  {
    held[..i] + held[i + 1..]
  }

  /** The packet is of the active session and the next one in order. */
  predicate InOrder(n: Node, k: Packet, next: nat)
  {
    ActiveReady(n) && k.Sealed? && k.tr == n.peer.active.value.tr && k.n == next
  }

  function Append(ps: seq<Payload>, p: Option<Payload>): seq<Payload>
  {
    if p.Some? then ps + [p.value] else ps
  }

  /** The active session is still the same one. */
  predicate SameSession(n: Node, n': Node)
  {
    ActiveReady(n) && ActiveReady(n') && n.peer.active.value.tr == n'.peer.active.value.tr
  }

  /** The system after a client has handled a handshake frame. */
  function LeftTakes(s: System, out: Output): (r: System)
    requires s.rl != []
  {
    s.(left := out.node, lr := Queue(s.lr, out.reply), rl := s.rl[1..], made := s.made + 1,
       leftNext := if SameSession(s.left, out.node) then s.leftNext else 0)
  }

  function RightTakes(s: System, out: Output): (r: System)
    requires s.lr != []
  {
    s.(right := out.node, rl := Queue(s.rl, out.reply), lr := s.lr[1..], made := s.made + 1,
       rightNext := if SameSession(s.right, out.node) then s.rightNext else 0)
  }

  function LeftReads(s: System, entropyOk: bool, now: int, saved: bool): (r: System)
    requires s.rl != []
  {
    match s.rl[0]
    case HandshakeFrame(m) => LeftTakes(s, OnHandshake(s.left, m, Entropy(s, entropyOk), now, saved))
    case TransportFrame(k) =>
      s.(left := OnTransport(s.left, k).0, rl := s.rl[1..])
  }

  function RightReads(s: System, entropyOk: bool, now: int, saved: bool): (r: System)
    requires s.lr != []
  {
    match s.lr[0]
    case HandshakeFrame(m) => RightTakes(s, OnHandshake(s.right, m, Entropy(s, entropyOk), now, saved))
    case TransportFrame(k) =>
      var out := OnTransport(s.right, k);
      s.(right := out.0, lr := s.lr[1..], rightGot := Append(s.rightGot, out.1))
  }

  function LeftQueues(s: System, i: nat): (r: System)
    requires Holds(s.leftHeld, i)
  {
    var k := s.leftHeld[i];
    var clean := InOrder(s.left, k, s.leftNext);
    s.(leftHeld := Without(s.leftHeld, i), lr := s.lr + [TransportFrame(k)],
       leftSent := s.leftSent + [Sent(k.payload, clean)],
       leftNext := if clean then s.leftNext + 1 else s.leftNext)
  }

  function RightQueues(s: System, i: nat): (r: System)
    requires Holds(s.rightHeld, i)
  {
    var k := s.rightHeld[i];
    s.(rightHeld := Without(s.rightHeld, i), rl := s.rl + [TransportFrame(k)],
       rightNext := if InOrder(s.right, k, s.rightNext) then s.rightNext + 1 else s.rightNext)
  }

  function Next(s: System, mv: Move): (r: System)
  {
    match mv
    case LeftStatus(online, ok) =>
      var out := OnPeerStatus(s.left, s.right.me, online, Entropy(s, ok));
      s.(left := out.node, lr := Queue(s.lr, out.reply), made := s.made + 1)
    case RightStatus(online, ok) =>
      var out := OnPeerStatus(s.right, s.left.me, online, Entropy(s, ok));
      s.(right := out.node, rl := Queue(s.rl, out.reply), made := s.made + 1)
    case LeftSeal(p) =>
      var out := OnSend(s.left, p);
      s.(left := out.0, leftHeld := Hold(s.leftHeld, out.1))
    case RightSeal(p) =>
      var out := OnSend(s.right, p);
      s.(right := out.0, rightHeld := Hold(s.rightHeld, out.1))
    case LeftQueue(i) => if Holds(s.leftHeld, i) then LeftQueues(s, i) else s
    case RightQueue(i) => if Holds(s.rightHeld, i) then RightQueues(s, i) else s
    case LeftDrop(i) => if Holds(s.leftHeld, i) then s.(leftHeld := Without(s.leftHeld, i)) else s
    case RightDrop(i) => if Holds(s.rightHeld, i) then s.(rightHeld := Without(s.rightHeld, i)) else s
    case LeftRead(ok, now, saved) => if s.rl == [] then s else LeftReads(s, ok, now, saved)
    case RightRead(ok, now, saved) => if s.lr == [] then s else RightReads(s, ok, now, saved)
  }

  function Run(s: System, mvs: seq<Move>): (r: System)
    decreases |mvs|
  {
    if mvs == [] then s else Run(Next(s, mvs[0]), mvs[1..])
  }

  // ----- The invariant -----

  /** The keys of one direction together with the next nonce. */
  datatype Flow = Flow(tr: Transcript, fromInitiator: bool, n: nat)

  function SendFlow(x: Session): Flow
    requires x.Live?
  {
    Flow(x.tr, x.initiator, x.sendN)
  }

  function RecvFlow(x: Session): Flow
    requires x.Live?
  {
    Flow(x.tr, !x.initiator, x.recvN)
  }

  /** The frame is the next packet of the flow, so it opens. */
  predicate OpensAt(at: Flow, f: Frame)
  {
    && f.TransportFrame? && f.k.Sealed? && at.n <= MAX_NONCE
    && f.k.tr == at.tr && f.k.fromInitiator == at.fromInitiator && f.k.n == at.n
  }

  /** A receiver after one frame; a third message starts the flow of its session. */
  function ReadOne(at: Flow, f: Frame): Flow
  {
    if OpensAt(at, f) then at.(n := at.n + 1)
    else if f.HandshakeFrame? && f.m.Msg3? then Flow(f.m.tr, true, 0)
    else at
  }

  function ReadAll(fs: seq<Frame>, at: Flow): (r: Flow)
  {
    if fs == [] then at else ReadAll(fs[1..], ReadOne(at, fs[0]))
  }

  /** What a receiver outputs on the way. */
  function Outputs(fs: seq<Frame>, at: Flow): (ps: seq<Payload>)
  {
    if fs == [] then []
    else (if OpensAt(at, fs[0]) then [fs[0].k.payload] else []) + Outputs(fs[1..], ReadOne(at, fs[0]))
  }

  /** The only third message is the one the reader is armed for, and no handshake message comes before it. */
  ghost predicate Chain(fs: seq<Frame>, armed: Option<Transcript>)
  {
    if fs == [] then armed.None?
    else
      match fs[0]
      case TransportFrame(_) => Chain(fs[1..], armed)
      case HandshakeFrame(m) =>
        if m.Msg3? then armed == Some(m.tr) && Chain(fs[1..], None) else armed.None? && Chain(fs[1..], None)
  }

  /** The payloads that were queued cleanly. */
  function Clean(ss: seq<Sent>): (ps: seq<Payload>)
  {
    if ss == [] then []
    else
      var last := ss[|ss| - 1];
      Clean(ss[..|ss| - 1]) + if last.clean then [last.payload] else []
  }

  ghost predicate AllTransport(fs: seq<Frame>)
  {
    forall j :: 0 <= j < |fs| ==> fs[j].TransportFrame?
  }

  predicate Older(e: Eph, made: nat)
  {
    e.Fresh? ==> e.n < made
  }

  predicate OlderFrame(f: Frame, made: nat)
  {
    match f
    case TransportFrame(k) => k.Sealed? ==> Older(k.tr.iEph, made)
    case HandshakeFrame(m) => (Head(m).Some? ==> Older(Head(m).value, made)) && (m.Msg2? ==> Older(m.to, made))
  }

  /** The left client's outstanding ephemeral, if it is waiting for msg2. */
  function Outstanding(s: System): Option<Eph>
  {
    if s.left.peer.pending.Some? && s.left.peer.pending.value.AwaitMsg2?
    then Some(s.left.peer.pending.value.e) else None
  }

  function Armed(s: System): Option<Transcript>
    requires ActiveReady(s.left) && ActiveReady(s.right)
  {
    if s.left.peer.active.value.tr == s.right.peer.active.value.tr then None
    else Some(s.left.peer.active.value.tr)
  }

  /** Identities, pins and announced keys: each client has the other's key pinned. */
  predicate Linked(a: Node, b: Node)
  {
    && a.peer.id == b.me && b.me in a.pins && a.pins[b.me] == b.s && AnnouncedMatches(a.peer, b.s)
  }

  predicate SessionsOk(s: System)
  {
    && StringLess(s.left.me, s.right.me)
    && Linked(s.left, s.right) && Linked(s.right, s.left)
    && ActiveReady(s.left) && ActiveReady(s.right)
    && (s.left.peer.pending.Some? ==> !s.left.peer.pending.value.AwaitMsg1? && s.left.peer.pending.value.Handshaking())
    && (s.right.peer.pending.Some? ==> s.right.peer.pending.value.AwaitMsg3?)
    && Older(s.left.peer.active.value.tr.iEph, s.made) && Older(s.right.peer.active.value.tr.iEph, s.made)
  }

  ghost predicate FramesOk(s: System)
  {
    && (forall j :: 0 <= j < |s.lr| ==> OlderFrame(s.lr[j], s.made))
    && (forall j :: 0 <= j < |s.rl| ==> OlderFrame(s.rl[j], s.made))
    && (forall j :: 0 <= j < |s.rl| && s.rl[j].TransportFrame? ==> s.rl[j].k.Sealed?)
    && (forall j :: 0 <= j < |s.rl| && s.rl[j].HandshakeFrame? ==> s.rl[j].m.Msg2? && s.rl[j].m.s == s.right.s)
  }

  /** The outstanding ephemeral has not been used for packets, and after the first message that carries
      it the left client has sent only packets. */
  ghost predicate OutstandingLast(s: System)
    requires ActiveReady(s.left) && ActiveReady(s.right) && FramesOk(s)
  {
    Outstanding(s).Some? ==>
      && Older(Outstanding(s).value, s.made)
      && s.left.peer.active.value.tr.iEph != Outstanding(s).value
      && s.right.peer.active.value.tr.iEph != Outstanding(s).value
      && (forall j :: 0 <= j < |s.rl| && s.rl[j].TransportFrame? ==> s.rl[j].k.tr.iEph != Outstanding(s).value)
      && forall j :: 0 <= j < |s.lr| && s.lr[j].HandshakeFrame? && Head(s.lr[j].m) == Outstanding(s)
                     ==> AllTransport(s.lr[j + 1..])
  }

  /** An answer to the outstanding message in flight means that the right client still waits for its msg3. */
  ghost predicate AnswerHeld(s: System)
  {
    Outstanding(s).Some? ==>
      forall j :: 0 <= j < |s.rl| && s.rl[j].HandshakeFrame? && s.rl[j].m.Msg2? && s.rl[j].m.to == Outstanding(s).value
                  ==> && s.right.peer.pending == Some(AwaitMsg3(s.rl[j].m.e, Outstanding(s).value))
                      && AllTransport(s.lr)
  }

  /** Left to right: reading everything ends in the left client's session, after the packets queued in order. */
  ghost predicate InStep(s: System)
    requires SessionsOk(s)
  {
    var a := s.left.peer.active.value;
    var b := s.right.peer.active.value;
    var end := ReadAll(s.lr, RecvFlow(b));
    && Chain(s.lr, Armed(s))
    && end == Flow(a.tr, a.initiator, s.leftNext)
    && (Armed(s).None? ==> a.initiator != b.initiator)
    && (Armed(s).Some? ==>
          && a.initiator && a.tr.iStatic == s.left.s && a.tr.rStatic == s.right.s
          && s.right.peer.pending == Some(AwaitMsg3(a.tr.rEph, a.tr.iEph)))
    && Clean(s.leftSent) == s.rightGot + Outputs(s.lr, RecvFlow(b))
  }

  /** Right to left: reading everything ends after the packets queued in order; while the left client is ahead,
      nothing in flight is of its session. */
  ghost predicate BackInStep(s: System)
    requires SessionsOk(s)
  {
    ReadAll(s.rl, RecvFlow(s.left.peer.active.value)).n == if Armed(s).None? then s.rightNext else 0
  }

  /** The part of the invariant about sessions and handshake frames. */
  ghost predicate Orderly(s: System)
  {
    SessionsOk(s) && FramesOk(s) && OutstandingLast(s) && AnswerHeld(s)
  }

  /** The part about what is in flight. */
  ghost predicate Wired(s: System)
  {
    Orderly(s) && InStep(s) && BackInStep(s)
  }

  /** A held packet is not of the outstanding attempt; if it is of the client's active session, it has its direction. */
  predicate OwnPacket(k: Packet, x: Session, outstanding: Option<Eph>, made: nat)
    requires x.Live?
  {
    && k.Sealed? && k.n <= MAX_NONCE && Older(k.tr.iEph, made) && Some(k.tr.iEph) != outstanding
    && (k.tr == x.tr ==> k.fromInitiator == x.initiator)
  }

  /** The part about held packets; while the left client is ahead, the right one holds no packet of its session. */
  ghost predicate HeldOk(s: System)
  {
    && ActiveReady(s.left) && ActiveReady(s.right)
    && var a, b := s.left.peer.active.value, s.right.peer.active.value;
    && (forall i :: 0 <= i < |s.leftHeld| ==> OwnPacket(s.leftHeld[i], a, Outstanding(s), s.made))
    && (forall i :: 0 <= i < |s.rightHeld| ==> OwnPacket(s.rightHeld[i], b, Outstanding(s), s.made))
    && (Armed(s).Some? ==> forall i :: 0 <= i < |s.rightHeld| ==> s.rightHeld[i].Sealed? ==> s.rightHeld[i].tr != a.tr)
  }

  ghost predicate Inv(s: System)
  {
    Wired(s) && HeldOk(s)
  }

  // ----- Reading and extending the channel -----

  lemma {:induction false} ReadSnoc(fs: seq<Frame>, at: Flow, f: Frame)
    ensures ReadAll(fs + [f], at) == ReadOne(ReadAll(fs, at), f)
    ensures Outputs(fs + [f], at) == Outputs(fs, at) + if OpensAt(ReadAll(fs, at), f) then [f.k.payload] else []
    decreases |fs|
  {
    if fs == [] {
      assert fs + [f] == [f] && [f][1..] == [];
    } else {
      assert (fs + [f])[1..] == fs[1..] + [f];
      ReadSnoc(fs[1..], ReadOne(at, fs[0]), f);
    }
  }

  lemma {:induction false} ChainSnoc(fs: seq<Frame>, armed: Option<Transcript>, f: Frame)
    requires Chain(fs, armed) && !(f.HandshakeFrame? && f.m.Msg3?)
    ensures Chain(fs + [f], armed)
    decreases |fs|
  {
    if fs == [] {
      assert fs + [f] == [f] && [f][1..] == [];
    } else {
      assert (fs + [f])[1..] == fs[1..] + [f];
      ChainSnoc(fs[1..], if fs[0].TransportFrame? then armed else None, f);
    }
  }

  lemma {:induction false} ChainSnocMsg3(fs: seq<Frame>, armed: Option<Transcript>, tr: Transcript)
    requires Chain(fs, armed) && AllTransport(fs)
    ensures armed.None? && Chain(fs + [HandshakeFrame(Msg3(tr))], Some(tr))
    decreases |fs|
  {
    var gs := fs + [HandshakeFrame(Msg3(tr))];
    if fs == [] {
      assert gs[1..] == [];
    } else {
      assert gs[1..] == fs[1..] + [HandshakeFrame(Msg3(tr))];
      assert fs[0].TransportFrame?;
      ChainSnocMsg3(fs[1..], armed, tr);
    }
  }

  /** Without third messages or packets of its session a flow stays as it is. */
  lemma {:induction false} ReadNone(fs: seq<Frame>, at: Flow)
    requires forall j :: 0 <= j < |fs| && fs[j].TransportFrame? && fs[j].k.Sealed? ==> fs[j].k.tr != at.tr
    requires forall j :: 0 <= j < |fs| && fs[j].HandshakeFrame? ==> !fs[j].m.Msg3?
    ensures ReadAll(fs, at) == at
    decreases |fs|
  {
    if fs != [] {
      ReadNone(fs[1..], at);
    }
  }

  lemma CleanSnoc(ss: seq<Sent>, x: Sent)
    ensures Clean(ss + [x]) == Clean(ss) + if x.clean then [x.payload] else []
  {
    assert (ss + [x])[..|ss|] == ss;
  }

  // ----- Each move keeps the invariant -----

  lemma LeftStatusOrderly(s: System, online: bool, ok: bool)
    requires Orderly(s) && Chain(s.lr, Armed(s))
    ensures Orderly(Next(s, LeftStatus(online, ok)))
  {
  }

  lemma LeftStatusKeeps(s: System, online: bool, ok: bool)
    requires Wired(s)
    ensures Wired(Next(s, LeftStatus(online, ok)))
  {
    LeftStatusOrderly(s, online, ok);
    if online && ok {
      var f := HandshakeFrame(Msg1(Fresh(s.made)));
      ChainSnoc(s.lr, Armed(s), f);
      ReadSnoc(s.lr, RecvFlow(s.right.peer.active.value), f);
    }
  }

  lemma RightStatusKeeps(s: System, online: bool, ok: bool)
    requires Wired(s)
    ensures Wired(Next(s, RightStatus(online, ok)))
  {
    StringLessTrichotomy(s.left.me, s.right.me);
  }

  /** Appending a packet to the left-to-right channel keeps what the invariant says about frames. */
  lemma PacketAppended(s: System, s': System, f: Frame)
    requires Orderly(s)
    requires f.TransportFrame? && OlderFrame(f, s.made)
    requires s' == s.(lr := s.lr + [f], leftHeld := s'.leftHeld, leftSent := s'.leftSent, leftNext := s'.leftNext)
    ensures Orderly(s')
  {
    forall j | 0 <= j < |s.lr| ensures s'.lr[j] == s.lr[j] && s'.lr[j + 1..] == s.lr[j + 1..] + [f] {}
  }

  /** A client whose active session has used up one more nonce for sending. */
  function Bumped(n: Node): Node
    requires ActiveReady(n)
  {
    n.(peer := n.peer.(active := Some(n.peer.active.value.(sendN := n.peer.active.value.sendN + 1))))
  }

  /** The packet that a client seals next. */
  function NextPacket(n: Node, p: Payload): Packet
    requires ActiveReady(n)
  {
    var x := n.peer.active.value;
    Sealed(x.tr, x.initiator, x.sendN, p)
  }

  lemma SendEffect(n: Node, p: Payload)
    requires ActiveReady(n)
    ensures OnSend(n, p)
            == if n.peer.active.value.sendN <= MAX_NONCE then (Bumped(n), Some(NextPacket(n, p))) else (n, None)
  {
  }

  lemma LeftSealMove(s: System, p: Payload)
    requires ActiveReady(s.left)
    ensures Next(s, LeftSeal(p))
            == if s.left.peer.active.value.sendN <= MAX_NONCE
               then s.(left := Bumped(s.left), leftHeld := s.leftHeld + [NextPacket(s.left, p)]) else s
  {
    SendEffect(s.left, p);
  }

  lemma LeftSealKeeps(s: System, p: Payload)
    requires Inv(s)
    ensures Inv(Next(s, LeftSeal(p)))
  {
    LeftSealMove(s, p);
  }

  lemma RightSealMove(s: System, p: Payload)
    requires ActiveReady(s.right)
    ensures Next(s, RightSeal(p))
            == if s.right.peer.active.value.sendN <= MAX_NONCE
               then s.(right := Bumped(s.right), rightHeld := s.rightHeld + [NextPacket(s.right, p)]) else s
  {
    SendEffect(s.right, p);
  }

  lemma RightSealKeeps(s: System, p: Payload)
    requires Inv(s)
    ensures Inv(Next(s, RightSeal(p)))
  {
    RightSealMove(s, p);
  }

  lemma LeftQueueFlows(s: System, i: nat)
    requires Inv(s) && Holds(s.leftHeld, i)
    ensures InStep(LeftQueues(s, i))
  {
    var k := s.leftHeld[i];
    ChainSnoc(s.lr, Armed(s), TransportFrame(k));
    ReadSnoc(s.lr, RecvFlow(s.right.peer.active.value), TransportFrame(k));
    CleanSnoc(s.leftSent, Sent(k.payload, InOrder(s.left, k, s.leftNext)));
  }

  lemma LeftQueueKeeps(s: System, i: nat)
    requires Inv(s)
    ensures Inv(Next(s, LeftQueue(i)))
  {
    if Holds(s.leftHeld, i) {
      LeftQueueFlows(s, i);
      PacketAppended(s, LeftQueues(s, i), TransportFrame(s.leftHeld[i]));
    }
  }

  /** Appending a packet to the right-to-left channel keeps what the invariant says about frames. */
  lemma PacketAppendedBack(s: System, s': System, k: Packet)
    requires Orderly(s)
    requires k.Sealed? && Older(k.tr.iEph, s.made) && Some(k.tr.iEph) != Outstanding(s)
    requires s' == s.(rl := s.rl + [TransportFrame(k)], rightHeld := s'.rightHeld, rightNext := s'.rightNext)
    ensures Orderly(s')
  {
  }

  lemma RightQueueFlows(s: System, i: nat)
    requires Inv(s) && Holds(s.rightHeld, i)
    ensures BackInStep(RightQueues(s, i))
  {
    var at := RecvFlow(s.left.peer.active.value);
    ReadSnoc(s.rl, at, TransportFrame(s.rightHeld[i]));
    BackTr(s.rl, at);
  }

  lemma RightQueueKeeps(s: System, i: nat)
    requires Inv(s)
    ensures Inv(Next(s, RightQueue(i)))
  {
    if Holds(s.rightHeld, i) {
      RightQueueFlows(s, i);
      PacketAppendedBack(s, RightQueues(s, i), s.rightHeld[i]);
    }
  }

  lemma HeldOnly(s: System, s': System)
    requires Wired(s) && s' == s.(leftHeld := s'.leftHeld, rightHeld := s'.rightHeld)
    ensures Wired(s')
  {
  }

  lemma LeftDropKeeps(s: System, i: nat)
    requires Inv(s)
    ensures Inv(Next(s, LeftDrop(i)))
  {
    HeldOnly(s, Next(s, LeftDrop(i)));
  }

  lemma RightDropKeeps(s: System, i: nat)
    requires Inv(s)
    ensures Inv(Next(s, RightDrop(i)))
  {
    HeldOnly(s, Next(s, RightDrop(i)));
  }

  /** A flow changes its session only at a third message. */
  lemma {:induction false} BackTr(fs: seq<Frame>, at: Flow)
    requires forall j :: 0 <= j < |fs| && fs[j].HandshakeFrame? ==> !fs[j].m.Msg3?
    ensures ReadAll(fs, at).tr == at.tr && ReadAll(fs, at).fromInitiator == at.fromInitiator && at.n <= ReadAll(fs, at).n
    decreases |fs|
  {
    if fs != [] {
      BackTr(fs[1..], ReadOne(at, fs[0]));
    }
  }

  /** Identity, pins and announced key are kept. */
  predicate SameParty(n: Node, n': Node)
  {
    n'.me == n.me && n'.s == n.s && n'.pins == n.pins && n'.peer.id == n.peer.id && n'.peer.announced == n.peer.announced
  }

  /** The active session stays, and the attempt ends or the message is taken for a first one and answered. */
  predicate Declines(n: Node, m: HsMsg, entropy: Option<Eph>, out: Output)
  {
    && SameParty(n, out.node) && out.node.peer.active == n.peer.active
    && ((out.node.peer.pending.None? && out.reply.None?)
        || (&& n.peer.pending.None? && entropy.Some? && Head(m).Some?
            && out.node.peer.pending == Some(AwaitMsg3(entropy.value, Head(m).value))
            && out.reply == Some(Msg2(entropy.value, n.s, Head(m).value))))
  }

  lemma PendingDeclines(n: Node, m: HsMsg, entropy: Option<Eph>, now: int, saved: bool)
    requires ActiveReady(n) && n.peer.pending.Some?
    requires match n.peer.pending.value
             case AwaitMsg2(e) => !(m.Msg2? && m.to == e)
             case AwaitMsg3(_, _) => !m.Msg3?
             case _ => false
    ensures Declines(n, m, entropy, OnHandshake(n, m, entropy, now, saved))
  {
  }

  /** Feeding a message to a healthy peer with nothing pending: dropped, failed at once, or answered. */
  lemma FreshFeed(p: Peer, s: StaticKey, m: HsMsg, entropy: Option<Eph>, now: int)
    requires p.active.Some? && p.active.value.Live? && p.pending.None?
    ensures var q := p.(lastUnsolicited := Some(now));
            Feed(p, s, m, entropy, now)
            == if Throttled(p, now) then Fed(p, None, false, false, false)
               else if Head(m).None? || entropy.None? then Fed(q.(pending := Some(Dead)), None, true, true, true)
               else Fed(q.(pending := Some(AwaitMsg3(entropy.value, Head(m).value))),
                        Some(Msg2(entropy.value, s, Head(m).value)), false, true, false)
  {
  }

  lemma FedDeclines(n: Node, q: Peer, m: HsMsg, entropy: Option<Eph>, fed: Fed, saved: bool)
    requires n.peer.pending.None? && q.pending.None?
    requires q.id == n.peer.id && q.announced == n.peer.announced && q.active == n.peer.active
    requires fed in {Fed(q, None, false, false, false), Fed(q.(pending := Some(Dead)), None, true, true, true)}
             || (&& entropy.Some? && Head(m).Some?
                 && fed == Fed(q.(pending := Some(AwaitMsg3(entropy.value, Head(m).value))),
                               Some(Msg2(entropy.value, n.s, Head(m).value)), false, true, false))
    ensures Declines(n, m, entropy, AfterFeed(n, fed, saved))
  {
  }

  lemma FreshDeclines(n: Node, m: HsMsg, entropy: Option<Eph>, now: int, saved: bool)
    requires ActiveReady(n) && n.peer.pending.None?
    ensures Declines(n, m, entropy, OnHandshake(n, m, entropy, now, saved))
  {
    FreshFeed(n.peer, n.s, m, entropy, now);
    var q := if Throttled(n.peer, now) then n.peer else n.peer.(lastUnsolicited := Some(now));
    FedDeclines(n, q, m, entropy, Feed(n.peer, n.s, m, entropy, now), saved);
  }

  /** What the right client does with any handshake message that is not a msg3: an unsolicited one is answered or
      throttled, and one that disturbs an attempt ends it. */
  lemma RightAnswers(n: Node, m: HsMsg, entropy: Option<Eph>, now: int, saved: bool)
    requires ActiveReady(n) && (n.peer.pending.Some? ==> n.peer.pending.value.AwaitMsg3?) && !m.Msg3?
    ensures Declines(n, m, entropy, OnHandshake(n, m, entropy, now, saved))
  {
    if n.peer.pending.Some? { PendingDeclines(n, m, entropy, now, saved); } else { FreshDeclines(n, m, entropy, now, saved); }
  }

  lemma RightPacketOrderly(s: System, ok: bool, now: int, saved: bool)
    requires Orderly(s) && s.lr != [] && s.lr[0].TransportFrame?
    ensures var s' := RightReads(s, ok, now, saved);
            && Orderly(s')
            && RecvFlow(s'.right.peer.active.value) == ReadOne(RecvFlow(s.right.peer.active.value), s.lr[0])
  {
    var s' := RightReads(s, ok, now, saved);
    forall j | 0 <= j < |s'.lr| ensures s'.lr[j + 1..] == s.lr[j + 1 + 1..] && s'.lr[j] == s.lr[j + 1] {}
  }

  lemma RightReadsPacket(s: System, ok: bool, now: int, saved: bool)
    requires Wired(s) && s.lr != [] && s.lr[0].TransportFrame?
    ensures Wired(RightReads(s, ok, now, saved))
  {
    RightPacketOrderly(s, ok, now, saved);
    var s' := RightReads(s, ok, now, saved);
    var b, b' := s.right.peer.active.value, s'.right.peer.active.value;
    assert s'.rightGot + Outputs(s'.lr, RecvFlow(b')) == s.rightGot + Outputs(s.lr, RecvFlow(b));
  }

  lemma Msg3Promotes(n: Node, m: HsMsg, entropy: Option<Eph>, now: int, saved: bool)
    requires ActiveReady(n) && m.Msg3? && n.peer.pending == Some(AwaitMsg3(m.tr.rEph, m.tr.iEph)) && m.tr.rStatic == n.s
    requires n.peer.id in n.pins && n.pins[n.peer.id] == m.tr.iStatic && AnnouncedMatches(n.peer, m.tr.iStatic)
    ensures var out := OnHandshake(n, m, entropy, now, saved);
            && SameParty(n, out.node) && out.reply.None? && out.node.peer.pending.None?
            && out.node.peer.active == Some(Live(false, m.tr, 0, 0))
  {
  }

  lemma RightPromoted(s: System, out: Output)
    requires Wired(s) && s.lr != [] && s.lr[0].HandshakeFrame? && s.lr[0].m.Msg3?
    requires SameParty(s.right, out.node) && out.reply.None? && out.node.peer.pending.None?
    requires out.node.peer.active == Some(Live(false, s.lr[0].m.tr, 0, 0))
    ensures Wired(RightTakes(s, out))
  {
    var s' := RightTakes(s, out);
    forall j | 0 <= j < |s'.lr| ensures s'.lr[j + 1..] == s.lr[j + 1 + 1..] && s'.lr[j] == s.lr[j + 1] {}
  }

  /** The third message puts the right client on the left client's keys. */
  lemma RightReadsMsg3(s: System, ok: bool, now: int, saved: bool)
    requires Wired(s) && s.lr != [] && s.lr[0].HandshakeFrame? && s.lr[0].m.Msg3?
    ensures Wired(RightReads(s, ok, now, saved))
    ensures RightReads(s, ok, now, saved).right.peer.active == Some(Live(false, s.left.peer.active.value.tr, 0, 0))
  {
    assert s.lr[0].m.tr == s.left.peer.active.value.tr;
    Msg3Promotes(s.right, s.lr[0].m, Entropy(s, ok), now, saved);
    RightPromoted(s, OnHandshake(s.right, s.lr[0].m, Entropy(s, ok), now, saved));
  }

  lemma RightDeclinedFrames(s: System, ok: bool, out: Output)
    requires Wired(s) && s.lr != [] && s.lr[0].HandshakeFrame? && !s.lr[0].m.Msg3?
    requires Declines(s.right, s.lr[0].m, Entropy(s, ok), out)
    ensures var s' := RightTakes(s, out); SessionsOk(s') && FramesOk(s') && OutstandingLast(s')
  {
    var s' := RightTakes(s, out);
    forall j | 0 <= j < |s'.lr| ensures s'.lr[j + 1..] == s.lr[j + 1 + 1..] && s'.lr[j] == s.lr[j + 1] {}
  }

  lemma RightDeclined(s: System, ok: bool, out: Output)
    requires Wired(s) && s.lr != [] && s.lr[0].HandshakeFrame? && !s.lr[0].m.Msg3?
    requires Declines(s.right, s.lr[0].m, Entropy(s, ok), out)
    ensures Wired(RightTakes(s, out))
  {
    var s', m := RightTakes(s, out), s.lr[0].m;
    RightDeclinedFrames(s, ok, out);
    assert !AllTransport(s.lr);
    if out.reply.Some? {
      ReadSnoc(s.rl, RecvFlow(s.left.peer.active.value), HandshakeFrame(out.reply.value));
    }
    assert AnswerHeld(s') by {
      if Outstanding(s).Some? && Head(m) == Outstanding(s) {
        assert s'.lr == s.lr[0 + 1..];
      }
    }
  }

  lemma RightReadsOther(s: System, ok: bool, now: int, saved: bool)
    requires Wired(s) && s.lr != [] && s.lr[0].HandshakeFrame? && !s.lr[0].m.Msg3?
    ensures Wired(RightReads(s, ok, now, saved))
  {
    RightAnswers(s.right, s.lr[0].m, Entropy(s, ok), now, saved);
    RightDeclined(s, ok, OnHandshake(s.right, s.lr[0].m, Entropy(s, ok), now, saved));
  }

  lemma RightReadKeeps(s: System, ok: bool, now: int, saved: bool)
    requires Wired(s)
    ensures Wired(Next(s, RightRead(ok, now, saved)))
  {
    if s.lr != [] {
      if s.lr[0].TransportFrame? {
        RightReadsPacket(s, ok, now, saved);
      } else if s.lr[0].m.Msg3? {
        RightReadsMsg3(s, ok, now, saved);
      } else {
        RightReadsOther(s, ok, now, saved);
      }
    }
  }

  /** The left client promotes the session that message m completes. */
  predicate Promotes(n: Node, m: HsMsg, out: Output)
    requires m.Msg2?
  {
    var tr := Transcript(m.to, n.s, m.e, m.s);
    && SameParty(n, out.node) && out.node.peer.active == Some(Live(true, tr, 0, 0)) && out.node.peer.pending.None?
    && out.reply == Some(Msg3(tr))
  }

  lemma Msg2Promotes(n: Node, m: HsMsg, entropy: Option<Eph>, now: int, saved: bool)
    requires ActiveReady(n) && m.Msg2? && n.peer.pending == Some(AwaitMsg2(m.to))
    requires n.peer.id in n.pins && n.pins[n.peer.id] == m.s && AnnouncedMatches(n.peer, m.s)
    ensures Promotes(n, m, OnHandshake(n, m, entropy, now, saved))
  {
  }

  /** What the left client does with a second message. */
  lemma LeftAnswers(n: Node, m: HsMsg, entropy: Option<Eph>, now: int, saved: bool)
    requires ActiveReady(n) && m.Msg2?
    requires n.peer.pending.Some? ==> n.peer.pending.value.Handshaking() && !n.peer.pending.value.AwaitMsg1?
    requires n.peer.id in n.pins && n.pins[n.peer.id] == m.s && AnnouncedMatches(n.peer, m.s)
    ensures var out := OnHandshake(n, m, entropy, now, saved);
            if n.peer.pending == Some(AwaitMsg2(m.to)) then Promotes(n, m, out) else Declines(n, m, entropy, out)
  {
    if n.peer.pending == Some(AwaitMsg2(m.to)) {
      Msg2Promotes(n, m, entropy, now, saved);
    } else if n.peer.pending.Some? {
      PendingDeclines(n, m, entropy, now, saved);
    } else {
      FreshDeclines(n, m, entropy, now, saved);
    }
  }

  lemma LeftPacketOrderly(s: System, ok: bool, now: int, saved: bool)
    requires Orderly(s) && s.rl != [] && s.rl[0].TransportFrame?
    ensures var s' := LeftReads(s, ok, now, saved);
            && Orderly(s')
            && RecvFlow(s'.left.peer.active.value) == ReadOne(RecvFlow(s.left.peer.active.value), s.rl[0])
            && SendFlow(s'.left.peer.active.value) == SendFlow(s.left.peer.active.value)
  {
  }

  lemma LeftReadsPacket(s: System, ok: bool, now: int, saved: bool)
    requires Wired(s) && s.rl != [] && s.rl[0].TransportFrame?
    ensures Wired(LeftReads(s, ok, now, saved))
  {
    LeftPacketOrderly(s, ok, now, saved);
  }

  lemma LeftPromotedFlows(s: System, out: Output)
    requires Wired(s) && s.rl != [] && s.rl[0].HandshakeFrame? && s.rl[0].m.Msg2?
    requires Outstanding(s) == Some(s.rl[0].m.to) && Promotes(s.left, s.rl[0].m, out)
    ensures Wired(LeftTakes(s, out))
  {
    var s', m := LeftTakes(s, out), s.rl[0].m;
    var tr := Transcript(m.to, s.left.s, m.e, m.s);
    ChainSnocMsg3(s.lr, Armed(s), tr);
    ReadSnoc(s.lr, RecvFlow(s.right.peer.active.value), HandshakeFrame(Msg3(tr)));
    ReadNone(s'.rl, Flow(tr, false, 0));
  }

  lemma LeftPromotes(s: System, ok: bool, now: int, saved: bool)
    requires Wired(s) && s.rl != [] && s.rl[0].HandshakeFrame? && s.rl[0].m.Msg2?
    requires Outstanding(s) == Some(s.rl[0].m.to)
    ensures Wired(LeftReads(s, ok, now, saved))
  {
    LeftAnswers(s.left, s.rl[0].m, Entropy(s, ok), now, saved);
    LeftPromotedFlows(s, OnHandshake(s.left, s.rl[0].m, Entropy(s, ok), now, saved));
  }

  lemma LeftDeclinedOrderly(s: System, ok: bool, out: Output)
    requires Wired(s) && s.rl != [] && s.rl[0].HandshakeFrame? && s.rl[0].m.Msg2?
    requires Declines(s.left, s.rl[0].m, Entropy(s, ok), out) && (Outstanding(s).Some? ==> out.node.peer.pending.None?)
    ensures Orderly(LeftTakes(s, out))
  {
    assert Outstanding(LeftTakes(s, out)).None?;
  }

  lemma LeftDeclined(s: System, ok: bool, out: Output)
    requires Wired(s) && s.rl != [] && s.rl[0].HandshakeFrame? && s.rl[0].m.Msg2?
    requires Declines(s.left, s.rl[0].m, Entropy(s, ok), out) && (Outstanding(s).Some? ==> out.node.peer.pending.None?)
    ensures Wired(LeftTakes(s, out))
  {
    LeftDeclinedOrderly(s, ok, out);
    if out.reply.Some? {
      var f := HandshakeFrame(out.reply.value);
      ChainSnoc(s.lr, Armed(s), f);
      ReadSnoc(s.lr, RecvFlow(s.right.peer.active.value), f);
    }
  }

  lemma LeftKeepsActive(s: System, ok: bool, now: int, saved: bool)
    requires Wired(s) && s.rl != [] && s.rl[0].HandshakeFrame? && s.rl[0].m.Msg2?
    requires Outstanding(s) != Some(s.rl[0].m.to)
    ensures Wired(LeftReads(s, ok, now, saved))
  {
    LeftAnswers(s.left, s.rl[0].m, Entropy(s, ok), now, saved);
    LeftDeclined(s, ok, OnHandshake(s.left, s.rl[0].m, Entropy(s, ok), now, saved));
  }

  lemma LeftReadKeeps(s: System, ok: bool, now: int, saved: bool)
    requires Wired(s)
    ensures Wired(Next(s, LeftRead(ok, now, saved)))
  {
    if s.rl != [] {
      if s.rl[0].TransportFrame? {
        LeftReadsPacket(s, ok, now, saved);
      } else if Outstanding(s) == Some(s.rl[0].m.to) {
        LeftPromotes(s, ok, now, saved);
      } else {
        LeftKeepsActive(s, ok, now, saved);
      }
    }
  }

  /** Held packets stay in order when both sessions stay and a new outstanding ephemeral is a fresh one. */
  lemma HeldStay(s: System, s': System)
    requires Inv(s) && ActiveReady(s'.left) && ActiveReady(s'.right)
    requires SameKeys(s.left, s'.left) && SameKeys(s.right, s'.right)
    requires s'.leftHeld == s.leftHeld && s'.rightHeld == s.rightHeld && s.made <= s'.made
    requires Outstanding(s') in {None, Outstanding(s), Some(Fresh(s.made))}
    ensures HeldOk(s')
  {
  }

  predicate SameKeys(n: Node, n': Node)
    requires ActiveReady(n) && ActiveReady(n')
  {
    var x, x' := n.peer.active.value, n'.peer.active.value;
    x'.tr == x.tr && x'.initiator == x.initiator
  }

  lemma StatusHeld(s: System, mv: Move)
    requires Inv(s) && (mv.LeftStatus? || mv.RightStatus?)
    ensures HeldOk(Next(s, mv))
  {
    StringLessTrichotomy(s.left.me, s.right.me);
    HeldStay(s, Next(s, mv));
  }

  lemma LeftReadHeld(s: System, mv: Move)
    requires Inv(s) && mv.LeftRead?
    ensures HeldOk(Next(s, mv))
  {
    if s.rl != [] {
      if s.rl[0].TransportFrame? {
        LeftPacketOrderly(s, mv.entropyOk, mv.now, mv.saved);
        HeldStay(s, Next(s, mv));
      } else {
        var m, entropy := s.rl[0].m, Entropy(s, mv.entropyOk);
        LeftAnswers(s.left, m, entropy, mv.now, mv.saved);
        LeftTakesHeld(s, entropy, OnHandshake(s.left, m, entropy, mv.now, mv.saved));
      }
    }
  }

  lemma LeftTakesHeld(s: System, entropy: Option<Eph>, out: Output)
    requires Inv(s) && s.rl != [] && s.rl[0].HandshakeFrame? && s.rl[0].m.Msg2?
    requires if Outstanding(s) == Some(s.rl[0].m.to) then Promotes(s.left, s.rl[0].m, out)
             else Declines(s.left, s.rl[0].m, entropy, out)
    ensures HeldOk(LeftTakes(s, out))
  {
  }

  lemma RightTakesHeld(s: System, out: Output)
    requires Inv(s) && s.lr != [] && s.lr[0].HandshakeFrame?
    requires if s.lr[0].m.Msg3? then out.node.peer.active == Some(Live(false, s.left.peer.active.value.tr, 0, 0))
             else out.node.peer.active == s.right.peer.active
    requires s.lr[0].m.Msg3? ==> Armed(s).Some?
    ensures HeldOk(RightTakes(s, out))
  {
  }

  lemma RightReadHeld(s: System, mv: Move)
    requires Inv(s) && mv.RightRead?
    ensures HeldOk(Next(s, mv))
  {
    if s.lr != [] {
      var entropy := Entropy(s, mv.entropyOk);
      if s.lr[0].TransportFrame? {
        RightPacketOrderly(s, mv.entropyOk, mv.now, mv.saved);
        HeldStay(s, Next(s, mv));
      } else {
        if s.lr[0].m.Msg3? {
          RightReadsMsg3(s, mv.entropyOk, mv.now, mv.saved);
        } else {
          RightAnswers(s.right, s.lr[0].m, entropy, mv.now, mv.saved);
        }
        RightTakesHeld(s, OnHandshake(s.right, s.lr[0].m, entropy, mv.now, mv.saved));
      }
    }
  }

  lemma NextKeeps(s: System, mv: Move)
    requires Inv(s)
    ensures Inv(Next(s, mv))
  {
    match mv {
      case LeftStatus(online, ok) => { LeftStatusKeeps(s, online, ok); StatusHeld(s, mv); }
      case RightStatus(online, ok) => { RightStatusKeeps(s, online, ok); StatusHeld(s, mv); }
      case LeftSeal(p) => LeftSealKeeps(s, p);
      case RightSeal(p) => RightSealKeeps(s, p);
      case LeftQueue(i) => LeftQueueKeeps(s, i);
      case RightQueue(i) => RightQueueKeeps(s, i);
      case LeftDrop(i) => LeftDropKeeps(s, i);
      case RightDrop(i) => RightDropKeeps(s, i);
      case LeftRead(ok, now, saved) => { LeftReadKeeps(s, ok, now, saved); LeftReadHeld(s, mv); }
      case RightRead(ok, now, saved) => { RightReadKeeps(s, ok, now, saved); RightReadHeld(s, mv); }
    }
  }

  lemma {:induction false} RunKeeps(s: System, mvs: seq<Move>)
    requires Inv(s)
    ensures Inv(Run(s, mvs))
    decreases |mvs|
  {
    if mvs != [] {
      NextKeeps(s, mvs[0]);
      RunKeeps(Next(s, mvs[0]), mvs[1..]);
    }
  }

  // ----- The results -----

  /** Two linked clients with one shared ready session, in either role, and nothing in flight. */
  predicate SharedSession(s: System)
  {
    && StringLess(s.left.me, s.right.me)
    && Linked(s.left, s.right) && Linked(s.right, s.left)
    && ActiveReady(s.left) && ActiveReady(s.right)
    && SendFlow(s.left.peer.active.value) == RecvFlow(s.right.peer.active.value)
    && SendFlow(s.right.peer.active.value) == RecvFlow(s.left.peer.active.value)
    && Older(s.left.peer.active.value.tr.iEph, s.made)
    && s.left.peer.pending.None? && s.right.peer.pending.None?
    && s.leftNext == s.left.peer.active.value.sendN && s.rightNext == s.right.peer.active.value.sendN
    && s.lr == [] && s.rl == [] && s.leftHeld == [] && s.rightHeld == [] && s.leftSent == [] && s.rightGot == []
  }

  /** The right client is about to promote the left client's session: it waits for the one msg3 that is in
      flight, and only packets are ahead of that message. */
  ghost predicate Msg3InFlight(s: System)
    requires ActiveReady(s.left)
  {
    var tr := s.left.peer.active.value.tr;
    && s.right.peer.pending == Some(AwaitMsg3(tr.rEph, tr.iEph))
    && exists k :: 0 <= k < |s.lr| && s.lr[k] == HandshakeFrame(Msg3(tr)) && AllTransport(s.lr[..k])
  }

  lemma {:induction false} ArmedHasMsg3(fs: seq<Frame>, tr: Transcript) returns (k: nat)
    requires Chain(fs, Some(tr))
    ensures k < |fs| && fs[k] == HandshakeFrame(Msg3(tr)) && AllTransport(fs[..k])
  {
    match fs[0]
    case TransportFrame(p) =>
      var i := ArmedHasMsg3(fs[1..], tr);
      k := i + 1;
      assert fs[..k] == [fs[0]] + fs[1..][..i];
    case HandshakeFrame(m) =>
      k := 0;
  }

  /** Rekey agreement. In every run the clients use the same keys in opposite roles, or the right one is
      exactly one message, already in flight, from using the left one's. */
  lemma RekeyAgreement(s: System, mvs: seq<Move>)
    requires SharedSession(s)
    ensures var s' := Run(s, mvs);
            && ActiveReady(s'.left) && ActiveReady(s'.right)
            && var a, b := s'.left.peer.active.value, s'.right.peer.active.value;
            (a.tr == b.tr && a.initiator != b.initiator) || Msg3InFlight(s')
  {
    RunKeeps(s, mvs);
    var s' := Run(s, mvs);
    if Armed(s').Some? {
      var k := ArmedHasMsg3(s'.lr, Armed(s').value);
    }
  }

  /** Left to right, exactly: in every run, the payloads whose packets the left client queued in order and under the
      session still active are what the right client has decrypted followed by what will open of the frames in flight. */
  lemma NoLossLeftToRight(s: System, mvs: seq<Move>)
    requires SharedSession(s)
    ensures var s' := Run(s, mvs);
            && ActiveReady(s'.right)
            && Clean(s'.leftSent) == s'.rightGot + Outputs(s'.lr, RecvFlow(s'.right.peer.active.value))
  {
    RunKeeps(s, mvs);
  }

  /** Letting the right client read everything in flight delivers exactly the payloads queued cleanly, in order. */
  lemma {:induction false} DrainDeliversClean(s: System, readings: seq<Move>)
    requires Inv(s) && |readings| == |s.lr| && forall j :: 0 <= j < |readings| ==> readings[j].RightRead?
    ensures var s' := Run(s, readings); s'.rightGot == Clean(s.leftSent) && s'.lr == [] && s'.leftSent == s.leftSent
    decreases |readings|
  {
    if readings != [] {
      NextKeeps(s, readings[0]);
      assert Next(s, readings[0]).leftSent == s.leftSent;
      DrainDeliversClean(Next(s, readings[0]), readings[1..]);
    }
  }

  /** The same, from any reachable state: reading on delivers a payload of the left client if and only if its packet
      was, when it was queued, the next one in order of the session still active. */
  lemma CleanPayloadsArrive(s: System, mvs: seq<Move>, readings: seq<Move>)
    requires SharedSession(s) && |readings| == |Run(s, mvs).lr| && forall j :: 0 <= j < |readings| ==> readings[j].RightRead?
    ensures var s1, s' := Run(s, mvs), Run(Run(s, mvs), readings);
            s'.rightGot == Clean(s1.leftSent) && s'.lr == [] && s'.leftSent == s1.leftSent
  {
    RunKeeps(s, mvs);
    DrainDeliversClean(Run(s, mvs), readings);
  }

  function Payloads(ss: seq<Sent>): (ps: seq<Payload>)
  {
    seq(|ss|, i requires 0 <= i < |ss| => ss[i].payload)
  }

  lemma {:induction false} CleanIsAll(ss: seq<Sent>)
    requires forall i :: 0 <= i < |ss| ==> ss[i].clean
    ensures Clean(ss) == Payloads(ss)
    decreases |ss|
  {
    if ss != [] {
      var n := |ss| - 1;
      CleanIsAll(ss[..n]);
      assert Payloads(ss) == Payloads(ss[..n]) + [ss[n].payload];
    }
  }

  /** On the left, every Send queues its packet as soon as it has sealed it: no other step comes between. */
  predicate Undivided(mvs: seq<Move>)
    decreases |mvs|
  {
    if mvs == [] then true
    else if mvs[0].LeftSeal? then |mvs| > 1 && mvs[1] == LeftQueue(0) && Undivided(mvs[2..])
    else !mvs[0].LeftQueue? && !mvs[0].LeftDrop? && Undivided(mvs[1..])
  }

  /** Nothing is held on the left, and everything queued so far was queued cleanly. */
  predicate AllClean(s: System)
  {
    && ActiveReady(s.left) && s.leftHeld == [] && s.leftNext == s.left.peer.active.value.sendN
    && forall i :: 0 <= i < |s.leftSent| ==> s.leftSent[i].clean
  }

  lemma LeftReadAllClean(s: System, mv: Move)
    requires Inv(s) && AllClean(s) && mv.LeftRead?
    ensures AllClean(Next(s, mv))
  {
    if s.rl != [] {
      if s.rl[0].TransportFrame? {
        LeftPacketOrderly(s, mv.entropyOk, mv.now, mv.saved);
      } else {
        LeftAnswers(s.left, s.rl[0].m, Entropy(s, mv.entropyOk), mv.now, mv.saved);
      }
    }
  }

  lemma SendAllClean(s: System, p: Payload)
    requires AllClean(s)
    ensures AllClean(Next(Next(s, LeftSeal(p)), LeftQueue(0)))
  {
    LeftSealMove(s, p);
  }

  lemma OtherAllClean(s: System, mv: Move)
    requires AllClean(s) && !mv.LeftSeal? && !mv.LeftQueue? && !mv.LeftDrop? && !mv.LeftRead?
    ensures AllClean(Next(s, mv))
  {
  }

  lemma {:induction false} RunAllClean(s: System, mvs: seq<Move>)
    requires Inv(s) && AllClean(s) && Undivided(mvs)
    ensures AllClean(Run(s, mvs))
    decreases |mvs|
  {
    if mvs != [] {
      var s', rest := Next(s, mvs[0]), mvs[1..];
      NextKeeps(s, mvs[0]);
      if mvs[0].LeftSeal? {
        SendAllClean(s, mvs[0].p);
        NextKeeps(s', rest[0]);
        assert rest[1..] == mvs[2..];
        RunAllClean(Next(s', rest[0]), rest[1..]);
      } else {
        if mvs[0].LeftRead? { LeftReadAllClean(s, mvs[0]); } else { OtherAllClean(s, mvs[0]); }
        RunAllClean(s', rest);
      }
    }
  }

  /** With undivided Sends on the left, nothing is lost from left to right across any number of rekeys. */
  lemma EveryPayloadArrives(s: System, mvs: seq<Move>, readings: seq<Move>)
    requires SharedSession(s) && |readings| == |Run(s, mvs).lr| && forall j :: 0 <= j < |readings| ==> readings[j].RightRead?
    requires Undivided(mvs)
    ensures Run(Run(s, mvs), readings).rightGot == Payloads(Run(s, mvs).leftSent)
  {
    CleanPayloadsArrive(s, mvs, readings);
    RunAllClean(s, mvs);
    CleanIsAll(Run(s, mvs).leftSent);
  }

  // ----- The other direction: when a packet is certain to arrive -----

  /** Frame i is the answer, and only packets are ahead of it. */
  ghost predicate AnswerAt(s: System, i: nat)
  {
    && Outstanding(s).Some? && i < |s.rl| && s.rl[i].HandshakeFrame? && s.rl[i].m.Msg2?
    && s.rl[i].m.to == Outstanding(s).value && AllTransport(s.rl[..i])
  }

  /** Among the first j frames there is a handshake message, and the first one is the answer that will make
      the left client promote. Any other handshake message would make it give up its attempt. */
  ghost predicate AnswerAhead(s: System, j: nat)
  {
    exists i: nat :: i < j && AnswerAt(s, i)
  }

  ghost predicate PacketAt(s: System, j: nat)
  {
    ActiveReady(s.left) && j < |s.rl| && s.rl[j].TransportFrame? && s.rl[j].k.Sealed?
  }

  /** The left client's receiving flow when the frames before position j have been read. */
  function FlowAt(s: System, j: nat): Flow
    requires ActiveReady(s.left) && j <= |s.rl|
  {
    ReadAll(s.rl[..j], RecvFlow(s.left.peer.active.value))
  }

  ghost predicate Safe(s: System, j: nat)
  {
    PacketAt(s, j) && OpensAt(FlowAt(s, j), s.rl[j]) && !AnswerAhead(s, j)
  }

  ghost predicate Doomed(s: System, j: nat)
  {
    && PacketAt(s, j) && (AnswerAhead(s, j) || !OpensAt(FlowAt(s, j), s.rl[j]))
    && (Outstanding(s).Some? ==> s.rl[j].k.tr.iEph != Outstanding(s).value)
  }

  datatype Fate = InFlight | Delivered(p: Payload) | Dropped

  /** What becomes of the packet at position j of the right-to-left channel during `mvs`. */
  function Follow(s: System, j: nat, mvs: seq<Move>): (f: Fate)
    decreases |mvs|
  {
    if mvs == [] then InFlight
    else if mvs[0].LeftRead? && j == 0 then
      if s.rl != [] && s.rl[0].TransportFrame? && OnTransport(s.left, s.rl[0].k).1.Some?
      then Delivered(OnTransport(s.left, s.rl[0].k).1.value) else Dropped
    else Follow(Next(s, mvs[0]), if mvs[0].LeftRead? then j - 1 else j, mvs[1..])
  }

  /** A packet opens when it is read exactly if it is the next one of the active session. */
  lemma OpensIffNext(s: System)
    requires ActiveReady(s.left) && s.rl != [] && s.rl[0].TransportFrame?
    ensures OnTransport(s.left, s.rl[0].k).1
            == if OpensAt(RecvFlow(s.left.peer.active.value), s.rl[0]) then Some(s.rl[0].k.payload) else None
  {
  }

  lemma RightMoves(s: System, mv: Move)
    requires mv.RightStatus? || mv.RightSeal? || mv.RightQueue? || mv.RightDrop? || mv.RightRead?
    ensures var s' := Next(s, mv); s'.left == s.left && |s.rl| <= |s'.rl| && s'.rl[..|s.rl|] == s.rl
  {
  }

  lemma LeftMoves(s: System, mv: Move)
    requires ActiveReady(s.left) && (mv.LeftStatus? || mv.LeftSeal? || mv.LeftQueue? || mv.LeftDrop?)
    ensures var s' := Next(s, mv);
            && s'.rl == s.rl && ActiveReady(s'.left)
            && RecvFlow(s'.left.peer.active.value) == RecvFlow(s.left.peer.active.value)
            && (Outstanding(s') == Outstanding(s) || Outstanding(s') == Some(Fresh(s.made)))
  {
  }

  /** Every move but a left read only adds to the right-to-left channel; the left client's receiving flow stays, and a
      new outstanding ephemeral is one that no frame in flight answers. */
  lemma OtherMoves(s: System, mv: Move)
    requires ActiveReady(s.left) && !mv.LeftRead?
    ensures var s' := Next(s, mv);
            && |s.rl| <= |s'.rl| && s'.rl[..|s.rl|] == s.rl
            && ActiveReady(s'.left) && RecvFlow(s'.left.peer.active.value) == RecvFlow(s.left.peer.active.value)
            && (Outstanding(s') == Outstanding(s) || Outstanding(s') == Some(Fresh(s.made)))
  {
    if mv.LeftStatus? || mv.LeftSeal? || mv.LeftQueue? || mv.LeftDrop? { LeftMoves(s, mv); } else { RightMoves(s, mv); }
  }

  /** A left read of a packet moves the flow by that packet. */
  lemma LeftPacketMove(s: System, mv: Move)
    requires SessionsOk(s) && mv.LeftRead? && s.rl != [] && s.rl[0].TransportFrame?
    ensures var s' := Next(s, mv);
            && s'.rl == s.rl[1..] && ActiveReady(s'.left) && Outstanding(s') == Outstanding(s)
            && RecvFlow(s'.left.peer.active.value) == ReadOne(RecvFlow(s.left.peer.active.value), s.rl[0])
  {
  }

  /** A left read of a handshake frame ends the attempt; the flow stays unless the frame is the answer. */
  lemma LeftHandshakeMove(s: System, mv: Move)
    requires SessionsOk(s) && FramesOk(s) && mv.LeftRead? && s.rl != [] && s.rl[0].HandshakeFrame?
    ensures var s' := Next(s, mv);
            && s'.rl == s.rl[1..] && ActiveReady(s'.left) && Outstanding(s').None?
            && RecvFlow(s'.left.peer.active.value)
               == if Outstanding(s) == Some(s.rl[0].m.to)
                  then Flow(Transcript(s.rl[0].m.to, s.left.s, s.rl[0].m.e, s.right.s), false, 0)
                  else RecvFlow(s.left.peer.active.value)
  {
    LeftAnswers(s.left, s.rl[0].m, Entropy(s, mv.entropyOk), mv.now, mv.saved);
  }

  lemma ReadShift(fs: seq<Frame>, at: Flow, j: nat)
    requires 0 < j <= |fs|
    ensures ReadAll(fs[..j], at) == ReadAll(fs[1..][..j - 1], ReadOne(at, fs[0]))
  {
    assert fs[..j][1..] == fs[1..][..j - 1];
  }

  lemma AllTransportShift(fs: seq<Frame>, i: nat)
    requires 0 < i <= |fs| && fs[0].TransportFrame?
    ensures AllTransport(fs[..i]) <==> AllTransport(fs[1..][..i - 1])
  {
    var gs := fs[1..][..i - 1];
    assert fs[..i] == [fs[0]] + gs;
    forall j | 0 <= j < |gs| ensures gs[j] == fs[..i][j + 1] {}
  }

  lemma AnswerAheadShift(s: System, s': System, j: nat)
    requires s.rl != [] && s'.rl == s.rl[1..] && s.rl[0].TransportFrame? && j > 0
    requires Outstanding(s') == Outstanding(s)
    ensures AnswerAhead(s, j) <==> AnswerAhead(s', j - 1)
  {
    forall i: nat | i + 1 < |s.rl| ensures AnswerAt(s, i + 1) <==> AnswerAt(s', i) {
      AllTransportShift(s.rl, i + 1);
    }
    if AnswerAhead(s, j) {
      var i: nat :| i < j && AnswerAt(s, i);
      assert AnswerAt(s', i - 1);
    }
    if AnswerAhead(s', j - 1) {
      var i: nat :| i < j - 1 && AnswerAt(s', i);
      assert AnswerAt(s, i + 1);
    }
  }

  lemma SafeRead(s: System, j: nat, mv: Move)
    requires Inv(s) && Safe(s, j) && mv.LeftRead? && j > 0
    ensures Safe(Next(s, mv), j - 1) && Next(s, mv).rl[j - 1] == s.rl[j]
  {
    var s' := Next(s, mv);
    ReadShift(s.rl, RecvFlow(s.left.peer.active.value), j);
    if s.rl[0].TransportFrame? {
      LeftPacketMove(s, mv);
      AnswerAheadShift(s, s', j);
    } else {
      LeftHandshakeMove(s, mv);
      if Outstanding(s) == Some(s.rl[0].m.to) {
        assert AnswerAt(s, 0);
        assert false;
      }
    }
  }

  lemma SamePrefix(fs: seq<Frame>, gs: seq<Frame>, j: nat)
    requires |fs| <= |gs| && gs[..|fs|] == fs && j <= |fs|
    ensures gs[..j] == fs[..j] && forall i: nat :: i < j ==> gs[i] == fs[i] && gs[..i] == fs[..i]
  {
    forall i: nat | i < |fs| ensures gs[i] == fs[i] {
      assert gs[..|fs|][i] == fs[i];
    }
  }

  lemma SafeOther(s: System, j: nat, mv: Move)
    requires Inv(s) && Safe(s, j) && !mv.LeftRead?
    ensures Safe(Next(s, mv), j) && Next(s, mv).rl[j] == s.rl[j]
  {
    var s' := Next(s, mv);
    OtherMoves(s, mv);
    SamePrefix(s.rl, s'.rl, j);
    forall i: nat | i < j && AnswerAt(s', i) ensures AnswerAt(s, i) {
      assert s'.rl[i] == s.rl[i] && s'.rl[..i] == s.rl[..i] && OlderFrame(s.rl[i], s.made);
    }
  }

  lemma DoomedNext(s: System, j: nat, mv: Move)
    requires Inv(s) && Doomed(s, j) && mv.LeftRead? && j > 0
    ensures Doomed(Next(s, mv), j - 1)
  {
    var s' := Next(s, mv);
    ReadShift(s.rl, RecvFlow(s.left.peer.active.value), j);
    if s.rl[0].TransportFrame? {
      LeftPacketMove(s, mv);
      AnswerAheadShift(s, s', j);
    } else {
      LeftHandshakeMove(s, mv);
      BackTr(s'.rl[..j - 1], RecvFlow(s'.left.peer.active.value));
      if AnswerAhead(s, j) {
        var i: nat :| i < j && AnswerAt(s, i);
      }
    }
  }

  lemma {:induction false} SafeIsNeverDropped(s: System, j: nat, mvs: seq<Move>)
    requires Inv(s) && Safe(s, j)
    ensures Follow(s, j, mvs) in {InFlight, Delivered(s.rl[j].k.payload)}
    decreases |mvs|
  {
    if mvs != [] {
      var s', read := Next(s, mvs[0]), mvs[0].LeftRead?;
      if read && j == 0 {
        OpensIffNext(s);
        assert s.rl[..0] == [];
      } else {
        NextKeeps(s, mvs[0]);
        if read { SafeRead(s, j, mvs[0]); } else { SafeOther(s, j, mvs[0]); }
        SafeIsNeverDropped(s', if read then j - 1 else j, mvs[1..]);
      }
    }
  }

  lemma {:induction false} DoomedIsDropped(s: System, j: nat, readings: seq<Move>)
    requires Inv(s) && Doomed(s, j) && |readings| == j + 1 && forall i :: 0 <= i <= j ==> readings[i].LeftRead?
    ensures Follow(s, j, readings) == Dropped
    decreases |readings|
  {
    if j == 0 {
      OpensIffNext(s);
      assert s.rl[..0] == [];
    } else {
      NextKeeps(s, readings[0]);
      DoomedNext(s, j, readings[0]);
      DoomedIsDropped(Next(s, readings[0]), j - 1, readings[1..]);
    }
  }

  /** At the moment the right client queues packet k: it is the next one in order of the session that both clients use,
      and no answer that will complete the outstanding rekey is on its way. */
  ghost predicate Quiet(s: System, k: Packet)
    requires ActiveReady(s.left) && ActiveReady(s.right)
  {
    && s.left.peer.active.value.tr == s.right.peer.active.value.tr
    && InOrder(s.right, k, s.rightNext) && !AnswerAhead(s, |s.rl|)
  }

  lemma AppendedAnswers(s: System, s': System)
    requires Outstanding(s') == Outstanding(s) && |s.rl| <= |s'.rl| && s'.rl[..|s.rl|] == s.rl
    ensures AnswerAhead(s', |s.rl|) <==> AnswerAhead(s, |s.rl|)
  {
    SamePrefix(s.rl, s'.rl, |s.rl|);
    forall i: nat | i < |s.rl| ensures AnswerAt(s', i) <==> AnswerAt(s, i) {
      assert s'.rl[i] == s.rl[i] && s'.rl[..i] == s.rl[..i];
    }
  }

  lemma QueueIntoChannel(s: System, i: nat)
    requires Inv(s) && Holds(s.rightHeld, i)
    ensures var s', k := RightQueues(s, i), s.rightHeld[i];
            && PacketAt(s', |s.rl|) && s'.rl[|s.rl|].k == k
            && (if Quiet(s, k) then Safe(s', |s.rl|) else Doomed(s', |s.rl|))
  {
    var s' := RightQueues(s, i);
    BackTr(s.rl, RecvFlow(s.left.peer.active.value));
    assert s'.rl[..|s.rl|] == s.rl;
    AppendedAnswers(s, s');
  }

  /** Right to left, exactly: a packet is certain to be delivered, whatever happens next, if and only if the
      system is quiet for it when it is queued. Otherwise reading on is enough to lose it. */
  lemma RightPacketFate(s: System, mvs: seq<Move>, i: nat, more: seq<Move>)
    requires SharedSession(s)
    ensures var s1 := Run(s, mvs);
            && ActiveReady(s1.left) && ActiveReady(s1.right)
            && (i < |s1.rightHeld| ==>
                  var s2, k := Next(s1, RightQueue(i)), s1.rightHeld[i];
                  && k.Sealed?
                  && if Quiet(s1, k) then Follow(s2, |s1.rl|, more) in {InFlight, Delivered(k.payload)}
                     else |more| == |s1.rl| + 1 && (forall j :: 0 <= j < |more| ==> more[j].LeftRead?)
                          ==> Follow(s2, |s1.rl|, more) == Dropped)
  {
    RunKeeps(s, mvs);
    var s1 := Run(s, mvs);
    if i < |s1.rightHeld| {
      QueueIntoChannel(s1, i);
      NextKeeps(s1, RightQueue(i));
      var s2 := Next(s1, RightQueue(i));
      if Quiet(s1, s1.rightHeld[i]) {
        SafeIsNeverDropped(s2, |s1.rl|, more);
      } else if |more| == |s1.rl| + 1 && (forall j :: 0 <= j < |more| ==> more[j].LeftRead?) {
        DoomedIsDropped(s2, |s1.rl|, more);
      }
    }
  }

  // ----- Losses that happen -----

  lemma {:induction false} RunSplit(s: System, xs: seq<Move>, ys: seq<Move>)
    ensures Run(s, xs + ys) == Run(Run(s, xs), ys)
    decreases |xs|
  {
    if xs == [] {
      assert xs + ys == ys;
    } else {
      assert (xs + ys)[1..] == xs[1..] + ys;
      RunSplit(Next(s, xs[0]), xs[1..], ys);
    }
  }

  lemma RunTwo(s: System, a: Move, b: Move)
    ensures Run(s, [a, b]) == Next(Next(s, a), b)
  {
    assert [a, b][1..] == [b] && [b][1..] == [];
    assert Run(s, [a, b]) == Run(Next(s, a), [b]);
  }

  lemma RunFour(s: System, a: Move, b: Move, c: Move, d: Move)
    ensures Run(s, [a, b, c, d]) == Next(Next(Next(Next(s, a), b), c), d)
  {
    assert [a, b, c, d] == [a, b] + [c, d];
    RunSplit(s, [a, b], [c, d]);
    RunTwo(s, a, b);
    RunTwo(Run(s, [a, b]), c, d);
  }

  lemma CancelledSend(s: System, p: Payload)
    requires ActiveReady(s.left) && s.leftHeld == [] && s.left.peer.active.value.sendN <= MAX_NONCE
    ensures Next(Next(s, LeftSeal(p)), LeftDrop(0)) == s.(left := Bumped(s.left))
  {
    LeftSealMove(s, p);
    assert Next(s, LeftSeal(p)) == s.(left := Bumped(s.left), leftHeld := [NextPacket(s.left, p)]);
  }

  /** Nothing is held or in flight on the left, and everything sealed in the active session has been queued in order. */
  predicate Idle(s: System)
  {
    && ActiveReady(s.left) && s.leftHeld == [] && s.lr == [] && s.leftSent == []
    && s.leftNext == s.left.peer.active.value.sendN < MAX_NONCE
  }

  lemma QueuedAfterCancel(s: System, p: Payload, q: Payload)
    requires Idle(s)
    ensures var s' := Next(Next(Next(Next(s, LeftSeal(p)), LeftDrop(0)), LeftSeal(q)), LeftQueue(0));
            s'.leftSent == [Sent(q, false)] && |s'.lr| == 1
  {
    CancelledSend(s, p);
    var s2 := s.(left := Bumped(s.left));
    LeftSealMove(s2, q);
    var k := NextPacket(s2.left, q);
    var s3 := s2.(left := Bumped(s2.left), leftHeld := [k]);
    assert Next(s2, LeftSeal(q)) == s3;
    assert LeftQueues(s3, 0).leftSent == [Sent(q, false)];
  }

  /** A cancelled Send loses the next payload, although that one is queued and read. */
  lemma CancelledSendLoses(s: System, p: Payload, q: Payload, reading: Move)
    requires SharedSession(s) && s.left.peer.active.value.sendN < MAX_NONCE && reading.RightRead?
    ensures var s' := Run(Run(s, [LeftSeal(p), LeftDrop(0), LeftSeal(q), LeftQueue(0)]), [reading]);
            s'.leftSent == [Sent(q, false)] && s'.lr == [] && s'.rightGot == []
  {
    QueuedAfterCancel(s, p, q);
    RunFour(s, LeftSeal(p), LeftDrop(0), LeftSeal(q), LeftQueue(0));
    CleanPayloadsArrive(s, [LeftSeal(p), LeftDrop(0), LeftSeal(q), LeftQueue(0)], [reading]);
    CleanSnoc([], Sent(q, false));
  }

  lemma QueuedOutOfOrder(s: System, p: Payload, q: Payload)
    requires Idle(s)
    ensures var s' := Next(Next(Next(Next(s, LeftSeal(p)), LeftSeal(q)), LeftQueue(1)), LeftQueue(0));
            s'.leftSent == [Sent(q, false), Sent(p, true)] && |s'.lr| == 2
  {
    LeftSealMove(s, p);
    var k1 := NextPacket(s.left, p);
    var s1 := s.(left := Bumped(s.left), leftHeld := [k1]);
    assert Next(s, LeftSeal(p)) == s1;
    LeftSealMove(s1, q);
    var k2 := NextPacket(s1.left, q);
    var s2 := s1.(left := Bumped(s1.left), leftHeld := [k1, k2]);
    assert Next(s1, LeftSeal(q)) == s2;
    var s3 := s2.(leftHeld := [k1], lr := [TransportFrame(k2)], leftSent := [Sent(q, false)]);
    assert LeftQueues(s2, 1) == s3;
    assert LeftQueues(s3, 0).leftSent == [Sent(q, false), Sent(p, true)];
  }

  /** Of two overlapping Sends the one that is overtaken still arrives, and the one that overtakes is lost. */
  lemma OvertakingSendLoses(s: System, p: Payload, q: Payload, readings: seq<Move>)
    requires SharedSession(s) && s.left.peer.active.value.sendN < MAX_NONCE
    requires |readings| == 2 && readings[0].RightRead? && readings[1].RightRead?
    ensures var s' := Run(Run(s, [LeftSeal(p), LeftSeal(q), LeftQueue(1), LeftQueue(0)]), readings);
            s'.leftSent == [Sent(q, false), Sent(p, true)] && s'.lr == [] && s'.rightGot == [p]
  {
    QueuedOutOfOrder(s, p, q);
    RunFour(s, LeftSeal(p), LeftSeal(q), LeftQueue(1), LeftQueue(0));
    CleanPayloadsArrive(s, [LeftSeal(p), LeftSeal(q), LeftQueue(1), LeftQueue(0)], readings);
    CleanSnoc([], Sent(q, false));
    CleanSnoc([Sent(q, false)], Sent(p, true));
  }

  /** A rekey during which the left client seals a packet before it promotes and queues it after its third message. */
  function Straddling(p: Payload, answer: Move, promotion: Move): (mvs: seq<Move>)
  {
    [LeftStatus(true, true), answer] + ([LeftSeal(p), promotion] + [LeftQueue(0)])
  }

  /** The payload of such a Send is lost, with no cancelled Send and both clients on the same keys in the end. */
  lemma StraddlingSendLoses(s: System, p: Payload, now: int, saved: bool, promotion: Move, readings: seq<Move>)
    requires SharedSession(s) && s.right.peer.lastUnsolicited.None? && s.left.peer.active.value.sendN <= MAX_NONCE
    requires promotion.LeftRead? && |readings| == 2 && readings[0].RightRead? && readings[1].RightRead?
    ensures var s' := Run(Run(s, Straddling(p, RightRead(true, now, saved), promotion)), readings);
            && s'.leftSent == [Sent(p, false)] && s'.lr == [] && s'.rightGot == []
            && ActiveReady(s'.left) && ActiveReady(s'.right)
            && s'.left.peer.active.value.tr == s'.right.peer.active.value.tr
  {
    var mvs := Straddling(p, RightRead(true, now, saved), promotion);
    RunKeeps(s, mvs);
    Straddles(s, p, now, saved, promotion);
    DrainedOnSameKeys(Run(s, mvs), readings);
    CleanSnoc([], Sent(p, false));
  }

  lemma Straddles(s: System, p: Payload, now: int, saved: bool, promotion: Move)
    requires SharedSession(s) && s.right.peer.lastUnsolicited.None? && s.left.peer.active.value.sendN <= MAX_NONCE
    requires promotion.LeftRead?
    ensures var s' := Run(s, Straddling(p, RightRead(true, now, saved), promotion));
            s'.leftSent == [Sent(p, false)] && |s'.lr| == 2
  {
    var xs, ys := [LeftStatus(true, true), RightRead(true, now, saved)], [LeftSeal(p), promotion];
    RunSplit(s, xs, ys + [LeftQueue(0)]);
    var s0 := Run(s, xs);
    RunSplit(s0, ys, [LeftQueue(0)]);
    RunKeeps(s, xs);
    AnswerInFlight(s, now, saved);
    PromotedWhileHolding(s0, p, promotion);
    QueuedLate(Run(s0, ys), p);
  }

  lemma QueuedLate(s: System, p: Payload)
    requires |s.leftHeld| == 1 && s.leftHeld[0].Sealed? && s.leftHeld[0].payload == p && |s.lr| == 1 && s.leftSent == []
    requires ActiveReady(s.left) && s.left.peer.active.value.tr != s.leftHeld[0].tr
    ensures var s' := Run(s, [LeftQueue(0)]); s'.leftSent == [Sent(p, false)] && |s'.lr| == 2
  {
  }

  lemma DrainedOnSameKeys(s: System, readings: seq<Move>)
    requires Inv(s) && |readings| == |s.lr| && forall j :: 0 <= j < |readings| ==> readings[j].RightRead?
    ensures var s' := Run(s, readings);
            && s'.rightGot == Clean(s.leftSent) && s'.lr == [] && s'.leftSent == s.leftSent
            && ActiveReady(s'.left) && ActiveReady(s'.right)
            && s'.left.peer.active.value.tr == s'.right.peer.active.value.tr
  {
    DrainDeliversClean(s, readings);
    RunKeeps(s, readings);
  }

  /** Reading the answer leaves the held packet with a session that is no longer active. */
  lemma PromotedWhileHolding(s: System, p: Payload, promotion: Move)
    requires Inv(s) && AnswerAt(s, 0) && promotion.LeftRead? && s.left.peer.active.value.sendN <= MAX_NONCE
    requires s.leftHeld == [] && s.lr == []
    ensures var s' := Run(s, [LeftSeal(p), promotion]);
            && |s'.lr| == 1 && s'.leftSent == s.leftSent && s'.leftHeld == [NextPacket(s.left, p)]
            && ActiveReady(s'.left) && s'.left.peer.active.value.tr != s.left.peer.active.value.tr
  {
    RunTwo(s, LeftSeal(p), promotion);
    LeftSealMove(s, p);
    var s1 := s.(left := Bumped(s.left), leftHeld := [NextPacket(s.left, p)]);
    assert Next(s, LeftSeal(p)) == s1;
    LeftAnswers(s1.left, s.rl[0].m, Entropy(s1, promotion.entropyOk), promotion.now, promotion.saved);
  }

  lemma DroppedBehindAnswer(s: System, i: nat, readings: seq<Move>)
    requires Inv(s) && Holds(s.rightHeld, i) && AnswerAhead(s, |s.rl|)
    requires |readings| == |s.rl| + 1 && forall j :: 0 <= j < |readings| ==> readings[j].LeftRead?
    ensures !Quiet(s, s.rightHeld[i]) && Follow(Next(s, RightQueue(i)), |s.rl|, readings) == Dropped
  {
    QueueIntoChannel(s, i);
    NextKeeps(s, RightQueue(i));
    DoomedIsDropped(RightQueues(s, i), |s.rl|, readings);
  }

  /** A packet that the right client seals and queues behind its answer is dropped. */
  lemma QueuedBehindAnswer(s: System, p: Payload, readings: seq<Move>)
    requires Inv(s) && |s.rl| == 1 && AnswerAt(s, 0) && s.rightHeld == [] && s.right.peer.active.value.sendN <= MAX_NONCE
    requires |readings| == 2 && readings[0].LeftRead? && readings[1].LeftRead?
    ensures var s1 := Next(s, RightSeal(p));
            && ActiveReady(s1.left) && ActiveReady(s1.right) && s1.rightHeld == [NextPacket(s.right, p)]
            && !Quiet(s1, s1.rightHeld[0]) && Follow(Next(s1, RightQueue(0)), 1, readings) == Dropped
  {
    RightSealMove(s, p);
    var s1 := s.(right := Bumped(s.right), rightHeld := [NextPacket(s.right, p)]);
    assert Next(s, RightSeal(p)) == s1;
    NextKeeps(s, RightSeal(p));
    assert AnswerAt(s1, 0);
    DroppedBehindAnswer(s1, 0, readings);
  }

  /** A rekey loses what the right client queues between its answer and the left client's third message. */
  lemma RekeyLosesPacket(s: System, p: Payload, now: int, saved: bool, readings: seq<Move>)
    requires SharedSession(s) && s.right.peer.lastUnsolicited.None? && s.right.peer.active.value.sendN <= MAX_NONCE
    requires |readings| == 2 && readings[0].LeftRead? && readings[1].LeftRead?
    ensures var s1 := Next(Run(s, [LeftStatus(true, true), RightRead(true, now, saved)]), RightSeal(p));
            && ActiveReady(s1.left) && ActiveReady(s1.right) && s1.rightHeld == [NextPacket(s.right, p)]
            && !Quiet(s1, s1.rightHeld[0]) && Follow(Next(s1, RightQueue(0)), 1, readings) == Dropped
  {
    var mvs := [LeftStatus(true, true), RightRead(true, now, saved)];
    RunKeeps(s, mvs);
    AnswerInFlight(s, now, saved);
    QueuedBehindAnswer(Run(s, mvs), p, readings);
  }

  /** A healthy peer with nothing pending that is not throttled answers. */
  lemma FreshAnswers(n: Node, m: HsMsg, e: Eph, now: int, saved: bool)
    requires ActiveReady(n) && n.peer.pending.None? && !Throttled(n.peer, now) && Head(m).Some?
    ensures OnHandshake(n, m, Some(e), now, saved)
            == Output(n.(peer := n.peer.(pending := Some(AwaitMsg3(e, Head(m).value)), lastUnsolicited := Some(now))),
                      Some(Msg2(e, n.s, Head(m).value)), None)
  {
    FreshFeed(n.peer, n.s, m, Some(e), now);
  }

  lemma StatusStarts(s: System)
    requires StringLess(s.left.me, s.right.me) && s.left.peer.id == s.right.me
    ensures Next(s, LeftStatus(true, true))
            == s.(left := s.left.(peer := s.left.peer.(pending := Some(AwaitMsg2(Fresh(s.made))))),
                  lr := s.lr + [HandshakeFrame(Msg1(Fresh(s.made)))], made := s.made + 1)
  {
  }

  lemma AnswerInFlight(s: System, now: int, saved: bool)
    requires SharedSession(s) && s.right.peer.lastUnsolicited.None?
    ensures var s1 := Run(s, [LeftStatus(true, true), RightRead(true, now, saved)]);
            && |s1.rl| == 1 && AnswerAt(s1, 0) && s1.lr == []
            && s1.left.peer.active == s.left.peer.active && s1.right.peer.active == s.right.peer.active
            && s1.leftHeld == [] && s1.rightHeld == [] && s1.leftSent == []
  {
    RunTwo(s, LeftStatus(true, true), RightRead(true, now, saved));
    StatusStarts(s);
    var m := Msg1(Fresh(s.made));
    var s1 := s.(left := s.left.(peer := s.left.peer.(pending := Some(AwaitMsg2(Fresh(s.made))))),
                 lr := [HandshakeFrame(m)], made := s.made + 1);
    assert Next(s, LeftStatus(true, true)) == s1;
    FreshAnswers(s.right, m, Fresh(s.made + 1), now, saved);
    assert RightReads(s1, true, now, saved) == RightTakes(s1, OnHandshake(s.right, m, Some(Fresh(s.made + 1)), now, saved));
  }
}
