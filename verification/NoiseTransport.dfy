/**
 Two ready sessions and the frames between them: sends in both directions interleave freely,
 delivery is first-in first-out, and foreign frames that do not open may arrive at any time
 (sdk/cpp/src/noise/cipher_state.cpp, sdk/ts/src/noise/cipherState.ts).
 */
module NoiseTransport {
  import opened Core
  import opened NoiseSuite
  import opened NoiseSpec
  import XX = XXAgreement
  import opened XXKeys

  /** One direction: the sender, the frames in flight, the receiver, and the plaintexts in and out. */
  datatype Lane = Lane(send: Cipher, frames: seq<Bytes>, recv: Cipher, sent: seq<Bytes>, got: seq<Bytes>)

  /** Left and right name the two directions of one pair of sessions. */
  datatype Wire = Wire(right: Lane, left: Lane)

  datatype Action = Send(p: Bytes) | Deliver | Inject(x: Bytes)
  datatype Move = Move(toRight: bool, act: Action)

  /** What the receiver does with a frame: output it, or drop it and stay as it was. */
  function Receive(c: Suite, l: Lane, x: Bytes): (r: Lane)
  {
    match DecryptWithAd(c, l.recv, [], x)
    case None => l
    case Some((recv, p)) => l.(recv := recv, got := l.got + [p])
  }

  function Act(c: Suite, l: Lane, a: Action): (r: Lane)
  {
    match a
    case Send(p) =>
      var (send, ct) := EncryptWithAd(c, l.send, [], p);
      l.(send := send, frames := l.frames + [ct], sent := l.sent + [p])
    case Deliver => if l.frames == [] then l else Receive(c, l.(frames := l.frames[1..]), l.frames[0])
    case Inject(x) => Receive(c, l, x)
  }

  function Next(c: Suite, w: Wire, m: Move): (r: Wire)
  {
    if m.toRight then w.(right := Act(c, w.right, m.act)) else w.(left := Act(c, w.left, m.act))
  }

  function Run(c: Suite, w: Wire, ms: seq<Move>): (r: Wire)
    decreases |ms|
  {
    if ms == [] then w else Run(c, Next(c, w, ms[0]), ms[1..])
  }

  /** Every injected frame is one the AEAD rejects at the moment it arrives. */
  predicate Rejected(c: Suite, l: Lane, a: Action)
  {
    a.Inject? ==> DecryptWithAd(c, l.recv, [], a.x).None?
  }

  predicate AllRejected(c: Suite, w: Wire, ms: seq<Move>)
    decreases |ms|
  {
    ms == [] ||
    (Rejected(c, if ms[0].toRight then w.right else w.left, ms[0].act) && AllRejected(c, Next(c, w, ms[0]), ms[1..]))
  }

  // ----- The invariant of one direction -----

  function After(x: Cipher, ps: seq<Bytes>): (r: Cipher)
    decreases |ps|
  {
    if ps == [] then x else After(x.(n := (x.n + 1) % NONCE_SPACE), ps[1..])
  }

  /** The frames that carry `ps`, sealed from state `x` on. */
  function Frames(c: Suite, x: Cipher, ps: seq<Bytes>): (r: seq<Bytes>)
    requires x.k.Some?
    decreases |ps|
  {
    if ps == [] then [] else [c.seal(x.k.value, x.n, [], ps[0])] + Frames(c, x.(n := (x.n + 1) % NONCE_SPACE), ps[1..])
  }

  /** What was received is a prefix of what was sent, and the frames in flight carry exactly the rest. */
  predicate InStep(c: Suite, l: Lane)
  {
    && l.recv.k.Some? && IsPrefix(l.got, l.sent)
    && var rest := l.sent[|l.got|..];
    && l.send == After(l.recv, rest) && l.frames == Frames(c, l.recv, rest)
  }

  lemma {:induction false} SendExtends(c: Suite, x: Cipher, ps: seq<Bytes>, p: Bytes)
    requires x.k.Some?
    ensures After(x, ps).k == x.k
    ensures After(x, ps + [p]) == After(x, ps).(n := (After(x, ps).n + 1) % NONCE_SPACE)
    ensures Frames(c, x, ps + [p]) == Frames(c, x, ps) + [c.seal(x.k.value, After(x, ps).n, [], p)]
    decreases |ps|
  {
    if ps == [] {
      assert ([] + [p])[1..] == [];
    } else {
      assert (ps + [p])[1..] == ps[1..] + [p];
      SendExtends(c, x.(n := (x.n + 1) % NONCE_SPACE), ps[1..], p);
    }
  }

  lemma ActKeeps(c: Suite, l: Lane, a: Action)
    requires AeadLaws(c) && InStep(c, l) && Rejected(c, l, a)
    ensures InStep(c, Act(c, l, a))
  {
    var rest := l.sent[|l.got|..];
    match a
    case Send(p) =>
      SendExtends(c, l.recv, rest, p);
      assert (l.sent + [p])[|l.got|..] == rest + [p];
    case Deliver =>
      if l.frames != [] {
        assert rest != [];
        var l' := Act(c, l, a);
        assert l'.got == l.got + [rest[0]];
        assert l'.sent[|l'.got|..] == rest[1..];
      }
    case Inject(_) =>
  }

  // ----- Two sessions -----

  /** The frames of one direction, and the plaintexts in and out. */
  datatype Pipe = Pipe(frames: seq<Bytes>, sent: seq<Bytes>, got: seq<Bytes>)

  /** Two sessions in any state and what is between them. */
  datatype Talk = Talk(a: Session, b: Session, toB: Pipe, toA: Pipe)

  /** One direction after an action of its sender or receiver: the sender's session, the receiver's, and the pipe. */
  function Exchanged(c: Suite, from: Session, to: Session, p: Pipe, act: Action): (r: (Session, Session, Pipe))
  {
    match act
    case Send(x) =>
      (match Encrypt(c, from, x)
       case None => (from, to, p)
       case Some((from', ct)) => (from', to, p.(frames := p.frames + [ct], sent := p.sent + [x])))
    case Deliver => if p.frames == [] then (from, to, p) else Taken(c, from, to, p.(frames := p.frames[1..]), p.frames[0])
    case Inject(x) => Taken(c, from, to, p, x)
  }

  function Taken(c: Suite, from: Session, to: Session, p: Pipe, x: Bytes): (r: (Session, Session, Pipe))
  {
    match Decrypt(c, to, x)
    case None => (from, to, p)
    case Some((to', y)) => (from, to', p.(got := p.got + [y]))
  }

  function TalkNext(c: Suite, t: Talk, m: Move): (r: Talk)
  {
    if m.toRight then
      var (a, b, p) := Exchanged(c, t.a, t.b, t.toB, m.act);
      Talk(a, b, p, t.toA)
    else
      var (b, a, p) := Exchanged(c, t.b, t.a, t.toA, m.act);
      Talk(a, b, t.toB, p)
  }

  function TalkRun(c: Suite, t: Talk, ms: seq<Move>): (r: Talk)
    decreases |ms|
  {
    if ms == [] then t else TalkRun(c, TalkNext(c, t, ms[0]), ms[1..])
  }

  /** Every injected frame is one the receiving session refuses at the moment it arrives. */
  predicate AllRefused(c: Suite, t: Talk, ms: seq<Move>)
    decreases |ms|
  {
    ms == [] ||
    (&& (ms[0].act.Inject? ==> Decrypt(c, if ms[0].toRight then t.b else t.a, ms[0].act.x).None?)
     && AllRefused(c, TalkNext(c, t, ms[0]), ms[1..]))
  }

  function Opening(a: Session, b: Session): Talk
  {
    Talk(a, b, Pipe([], [], []), Pipe([], [], []))
  }

  /** A session that is not ready neither sends nor outputs anything. */
  lemma NotReadyIsSilent(c: Suite, t: Talk, m: Move)
    ensures var from, to := if m.toRight then t.a else t.b, if m.toRight then t.b else t.a;
            var p, p' := if m.toRight then t.toB else t.toA, if m.toRight then TalkNext(c, t, m).toB else TalkNext(c, t, m).toA;
            && (!from.Ready? ==> p'.sent == p.sent && |p'.frames| <= |p.frames|)
            && (!to.Ready? ==> p'.got == p.got)
            && (from.Ready? && m.act.Send? ==> p'.sent == p.sent + [m.act.p] && |p'.frames| == |p.frames| + 1)
  {
  }

  predicate BothReady(t: Talk)
  {
    t.a.Ready? && t.b.Ready?
  }

  /** The two directions of two ready sessions are independent: each uses one cipher of each session. */
  function WireOf(t: Talk): (w: Wire)
    requires BothReady(t)
  {
    Wire(Lane(t.a.send, t.toB.frames, t.b.recv, t.toB.sent, t.toB.got),
         Lane(t.b.send, t.toA.frames, t.a.recv, t.toA.sent, t.toA.got))
  }

  lemma TalkIsWire(c: Suite, t: Talk, m: Move)
    requires BothReady(t)
    ensures BothReady(TalkNext(c, t, m)) && WireOf(TalkNext(c, t, m)) == Next(c, WireOf(t), m)
    ensures TalkNext(c, t, m).a.peer == t.a.peer && TalkNext(c, t, m).b.peer == t.b.peer
  {
  }

  lemma {:induction false} TalkRunIsWire(c: Suite, t: Talk, ms: seq<Move>)
    requires BothReady(t) && AllRefused(c, t, ms)
    ensures BothReady(TalkRun(c, t, ms)) && WireOf(TalkRun(c, t, ms)) == Run(c, WireOf(t), ms) && AllRejected(c, WireOf(t), ms)
    decreases |ms|
  {
    if ms != [] {
      TalkIsWire(c, t, ms[0]);
      TalkRunIsWire(c, TalkNext(c, t, ms[0]), ms[1..]);
    }
  }

  /** The frames in flight of one direction: plaintext number i is sealed with that key, nonce i and no associated data. */
  predicate SealedInOrder(c: Suite, l: Lane, k: Key)
  {
    && IsPrefix(l.got, l.sent) && |l.frames| == |l.sent| - |l.got|
    && forall i :: |l.got| <= i < |l.sent| ==> l.frames[i - |l.got|] == c.seal(k, i % NONCE_SPACE, [], l.sent[i])
  }

  /** The receiver has counted what it has output. */
  predicate Counted(l: Lane, k: Key)
  {
    l.recv == Cipher(Some(k), |l.got| % NONCE_SPACE)
  }

  lemma ActCounts(c: Suite, l: Lane, a: Action, k: Key)
    requires AeadLaws(c) && InStep(c, l) && Rejected(c, l, a) && Counted(l, k)
    ensures Counted(Act(c, l, a), k)
  {
    if a.Deliver? && l.frames != [] {
      WrapStep(|l.got|);
    }
  }

  lemma WrapStep(n: nat)
    ensures (n % NONCE_SPACE + 1) % NONCE_SPACE == (n + 1) % NONCE_SPACE
  {
  }

  lemma {:induction false} FrameAt(c: Suite, x: Cipher, ps: seq<Bytes>, i: nat)
    requires x.k.Some? && i < |ps| && x.n < NONCE_SPACE
    ensures |Frames(c, x, ps)| == |ps| && Frames(c, x, ps)[i] == c.seal(x.k.value, (x.n + i) % NONCE_SPACE, [], ps[i])
    decreases |ps|
  {
    FramesCount(c, x, ps);
    if i > 0 {
      var x' := x.(n := (x.n + 1) % NONCE_SPACE);
      FrameAt(c, x', ps[1..], i - 1);
      WrapShift(x.n, i);
    }
  }

  lemma WrapShift(n: nat, i: nat)
    requires n < NONCE_SPACE && i > 0
    ensures ((n + 1) % NONCE_SPACE + (i - 1)) % NONCE_SPACE == (n + i) % NONCE_SPACE
  {
  }

  lemma CountedIsSealed(c: Suite, l: Lane, k: Key)
    requires InStep(c, l) && Counted(l, k)
    ensures SealedInOrder(c, l, k)
  {
    var rest := l.sent[|l.got|..];
    FramesCount(c, l.recv, rest);
    forall i | |l.got| <= i < |l.sent| ensures l.frames[i - |l.got|] == c.seal(k, i % NONCE_SPACE, [], l.sent[i]) {
      FrameAt(c, l.recv, rest, i - |l.got|);
      WrapSum(|l.got|, i - |l.got|);
    }
  }

  lemma WrapSum(n: nat, i: nat)
    ensures (n % NONCE_SPACE + i) % NONCE_SPACE == (n + i) % NONCE_SPACE
  {
  }

  lemma {:induction false} RunCounts(c: Suite, w: Wire, ms: seq<Move>, k1: Key, k2: Key)
    requires AeadLaws(c) && InStep(c, w.right) && InStep(c, w.left) && AllRejected(c, w, ms)
    requires Counted(w.right, k1) && Counted(w.left, k2)
    ensures InStep(c, Run(c, w, ms).right) && InStep(c, Run(c, w, ms).left)
    ensures Counted(Run(c, w, ms).right, k1) && Counted(Run(c, w, ms).left, k2)
    decreases |ms|
  {
    if ms != [] {
      var lane := if ms[0].toRight then w.right else w.left;
      ActKeeps(c, lane, ms[0].act);
      ActCounts(c, lane, ms[0].act, if ms[0].toRight then k1 else k2);
      RunCounts(c, Next(c, w, ms[0]), ms[1..], k1, k2);
    }
  }

  /** Transport round trip: after any honest handshake and over any run with refused injections, both sessions stay ready,
      each has output exactly a prefix of the other side's plaintexts, and the rest is in flight, each plaintext sealed with
      the key of its direction and its own number as nonce. */
  lemma TransportRoundTrip(c: Suite, si: KeyPair, sr: KeyPair, ei: KeyPair, er: KeyPair, x: XX.Exchange, ms: seq<Move>)
    requires Laws(c) && Genuine(c, si) && Genuine(c, sr) && Genuine(c, ei) && Genuine(c, er)
    requires XX.HonestExchange(c, si, sr, ei, er, x)
    requires AllRefused(c, Opening(Finish(c, x.i3), Finish(c, x.r3)), ms)
    ensures var t := TalkRun(c, Opening(Finish(c, x.i3), Finish(c, x.r3)), ms);
            && BothReady(t)
            && IsPrefix(t.toB.got, t.toB.sent) && IsPrefix(t.toA.got, t.toA.sent)
            && var o := HonestOutputs(c, si, sr, ei, er);
            SealedInOrder(c, WireOf(t).right, o.toResponder) && SealedInOrder(c, WireOf(t).left, o.toInitiator)
  {
    var x0 := XX.XXAgrees(c, si, sr, ei, er);
    assert x == x0;
    var t := Opening(Finish(c, x.i3), Finish(c, x.r3));
    TalkRunIsWire(c, t, ms);
    var o := HonestOutputs(c, si, sr, ei, er);
    XX.ExchangeBytes(c, si, sr, ei, er, x);
    RunCounts(c, WireOf(t), ms, o.toResponder, o.toInitiator);
    CountedIsSealed(c, Run(c, WireOf(t), ms).right, o.toResponder);
    CountedIsSealed(c, Run(c, WireOf(t), ms).left, o.toInitiator);
  }

  lemma {:induction false} FramesCount(c: Suite, x: Cipher, ps: seq<Bytes>)
    requires x.k.Some?
    ensures |Frames(c, x, ps)| == |ps|
    decreases |ps|
  {
    if ps != [] {
      FramesCount(c, x.(n := (x.n + 1) % NONCE_SPACE), ps[1..]);
    }
  }

  function Delivered(c: Suite, l: Lane, k: nat): Lane
    decreases k
  {
    if k == 0 then l else Delivered(c, Act(c, l, Deliver), k - 1)
  }

  /** Delivering everything in flight completes the prefix. */
  lemma {:induction false} DrainCompletes(c: Suite, l: Lane, k: nat)
    requires AeadLaws(c) && InStep(c, l) && k == |l.frames|
    ensures Delivered(c, l, k).got == l.sent
    decreases k
  {
    FramesCount(c, l.recv, l.sent[|l.got|..]);
    if k > 0 {
      ActKeeps(c, l, Deliver);
      DrainCompletes(c, Act(c, l, Deliver), k - 1);
    }
  }
}
