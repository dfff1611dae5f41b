/**
 Who is told the outcome of a pairing (sdk/go/client.go). A result channel has room for one
 value and is written from the read loop, so a second write would block the client. A channel
 starts in the waiter map, may move to a peer's first-pair slot, and is written on the way out.
 */
module GoPairing {
  import opened Core
  import opened GoNoise
  import opened GoPeer

  /** Why a pairing attempt ended; a server error carries its machine code. */
  datatype Reason = StartFailed | HandshakeFailed | KeyMismatch | ServerError(code: string)

  datatype PairResult =
    | GotCode(code: string, expiresIn: int)
    | Paired(peer: DeviceId, key: StaticKey)
    | PairError(reason: Reason)

  datatype Waiter = Waiter(ch: ChanId, weAreAcceptor: bool)

  /** The waiter map, the first-pair slot of each linked peer, everything ever written to each channel,
      and the number of channels made. */
  datatype Pairing = Pairing(
    waiters: map<string, Waiter>,
    first: map<DeviceId, ChanId>,
    sent: map<ChanId, seq<PairResult>>,
    made: ChanId)

  const REQUEST_KEY := "__request__"

  datatype Op =
    | Request
    | CodeArrived(code: string, expiresIn: int)
    | AwaitCode(code: string)
    | Accept(code: string)
    | Forget(key: string)
    | Complete(code: string, peer: DeviceId, startFails: bool)
    | Fail(reason: Reason)
    | Settled(peer: DeviceId, wasPending: bool, result: PairResult)

  function Register(p: Pairing, key: string, acceptor: bool): Pairing
  {
    Pairing(p.waiters[key := Waiter(p.made, acceptor)], p.first, p.sent[p.made := []], p.made + 1)
  }

  function Write(p: Pairing, ch: ChanId, r: PairResult): Pairing
  {
    p.(sent := p.sent[ch := (if ch in p.sent then p.sent[ch] else []) + [r]])
  }

  function DropWaiter(p: Pairing, key: string): Pairing
  {
    p.(waiters := p.waiters - {key})
  }

  /** Take the peer's first-pair slot, if it is filled, and write `r` to the channel in it. */
  function Notify(p: Pairing, peer: DeviceId, r: PairResult): Pairing
  {
    if peer in p.first then Write(p.(first := p.first - {peer}), p.first[peer], r) else p
  }

  ghost predicate Waiting(p: Pairing, ch: ChanId)
  {
    exists k :: k in p.waiters && p.waiters[k].ch == ch
  }

  ghost function Apply(p: Pairing, op: Op): (r: Pairing)
  {
    match op
    case Request => Register(p, REQUEST_KEY, false)
    case CodeArrived(code, n) =>
      if REQUEST_KEY in p.waiters
      then Write(DropWaiter(p, REQUEST_KEY), p.waiters[REQUEST_KEY].ch, GotCode(code, n)) else p
    case AwaitCode(code) => Register(p, code, false)
    case Accept(code) => Register(p, code, true)
    case Forget(key) => DropWaiter(p, key)
    case Complete(code, peer, startFails) =>
      if code !in p.waiters then p
      else
        var w := p.waiters[code];
        var moved := DropWaiter(p, code).(first := p.first[peer := w.ch]);
        if w.weAreAcceptor && startFails then Notify(moved, peer, PairError(StartFailed)) else moved
    case Fail(reason) =>
      p.(waiters := map[],
         sent := map ch | ch in p.sent :: if Waiting(p, ch) then p.sent[ch] + [PairError(reason)] else p.sent[ch])
    case Settled(peer, wasPending, result) =>
      if wasPending && result.PairError? then p else Notify(p, peer, result)
  }

  ghost function ApplyAll(p: Pairing, ops: seq<Op>): (r: Pairing)
    decreases |ops|
  {
    if ops == [] then p else ApplyAll(Apply(p, ops[0]), ops[1..])
  }

  const NO_PAIRING := Pairing(map[], map[], map[], 0)

  /** Each channel is in at most one place, nothing was written to it while it is in a place, and no
      channel was ever written twice. */
  ghost predicate Linear(p: Pairing)
  {
    && (forall ch: ChanId :: ch in p.sent <==> ch < p.made)
    && (forall ch :: ch in p.sent ==> |p.sent[ch]| <= 1)
    && (forall k :: k in p.waiters ==> p.waiters[k].ch in p.sent && p.sent[p.waiters[k].ch] == [])
    && (forall d :: d in p.first ==> p.first[d] in p.sent && p.sent[p.first[d]] == [])
    && (forall k, l :: k in p.waiters && l in p.waiters && k != l ==> p.waiters[k].ch != p.waiters[l].ch)
    && (forall c, d :: c in p.first && d in p.first && c != d ==> p.first[c] != p.first[d])
    && (forall k, d :: k in p.waiters && d in p.first ==> p.waiters[k].ch != p.first[d])
  }

  lemma RegisterKeepsLinear(p: Pairing, key: string, acceptor: bool)
    requires Linear(p)
    ensures Linear(Register(p, key, acceptor))
  {
  }

  lemma NotifyKeepsLinear(p: Pairing, peer: DeviceId, r: PairResult)
    requires Linear(p)
    ensures Linear(Notify(p, peer, r))
  {
  }

  lemma MoveKeepsLinear(p: Pairing, code: string, peer: DeviceId)
    requires Linear(p) && code in p.waiters
    ensures Linear(DropWaiter(p, code).(first := p.first[peer := p.waiters[code].ch]))
  {
  }

  lemma ApplyKeepsLinear(p: Pairing, op: Op)
    requires Linear(p)
    ensures Linear(Apply(p, op))
  {
    match op
    case Request => RegisterKeepsLinear(p, REQUEST_KEY, false);
    case AwaitCode(code) => RegisterKeepsLinear(p, code, false);
    case Accept(code) => RegisterKeepsLinear(p, code, true);
    case Complete(code, peer, startFails) =>
      if code in p.waiters {
        MoveKeepsLinear(p, code, peer);
        NotifyKeepsLinear(DropWaiter(p, code).(first := p.first[peer := p.waiters[code].ch]), peer,
                          PairError(StartFailed));
      }
    case Settled(peer, _, result) => NotifyKeepsLinear(p, peer, result);
    case _ =>
  }

  lemma {:induction false} LinearKept(p: Pairing, ops: seq<Op>)
    requires Linear(p)
    ensures Linear(ApplyAll(p, ops))
    decreases |ops|
  {
    if ops != [] {
      ApplyKeepsLinear(p, ops[0]);
      LinearKept(Apply(p, ops[0]), ops[1..]);
    }
  }

  /** Part of the waiters of `p` have been told: `left` are the others, `sent` is what was written. */
  ghost predicate Told(p: Pairing, left: map<string, Waiter>, sent: map<ChanId, seq<PairResult>>, reason: Reason)
  {
    && left.Keys <= p.waiters.Keys && sent.Keys == p.sent.Keys
    && (forall k :: k in left ==> left[k] == p.waiters[k])
    && (forall k :: k in p.waiters ==>
          && p.waiters[k].ch in sent
          && sent[p.waiters[k].ch] == if k in left then [] else [PairError(reason)])
    && (forall ch :: ch in sent && !Waiting(p, ch) ==> sent[ch] == p.sent[ch])
  }

  lemma TellOne(p: Pairing, left: map<string, Waiter>, sent: map<ChanId, seq<PairResult>>, reason: Reason, key: string)
    requires Linear(p) && Told(p, left, sent, reason) && key in left
    ensures left[key].ch in sent && sent[left[key].ch] == []
    ensures Told(p, left - {key}, sent[left[key].ch := sent[left[key].ch] + [PairError(reason)]], reason)
  {
    assert Waiting(p, p.waiters[key].ch);
  }

  lemma AllTold(p: Pairing, sent: map<ChanId, seq<PairResult>>, reason: Reason)
    requires Linear(p) && Told(p, map[], sent, reason)
    ensures sent == Apply(p, Fail(reason)).sent
  {
    forall ch | ch in sent ensures sent[ch] == Apply(p, Fail(reason)).sent[ch] {
      if Waiting(p, ch) {
        assert p.sent[ch] + [PairError(reason)] == [PairError(reason)];
      }
    }
  }

  /** In every run each channel receives at most one result. */
  lemma AtMostOneResult(ops: seq<Op>, ch: ChanId)
    requires ch in ApplyAll(NO_PAIRING, ops).sent
    ensures |ApplyAll(NO_PAIRING, ops).sent[ch]| <= 1
  {
    LinearKept(NO_PAIRING, ops);
  }

  /** The channel is in no place: neither a waiter nor a first-pair slot holds it. */
  ghost predicate Retired(p: Pairing, ch: ChanId)
  {
    ch in p.sent && !Waiting(p, ch) && forall d :: d in p.first ==> p.first[d] != ch
  }

  lemma RetiredStep(p: Pairing, op: Op, ch: ChanId)
    requires Linear(p) && Retired(p, ch)
    ensures Retired(Apply(p, op), ch) && Apply(p, op).sent[ch] == p.sent[ch]
  {
  }

  /** A channel that is in no place is never written again: what it holds is final. */
  lemma {:induction false} NoLateResult(p: Pairing, ops: seq<Op>, ch: ChanId)
    requires Linear(p) && Retired(p, ch)
    ensures ch in ApplyAll(p, ops).sent && ApplyAll(p, ops).sent[ch] == p.sent[ch]
    decreases |ops|
  {
    if ops != [] {
      ApplyKeepsLinear(p, ops[0]);
      RetiredStep(p, ops[0], ch);
      NoLateResult(Apply(p, ops[0]), ops[1..], ch);
    }
  }

  /** A call that gives up and forgets its waiter hears nothing more, whatever follows. */
  lemma ForgottenHearsNothing(p: Pairing, key: string, ops: seq<Op>)
    requires Linear(p) && key in p.waiters
    ensures var p', ch := ApplyAll(Apply(p, Forget(key)), ops), p.waiters[key].ch; ch in p'.sent && p'.sent[ch] == []
  {
    ApplyKeepsLinear(p, Forget(key));
    assert Retired(Apply(p, Forget(key)), p.waiters[key].ch);
    NoLateResult(Apply(p, Forget(key)), ops, p.waiters[key].ch);
  }
}
