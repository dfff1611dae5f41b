/**
 A connection's outgoing queue under concurrency (internal/relay/client.go): any number of
 goroutines run enqueue and close, each a sequence of atomic actions on a read-write lock, a
 sync.Once, a flag and a channel. Every interleaving is a run of this machine.
 */
module SendQueue {
  import opened Core
  import opened Frames

  /** sendBufferSize. */
  const CAPACITY := 256

  // ----- The queue as one atomic object -----

  datatype Queue = Queue(closed: bool, frames: seq<Frame>)

  /** enqueue: never blocks; false when closed or full. */
  function Enqueue(q: Queue, f: Frame): (r: (Queue, bool))
  {
    if q.closed || |q.frames| >= CAPACITY then (q, false) else (q.(frames := q.frames + [f]), true)
  }

  function Close(q: Queue): (r: Queue)
  {
    q.(closed := true)
  }

  // ----- The queue as the source builds it -----

  type Tid = nat

  /** Where a goroutine is: the next action of enqueue, then those of close. */
  datatype Pc =
    | WantRead(f: Frame)
    | TestClosed(f: Frame)
    | Select(f: Frame)
    | ReadUnlock(f: Frame, ok: bool)
    | Returned(f: Frame, ok: bool)
    | WantOnce
    | CloseSocket
    | WantWrite
    | SetClosed
    | CloseChannel
    | WriteUnlock
    | FinishOnce
    | CloseReturned
  {
    predicate HoldsRead() { TestClosed? || Select? || ReadUnlock? }
    predicate HoldsWrite() { SetClosed? || CloseChannel? || WriteUnlock? }
    predicate InOnce() { CloseSocket? || WantWrite? || HoldsWrite() || FinishOnce? }
  }

  datatype Once = NotRun | Running(runner: Tid) | Done

  /** What the goroutines share. `closes` counts executed close(c.send); `accepted` and `drained` record every frame
      that went in and came out. */
  datatype Shared = Shared(
    readers: set<Tid>, writer: Option<Tid>, once: Once,
    closed: bool, chanClosed: bool, frames: seq<Frame>,
    closes: nat, accepted: seq<Frame>, drained: seq<Frame>, panicked: bool)

  datatype State = State(pcs: map<Tid, Pc>, sh: Shared)

  datatype Step = CallEnqueue(t: Tid, f: Frame) | CallClose(t: Tid) | Go(t: Tid) | Drain

  /** One atomic action of enqueue or close by goroutine t; a goroutine that must wait does not move. */
  function Action(s: Shared, t: Tid, pc: Pc): (r: (Shared, Pc))
  {
    match pc
    case WantRead(f) => if s.writer.Some? then (s, pc) else (s.(readers := s.readers + {t}), TestClosed(f))
    case TestClosed(f) => (s, if s.closed then ReadUnlock(f, false) else Select(f))
    case Select(f) =>
      if s.chanClosed then (s.(panicked := true), pc)
      else if |s.frames| < CAPACITY then
        (s.(frames := s.frames + [f], accepted := s.accepted + [f]), ReadUnlock(f, true))
      else (s, ReadUnlock(f, false))
    case ReadUnlock(f, ok) => (s.(readers := s.readers - {t}), Returned(f, ok))
    case Returned(_, _) => (s, pc)
    case WantOnce =>
      if s.once.NotRun? then (s.(once := Running(t)), CloseSocket)
      else (s, if s.once.Done? then CloseReturned else pc)
    case CloseSocket => (s, WantWrite)
    case WantWrite => if s.writer.Some? || s.readers != {} then (s, pc) else (s.(writer := Some(t)), SetClosed)
    case SetClosed => (s.(closed := true), CloseChannel)
    case CloseChannel =>
      if s.chanClosed then (s.(panicked := true), pc)
      else (s.(chanClosed := true, closes := s.closes + 1), WriteUnlock)
    case WriteUnlock => (s.(writer := None), FinishOnce)
    case FinishOnce => (s.(once := Done), CloseReturned)
    case CloseReturned => (s, pc)
  }

  function Advance(s: State, t: Tid): (r: State)
    requires t in s.pcs
  {
    var (sh, pc) := Action(s.sh, t, s.pcs[t]);
    State(s.pcs[t := pc], sh)
  }

  function Next(s: State, st: Step): (r: State)
  {
    match st
    case CallEnqueue(t, f) => if t in s.pcs then s else s.(pcs := s.pcs[t := WantRead(f)])
    case CallClose(t) => if t in s.pcs then s else s.(pcs := s.pcs[t := WantOnce])
    case Go(t) => if t in s.pcs && !s.sh.panicked then Advance(s, t) else s
    case Drain =>
      var fs := s.sh.frames;
      if fs == [] then s else s.(sh := s.sh.(frames := fs[1..], drained := s.sh.drained + [fs[0]]))
  }

  function Run(s: State, sts: seq<Step>): (r: State)
    decreases |sts|
  {
    if sts == [] then s else Run(Next(s, sts[0]), sts[1..])
  }

  const INITIAL := State(map[], Shared({}, None, NotRun, false, false, [], 0, [], [], false))

  // ----- The invariant -----

  /** What holds of each goroutine at its place. */
  predicate Placed(s: Shared, t: Tid, pc: Pc)
  {
    && (t in s.readers <==> pc.HoldsRead())
    && (s.writer == Some(t) <==> pc.HoldsWrite())
    && (s.once == Running(t) <==> pc.InOnce())
    && (pc.Select? ==> !s.closed)
    && (pc.CloseReturned? ==> s.once.Done?)
    && (pc.InOnce() ==>
          && s.closed == (pc.CloseChannel? || pc.WriteUnlock? || pc.FinishOnce?)
          && s.chanClosed == (pc.WriteUnlock? || pc.FinishOnce?))
  }

  predicate SharedOk(s: Shared)
  {
    && !s.panicked
    && (s.writer.Some? ==> s.readers == {} && s.once == Running(s.writer.value))
    && (s.chanClosed ==> s.closed)
    && (s.once.NotRun? ==> !s.closed)
    && (s.once.Done? ==> s.chanClosed)
    && s.closes == (if s.chanClosed then 1 else 0)
    && s.accepted == s.drained + s.frames && |s.frames| <= CAPACITY
  }

  ghost predicate Inv(s: State)
  {
    && SharedOk(s.sh)
    && (forall t :: t in s.sh.readers ==> t in s.pcs)
    && (s.sh.writer.Some? ==> s.sh.writer.value in s.pcs)
    && (s.sh.once.Running? ==> s.sh.once.runner in s.pcs)
    && (forall t :: t in s.pcs ==> Placed(s.sh, t, s.pcs[t]))
  }

  /** An action keeps the shared part well formed, never panics, and leaves its goroutine well placed. */
  lemma ActionIsSafe(s: Shared, t: Tid, pc: Pc)
    requires SharedOk(s) && Placed(s, t, pc)
    ensures var (s', pc') := Action(s, t, pc); SharedOk(s') && Placed(s', t, pc')
  {
  }

  /** It does not disturb any other goroutine. */
  lemma ActionSparesOthers(s: Shared, t: Tid, pc: Pc, u: Tid, other: Pc)
    requires SharedOk(s) && Placed(s, t, pc) && Placed(s, u, other) && t != u
    ensures Placed(Action(s, t, pc).0, u, other)
  {
  }

  lemma ActionOwners(s: Shared, t: Tid, pc: Pc)
    ensures var s' := Action(s, t, pc).0;
            && s'.readers <= s.readers + {t}
            && (s'.writer == s.writer || s'.writer == None || s'.writer == Some(t))
            && (s'.once == s.once || s'.once == Done || s'.once == Running(t))
  {
  }

  lemma AdvanceKeeps(s: State, t: Tid)
    requires Inv(s) && t in s.pcs
    ensures Inv(Advance(s, t))
  {
    var s' := Advance(s, t);
    ActionIsSafe(s.sh, t, s.pcs[t]);
    ActionOwners(s.sh, t, s.pcs[t]);
    forall u | u in s'.pcs ensures Placed(s'.sh, u, s'.pcs[u]) {
      if u != t {
        ActionSparesOthers(s.sh, t, s.pcs[t], u, s.pcs[u]);
      }
    }
  }

  lemma NextKeeps(s: State, st: Step)
    requires Inv(s)
    ensures Inv(Next(s, st))
  {
    match st
    case CallEnqueue(t, f) =>
    case CallClose(t) =>
    case Go(t) => if t in s.pcs { AdvanceKeeps(s, t); }
    case Drain =>
  }

  lemma {:induction false} RunKeeps(s: State, sts: seq<Step>)
    requires Inv(s)
    ensures Inv(Run(s, sts))
    decreases |sts|
  {
    if sts != [] {
      NextKeeps(s, sts[0]);
      RunKeeps(Next(s, sts[0]), sts[1..]);
    }
  }

  /** Queue safety: in every interleaving there is no send on a closed channel and no second close, the buffer is
      never overfull, and what went in is what came out followed by what is queued. */
  lemma QueueSafety(sts: seq<Step>)
    ensures var s := Run(INITIAL, sts).sh;
            && !s.panicked && s.closes <= 1 && |s.frames| <= CAPACITY && s.accepted == s.drained + s.frames
  {
    RunKeeps(INITIAL, sts);
  }

  lemma ClosedNext(s: State, st: Step)
    requires Inv(s) && s.sh.closed
    ensures Next(s, st).sh.closed && Next(s, st).sh.accepted == s.sh.accepted
  {
  }

  /** Nothing is accepted after the flag is set. */
  lemma {:induction false} NothingAfterClose(s: State, sts: seq<Step>)
    requires Inv(s) && s.sh.closed
    ensures Run(s, sts).sh.accepted == s.sh.accepted
    decreases |sts|
  {
    if sts != [] {
      NextKeeps(s, sts[0]);
      ClosedNext(s, sts[0]);
      NothingAfterClose(Next(s, sts[0]), sts[1..]);
    }
  }

  /** When a call of close has returned, whichever goroutine did the closing, the queue is closed and accepts nothing. */
  lemma CloseHasReturned(sts: seq<Step>, t: Tid, more: seq<Step>)
    requires t in Run(INITIAL, sts).pcs && Run(INITIAL, sts).pcs[t].CloseReturned?
    ensures Run(INITIAL, sts).sh.closed && Run(INITIAL, sts).sh.chanClosed
    ensures Run(Run(INITIAL, sts), more).sh.accepted == Run(INITIAL, sts).sh.accepted
  {
    RunKeeps(INITIAL, sts);
    assert Placed(Run(INITIAL, sts).sh, t, Run(INITIAL, sts).pcs[t]);
    NothingAfterClose(Run(INITIAL, sts), more);
  }

  function Abstract(s: Shared): Queue
  {
    Queue(s.closed, s.frames)
  }

  /** Atomicity: each action of a goroutine is a step of the atomic queue or is invisible to it. An enqueue takes
      effect at its select, or at the test that finds the queue closed, with the result it will return; a close
      takes effect when the flag is set. */
  lemma ActionsAreAtomic(s: Shared, t: Tid, pc: Pc)
    requires SharedOk(s) && Placed(s, t, pc)
    ensures var (s', pc') := Action(s, t, pc);
            if pc.Select? || (pc.TestClosed? && s.closed) then
              pc'.ReadUnlock? && (Abstract(s'), pc'.ok) == Enqueue(Abstract(s), pc.f)
            else if pc.SetClosed? then Abstract(s') == Close(Abstract(s))
            else Abstract(s') == Abstract(s)
  {
  }

  // ----- Every interleaving is a sequential history -----

  /** A finished operation on the atomic queue, with its result. */
  datatype Op = Enqueued(t: Tid, f: Frame, ok: bool) | Closed(t: Tid) | Drained(f: Frame)

  /** The atomic queue after an operation, if the operation has that result. */
  function Do(q: Queue, op: Op): (r: Option<Queue>)
  {
    match op
    case Enqueued(_, f, ok) => if Enqueue(q, f).1 == ok then Some(Enqueue(q, f).0) else None
    case Closed(_) => Some(Close(q))
    case Drained(f) => if q.frames != [] && q.frames[0] == f then Some(q.(frames := q.frames[1..])) else None
  }

  function Replay(q: Queue, ops: seq<Op>): (r: Option<Queue>)
    decreases |ops|
  {
    if ops == [] then Some(q)
    else match Do(q, ops[0])
      case None => None
      case Some(q') => Replay(q', ops[1..])
  }

  /** The operation that takes effect in a step, if any, with the result its goroutine goes on to return. */
  function Effect(s: State, st: Step): (r: seq<Op>)
  {
    match st
    case Go(t) =>
      if t !in s.pcs || s.sh.panicked then []
      else
        var pc, pc' := s.pcs[t], Action(s.sh, t, s.pcs[t]).1;
        if (pc.TestClosed? || pc.Select?) && pc'.ReadUnlock? then [Enqueued(t, pc.f, pc'.ok)]
        else if pc.SetClosed? then [Closed(t)]
        else []
    case Drain => if s.sh.frames == [] then [] else [Drained(s.sh.frames[0])]
    case CallEnqueue(_, _) => []
    case CallClose(_) => []
  }

  function History(s: State, sts: seq<Step>): (r: seq<Op>)
    decreases |sts|
  {
    if sts == [] then [] else Effect(s, sts[0]) + History(Next(s, sts[0]), sts[1..])
  }

  lemma StepIsAtomic(s: State, st: Step)
    requires Inv(s)
    ensures Replay(Abstract(s.sh), Effect(s, st)) == Some(Abstract(Next(s, st).sh))
  {
    if st.Go? && st.t in s.pcs {
      ActionsAreAtomic(s.sh, st.t, s.pcs[st.t]);
    }
  }

  lemma ReplayPrepends(q: Queue, ops: seq<Op>, rest: seq<Op>)
    requires |ops| <= 1 && Replay(q, ops).Some?
    ensures Replay(q, ops + rest) == Replay(Replay(q, ops).value, rest)
  {
    if ops == [] {
      assert ops + rest == rest;
    } else {
      assert (ops + rest)[1..] == rest;
    }
  }

  /** The concurrent queue refines the atomic one: the operations of any interleaving, in the order they take effect,
      are a sequential run of the atomic queue with the same results and the same final state. */
  lemma {:induction false} InterleavingsLinearize(s: State, sts: seq<Step>)
    requires Inv(s)
    ensures Replay(Abstract(s.sh), History(s, sts)) == Some(Abstract(Run(s, sts).sh))
    decreases |sts|
  {
    if sts != [] {
      NextKeeps(s, sts[0]);
      StepIsAtomic(s, sts[0]);
      InterleavingsLinearize(Next(s, sts[0]), sts[1..]);
      ReplayPrepends(Abstract(s.sh), Effect(s, sts[0]), History(Next(s, sts[0]), sts[1..]));
    }
  }

  // ----- The history holds what each call returned -----

  /** The operations of goroutine t in a history. */
  function OpsOf(ops: seq<Op>, t: Tid): (r: seq<Op>)
  {
    if ops == [] then []
    else
      var last := ops[|ops| - 1];
      OpsOf(ops[..|ops| - 1], t) + if !last.Drained? && last.t == t then [last] else []
  }

  lemma {:induction false} OpsOfConcat(a: seq<Op>, b: seq<Op>, t: Tid)
    ensures OpsOf(a + b, t) == OpsOf(a, t) + OpsOf(b, t)
    decreases |b|
  {
    if b == [] {
      assert a + b == a;
    } else {
      assert (a + b)[..|a + b| - 1] == a + b[..|b| - 1];
      OpsOfConcat(a, b[..|b| - 1], t);
    }
  }

  /** What goroutine t has in the history at its place: nothing before its call takes effect, and after that the one
      operation with the frame and the result of the call. A close that found another one running has none. */
  predicate RecordedAt(pc: Pc, t: Tid, mine: seq<Op>)
  {
    match pc
    case ReadUnlock(f, ok) => mine == [Enqueued(t, f, ok)]
    case Returned(f, ok) => mine == [Enqueued(t, f, ok)]
    case CloseChannel => mine == [Closed(t)]
    case WriteUnlock => mine == [Closed(t)]
    case FinishOnce => mine == [Closed(t)]
    case CloseReturned => mine == [Closed(t)] || mine == []
    case _ => mine == []
  }

  ghost predicate Recorded(s: State, hist: seq<Op>)
  {
    forall t: Tid :: if t in s.pcs then RecordedAt(s.pcs[t], t, OpsOf(hist, t)) else OpsOf(hist, t) == []
  }

  lemma EffectOf(s: State, st: Step, t: Tid)
    requires Inv(s)
    ensures var s' := Next(s, st);
            && (t in s.pcs ==> t in s'.pcs)
            && if st.Go? && st.t == t && t in s.pcs then
                 forall mine :: RecordedAt(s.pcs[t], t, mine) ==> RecordedAt(s'.pcs[t], t, mine + OpsOf(Effect(s, st), t))
               else
                 && OpsOf(Effect(s, st), t) == []
                 && (t in s.pcs ==> s'.pcs[t] == s.pcs[t])
                 && (t !in s.pcs && t in s'.pcs ==> s'.pcs[t].WantRead? || s'.pcs[t].WantOnce?)
  {
    assert forall op: Op :: [op][..0] == [];
  }

  lemma NextRecords(s: State, hist: seq<Op>, st: Step)
    requires Inv(s) && Recorded(s, hist)
    ensures Recorded(Next(s, st), hist + Effect(s, st))
  {
    var s' := Next(s, st);
    forall t: Tid
      ensures if t in s'.pcs then RecordedAt(s'.pcs[t], t, OpsOf(hist + Effect(s, st), t)) else OpsOf(hist + Effect(s, st), t) == []
    {
      OpsOfConcat(hist, Effect(s, st), t);
      EffectOf(s, st, t);
    }
  }

  lemma Reassociate(a: seq<Op>, b: seq<Op>, c: seq<Op>)
    ensures (a + b) + c == a + (b + c)
  {
  }

  lemma {:induction false} RunRecords(s: State, hist: seq<Op>, sts: seq<Step>)
    requires Inv(s) && Recorded(s, hist)
    ensures Recorded(Run(s, sts), hist + History(s, sts))
    decreases |sts|
  {
    if sts == [] {
      assert hist + History(s, sts) == hist;
    } else {
      var s' := Next(s, sts[0]);
      NextKeeps(s, sts[0]);
      NextRecords(s, hist, sts[0]);
      RunRecords(s', hist + Effect(s, sts[0]), sts[1..]);
      Reassociate(hist, Effect(s, sts[0]), History(s', sts[1..]));
    }
  }

  /** Linearizability: the operations of any interleaving, in the order they take effect, are a sequential run of the
      atomic queue, and an enqueue that has returned is in it exactly once, with its frame and the result it returned. */
  lemma CallsLinearize(sts: seq<Step>, t: Tid)
    requires t in Run(INITIAL, sts).pcs && Run(INITIAL, sts).pcs[t].Returned?
    ensures var s, hist := Run(INITIAL, sts), History(INITIAL, sts);
            && Replay(Queue(false, []), hist) == Some(Abstract(s.sh))
            && OpsOf(hist, t) == [Enqueued(t, s.pcs[t].f, s.pcs[t].ok)]
  {
    InterleavingsLinearize(INITIAL, sts);
    assert Recorded(INITIAL, []);
    RunRecords(INITIAL, [], sts);
    assert [] + History(INITIAL, sts) == History(INITIAL, sts);
  }
}
