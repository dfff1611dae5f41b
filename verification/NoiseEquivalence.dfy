/**
 The C++ and the TypeScript sessions do the same while they handshake, on every message, also
 on messages of the wrong length: the C++ side refuses those while parsing, the TypeScript side
 cuts them short and fails later in the same call. Once a session is ready they differ, and the
 difference is stated exactly.
 */
module NoiseEquivalence {
  import opened Core
  import opened NoiseSuite
  import opened NoiseSpec
  import Ts = TsNoise
  import Forms = NoiseForms

  /** A handshake that waits for a message: it is the peer's turn, and the cipher has a key from message 2 on. */
  predicate Waiting(h: Handshake)
  {
    && h.step < 3 && h.initiator == (h.step == 1)
    && (h.step == 0 ==> h.y.cipher.k.None?) && (h.step == 2 ==> h.y.cipher.k.Some?)
  }

  lemma SameRead1(c: Suite, h: Handshake, m: Bytes)
    requires Waiting(h) && h.step == 0
    ensures |m| >= KEY_LEN ==> Ts.Read1(c, h, m) == Forms.Read1(c, h, m)
    ensures |m| < KEY_LEN ==> Ts.Read1(c, h, m).Some? && Ts.Read1(c, h, m).value.re == Some(m) && Ts.Read1(c, h, m).value.step == 1
  {
    if |m| == KEY_LEN {
      assert m[..KEY_LEN] == m && m[KEY_LEN..] == [];
    } else if |m| < KEY_LEN {
      assert Ts.Slice(m, 0, KEY_LEN) == m;
    }
  }

  /** Opening what is shorter than 48 bytes never yields a 32-byte key, so the DH that follows fails. */
  lemma ShortKeyFails(c: Suite, y: Symmetric, e: Option<KeyPair>, ct: Bytes)
    requires Laws(c) && y.cipher.k.Some? && |ct| < KEY_LEN + TAG_LEN
    ensures DecryptAndHash(c, y, ct).None? || Forms.Dh(c, e, Some(DecryptAndHash(c, y, ct).value.1)).None?
  {
  }

  lemma SameRead2(c: Suite, h: Handshake, m: Bytes)
    requires Laws(c) && Waiting(h) && h.step == 1
    ensures Ts.Read2(c, h, m) == Forms.Read2(c, h, m)
  {
    var re := Ts.Slice(m, 0, KEY_LEN);
    if |m| >= KEY_LEN {
      assert re == m[..KEY_LEN];
      var ee := Forms.Dh(c, h.e, Some(re));
      if ee.Some? && |m| < 2 * KEY_LEN + TAG_LEN {
        ShortKeyFails(c, MixKey(c, MixHash(c, h.y, re), ee.value), h.e, Ts.Slice(m, KEY_LEN, 2 * KEY_LEN + TAG_LEN));
      } else if |m| == 2 * KEY_LEN + TAG_LEN {
        assert m[2 * KEY_LEN + TAG_LEN..] == [];
      }
    } else {
      assert re == m;
    }
  }

  lemma SameRead3(c: Suite, h: Handshake, m: Bytes)
    requires Laws(c) && Waiting(h) && h.step == 2
    ensures Ts.Read3(c, h, m) == Forms.Read3(c, h, m)
  {
    if |m| < KEY_LEN + TAG_LEN {
      ShortKeyFails(c, h.y, h.e, Ts.Slice(m, 0, KEY_LEN + TAG_LEN));
    } else if |m| == KEY_LEN + TAG_LEN {
      assert m[KEY_LEN + TAG_LEN..] == [];
    }
  }

  /** One incoming message: same reply, same new session, for every message of every length. */
  lemma SameAdvance(c: Suite, h: Handshake, m: Bytes, eph: KeyPair)
    requires Laws(c) && Waiting(h)
    ensures Ts.Advance(c, h, m, eph) == Advance(c, h, m, eph)
  {
    if h.step == 0 {
      Forms.Read1Form(c, h, m);
      SameRead1(c, h, m);
      if |m| < KEY_LEN {
        Forms.Write2Form(c, Ts.Read1(c, h, m).value, eph);
      }
    } else if h.step == 1 {
      Forms.Read2Form(c, h, m);
      SameRead2(c, h, m);
    } else {
      Forms.Read3Form(c, h, m);
      SameRead3(c, h, m);
    }
  }

  // ----- Whole runs -----

  /** One incoming message with the ephemeral that would be generated if one is needed. */
  datatype Input = Input(data: Bytes, eph: KeyPair)

  /** The C++ object: a message after the handshake makes it fail. */
  function CppStep(c: Suite, x: Session, i: Input): (r: Handled)
  {
    if x.Handshaking? then Advance(c, x.hs, i.data, i.eph) else Handled(Failed, None)
  }

  /** The TypeScript object: a message after the handshake throws and leaves it as it is. */
  function TsStep(c: Suite, x: Session, i: Input): (r: Handled)
  {
    if x.Handshaking? then Ts.Advance(c, x.hs, i.data, i.eph) else Handled(x, None)
  }

  function CppRun(c: Suite, x: Session, ins: seq<Input>): (r: (Session, seq<Option<Bytes>>))
    decreases |ins|
  {
    if ins == [] then (x, [])
    else
      var h := CppStep(c, x, ins[0]);
      var rest := CppRun(c, h.session, ins[1..]);
      (rest.0, [h.reply] + rest.1)
  }

  function TsRun(c: Suite, x: Session, ins: seq<Input>): (r: (Session, seq<Option<Bytes>>))
    decreases |ins|
  {
    if ins == [] then (x, [])
    else
      var h := TsStep(c, x, ins[0]);
      var rest := TsRun(c, h.session, ins[1..]);
      (rest.0, [h.reply] + rest.1)
  }

  predicate WaitingSession(x: Session)
  {
    x.Handshaking? ==> Waiting(x.hs)
  }

  lemma FreshSessionsWait(c: Suite, s: KeyPair, eph: KeyPair)
    ensures Waiting(Initialize(c, false, s))
    ensures Start(c, s, eph).Some? && WaitingSession(Start(c, s, eph).value.0)
  {
    Forms.Write1Form(c, Initialize(c, true, s), eph);
  }

  lemma AdvanceKeepsWaiting(c: Suite, h: Handshake, m: Bytes, eph: KeyPair)
    requires Waiting(h)
    ensures WaitingSession(Advance(c, h, m, eph).session)
  {
    if h.step == 0 {
      Forms.Read1Form(c, h, m);
      if Forms.Read1(c, h, m).Some? {
        Forms.Write2Form(c, Forms.Read1(c, h, m).value, eph);
      }
    } else if h.step == 1 {
      Forms.Read2Form(c, h, m);
      if Forms.Read2(c, h, m).Some? {
        Forms.Write3Form(c, Forms.Read2(c, h, m).value, eph);
      }
    } else {
      Forms.Read3Form(c, h, m);
    }
  }

  lemma {:induction false} FailedStaysFailed(c: Suite, ins: seq<Input>)
    ensures CppRun(c, Failed, ins) == TsRun(c, Failed, ins) && CppRun(c, Failed, ins).0 == Failed
    decreases |ins|
  {
    if ins != [] {
      FailedStaysFailed(c, ins[1..]);
    }
  }

  lemma {:induction false} ReadyThrows(c: Suite, x: Session, ins: seq<Input>)
    requires x.Ready?
    ensures TsRun(c, x, ins).0 == x
    decreases |ins|
  {
    if ins != [] {
      ReadyThrows(c, x, ins[1..]);
    }
  }

  /** Some message arrives at a session that the messages before it have already made ready. */
  ghost predicate MessageAfterReady(c: Suite, x: Session, ins: seq<Input>)
    decreases |ins|
  {
    ins != [] && (x.Ready? || MessageAfterReady(c, TsStep(c, x, ins[0]).session, ins[1..]))
  }

  /** The two implementations are indistinguishable on a run, in every reply and in the final session, if and
      only if no handshake message arrives after the session is ready. */
  lemma {:induction false} SameRuns(c: Suite, x: Session, ins: seq<Input>)
    requires Laws(c) && WaitingSession(x)
    ensures CppRun(c, x, ins) == TsRun(c, x, ins) <==> !MessageAfterReady(c, x, ins)
    decreases |ins|
  {
    if ins != [] {
      match x
      case Handshaking(h) =>
        SameAdvance(c, h, ins[0].data, ins[0].eph);
        AdvanceKeepsWaiting(c, h, ins[0].data, ins[0].eph);
        SameRuns(c, Advance(c, h, ins[0].data, ins[0].eph).session, ins[1..]);
        var a, b := CppRun(c, x, ins), TsRun(c, x, ins);
        assert a.1[1..] == CppRun(c, CppStep(c, x, ins[0]).session, ins[1..]).1;
        assert b.1[1..] == TsRun(c, TsStep(c, x, ins[0]).session, ins[1..]).1;
      case Failed =>
        FailedStaysFailed(c, ins);
        NeverReadyAgain(c, ins);
      case Ready(_, _, _) =>
        FailedStaysFailed(c, ins[1..]);
        ReadyThrows(c, x, ins);
    }
  }

  lemma {:induction false} NeverReadyAgain(c: Suite, ins: seq<Input>)
    ensures !MessageAfterReady(c, Failed, ins)
    decreases |ins|
  {
    if ins != [] {
      NeverReadyAgain(c, ins[1..]);
    }
  }

  /** In particular for the sessions that both libraries create, in either role. */
  lemma NewSessionsAgree(c: Suite, s: KeyPair, eph: KeyPair, ins: seq<Input>)
    requires Laws(c)
    ensures var r := Handshaking(Initialize(c, false, s));
            CppRun(c, r, ins) == TsRun(c, r, ins) <==> !MessageAfterReady(c, r, ins)
    ensures Start(c, s, eph).Some? &&
            var i := Start(c, s, eph).value.0;
            CppRun(c, i, ins) == TsRun(c, i, ins) <==> !MessageAfterReady(c, i, ins)
  {
    FreshSessionsWait(c, s, eph);
    SameRuns(c, Handshaking(Initialize(c, false, s)), ins);
    SameRuns(c, Start(c, s, eph).value.0, ins);
  }
}
