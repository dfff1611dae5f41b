/**
 The in-band pairing codes (internal/relay/paircodes.go): single use, with an expiry. The
 registry is compared with the history of all calls made on it.
 */
module PairCodes {
  import opened Core

  datatype Entry = Entry(requester: DeviceId, expiresAt: int)

  type Codes = map<string, Entry>

  /** PairingCodeTTL, in nanoseconds. */
  const CODE_TTL: int := 300_000_000_000

  /** What Take reports: the requester, or that the code is unknown, or that it has expired. */
  datatype Taken = Redeemed(requester: DeviceId) | Unknown | CodeExpired

  function Put(codes: Codes, code: string, requester: DeviceId, expiresAt: int): (r: Codes)
  {
    codes[code := Entry(requester, expiresAt)]
  }

  /** The code is removed whatever the outcome. */
  function Take(codes: Codes, code: string, now: int): (r: (Codes, Taken))
  {
    if code !in codes then (codes, Unknown)
    else (codes - {code}, if now > codes[code].expiresAt then CodeExpired else Redeemed(codes[code].requester))
  }

  class PairCodeRegistry {
    var entries: Codes

    constructor ()
      ensures entries == map[]
    {
      entries := map[];
    }

    method PutCode(code: string, requester: DeviceId, ttl: int, now: int)
      modifies this
      ensures entries == Put(old(entries), code, requester, now + ttl)
    {
      entries := entries[code := Entry(requester, now + ttl)];
    }

    method TakeCode(code: string, now: int) returns (requester: DeviceId, expired: bool, ok: bool)
      modifies this
      ensures entries == Take(old(entries), code, now).0
      ensures Take(old(entries), code, now).1
              == if ok then Redeemed(requester) else if expired then CodeExpired else Unknown
      ensures !ok ==> requester == ""
      ensures !(ok && expired)
    {
      if code !in entries {
        return "", false, false;
      }
      var entry := entries[code];
      entries := entries - {code};
      if now > entry.expiresAt {
        return "", true, false;
      }
      return entry.requester, false, true;
    }
  }

  // ----- Every history of calls -----

  datatype Event = PutEvent(code: string, requester: DeviceId, expiresAt: int) | TakeEvent(code: string, now: int)

  function After(codes: Codes, e: Event): (r: Codes)
  {
    match e
    case PutEvent(code, requester, exp) => Put(codes, code, requester, exp)
    case TakeEvent(code, now) => Take(codes, code, now).0
  }

  function Replay(hist: seq<Event>): (r: Codes)
  {
    if hist == [] then map[] else After(Replay(hist[..|hist| - 1]), hist[|hist| - 1])
  }

  /** Event j is a put of `code`, and nothing has happened to that code since. */
  predicate Pending(hist: seq<Event>, code: string, j: nat)
  {
    && j < |hist| && hist[j].PutEvent? && hist[j].code == code
    && forall i :: j < i < |hist| ==> hist[i].code != code
  }

  lemma PendingExtends(hist: seq<Event>, code: string, j: nat)
    requires hist != []
    ensures var n := |hist| - 1;
            Pending(hist, code, j)
            <==> if hist[n].code == code then hist[n].PutEvent? && j == n else Pending(hist[..n], code, j)
  {
  }

  /** The registry holds exactly the pending puts. */
  lemma {:induction false} ReplayHoldsPending(hist: seq<Event>, code: string)
    ensures forall j: nat :: Pending(hist, code, j) ==>
              code in Replay(hist) && Replay(hist)[code] == Entry(hist[j].requester, hist[j].expiresAt)
    ensures code in Replay(hist) ==> exists j: nat :: Pending(hist, code, j)
  {
    if hist != [] {
      var n := |hist| - 1;
      ReplayHoldsPending(hist[..n], code);
      forall j: nat ensures Pending(hist, code, j)
                            <==> if hist[n].code == code then hist[n].PutEvent? && j == n else Pending(hist[..n], code, j)
      {
        PendingExtends(hist, code, j);
      }
      if hist[n].PutEvent? && hist[n].code == code {
        assert Pending(hist, code, n);
      } else if code in Replay(hist) {
        var j: nat :| Pending(hist[..n], code, j);
        assert Pending(hist, code, j);
      }
    }
  }

  /** Take number i of the history succeeds for requester r. */
  ghost predicate Redeems(hist: seq<Event>, i: nat, r: DeviceId)
  {
    i < |hist| && hist[i].TakeEvent? && Take(Replay(hist[..i]), hist[i].code, hist[i].now).1 == Redeemed(r)
  }

  /** Take i uses up put j: the latest put of that code since the last take, by r, and not past its expiry. */
  ghost predicate Uses(hist: seq<Event>, i: nat, j: nat, r: DeviceId)
  {
    && i < |hist| && hist[i].TakeEvent? && Pending(hist[..i], hist[i].code, j)
    && hist[j].requester == r && hist[i].now <= hist[j].expiresAt
  }

  /** Code redemption: a take succeeds for r if and only if it uses up a put by r. */
  lemma RedeemsIffUses(hist: seq<Event>, i: nat, r: DeviceId)
    ensures Redeems(hist, i, r) <==> exists j: nat :: Uses(hist, i, j, r)
  {
    if i < |hist| && hist[i].TakeEvent? {
      ReplayHoldsPending(hist[..i], hist[i].code);
      if Redeems(hist, i, r) {
        var j: nat :| Pending(hist[..i], hist[i].code, j);
        assert Uses(hist, i, j, r);
      }
    }
  }

  lemma UsedIsGone(hist: seq<Event>, i: nat, j: nat, r: DeviceId, n: nat)
    requires Uses(hist, i, j, r) && i < n <= |hist|
    ensures !Pending(hist[..n], hist[j].code, j)
  {
    assert hist[..n][i].code == hist[j].code;
  }

  /** No put is redeemed twice. */
  lemma PutUsedOnce(hist: seq<Event>, i1: nat, i2: nat, j: nat, r1: DeviceId, r2: DeviceId)
    requires Uses(hist, i1, j, r1) && Uses(hist, i2, j, r2)
    ensures i1 == i2
  {
    if i1 < i2 {
      UsedIsGone(hist, i1, j, r1, i2);
    } else if i2 < i1 {
      UsedIsGone(hist, i2, j, r2, i1);
    }
  }
}
