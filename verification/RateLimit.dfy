/**
 The per-address rate limiter (internal/relay/ratelimit.go). Times are clock readings; a request
 reads the clock at t0, when it prepares a new bucket, and at t1, when the bucket is asked.
 */
module RateLimit {

  datatype Config = Config(maxTokens: int, window: int)

  datatype Bucket = Bucket(tokens: int, windowStart: int, lastSeen: int)

  /** allow, at time now. */
  function Allow(g: Config, b: Bucket, now: int): (r: (Bucket, bool))
  {
    var b1 := if now - b.windowStart >= g.window then Bucket(g.maxTokens, now, now) else b.(lastSeen := now);
    if b1.tokens <= 0 then (b1, false) else (b1.(tokens := b1.tokens - 1), true)
  }

  type Buckets = map<string, Bucket>

  function Fresh(g: Config, t0: int): Bucket
  {
    Bucket(g.maxTokens, t0, t0)
  }

  /** IPRateLimiter.Allow. */
  function AllowIp(g: Config, bs: Buckets, ip: string, t0: int, t1: int): (r: (Buckets, bool))
  {
    var (b, ok) := Allow(g, if ip in bs then bs[ip] else Fresh(g, t0), t1);
    (bs[ip := b], ok)
  }

  /** One pass of cleanupLoop. */
  function Cleanup(g: Config, bs: Buckets, now: int): (r: Buckets)
  {
    map ip | ip in bs && !(bs[ip].lastSeen < now - 2 * g.window) :: bs[ip]
  }

  // ----- The objects -----

  class TokenBucket {
    var tokens: int
    const maxTokens: int
    const window: int
    var windowStart: int
    var lastSeen: int

    ghost function View(): Bucket
      reads this
    {
      Bucket(tokens, windowStart, lastSeen)
    }

    constructor (maxTokens: int, window: int, now: int)
      ensures View() == Fresh(Config(maxTokens, window), now) && this.maxTokens == maxTokens && this.window == window
    {
      this.maxTokens, this.window := maxTokens, window;
      tokens, windowStart, lastSeen := maxTokens, now, now;
    }

    method AllowAt(now: int) returns (ok: bool)
      modifies this
      ensures (View(), ok) == Allow(Config(maxTokens, window), old(View()), now)
    {
      lastSeen := now;
      if now - windowStart >= window {
        tokens := maxTokens;
        windowStart := now;
      }
      if tokens <= 0 {
        return false;
      }
      tokens := tokens - 1;
      return true;
    }
  }

  class IPRateLimiter {
    const maxTokens: int
    const window: int
    var buckets: map<string, TokenBucket>

    ghost predicate Valid()
      reads this
    {
      && (forall ip :: ip in buckets ==> buckets[ip].maxTokens == maxTokens && buckets[ip].window == window)
      && (forall i, j :: i in buckets && j in buckets && i != j ==> buckets[i] != buckets[j])
    }

    ghost function View(): Buckets
      reads this, buckets.Values
    {
      map ip | ip in buckets :: buckets[ip].View()
    }

    constructor (maxTokens: int, window: int)
      ensures Valid() && View() == map[] && this.maxTokens == maxTokens && this.window == window
    {
      this.maxTokens, this.window, buckets := maxTokens, window, map[];
    }

    /** LoadOrStore. */
    method Obtain(ip: string, t0: int) returns (b: TokenBucket)
      requires Valid()
      modifies this`buckets
      ensures Valid() && ip in buckets && b == buckets[ip] && (b in old(buckets).Values || fresh(b))
      ensures View() == old(View())[ip := if ip in old(View()) then old(View())[ip] else Fresh(Config(maxTokens, window), t0)]
    {
      if ip !in buckets {
        b := new TokenBucket(maxTokens, window, t0);
        buckets := buckets[ip := b];
      } else {
        b := buckets[ip];
      }
    }

    method AllowAt(ip: string, t0: int, t1: int) returns (ok: bool)
      requires Valid()
      modifies this`buckets, buckets.Values
      ensures Valid() && (View(), ok) == AllowIp(Config(maxTokens, window), old(View()), ip, t0, t1)
    {
      var b := Obtain(ip, t0);
      ghost var was := View();
      assert was[ip] == b.View();
      ok := b.AllowAt(t1);
      assert (b.View(), ok) == Allow(Config(maxTokens, window), was[ip], t1);
      assert View() == old(View())[ip := b.View()];
    }

    /** One pass of cleanupLoop, over the entries in any order. */
    method CleanupAt(now: int)
      requires Valid()
      modifies this`buckets
      ensures Valid() && View() == Cleanup(Config(maxTokens, window), old(View()), now)
    {
      var cutoff := now - window * 2;
      var todo := buckets.Keys;
      while todo != {}
        invariant todo <= buckets.Keys <= old(buckets).Keys
        invariant forall ip :: ip in buckets ==> buckets[ip] == old(buckets)[ip]
        invariant forall ip :: ip in old(buckets) && ip !in todo ==>
                    (ip in buckets <==> !(old(buckets)[ip].lastSeen < cutoff))
        decreases todo
      {
        var ip :| ip in todo;
        if buckets[ip].lastSeen < cutoff {
          buckets := buckets - {ip};
        }
        todo := todo - {ip};
      }
    }
  }

  // ----- Runs -----

  datatype Event = Request(ip: string, t0: int, t1: int) | Clean(now: int)

  /** The clock does not run backwards. */
  predicate Ordered(now: int, evs: seq<Event>)
    decreases |evs|
  {
    evs == [] ||
    match evs[0]
    case Request(_, t0, t1) => now <= t0 <= t1 && Ordered(t1, evs[1..])
    case Clean(t) => now <= t && Ordered(t, evs[1..])
  }

  function Next(g: Config, bs: Buckets, e: Event): (r: Buckets)
  {
    match e
    case Request(ip, t0, t1) => AllowIp(g, bs, ip, t0, t1).0
    case Clean(now) => Cleanup(g, bs, now)
  }

  /** The time at which an event leaves the clock. */
  function At(e: Event): int
  {
    match e case Request(_, _, t1) => t1 case Clean(now) => now
  }

  /** A request of this address, admitted within [x, x + window). */
  predicate Counts(g: Config, bs: Buckets, e: Event, ip: string, x: int)
  {
    e.Request? && e.ip == ip && x <= e.t1 < x + g.window && AllowIp(g, bs, ip, e.t0, e.t1).1
  }

  function Admitted(g: Config, bs: Buckets, evs: seq<Event>, ip: string, x: int): (r: nat)
    decreases |evs|
  {
    if evs == [] then 0
    else (if Counts(g, bs, evs[0], ip, x) then 1 else 0) + Admitted(g, Next(g, bs, evs[0]), evs[1..], ip, x)
  }

  function Limit(g: Config): int
  {
    if g.maxTokens > 0 then g.maxTokens else 0
  }

  // ----- At most twice the limit in any window -----

  /** A bucket as the limiter leaves it by time now. */
  predicate BucketOk(g: Config, b: Bucket, now: int)
  {
    b.tokens <= Limit(g) && b.windowStart <= b.lastSeen <= now
  }

  predicate BucketsOk(g: Config, bs: Buckets, now: int)
  {
    forall ip :: ip in bs ==> BucketOk(g, bs[ip], now)
  }

  /** With n admissions in [x, x + window) by time now: what the bucket can still admit in that interval is within the
      limit, twice if its window began inside the interval. A forgotten bucket admitted nothing there. */
  predicate Within(g: Config, bs: Buckets, ip: string, x: int, n: nat, now: int)
  {
    && n <= 2 * Limit(g)
    && (n > 0 ==> x <= now)
    && (now < x + g.window ==>
          if ip !in bs then n == 0
          else
            var b, m := bs[ip], if bs[ip].windowStart < x then Limit(g) else 2 * Limit(g);
            n <= m && n + b.tokens <= m && (n > 0 ==> x <= b.lastSeen))
  }

  lemma NextWithin(g: Config, bs: Buckets, e: Event, ip: string, x: int, n: nat, now: int)
    requires g.window > 0 && Ordered(now, [e]) && BucketsOk(g, bs, now) && Within(g, bs, ip, x, n, now)
    ensures BucketsOk(g, Next(g, bs, e), At(e))
    ensures Within(g, Next(g, bs, e), ip, x, n + if Counts(g, bs, e, ip, x) then 1 else 0, At(e))
  {
  }

  lemma {:induction false} AdmittedWithin(g: Config, bs: Buckets, evs: seq<Event>, ip: string, x: int, n: nat, now: int)
    requires g.window > 0 && Ordered(now, evs) && BucketsOk(g, bs, now) && Within(g, bs, ip, x, n, now)
    ensures n + Admitted(g, bs, evs, ip, x) <= 2 * Limit(g)
    decreases |evs|
  {
    if evs != [] {
      NextWithin(g, bs, evs[0], ip, x, n, now);
      var n' := n + if Counts(g, bs, evs[0], ip, x) then 1 else 0;
      AdmittedWithin(g, Next(g, bs, evs[0]), evs[1..], ip, x, n', At(evs[0]));
    }
  }

  /** The rate bound: from an empty limiter, any half-open interval of one window admits at most twice the limit. */
  lemma RateBound(g: Config, evs: seq<Event>, ip: string, x: int, now: int)
    requires g.window > 0 && Ordered(now, evs)
    ensures Admitted(g, map[], evs, ip, x) <= 2 * Limit(g)
  {
    AdmittedWithin(g, map[], evs, ip, x, 0, now);
  }

  // ----- The cleanup pass cannot be seen -----

  /** The answers of a limiter that runs the cleanup passes, or of one that skips them. */
  function Answers(g: Config, bs: Buckets, evs: seq<Event>, cleans: bool): (r: seq<bool>)
    decreases |evs|
  {
    if evs == [] then []
    else match evs[0]
      case Request(ip, t0, t1) =>
        [AllowIp(g, bs, ip, t0, t1).1] + Answers(g, AllowIp(g, bs, ip, t0, t1).0, evs[1..], cleans)
      case Clean(now) => Answers(g, if cleans then Cleanup(g, bs, now) else bs, evs[1..], cleans)
  }

  /** The cleaned limiter has forgotten only buckets whose window is over. */
  predicate Forgot(g: Config, full: Buckets, cleaned: Buckets, now: int)
  {
    && cleaned.Keys <= full.Keys
    && (forall ip :: ip in cleaned ==> cleaned[ip] == full[ip])
    && (forall ip :: ip in full ==> full[ip].windowStart <= full[ip].lastSeen <= now)
    && (forall ip :: ip in full && ip !in cleaned ==> full[ip].lastSeen < now - 2 * g.window)
  }

  /** A request to a forgotten address whose new bucket starts its window before it is asked: the two clock readings
      differ by less than a window. */
  predicate Late(g: Config, full: Buckets, cleaned: Buckets, e: Event)
  {
    e.Request? && e.ip in full && e.ip !in cleaned && e.t0 < e.t1 < e.t0 + g.window
  }

  /** No request of the run is late, with `full` never cleaned and `cleaned` cleaned along the run. Requests to
      addresses that both remember, or that are new to both, may read the clock as they like. */
  predicate NeverLate(g: Config, full: Buckets, cleaned: Buckets, evs: seq<Event>)
    decreases |evs|
  {
    evs == [] ||
    (!Late(g, full, cleaned, evs[0]) &&
     match evs[0]
     case Request(ip, t0, t1) => NeverLate(g, AllowIp(g, full, ip, t0, t1).0, AllowIp(g, cleaned, ip, t0, t1).0, evs[1..])
     case Clean(t) => NeverLate(g, full, Cleanup(g, cleaned, t), evs[1..]))
  }

  lemma RequestForgot(g: Config, full: Buckets, cleaned: Buckets, now: int, ip: string, t0: int, t1: int)
    requires g.window > 0 && Forgot(g, full, cleaned, now) && now <= t0 <= t1
    requires !Late(g, full, cleaned, Request(ip, t0, t1))
    ensures Forgot(g, AllowIp(g, full, ip, t0, t1).0, AllowIp(g, cleaned, ip, t0, t1).0, t1)
    ensures AllowIp(g, full, ip, t0, t1).1 == AllowIp(g, cleaned, ip, t0, t1).1
  {
  }

  lemma {:induction false} SameAnswers(g: Config, full: Buckets, cleaned: Buckets, now: int, evs: seq<Event>)
    requires g.window > 0 && Forgot(g, full, cleaned, now) && Ordered(now, evs) && NeverLate(g, full, cleaned, evs)
    ensures Answers(g, full, evs, false) == Answers(g, cleaned, evs, true)
    decreases |evs|
  {
    if evs != [] {
      match evs[0]
      case Request(ip, t0, t1) =>
        RequestForgot(g, full, cleaned, now, ip, t0, t1);
        SameAnswers(g, AllowIp(g, full, ip, t0, t1).0, AllowIp(g, cleaned, ip, t0, t1).0, t1, evs[1..]);
      case Clean(t) => SameAnswers(g, full, Cleanup(g, cleaned, t), t, evs[1..]);
    }
  }

  /** Cleanup is unobservable: whenever cleanup passes run, the answers are those of a limiter that never cleans up,
      provided no request to a forgotten address is late. */
  lemma CleanupIsUnobservable(g: Config, evs: seq<Event>, now: int)
    requires g.window > 0 && Ordered(now, evs) && NeverLate(g, map[], map[], evs)
    ensures Answers(g, map[], evs, false) == Answers(g, map[], evs, true)
  {
    SameAnswers(g, map[], map[], now, evs);
  }

  // ----- When the two clock readings differ -----

  /** n requests of one address in a row, all at time t. */
  function Burst(ip: string, t: int, n: nat): (r: seq<Event>)
  {
    if n == 0 then [] else [Request(ip, t, t)] + Burst(ip, t, n - 1)
  }

  /** A burst inside the window of a bucket that holds as many tokens is admitted and uses them up. */
  lemma {:induction false} BurstDrains(g: Config, bs: Buckets, ip: string, t: int, n: nat, rest: seq<Event>, cleans: bool)
    requires ip in bs && bs[ip].tokens == n && t - bs[ip].windowStart < g.window && n > 0
    ensures Answers(g, bs, Burst(ip, t, n) + rest, cleans)
            == seq(n, _ => true) + Answers(g, bs[ip := Bucket(0, bs[ip].windowStart, t)], rest, cleans)
    decreases n
  {
    var evs, b := Burst(ip, t, n) + rest, Bucket(n - 1, bs[ip].windowStart, t);
    assert evs[0] == Request(ip, t, t) && evs[1..] == Burst(ip, t, n - 1) + rest;
    assert AllowIp(g, bs, ip, t, t) == (bs[ip := b], true);
    if n == 1 {
      assert Burst(ip, t, 0) + rest == rest;
      assert seq(1, _ => true) == [true];
    } else {
      BurstDrains(g, bs[ip := b], ip, t, n - 1, rest, cleans);
      assert bs[ip := b][ip := Bucket(0, bs[ip].windowStart, t)] == bs[ip := Bucket(0, bs[ip].windowStart, t)];
      assert [true] + seq(n - 1, _ => true) == seq(n, _ => true);
    }
  }

  /** With no tokens to give, every answer is no. */
  lemma {:induction false} NothingToSee(g: Config, bs1: Buckets, bs2: Buckets, evs: seq<Event>)
    requires g.maxTokens <= 0
    requires forall ip :: ip in bs1 ==> bs1[ip].tokens <= 0
    requires forall ip :: ip in bs2 ==> bs2[ip].tokens <= 0
    ensures Answers(g, bs1, evs, false) == Answers(g, bs2, evs, true)
    decreases |evs|
  {
    if evs != [] {
      match evs[0]
      case Request(ip, t0, t1) =>
        NothingToSee(g, AllowIp(g, bs1, ip, t0, t1).0, AllowIp(g, bs2, ip, t0, t1).0, evs[1..]);
      case Clean(now) => NothingToSee(g, bs1, Cleanup(g, bs2, now), evs[1..]);
    }
  }

  /** Requests that use up the tokens at t1 and ask once more a window after t0. */
  function Probe(g: Config, ip: string, t0: int, t1: int): (r: seq<Event>)
  {
    Burst(ip, t1, if g.maxTokens > 0 then g.maxTokens - 1 else 0) + [Request(ip, t0 + g.window, t0 + g.window)]
  }

  lemma OrderedRequest(ip: string, t0: int, t1: int, now: int, rest: seq<Event>)
    requires now <= t0 <= t1 && Ordered(t1, rest)
    ensures Ordered(now, [Request(ip, t0, t1)] + rest)
  {
    assert ([Request(ip, t0, t1)] + rest)[1..] == rest;
  }

  lemma {:induction false} BurstOrdered(ip: string, t: int, n: nat, rest: seq<Event>)
    requires Ordered(t, rest)
    ensures Ordered(t, Burst(ip, t, n) + rest)
    decreases n
  {
    if n == 0 {
      assert Burst(ip, t, n) + rest == rest;
    } else {
      BurstOrdered(ip, t, n - 1, rest);
      OrderedRequest(ip, t, t, t, Burst(ip, t, n - 1) + rest);
      assert Burst(ip, t, n) + rest == [Request(ip, t, t)] + (Burst(ip, t, n - 1) + rest);
    }
  }

  /** What a bucket just after its first request answers to the probe. */
  lemma ProbeAnswers(g: Config, bs: Buckets, ip: string, t0: int, t1: int, cleans: bool)
    requires g.window > 0 && g.maxTokens > 0 && t0 < t1 < t0 + g.window && ip in bs
    requires bs[ip].tokens == g.maxTokens - 1 && t0 <= bs[ip].windowStart <= t1
    ensures Answers(g, bs, Probe(g, ip, t0, t1), cleans)
            == seq(g.maxTokens - 1, _ => true) + [bs[ip].windowStart == t0]
  {
    var n, last := g.maxTokens - 1, [Request(ip, t0 + g.window, t0 + g.window)];
    if n == 0 {
      assert Probe(g, ip, t0, t1) == last;
    } else {
      BurstDrains(g, bs, ip, t1, n, last, cleans);
    }
    assert last[1..] == [];
  }

  lemma AnswersStep(g: Config, bs: Buckets, ip: string, t0: int, t1: int, rest: seq<Event>, cleans: bool)
    ensures var (bs', ok) := AllowIp(g, bs, ip, t0, t1);
            Answers(g, bs, [Request(ip, t0, t1)] + rest, cleans) == [ok] + Answers(g, bs', rest, cleans)
  {
    assert ([Request(ip, t0, t1)] + rest)[1..] == rest;
  }

  lemma ProbeOrdered(g: Config, ip: string, t0: int, t1: int, now: int)
    requires g.window > 0 && g.maxTokens > 0 && now <= t0 < t1 < t0 + g.window
    ensures Ordered(now, [Request(ip, t0, t1)] + Probe(g, ip, t0, t1))
  {
    var last := Request(ip, t0 + g.window, t0 + g.window);
    OrderedRequest(ip, last.t0, last.t1, t1, []);
    assert [last] + [] == [last];
    BurstOrdered(ip, t1, g.maxTokens - 1, [last]);
    OrderedRequest(ip, t0, t1, now, Probe(g, ip, t0, t1));
  }

  /** If the cleaned limiter has forgotten the address and the readings t0 < t1 are less than a window apart, the two
      limiters start different windows, and the probe tells them apart. */
  lemma ProbeTells(g: Config, full: Buckets, cleaned: Buckets, now: int, ip: string, t0: int, t1: int)
    requires g.window > 0 && g.maxTokens > 0 && Forgot(g, full, cleaned, now) && ip in full && ip !in cleaned
    requires now <= t0 < t1 < t0 + g.window
    ensures var evs := [Request(ip, t0, t1)] + Probe(g, ip, t0, t1);
            && Ordered(now, evs)
            && Answers(g, full, evs, false) != Answers(g, cleaned, evs, true)
  {
    var probe, n := Probe(g, ip, t0, t1), g.maxTokens - 1;
    ProbeOrdered(g, ip, t0, t1, now);
    AnswersStep(g, full, ip, t0, t1, probe, false);
    AnswersStep(g, cleaned, ip, t0, t1, probe, true);
    var f, c := AllowIp(g, full, ip, t0, t1).0, AllowIp(g, cleaned, ip, t0, t1).0;
    ProbeAnswers(g, f, ip, t0, t1, false);
    ProbeAnswers(g, c, ip, t0, t1, true);
    assert Answers(g, f, probe, false)[n] == false && Answers(g, c, probe, true)[n] == true;
    TailsDiffer(AllowIp(g, full, ip, t0, t1).1, Answers(g, f, probe, false),
                AllowIp(g, cleaned, ip, t0, t1).1, Answers(g, c, probe, true), n);
  }

  lemma TailsDiffer(x: bool, a: seq<bool>, y: bool, b: seq<bool>, i: nat)
    requires i < |a| && i < |b| && a[i] != b[i]
    ensures [x] + a != [y] + b
  {
    assert ([x] + a)[i + 1] == a[i] && ([y] + b)[i + 1] == b[i];
  }

  /** Requests that read the clock once. */
  predicate AllPrompt(evs: seq<Event>)
  {
    forall i :: 0 <= i < |evs| && evs[i].Request? ==> evs[i].t0 == evs[i].t1
  }

  lemma {:induction false} BurstPrompt(ip: string, t: int, n: nat)
    ensures AllPrompt(Burst(ip, t, n))
    decreases n
  {
    if n > 0 {
      BurstPrompt(ip, t, n - 1);
    }
  }

  lemma {:induction false} PromptIsNeverLate(g: Config, full: Buckets, cleaned: Buckets, evs: seq<Event>)
    requires AllPrompt(evs)
    ensures NeverLate(g, full, cleaned, evs)
    decreases |evs|
  {
    if evs != [] {
      match evs[0]
      case Request(ip, t0, t1) =>
        PromptIsNeverLate(g, AllowIp(g, full, ip, t0, t1).0, AllowIp(g, cleaned, ip, t0, t1).0, evs[1..]);
      case Clean(t) => PromptIsNeverLate(g, full, Cleanup(g, cleaned, t), evs[1..]);
    }
  }

  /** Two limiters tell apart by the answers to a run. */
  predicate Differ(g: Config, full: Buckets, cleaned: Buckets, now: int, evs: seq<Event>)
  {
    Ordered(now, evs) && Answers(g, full, evs, false) != Answers(g, cleaned, evs, true)
  }

  /** Exactly when a request to a forgotten address can show that cleanup ran: there are tokens to give, and it is
      late. */
  lemma CleanupShowsIff(g: Config, full: Buckets, cleaned: Buckets, now: int, ip: string, t0: int, t1: int)
    requires g.window > 0 && BucketsOk(g, full, now) && Forgot(g, full, cleaned, now) && ip in full && ip !in cleaned
    requires now <= t0 <= t1
    ensures (exists rest :: AllPrompt(rest) && Differ(g, full, cleaned, now, [Request(ip, t0, t1)] + rest))
            <==> g.maxTokens > 0 && t0 < t1 < t0 + g.window
  {
    var e := Request(ip, t0, t1);
    if g.maxTokens > 0 && t0 < t1 < t0 + g.window {
      BurstPrompt(ip, t1, g.maxTokens - 1);
      ProbeTells(g, full, cleaned, now, ip, t0, t1);
      assert AllPrompt(Probe(g, ip, t0, t1));
    } else {
      forall rest | AllPrompt(rest) ensures !Differ(g, full, cleaned, now, [e] + rest) {
        if g.maxTokens <= 0 {
          NothingToSee(g, full, cleaned, [e] + rest);
        } else if Ordered(now, [e] + rest) {
          assert ([e] + rest)[1..] == rest;
          PromptIsNeverLate(g, AllowIp(g, full, ip, t0, t1).0, AllowIp(g, cleaned, ip, t0, t1).0, rest);
          SameAnswers(g, full, cleaned, now, [e] + rest);
        }
      }
    }
  }

  /** Stopping the run anywhere and going on with prompt requests never tells the two limiters apart. */
  ghost predicate Hidden(g: Config, full: Buckets, cleaned: Buckets, now: int, evs: seq<Event>)
  {
    forall i, rest :: 0 <= i <= |evs| && AllPrompt(rest) ==> !Differ(g, full, cleaned, now, evs[..i] + rest)
  }

  lemma {:induction false} NeverLateConcat(g: Config, full: Buckets, cleaned: Buckets, evs: seq<Event>, i: nat, rest: seq<Event>)
    requires NeverLate(g, full, cleaned, evs) && i <= |evs| && AllPrompt(rest)
    ensures NeverLate(g, full, cleaned, evs[..i] + rest)
    decreases |evs|
  {
    if i == 0 {
      assert evs[..i] + rest == rest;
      PromptIsNeverLate(g, full, cleaned, rest);
    } else {
      assert (evs[..i] + rest)[0] == evs[0] && (evs[..i] + rest)[1..] == evs[1..][..i - 1] + rest;
      match evs[0]
      case Request(ip, t0, t1) =>
        NeverLateConcat(g, AllowIp(g, full, ip, t0, t1).0, AllowIp(g, cleaned, ip, t0, t1).0, evs[1..], i - 1, rest);
      case Clean(t) => NeverLateConcat(g, full, Cleanup(g, cleaned, t), evs[1..], i - 1, rest);
    }
  }

  /** A difference after the first event is a difference. */
  lemma DifferLater(g: Config, full: Buckets, cleaned: Buckets, now: int, e: Event, evs: seq<Event>)
    requires Ordered(now, [e])
    requires match e
             case Request(ip, t0, t1) =>
               Differ(g, AllowIp(g, full, ip, t0, t1).0, AllowIp(g, cleaned, ip, t0, t1).0, t1, evs)
             case Clean(t) => Differ(g, full, Cleanup(g, cleaned, t), t, evs)
    ensures Differ(g, full, cleaned, now, [e] + evs)
  {
    assert ([e] + evs)[1..] == evs;
    if e.Request? {
      assert Answers(g, full, [e] + evs, false)[1..] == Answers(g, AllowIp(g, full, e.ip, e.t0, e.t1).0, evs, false);
      assert Answers(g, cleaned, [e] + evs, true)[1..] == Answers(g, AllowIp(g, cleaned, e.ip, e.t0, e.t1).0, evs, true);
    }
  }

  lemma {:induction false} LateShows(g: Config, full: Buckets, cleaned: Buckets, now: int, evs: seq<Event>)
    returns (i: nat, rest: seq<Event>)
    requires g.window > 0 && g.maxTokens > 0 && Forgot(g, full, cleaned, now) && Ordered(now, evs)
    requires !NeverLate(g, full, cleaned, evs)
    ensures i <= |evs| && AllPrompt(rest) && Differ(g, full, cleaned, now, evs[..i] + rest)
    decreases |evs|
  {
    var e := evs[0];
    if Late(g, full, cleaned, e) {
      i, rest := 1, Probe(g, e.ip, e.t0, e.t1);
      BurstPrompt(e.ip, e.t1, g.maxTokens - 1);
      ProbeTells(g, full, cleaned, now, e.ip, e.t0, e.t1);
      assert evs[..1] == [e];
    } else {
      match e {
        case Request(ip, t0, t1) =>
          RequestForgot(g, full, cleaned, now, ip, t0, t1);
          i, rest := LateShows(g, AllowIp(g, full, ip, t0, t1).0, AllowIp(g, cleaned, ip, t0, t1).0, t1, evs[1..]);
        case Clean(t) =>
          i, rest := LateShows(g, full, Cleanup(g, cleaned, t), t, evs[1..]);
      }
      DifferLater(g, full, cleaned, now, e, evs[1..][..i] + rest);
      assert evs[..i + 1] + rest == [e] + (evs[1..][..i] + rest);
      i := i + 1;
    }
  }

  /** Over a whole run from an empty limiter: cleanup stays hidden, wherever the run is stopped and continued with prompt
      requests, if and only if there are no tokens to give or no request to a forgotten address is late. */
  lemma CleanupHiddenIff(g: Config, evs: seq<Event>, now: int)
    requires g.window > 0 && Ordered(now, evs)
    ensures Hidden(g, map[], map[], now, evs) <==> g.maxTokens <= 0 || NeverLate(g, map[], map[], evs)
  {
    if g.maxTokens <= 0 || NeverLate(g, map[], map[], evs) {
      forall i, rest | 0 <= i <= |evs| && AllPrompt(rest) ensures !Differ(g, map[], map[], now, evs[..i] + rest) {
        if g.maxTokens <= 0 {
          NothingToSee(g, map[], map[], evs[..i] + rest);
        } else if Ordered(now, evs[..i] + rest) {
          NeverLateConcat(g, map[], map[], evs, i, rest);
          SameAnswers(g, map[], map[], now, evs[..i] + rest);
        }
      }
    } else {
      var i, rest := LateShows(g, map[], map[], now, evs);
    }
  }

  /** A later request can erase the difference that a late one made: if the next one comes a window after it, both
      limiters have given the same answers and hold the same bucket again. */
  lemma LateIsErased(g: Config, full: Buckets, cleaned: Buckets, now: int, ip: string, t0: int, t1: int, u: int)
    requires g.window > 0 && g.maxTokens > 0 && Forgot(g, full, cleaned, now) && now <= t0
    requires Late(g, full, cleaned, Request(ip, t0, t1)) && t1 + g.window <= u
    ensures var (f, ok) := AllowIp(g, full, ip, t0, t1);
            var (c, ok') := AllowIp(g, cleaned, ip, t0, t1);
            && ok == ok' && f[ip] != c[ip]
            && AllowIp(g, f, ip, u, u).1 == AllowIp(g, c, ip, u, u).1
            && AllowIp(g, f, ip, u, u).0[ip] == AllowIp(g, c, ip, u, u).0[ip]
  {
  }

  /** And a run can get there. */
  lemma CleanupCanShow(g: Config, ip: string)
    requires g.window > 1 && g.maxTokens > 0
    ensures exists evs :: Ordered(0, evs) && Answers(g, map[], evs, false) != Answers(g, map[], evs, true)
  {
    var t := 2 * g.window + 1;
    var full := AllowIp(g, map[], ip, 0, 0).0;
    var rest := [Request(ip, t, t + 1)] + Probe(g, ip, t, t + 1);
    ProbeTells(g, full, Cleanup(g, full, t), t, ip, t, t + 1);
    var evs := [Request(ip, 0, 0), Clean(t)] + rest;
    assert evs[1..] == [Clean(t)] + rest && evs[1..][1..] == rest;
    assert Ordered(0, evs);
    assert Answers(g, map[], evs, false)[1..] == Answers(g, full, rest, false);
    assert Answers(g, map[], evs, true)[1..] == Answers(g, Cleanup(g, full, t), rest, true);
  }

  // ----- The rate bound is reached -----

  lemma {:induction false} BurstAdmitted(g: Config, bs: Buckets, ip: string, t: int, n: nat, rest: seq<Event>, x: int)
    requires ip in bs && bs[ip].tokens == n && t - bs[ip].windowStart < g.window && x <= t < x + g.window
    requires bs[ip].lastSeen == t
    ensures Admitted(g, bs, Burst(ip, t, n) + rest, ip, x)
            == n + Admitted(g, bs[ip := Bucket(0, bs[ip].windowStart, t)], rest, ip, x)
    decreases n
  {
    if n == 0 {
      assert Burst(ip, t, n) + rest == rest && bs[ip := Bucket(0, bs[ip].windowStart, t)] == bs;
    } else {
      var evs, b := Burst(ip, t, n) + rest, Bucket(n - 1, bs[ip].windowStart, t);
      assert evs[0] == Request(ip, t, t) && evs[1..] == Burst(ip, t, n - 1) + rest;
      assert AllowIp(g, bs, ip, t, t) == (bs[ip := b], true);
      BurstAdmitted(g, bs[ip := b], ip, t, n - 1, rest, x);
      assert bs[ip := b][ip := Bucket(0, bs[ip].windowStart, t)] == bs[ip := Bucket(0, bs[ip].windowStart, t)];
    }
  }

  /** As many requests as the limit, the first of which finds a full bucket. */
  function Round(g: Config, ip: string, t0: int, t: int): (r: seq<Event>)
    requires g.maxTokens > 0
  {
    [Request(ip, t0, t)] + Burst(ip, t, g.maxTokens - 1)
  }

  lemma RoundAdmitted(g: Config, bs: Buckets, ip: string, t0: int, t: int, ws: int, rest: seq<Event>, x: int)
    requires g.window > 0 && g.maxTokens > 0 && t - ws < g.window && x <= t < x + g.window
    requires AllowIp(g, bs, ip, t0, t) == (bs[ip := Bucket(g.maxTokens - 1, ws, t)], true)
    ensures Admitted(g, bs, Round(g, ip, t0, t) + rest, ip, x)
            == g.maxTokens + Admitted(g, bs[ip := Bucket(0, ws, t)], rest, ip, x)
  {
    var evs, b := Round(g, ip, t0, t) + rest, bs[ip := Bucket(g.maxTokens - 1, ws, t)];
    AdmittedStep(g, bs, Request(ip, t0, t), Burst(ip, t, g.maxTokens - 1) + rest, ip, x);
    assert evs == [Request(ip, t0, t)] + (Burst(ip, t, g.maxTokens - 1) + rest);
    BurstAdmitted(g, b, ip, t, g.maxTokens - 1, rest, x);
    assert b[ip := Bucket(0, ws, t)] == bs[ip := Bucket(0, ws, t)];
  }

  lemma AdmittedStep(g: Config, bs: Buckets, e: Event, rest: seq<Event>, ip: string, x: int)
    ensures Admitted(g, bs, [e] + rest, ip, x)
            == (if Counts(g, bs, e, ip, x) then 1 else 0) + Admitted(g, Next(g, bs, e), rest, ip, x)
  {
    assert ([e] + rest)[1..] == rest;
  }

  lemma RoundOrdered(g: Config, ip: string, t0: int, t: int, now: int, rest: seq<Event>)
    requires g.maxTokens > 0 && now <= t0 <= t && Ordered(t, rest)
    ensures Ordered(now, Round(g, ip, t0, t) + rest)
  {
    BurstOrdered(ip, t, g.maxTokens - 1, rest);
    OrderedRequest(ip, t0, t, now, Burst(ip, t, g.maxTokens - 1) + rest);
    assert Round(g, ip, t0, t) + rest == [Request(ip, t0, t)] + (Burst(ip, t, g.maxTokens - 1) + rest);
  }

  /** One round at the end of a window and another at the start of the next. */
  lemma RateBoundIsReached(g: Config, ip: string)
    requires g.window > 1 && g.maxTokens > 0
    ensures exists evs :: Ordered(0, evs) && Admitted(g, map[], evs, ip, g.window - 1) == 2 * Limit(g)
  {
    var w := g.window;
    var evs := Round(g, ip, 0, w - 1) + (Round(g, ip, w, w) + []);
    RoundAdmitted(g, map[], ip, 0, w - 1, 0, Round(g, ip, w, w) + [], w - 1);
    RoundAdmitted(g, map[ip := Bucket(0, 0, w - 1)], ip, w, w, w, [], w - 1);
    RoundOrdered(g, ip, w, w, w - 1, []);
    RoundOrdered(g, ip, 0, w - 1, 0, Round(g, ip, w, w) + []);
    assert Admitted(g, map[], evs, ip, w - 1) == 2 * Limit(g);
  }
}
