/** The per-IP token bucket of `rate_limit.rs`. Times are seconds on the monotonic clock. */
module RateLimiting {
  import opened Wrappers
  import opened Numbers

  datatype Limits = Limits(maxTokens: real, refillRate: real)

  datatype Bucket = Bucket(tokens: real, lastRefill: real)

  /** `Instant::duration_since`, which saturates at zero. */
  function Elapsed(now: real, since: real): real {
    if now >= since then now - since else 0.0
  }

  /** Tokens gained in a stretch of time. */
  function Refill(l: Limits, seconds: real): real {
    seconds * l.refillRate
  }

  lemma RefillAdds(l: Limits, a: real, b: real)
    ensures Refill(l, a + b) == Refill(l, a) + Refill(l, b)
  {}

  lemma RefillNonNegative(l: Limits, a: real)
    requires l.refillRate >= 0.0 && a >= 0.0
    ensures Refill(l, a) >= 0.0
  {}

  /** The level a request finds: a full bucket on first contact, otherwise the refilled one. */
  function Level(l: Limits, b: Option<Bucket>, now: real): real {
    match b
    case None => l.maxTokens
    case Some(b) => Min(b.tokens + Refill(l, Elapsed(now, b.lastRefill)), l.maxTokens)
  }

  function CheckBucket(l: Limits, b: Option<Bucket>, now: real): (bool, Bucket) {
    var level := Level(l, b, now);
    if level >= 1.0 then (true, Bucket(level - 1.0, now)) else (false, Bucket(level, now))
  }

  function Lookup(buckets: map<string, Bucket>, ip: string): Option<Bucket> {
    if ip in buckets then Some(buckets[ip]) else None
  }

  predicate Retained(b: Bucket, now: real) {
    Elapsed(now, b.lastRefill).Floor < 300
  }

  function Swept(buckets: map<string, Bucket>, now: real): map<string, Bucket> {
    map ip | ip in buckets && Retained(buckets[ip], now) :: buckets[ip]
  }

  class RateLimiter {
    const limits: Limits
    var buckets: map<string, Bucket>

    constructor (maxTokens: real, refillRate: real)
      ensures limits == Limits(maxTokens, refillRate) && buckets == map[]
    {
      limits := Limits(maxTokens, refillRate);
      buckets := map[];
    }

    method Check(ip: string, now: real) returns (admitted: bool)
      modifies this
      ensures var (answer, bucket) := CheckBucket(limits, Lookup(old(buckets), ip), now);
              admitted == answer && buckets == old(buckets)[ip := bucket]
    {
      ghost var before := buckets;
      if ip !in buckets {
        buckets := buckets[ip := Bucket(limits.maxTokens, now)];
      }
      var elapsed := Elapsed(now, buckets[ip].lastRefill);
      var tokens := Min(buckets[ip].tokens + elapsed * limits.refillRate, limits.maxTokens);
      buckets := buckets[ip := Bucket(tokens, now)];
      if tokens >= 1.0 {
        buckets := buckets[ip := Bucket(tokens - 1.0, now)];
        admitted := true;
      } else {
        admitted := false;
      }
      assert tokens == Level(limits, Lookup(before, ip), now);
      assert buckets == before[ip := buckets[ip]];
    }

    method Cleanup(now: real)
      modifies this
      ensures buckets == Swept(old(buckets), now)
      ensures forall ip :: ip in buckets <==> ip in old(buckets) && now - old(buckets)[ip].lastRefill < 300.0
    {
      buckets := map ip | ip in buckets && Retained(buckets[ip], now) :: buckets[ip];
    }
  }

  /** A sweep drops exactly the buckets that were idle for 300 seconds or more, and leaves the others as they are. */
  lemma SweepIsExact(buckets: map<string, Bucket>, now: real, ip: string)
    ensures ip in Swept(buckets, now) <==> ip in buckets && now - buckets[ip].lastRefill < 300.0
    ensures ip in Swept(buckets, now) ==> Swept(buckets, now)[ip] == buckets[ip]
  {}

  // ---- One bucket that is never swept ----

  /** The bucket and the answers after requests at the given times. */
  function Solo(l: Limits, times: seq<real>): (Option<Bucket>, seq<bool>) {
    if times == [] then (None, []) else
      var (bucket, answers) := Solo(l, times[..|times| - 1]);
      var (answer, next) := CheckBucket(l, bucket, times[|times| - 1]);
      (Some(next), answers + [answer])
  }

  predicate Ordered(times: seq<real>) {
    forall i, j :: 0 <= i < j < |times| ==> times[i] <= times[j]
  }

  /** How many of the answers in [from, upTo) admit. */
  function Admitted(answers: seq<bool>, from: nat, upTo: nat): nat
    requires from <= upTo <= |answers|
    decreases upTo
  {
    if from == upTo then 0 else Admitted(answers, from, upTo - 1) + (if answers[upTo - 1] then 1 else 0)
  }

  /** The most that a window [a, b] may admit: a full burst, and what is refilled in the meantime. */
  function Allowance(l: Limits, a: real, b: real): real {
    l.maxTokens + Refill(l, b - a)
  }

  /** What the window from request j to request k still allows, before request k is decided. */
  function Headroom(l: Limits, times: seq<real>, answers: seq<bool>, j: nat, k: nat): real
    requires j <= k < |times| && k <= |answers|
  {
    Allowance(l, times[j], times[k]) - Admitted(answers, j, k) as real
  }

  lemma {:induction false} SoloShape(l: Limits, times: seq<real>)
    ensures |Solo(l, times).1| == |times|
    ensures times != [] ==> Solo(l, times).0.Some? && Solo(l, times).0.value.lastRefill == times[|times| - 1]
  {
    if times != [] {
      SoloShape(l, times[..|times| - 1]);
    }
  }

  lemma {:induction false} SoloPrefix(l: Limits, times: seq<real>, n: nat)
    requires n <= |times|
    ensures |Solo(l, times).1| == |times|
    ensures Solo(l, times[..n]).1 == Solo(l, times).1[..n]
  {
    SoloShape(l, times);
    if n == |times| {
      assert times[..n] == times;
      assert Solo(l, times).1[..n] == Solo(l, times).1;
    } else {
      SoloPrefix(l, times[..|times| - 1], n);
      assert times[..|times| - 1][..n] == times[..n];
    }
  }

  lemma {:induction false} AdmittedPrefix(answers: seq<bool>, n: nat, from: nat, upTo: nat)
    requires from <= upTo <= n <= |answers|
    ensures Admitted(answers[..n], from, upTo) == Admitted(answers, from, upTo)
  {
    if from < upTo {
      AdmittedPrefix(answers, n, from, upTo - 1);
    }
  }

  lemma {:induction false} AdmittedSplit(answers: seq<bool>, a: nat, b: nat, c: nat)
    requires a <= b <= c <= |answers|
    ensures Admitted(answers, a, c) == Admitted(answers, a, b) + Admitted(answers, b, c)
  {
    if b < c {
      AdmittedSplit(answers, a, b, c - 1);
    }
  }

  /** What one more request does to a window's headroom. */
  lemma HeadroomStep(l: Limits, times: seq<real>, answers: seq<bool>, j: nat, k: nat)
    requires j < k < |times| && k <= |answers|
    ensures Headroom(l, times, answers, j, k)
         == Headroom(l, times, answers, j, k - 1) - (if answers[k - 1] then 1.0 else 0.0)
            + Refill(l, times[k] - times[k - 1])
  {
    RefillAdds(l, times[k - 1] - times[j], times[k] - times[k - 1]);
    assert Admitted(answers, j, k) == Admitted(answers, j, k - 1) + if answers[k - 1] then 1 else 0;
  }

  /** What one more request does to the level. */
  lemma NextLevel(l: Limits, b: Option<Bucket>, t0: real, t1: real)
    requires t0 <= t1
    ensures var (answer, next) := CheckBucket(l, b, t0);
            Level(l, Some(next), t1)
            == Min(Level(l, b, t0) - (if answer then 1.0 else 0.0) + Refill(l, t1 - t0), l.maxTokens)
  {}

  lemma {:induction false} SoloStep(l: Limits, times: seq<real>, k: nat)
    requires 0 < k <= |times|
    ensures |Solo(l, times).1| == |times|
    ensures var (answer, next) := CheckBucket(l, Solo(l, times[..k - 1]).0, times[k - 1]);
            Solo(l, times).1[k - 1] == answer && Solo(l, times[..k]).0 == Some(next)
  {
    SoloPrefix(l, times, k);
    SoloShape(l, times[..k - 1]);
    assert times[..k][..k - 1] == times[..k - 1];
    assert Solo(l, times[..k]).1[k - 1] == Solo(l, times).1[k - 1];
  }

  function LevelAt(l: Limits, times: seq<real>, k: nat): real
    requires k < |times|
  {
    Level(l, Solo(l, times[..k]).0, times[k])
  }

  lemma {:induction false} LevelStep(l: Limits, times: seq<real>, k: nat)
    requires Ordered(times) && 0 < k < |times|
    ensures |Solo(l, times).1| == |times|
    ensures LevelAt(l, times, k) == Min(LevelAt(l, times, k - 1) - (if Solo(l, times).1[k - 1] then 1.0 else 0.0)
                                        + Refill(l, times[k] - times[k - 1]), l.maxTokens)
  {
    SoloStep(l, times, k);
    NextLevel(l, Solo(l, times[..k - 1]).0, times[k - 1], times[k]);
  }

  /** The window that begins with the request itself. */
  lemma HeadroomNow(l: Limits, times: seq<real>, answers: seq<bool>, k: nat)
    requires k < |times| && k <= |answers|
    ensures Headroom(l, times, answers, k, k) == l.maxTokens
  {
    assert Refill(l, times[k] - times[k]) == 0.0;
  }

  lemma LevelAtMostFull(l: Limits, times: seq<real>, k: nat)
    requires k < |times|
    ensures LevelAt(l, times, k) <= l.maxTokens
  {
    hide Solo, Refill;
  }

  /** No window that ends with request k has less headroom than the level the request finds ... */
  lemma {:induction false} LevelWithinHeadroom(l: Limits, times: seq<real>, j: nat, k: nat)
    requires Ordered(times) && j <= k < |times|
    ensures |Solo(l, times).1| == |times|
    ensures LevelAt(l, times, k) <= Headroom(l, times, Solo(l, times).1, j, k)
    decreases k
  {
    SoloShape(l, times);
    hide Solo, LevelAt, Headroom, Refill, Ordered;
    if j < k {
      LevelWithinHeadroom(l, times, j, k - 1);
      LevelStep(l, times, k);
      HeadroomStep(l, times, Solo(l, times).1, j, k);
    } else {
      HeadroomNow(l, times, Solo(l, times).1, k);
      LevelAtMostFull(l, times, k);
    }
  }

  /** ... and some window has exactly that much: the level is the minimum of the headrooms. */
  lemma {:induction false} LevelIsSomeHeadroom(l: Limits, times: seq<real>, k: nat) returns (tight: nat)
    requires Ordered(times) && k < |times|
    ensures tight <= k && |Solo(l, times).1| == |times|
    ensures LevelAt(l, times, k) == Headroom(l, times, Solo(l, times).1, tight, k)
  {
    SoloShape(l, times);
    if k == 0 || LevelAt(l, times, k) == l.maxTokens {
      tight := k;
      HeadroomNow(l, times, Solo(l, times).1, k);
    } else {
      hide Solo, LevelAt, Headroom, Refill, Ordered;
      tight := LevelIsSomeHeadroom(l, times, k - 1);
      LevelStep(l, times, k);
      HeadroomStep(l, times, Solo(l, times).1, tight, k);
    }
  }

  /** A request is admitted exactly when admitting it keeps every window that ends with it within bounds. */
  lemma AdmitsExactlyWithinBounds(l: Limits, times: seq<real>, k: nat)
    requires Ordered(times) && k < |times|
    ensures |Solo(l, times).1| == |times|
    ensures Solo(l, times).1[k] <==>
            forall j :: 0 <= j <= k ==> Headroom(l, times, Solo(l, times).1, j, k) >= 1.0
  {
    SoloStep(l, times, k + 1);
    assert Solo(l, times).1[k] <==> LevelAt(l, times, k) >= 1.0;
    var tight := LevelIsSomeHeadroom(l, times, k);
    forall j | 0 <= j <= k
      ensures LevelAt(l, times, k) <= Headroom(l, times, Solo(l, times).1, j, k)
    {
      LevelWithinHeadroom(l, times, j, k);
    }
  }

  /** Answers that admit at most `maxTokens + refillRate * (b - a)` requests in every window [a, b]. */
  ghost predicate Conforming(l: Limits, times: seq<real>, answers: seq<bool>)
    requires |answers| == |times|
  {
    forall j, k {:trigger Admitted(answers, j, k + 1)} :: 0 <= j <= k < |times| ==>
      Admitted(answers, j, k + 1) as real <= Allowance(l, times[j], times[k])
  }

  lemma AllowanceGrows(l: Limits, a: real, b: real, c: real)
    requires l.maxTokens >= 0.0 && l.refillRate >= 0.0 && a <= b <= c
    ensures 0.0 <= Allowance(l, a, b) <= Allowance(l, a, c)
  {
    RefillNonNegative(l, b - a);
    RefillNonNegative(l, c - b);
    RefillAdds(l, b - a, c - b);
  }

  /** Every window between two requests, both ends included, stays within its allowance. */
  lemma {:induction false} WindowBound(l: Limits, times: seq<real>, j: nat, k: nat)
    requires l.maxTokens >= 0.0 && l.refillRate >= 0.0 && Ordered(times) && j <= k < |times|
    ensures |Solo(l, times).1| == |times|
    ensures Admitted(Solo(l, times).1, j, k + 1) as real <= Allowance(l, times[j], times[k])
    decreases k
  {
    SoloShape(l, times);
    var answers := Solo(l, times).1;
    if answers[k] {
      AdmitsExactlyWithinBounds(l, times, k);
      assert Headroom(l, times, answers, j, k) >= 1.0;
    } else if j < k {
      WindowBound(l, times, j, k - 1);
      AllowanceGrows(l, times[j], times[k - 1], times[k]);
    } else {
      AllowanceGrows(l, times[j], times[k], times[k]);
    }
  }

  lemma BucketConforms(l: Limits, times: seq<real>)
    requires l.maxTokens >= 0.0 && l.refillRate >= 0.0 && Ordered(times)
    ensures |Solo(l, times).1| == |times| && Conforming(l, times, Solo(l, times).1)
  {
    SoloShape(l, times);
    forall j, k | 0 <= j <= k < |times|
      ensures Admitted(Solo(l, times).1, j, k + 1) as real <= Allowance(l, times[j], times[k])
    {
      WindowBound(l, times, j, k);
    }
  }

  /** No conforming filter, even one that knows the future, has admitted more after any prefix. */
  lemma {:induction false} BucketIsMaximal(l: Limits, times: seq<real>, other: seq<bool>, n: nat)
    requires Ordered(times) && |other| == |times| && Conforming(l, times, other) && n <= |times|
    ensures |Solo(l, times).1| == |times|
    ensures Admitted(other, 0, n) <= Admitted(Solo(l, times).1, 0, n)
  {
    SoloShape(l, times);
    var answers := Solo(l, times).1;
    if n > 0 {
      var k := n - 1;
      BucketIsMaximal(l, times, other, k);
      AdmitsExactlyWithinBounds(l, times, k);
      if !answers[k] && other[k] {
        var j :| 0 <= j <= k && Headroom(l, times, answers, j, k) < 1.0;
        BucketIsMaximal(l, times, other, j);
        assert Admitted(other, j, k + 1) as real <= Allowance(l, times[j], times[k]);
        AdmittedSplit(answers, 0, j, k);
        AdmittedSplit(other, 0, j, k);
      }
    }
  }

  /** The bucket is the maximal filter: it conforms, and no filter that conforms is ever ahead of it. */
  lemma BucketIsTheMaximalFilter(l: Limits, times: seq<real>)
    requires l.maxTokens >= 0.0 && l.refillRate >= 0.0 && Ordered(times)
    ensures |Solo(l, times).1| == |times| && Conforming(l, times, Solo(l, times).1)
    ensures forall other: seq<bool>, n: nat | |other| == |times| && n <= |times| && Conforming(l, times, other) ::
              Admitted(other, 0, n) <= Admitted(Solo(l, times).1, 0, n)
  {
    BucketConforms(l, times);
    hide Conforming, Solo, Admitted;
    forall other: seq<bool>, n: nat | |other| == |times| && n <= |times| && Conforming(l, times, other)
      ensures Admitted(other, 0, n) <= Admitted(Solo(l, times).1, 0, n)
    {
      BucketIsMaximal(l, times, other, n);
    }
  }

  // ---- Whole runs: many addresses, with sweeps in between ----

  datatype Event = Request(ip: string, now: real) | Sweep(now: real)

  function After(l: Limits, run: seq<Event>): map<string, Bucket> {
    if run == [] then map[] else
      var buckets := After(l, run[..|run| - 1]);
      match run[|run| - 1]
      case Request(ip, now) => buckets[ip := CheckBucket(l, Lookup(buckets, ip), now).1]
      case Sweep(now) => Swept(buckets, now)
  }

  /** The answers the limiter gives to one address. */
  function AnswersTo(l: Limits, run: seq<Event>, ip: string): seq<bool> {
    if run == [] then [] else
      var prefix := run[..|run| - 1];
      match run[|run| - 1]
      case Request(from, now) =>
        AnswersTo(l, prefix, ip)
        + (if from == ip then [CheckBucket(l, Lookup(After(l, prefix), ip), now).0] else [])
      case Sweep(_) => AnswersTo(l, prefix, ip)
  }

  function TimesOf(run: seq<Event>, ip: string): seq<real> {
    if run == [] then [] else
      var last := run[|run| - 1];
      TimesOf(run[..|run| - 1], ip) + (if last.Request? && last.ip == ip then [last.now] else [])
  }

  predicate Chronological(run: seq<Event>) {
    forall i, j :: 0 <= i < j < |run| ==> run[i].now <= run[j].now
  }

  predicate SweepFree(run: seq<Event>) {
    forall i :: 0 <= i < |run| ==> run[i].Request?
  }

  /** 300 seconds without a request fill a bucket, whatever was left in it. */
  predicate RefillsWhileIdle(l: Limits) {
    l.maxTokens >= 0.0 && 300.0 * l.refillRate >= l.maxTokens
  }

  /** How the shared map and the address's own bucket may differ: the map may have forgotten a full bucket. */
  predicate Agrees(l: Limits, mine: Option<Bucket>, own: Option<Bucket>, clock: real) {
    && (own.Some? ==> own.value.lastRefill <= clock)
    && (RefillsWhileIdle(l) && own.Some? ==> own.value.tokens >= 0.0)
    && (mine == own ||
        (RefillsWhileIdle(l) && mine.None? && clock - own.value.lastRefill >= 300.0))
  }

  lemma IdleBucketIsFull(l: Limits, own: Bucket, now: real)
    requires RefillsWhileIdle(l) && own.tokens >= 0.0 && now - own.lastRefill >= 300.0
    ensures Level(l, Some(own), now) == l.maxTokens
  {
    var elapsed := now - own.lastRefill;
    RefillNonNegative(l, elapsed - 300.0);
    RefillAdds(l, elapsed - 300.0, 300.0);
  }

  lemma LevelNonNegative(l: Limits, b: Option<Bucket>, now: real)
    requires RefillsWhileIdle(l) && (b.Some? ==> b.value.tokens >= 0.0)
    ensures Level(l, b, now) >= 0.0
  {
    if b.Some? {
      RefillNonNegative(l, Elapsed(now, b.value.lastRefill));
    }
  }

  lemma CheckKeepsAgreement(l: Limits, mine: Option<Bucket>, own: Option<Bucket>, clock: real, now: real)
    requires Agrees(l, mine, own, clock) && clock <= now
    ensures CheckBucket(l, mine, now) == CheckBucket(l, own, now)
    ensures Agrees(l, Some(CheckBucket(l, mine, now).1), Some(CheckBucket(l, own, now).1), now)
  {
    if mine != own {
      IdleBucketIsFull(l, own.value, now);
    }
    if RefillsWhileIdle(l) {
      LevelNonNegative(l, own, now);
    }
  }

  lemma {:induction false} RunAgrees(l: Limits, run: seq<Event>, ip: string, clock: real)
    requires Chronological(run) && (SweepFree(run) || RefillsWhileIdle(l))
    requires forall i :: 0 <= i < |run| ==> run[i].now <= clock
    ensures AnswersTo(l, run, ip) == Solo(l, TimesOf(run, ip)).1
    ensures Agrees(l, Lookup(After(l, run), ip), Solo(l, TimesOf(run, ip)).0, clock)
  {
    if run != [] {
      var prefix, last := run[..|run| - 1], run[|run| - 1];
      RunAgrees(l, prefix, ip, last.now);
      var times := TimesOf(prefix, ip);
      if last.Request? && last.ip == ip {
        assert (times + [last.now])[..|times|] == times;
        CheckKeepsAgreement(l, Lookup(After(l, prefix), ip), Solo(l, times).0, last.now, last.now);
      } else {
        assert times + [] == times;
      }
    }
  }

  /**
   * Sweeps never change a decision, and neither do requests from other addresses:
   * each address is answered as if it had a bucket of its own that is never swept.
   */
  lemma SweepsAndStrangersAreInvisible(l: Limits, run: seq<Event>, ip: string)
    requires Chronological(run)
    requires SweepFree(run) || RefillsWhileIdle(l)
    ensures AnswersTo(l, run, ip) == Solo(l, TimesOf(run, ip)).1
  {
    RunAgrees(l, run, ip, if run == [] then 0.0 else run[|run| - 1].now);
  }

  // ---- The condition is exact: a slower refill lets sweeps change decisions ----

  /** What a run has come to by time t: the level the limiter would find, and the level without sweeps. */
  ghost predicate Stands(l: Limits, run: seq<Event>, ip: string, t: real, level: real, unswept: real) {
    var mine, own := Lookup(After(l, run), ip), Solo(l, TimesOf(run, ip)).0;
    && Chronological(run) && (forall i :: 0 <= i < |run| ==> run[i].now <= t)
    && (mine.Some? ==> mine.value.lastRefill <= t) && (own.Some? ==> own.value.lastRefill <= t)
    && Level(l, mine, t) == level && Level(l, own, t) == unswept
  }

  /** A level some time later, when nothing has happened. */
  function Later(l: Limits, level: real, seconds: real): real {
    Min(level + Refill(l, seconds), l.maxTokens)
  }

  function Spent(level: real): real {
    if level >= 1.0 then level - 1.0 else level
  }

  lemma LevelLater(l: Limits, b: Option<Bucket>, t: real, t': real)
    requires l.refillRate >= 0.0 && t <= t' && (b.Some? ==> b.value.lastRefill <= t)
    ensures Level(l, b, t') == Later(l, Level(l, b, t), t' - t)
  {
    RefillNonNegative(l, t' - t);
    if b.Some? {
      RefillAdds(l, t - b.value.lastRefill, t' - t);
    }
  }

  /** A bucket asked at a time: what is left in it, and when it was last refilled. */
  lemma AskedBucket(l: Limits, b: Option<Bucket>, t: real, t': real)
    requires l.refillRate >= 0.0 && t <= t' && (b.Some? ==> b.value.lastRefill <= t)
    ensures var level := Later(l, Level(l, b, t), t' - t);
            CheckBucket(l, b, t') == (level >= 1.0, Bucket(Spent(level), t'))
            && Level(l, Some(Bucket(Spent(level), t')), t') == Spent(level)
  {
    LevelLater(l, b, t, t');
    RefillNonNegative(l, 0.0);
    assert Refill(l, 0.0) == 0.0;
  }

  /** What one more request does to the map, and to the address's own bucket. */
  lemma RequestMoves(l: Limits, run: seq<Event>, ip: string, t: real)
    ensures var (more, times) := (run + [Request(ip, t)], TimesOf(run, ip));
            var (mine, own) := (CheckBucket(l, Lookup(After(l, run), ip), t), CheckBucket(l, Solo(l, times).0, t));
            && Lookup(After(l, more), ip) == Some(mine.1) && AnswersTo(l, more, ip) == AnswersTo(l, run, ip) + [mine.0]
            && TimesOf(more, ip) == times + [t]
            && Solo(l, TimesOf(more, ip)) == (Some(own.1), Solo(l, times).1 + [own.0])
  {
    var more, times := run + [Request(ip, t)], TimesOf(run, ip);
    assert more[..|run|] == run && (times + [t])[..|times|] == times;
  }

  lemma RequestStands(l: Limits, run: seq<Event>, ip: string, t: real, level: real, unswept: real, t': real)
    requires l.refillRate >= 0.0 && Stands(l, run, ip, t, level, unswept) && t <= t'
    ensures var (a, b, more) := (Later(l, level, t' - t), Later(l, unswept, t' - t), run + [Request(ip, t')]);
            && Stands(l, more, ip, t', Spent(a), Spent(b))
            && Lookup(After(l, more), ip) == Some(Bucket(Spent(a), t'))
            && AnswersTo(l, more, ip) == AnswersTo(l, run, ip) + [a >= 1.0]
            && Solo(l, TimesOf(more, ip)).1 == Solo(l, TimesOf(run, ip)).1 + [b >= 1.0]
  {
    hide After, AnswersTo, TimesOf, Solo, Lookup, CheckBucket, Level, Later, Spent;
    RequestMoves(l, run, ip, t');
    AskedBucket(l, Lookup(After(l, run), ip), t, t');
    AskedBucket(l, Solo(l, TimesOf(run, ip)).0, t, t');
  }

  lemma SweepMoves(l: Limits, run: seq<Event>, ip: string, t: real)
    ensures var more := run + [Sweep(t)];
            && After(l, more) == Swept(After(l, run), t)
            && AnswersTo(l, more, ip) == AnswersTo(l, run, ip) && TimesOf(more, ip) == TimesOf(run, ip)
  {
    assert (run + [Sweep(t)])[..|run|] == run;
    assert TimesOf(run, ip) + [] == TimesOf(run, ip);
  }

  lemma {:induction false} SweepStands(l: Limits, run: seq<Event>, ip: string, t: real, level: real, unswept: real)
    requires l.refillRate >= 0.0 && Stands(l, run, ip, t, level, unswept)
    requires Lookup(After(l, run), ip).Some? && Lookup(After(l, run), ip).value.lastRefill == t
    ensures Stands(l, run + [Sweep(t + 300.0)], ip, t + 300.0, l.maxTokens, Later(l, unswept, 300.0))
  {
    hide After, AnswersTo, TimesOf, Solo;
    SweepMoves(l, run, ip, t + 300.0);
    LevelLater(l, Solo(l, TimesOf(run, ip)).0, t, t + 300.0);
    assert t + 300.0 - t == 300.0;
  }

  predicate Differs(l: Limits, run: seq<Event>, ip: string) {
    Chronological(run) && AnswersTo(l, run, ip) != Solo(l, TimesOf(run, ip)).1
  }

  /** A request that one of the levels admits and the other does not tells them apart. */
  lemma TellApart(l: Limits, run: seq<Event>, ip: string, t: real, level: real, unswept: real, t': real)
    requires l.refillRate >= 0.0 && Stands(l, run, ip, t, level, unswept) && t <= t'
    requires Later(l, level, t' - t) >= 1.0 > Later(l, unswept, t' - t)
    ensures Differs(l, run + [Request(ip, t')], ip)
  {
    RequestStands(l, run, ip, t, level, unswept, t');
    var more := run + [Request(ip, t')];
    var (mine, own) := (AnswersTo(l, more, ip), Solo(l, TimesOf(more, ip)).1);
    assert mine[|mine| - 1] && !own[|own| - 1];
  }

  function TimeToGain(l: Limits, tokens: real): real
    requires l.refillRate > 0.0
  {
    tokens / l.refillRate
  }

  lemma Gains(l: Limits, tokens: real)
    requires l.refillRate > 0.0 && tokens >= 0.0
    ensures TimeToGain(l, tokens) >= 0.0 && Refill(l, TimeToGain(l, tokens)) == tokens
  {}

  lemma Unmoved(l: Limits, level: real)
    requires level <= l.maxTokens
    ensures Later(l, level, 0.0) == level
  {}

  /** How long to wait until one level admits and the other does not. */
  lemma WaitToTell(l: Limits, level: real, unswept: real) returns (wait: real)
    requires l.maxTokens >= 1.0 && l.refillRate >= 0.0
    requires 0.0 <= unswept < level <= l.maxTokens && unswept < 1.0
    requires l.refillRate > 0.0 || level >= 1.0
    ensures wait >= 0.0 && Later(l, level, wait) >= 1.0 > Later(l, unswept, wait)
  {
    if level >= 1.0 {
      wait := 0.0;
      Unmoved(l, level);
      Unmoved(l, unswept);
    } else {
      Gains(l, 1.0 - level);
      wait := TimeToGain(l, 1.0 - level);
      hide TimeToGain, Refill;
    }
  }

  /** Any difference between the levels shows after some more requests. */
  lemma {:induction false} Diverges(l: Limits, run: seq<Event>, ip: string, t: real, level: real, unswept: real)
      returns (more: seq<Event>)
    requires l.maxTokens >= 1.0 && l.refillRate >= 0.0 && Stands(l, run, ip, t, level, unswept)
    requires 0.0 <= unswept < level <= l.maxTokens
    requires l.refillRate > 0.0 || level >= 1.0 > unswept
    ensures Differs(l, more, ip)
    decreases level.Floor
  {
    if unswept >= 1.0 {
      Unmoved(l, level);
      Unmoved(l, unswept);
      RequestStands(l, run, ip, t, level, unswept, t);
      assert t - t == 0.0;
      hide Stands, Differs, Later, AnswersTo, TimesOf, Solo, After;
      more := Diverges(l, run + [Request(ip, t)], ip, t, level - 1.0, unswept - 1.0);
    } else {
      hide Stands, Differs, Later;
      var wait := WaitToTell(l, level, unswept);
      assert t + wait - t == wait;
      TellApart(l, run, ip, t, level, unswept, t + wait);
      more := run + [Request(ip, t + wait)];
    }
  }

  /** Requests at one instant until less than a token is left. */
  lemma {:induction false} Drains(l: Limits, run: seq<Event>, ip: string, t: real, level: real)
      returns (more: seq<Event>, left: real)
    requires l.refillRate >= 0.0 && Stands(l, run, ip, t, level, level) && 1.0 <= level <= l.maxTokens
    ensures Stands(l, more, ip, t, left, left) && 0.0 <= left < 1.0
    ensures Lookup(After(l, more), ip) == Some(Bucket(left, t))
    decreases level.Floor
  {
    Unmoved(l, level);
    RequestStands(l, run, ip, t, level, level, t);
    more, left := run + [Request(ip, t)], level - 1.0;
    if left >= 1.0 {
      more, left := Drains(l, more, ip, t, left);
    }
  }

  /** A run after which the bucket holds nothing that could be refilled to the full within 300 seconds. */
  lemma Empties(l: Limits, ip: string) returns (run: seq<Event>, t: real, left: real)
    requires l.maxTokens >= 1.0 && l.refillRate >= 0.0
    ensures Stands(l, run, ip, t, left, left) && Lookup(After(l, run), ip) == Some(Bucket(left, t))
    ensures 0.0 <= left < 1.0 && (l.refillRate > 0.0 ==> left == 0.0)
  {
    InitiallyFull(l, ip);
    hide Stands;
    run, left := Drains(l, [], ip, 0.0, l.maxTokens);
    t := 0.0;
    if l.refillRate > 0.0 {
      t := TimeToGain(l, 1.0 - left);
      Gains(l, 1.0 - left);
      RequestStands(l, run, ip, 0.0, left, left, t);
      run, left := run + [Request(ip, t)], 0.0;
    }
  }

  lemma StillNotFull(l: Limits, left: real)
    requires l.maxTokens >= 1.0 && l.refillRate >= 0.0 && !RefillsWhileIdle(l)
    requires 0.0 <= left < 1.0 && (l.refillRate > 0.0 ==> left == 0.0)
    ensures 0.0 <= Later(l, left, 300.0) < l.maxTokens
    ensures l.refillRate == 0.0 ==> Later(l, left, 300.0) < 1.0
  {}

  /** If 300 seconds do not fill an empty bucket, some run with a sweep is answered differently. */
  lemma SlowRefillShowsSweeps(l: Limits, ip: string) returns (run: seq<Event>)
    requires l.maxTokens >= 1.0 && l.refillRate >= 0.0 && !RefillsWhileIdle(l)
    ensures Differs(l, run, ip)
  {
    var t, left;
    run, t, left := Empties(l, ip);
    SweepStands(l, run, ip, t, left, left);
    StillNotFull(l, left);
    hide *;
    run := Diverges(l, run + [Sweep(t + 300.0)], ip, t + 300.0, l.maxTokens, Later(l, left, 300.0));
  }

  lemma InitiallyFull(l: Limits, ip: string)
    ensures Stands(l, [], ip, 0.0, l.maxTokens, l.maxTokens)
  {}

  /** A bucket that cannot hold a whole token refuses everything, swept or not. */
  lemma {:induction false} SmallBucketsRefuse(l: Limits, run: seq<Event>, ip: string)
    requires l.maxTokens < 1.0
    ensures AnswersTo(l, run, ip) == Solo(l, TimesOf(run, ip)).1
  {
    if run != [] {
      var prefix, last := run[..|run| - 1], run[|run| - 1];
      var times := TimesOf(prefix, ip);
      SmallBucketsRefuse(l, prefix, ip);
      if last.Request? && last.ip == ip {
        assert (times + [last.now])[..|times|] == times;
      } else {
        assert times + [] == times;
      }
    }
  }

  /**
   * Sweeps are invisible in every run if and only if 300 idle seconds refill a whole bucket, or nothing is ever
   * admitted.
   */
  lemma SweepsAreInvisibleIff(l: Limits)
    requires l.refillRate >= 0.0
    ensures (forall run, ip :: !Differs(l, run, ip)) <==> 300.0 * l.refillRate >= l.maxTokens || l.maxTokens < 1.0
  {
    if RefillsWhileIdle(l) || l.maxTokens < 1.0 {
      forall run, ip ensures !Differs(l, run, ip) {
        if Chronological(run) {
          if l.maxTokens < 1.0 { SmallBucketsRefuse(l, run, ip); } else { SweepsAndStrangersAreInvisible(l, run, ip); }
        }
      }
    } else {
      var run := SlowRefillShowsSweeps(l, "ip");
      assert Differs(l, run, "ip");
    }
  }

  /** The limits the middleware installs. */
  const DEPLOYED := Limits(100.0, 20.0)

  lemma {:induction false} TimesOrdered(run: seq<Event>, ip: string)
    requires Chronological(run)
    ensures Ordered(TimesOf(run, ip))
    ensures forall i :: 0 <= i < |TimesOf(run, ip)| ==> run != [] && TimesOf(run, ip)[i] <= run[|run| - 1].now
  {
    if run != [] {
      TimesOrdered(run[..|run| - 1], ip);
    }
  }

  /** End to end, for the deployed limits: whatever else happens, an address never exceeds 100 + 20 per second. */
  lemma DeployedWindowBound(run: seq<Event>, ip: string, j: nat, k: nat)
    requires Chronological(run) && j <= k < |TimesOf(run, ip)|
    ensures |AnswersTo(DEPLOYED, run, ip)| == |TimesOf(run, ip)|
    ensures Admitted(AnswersTo(DEPLOYED, run, ip), j, k + 1) as real
         <= 100.0 + 20.0 * (TimesOf(run, ip)[k] - TimesOf(run, ip)[j])
  {
    SweepsAndStrangersAreInvisible(DEPLOYED, run, ip);
    TimesOrdered(run, ip);
    WindowBound(DEPLOYED, TimesOf(run, ip), j, k);
  }
}
