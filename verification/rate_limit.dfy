/**
 The fixed-window limiter with a hard key cap of src/api/rate-limit.ts, checked
 against a single-key limiter that has no cap and never sweeps.
 */
module RateLimit {
  import opened Wrappers

  datatype Bucket = Bucket(windowStart: int, count: int)

  datatype Decision = Allowed | Refused(retryAfterSeconds: int)

  datatype Limits = Limits(maxRequests: int, windowMs: nat, maxTrackedKeys: nat)

  type Buckets = map<string, Bucket>

  // ------------------------------------------------------------------ check

  predicate Expired(l: Limits, b: Bucket, now: int) {
    now - b.windowStart >= l.windowMs
  }

  function Swept(l: Limits, buckets: Buckets, now: int): (r: Buckets)
    ensures r.Keys <= buckets.Keys
  {
    map k | k in buckets && !Expired(l, buckets[k], now) :: buckets[k]
  }

  function CeilSeconds(ms: int): int {
    -((-ms) / 1000)
  }

  function RetryAfter(l: Limits, b: Bucket, now: int): int {
    var wait := CeilSeconds(b.windowStart + l.windowMs - now);
    if wait > 1 then wait else 1
  }

  function BeforeCheck(l: Limits, buckets: Buckets, now: int): Buckets {
    if |buckets| >= l.maxTrackedKeys then Swept(l, buckets, now) else buckets
  }

  /** The hard cap turns a new key away. */
  predicate CapRefuses(l: Limits, buckets: Buckets, key: string, now: int) {
    var b := BeforeCheck(l, buckets, now);
    key !in b && |b| >= l.maxTrackedKeys
  }

  function Check(l: Limits, buckets: Buckets, key: string, now: int): (Buckets, Decision) {
    var b := BeforeCheck(l, buckets, now);
    if key !in b || Expired(l, b[key], now) then
      if key !in b && |b| >= l.maxTrackedKeys then (b, Refused(1))
      else (b[key := Bucket(now, 1)], Allowed)
    else if b[key].count < l.maxRequests then (b[key := Bucket(b[key].windowStart, b[key].count + 1)], Allowed)
    else (b, Refused(RetryAfter(l, b[key], now)))
  }

  // -------------------------------------------------------------------- runs

  datatype Request = Request(key: string, at: int)

  /** The clock never goes back. */
  predicate Monotone(run: seq<Request>) {
    forall i, j | 0 <= i < j < |run| :: run[i].at <= run[j].at
  }

  function Front(run: seq<Request>): seq<Request>
    requires run != []
  {
    run[..|run| - 1]
  }

  function Last(run: seq<Request>): Request
    requires run != []
  {
    run[|run| - 1]
  }

  /** The tracked buckets after a run from an empty limiter. */
  function After(l: Limits, run: seq<Request>): Buckets {
    if run == [] then map[] else Check(l, After(l, Front(run)), Last(run).key, Last(run).at).0
  }

  function DecisionOfLast(l: Limits, run: seq<Request>): Decision
    requires run != []
  {
    Check(l, After(l, Front(run)), Last(run).key, Last(run).at).1
  }

  /** How many of the key's requests with times in [from, from + windowMs) were allowed. */
  function GrantsIn(l: Limits, run: seq<Request>, key: string, from: int): nat {
    if run == [] then 0
    else
      GrantsIn(l, Front(run), key, from)
      + if Last(run).key == key && from <= Last(run).at < from + l.windowMs && DecisionOfLast(l, run).Allowed?
        then 1 else 0
  }

  // --------------------------------------------------------------- the bound

  /** Even a non-positive limit lets the first request of a window through. */
  function Quota(l: Limits): int {
    if l.maxRequests > 1 then l.maxRequests else 1
  }

  /** The map never holds more than the cap, whatever the keys and times. */
  lemma {:induction false} TrackedKeysStayUnderTheCap(l: Limits, run: seq<Request>)
    ensures |After(l, run)| <= l.maxTrackedKeys
  {
    if run != [] {
      TrackedKeysStayUnderTheCap(l, Front(run));
      CheckKeepsCap(l, After(l, Front(run)), Last(run).key, Last(run).at);
    }
  }

  lemma CheckKeepsCap(l: Limits, buckets: Buckets, key: string, now: int)
    requires |buckets| <= l.maxTrackedKeys
    ensures |Check(l, buckets, key, now).0| <= l.maxTrackedKeys
  {
    var b := BeforeCheck(l, buckets, now);
    SmallerMap(b, buckets);
    UpdateSize(b, key, Bucket(now, 1));
    if key in b { UpdateSize(b, key, Bucket(b[key].windowStart, b[key].count + 1)); }
  }

  lemma UpdateSize(b: Buckets, key: string, v: Bucket)
    ensures |b[key := v]| == |b| + if key in b then 0 else 1
  {
    assert b[key := v].Keys == b.Keys + {key};
  }

  lemma SmallerMap(a: Buckets, b: Buckets)
    requires a.Keys <= b.Keys
    ensures |a| <= |b|
  {
    SmallerSet(a.Keys, b.Keys);
  }

  lemma {:induction false} SmallerSet(a: set<string>, b: set<string>)
    requires a <= b
    ensures |a| <= |b|
    decreases |a|
  {
    if x :| x in a { SmallerSet(a - {x}, b - {x}); }
  }

  /** What the bucket promises about the grants in one interval of window length. */
  predicate IntervalOk(l: Limits, bucket: Option<Bucket>, now: int, from: int, grants: nat) {
    && grants <= 2 * Quota(l)
    && (now < from ==> grants == 0)
    && (now >= from + l.windowMs
        || (match bucket
            case None => grants <= Quota(l)
            case Some(b) =>
              b.windowStart <= now && 1 <= b.count <= Quota(l)
              && (if b.windowStart < from then grants <= b.count else grants <= Quota(l) + b.count)))
    && (bucket.Some? ==> bucket.value.windowStart <= now && 1 <= bucket.value.count <= Quota(l))
  }

  function BucketOf(buckets: Buckets, key: string): Option<Bucket> {
    if key in buckets then Some(buckets[key]) else None
  }

  /** Time passing and sweeping keep the promise: only expired buckets go. */
  lemma SweepKeepsInterval(l: Limits, buckets: Buckets, key: string, earlier: int, now: int, from: int, grants: nat)
    requires IntervalOk(l, BucketOf(buckets, key), earlier, from, grants) && earlier <= now
    ensures SweptOk(l, BucketOf(BeforeCheck(l, buckets, now), key), now, from, grants)
  {
  }

  /** What a bucket promises once the sweep before a check is done. */
  predicate SweptOk(l: Limits, bucket: Option<Bucket>, now: int, from: int, grants: nat) {
    && grants <= 2 * Quota(l)
    && (now < from ==> grants == 0)
    && (now < from + l.windowMs ==>
          match bucket
          case None => grants <= Quota(l)
          case Some(b) =>
            b.windowStart <= now && 1 <= b.count <= Quota(l)
            && (if b.windowStart < from then grants <= b.count else grants <= Quota(l) + b.count))
    && (bucket.Some? ==> bucket.value.windowStart <= now && 1 <= bucket.value.count <= Quota(l))
  }

  /** One more request, granted to the key or not. */
  lemma GrantKeepsInterval(l: Limits, b: Option<Bucket>, granted: bool, now: int, from: int, grants: nat)
    requires SweptOk(l, b, now, from, grants) && (granted ==> MayGrant(l, b, now))
    ensures IntervalOk(l, KeyAfter(l, b, granted, now), now, from,
      grants + if granted && from <= now < from + l.windowMs then 1 else 0)
  {
  }

  lemma GrantsInUnfold(l: Limits, run: seq<Request>, key: string, from: int)
    requires run != []
    ensures GrantsIn(l, run, key, from) == GrantsIn(l, Front(run), key, from)
      + if GrantsLast(l, run, key) && from <= Last(run).at < from + l.windowMs then 1 else 0
  {
  }

  lemma {:induction false} GrantsStayOk(l: Limits, run: seq<Request>, key: string, from: int)
    requires Monotone(run) && run != []
    ensures IntervalOk(l, BucketOf(After(l, run), key), Last(run).at, from, GrantsIn(l, run, key, from))
  {
    var now, before := Last(run).at, Front(run);
    var grants := GrantsIn(l, before, key, from);
    if before != [] {
      assert Last(before) == run[|run| - 2];
      GrantsStayOk(l, before, key, from);
      SweepKeepsInterval(l, After(l, before), key, Last(before).at, now, from, grants);
    }
    LastEffect(l, run, key);
    GrantsInUnfold(l, run, key, from);
    GrantKeepsInterval(l, BucketOf(BeforeCheck(l, After(l, before), now), key), GrantsLast(l, run, key), now, from,
      grants);
  }

  /** With a monotone clock a key gets at most twice its quota in any interval of one window length. */
  lemma AtMostTwoQuotasPerInterval(l: Limits, run: seq<Request>, key: string, from: int)
    requires Monotone(run)
    ensures GrantsIn(l, run, key, from) <= 2 * Quota(l)
  {
    if run != [] { GrantsStayOk(l, run, key, from); }
  }

  // --------------------------------------------------------- one window

  /** How many of the key's requests from `from` on were allowed. */
  function GrantsFrom(l: Limits, run: seq<Request>, key: string, from: int): nat {
    if run == [] then 0
    else
      GrantsFrom(l, Front(run), key, from)
      + if GrantsLast(l, run, key) && from <= Last(run).at then 1 else 0
  }

  lemma GrantsUnfold(l: Limits, run: seq<Request>, key: string, from: int)
    requires run != []
    ensures GrantsFrom(l, run, key, from) == GrantsFrom(l, Front(run), key, from)
      + if GrantsLast(l, run, key) && from <= Last(run).at then 1 else 0
  {
  }

  lemma {:induction false} LaterMeansFewer(l: Limits, run: seq<Request>, key: string, from: int, later: int)
    requires from <= later
    ensures GrantsFrom(l, run, key, later) <= GrantsFrom(l, run, key, from)
  {
    if run != [] { LaterMeansFewer(l, Front(run), key, from, later); }
  }

  /** A bucket counts exactly the grants since its window began; a missing bucket leaves none behind. */
  predicate WindowOk(l: Limits, run: seq<Request>, key: string, bucket: Option<Bucket>, now: int) {
    match bucket
    case None => GrantsFrom(l, run, key, now) == 0
    case Some(b) =>
      && b.windowStart <= now
      && GrantsFrom(l, run, key, b.windowStart) == b.count <= Quota(l)
      && GrantsFrom(l, run, key, b.windowStart + l.windowMs) == 0
  }

  /** An expired bucket leaves no grant at or after the present. */
  lemma SweepKeepsWindow(l: Limits, run: seq<Request>, key: string, earlier: int, now: int)
    requires WindowOk(l, run, key, BucketOf(After(l, run), key), earlier) && earlier <= now
    ensures WindowOk(l, run, key, BucketOf(BeforeCheck(l, After(l, run), now), key), now)
    ensures
      var b := BucketOf(BeforeCheck(l, After(l, run), now), key);
      b.None? || Expired(l, b.value, now) ==> GrantsFrom(l, run, key, now) == 0
  {
    LaterMeansFewer(l, run, key, earlier, now);
    var b := BucketOf(After(l, run), key);
    if b.Some? && Expired(l, b.value, now) { LaterMeansFewer(l, run, key, b.value.windowStart + l.windowMs, now); }
  }

  lemma {:induction false} BucketCountsItsWindow(l: Limits, run: seq<Request>, key: string)
    requires Monotone(run) && run != [] && l.windowMs > 0
    ensures WindowOk(l, run, key, BucketOf(After(l, run), key), Last(run).at)
  {
    var now := Last(run).at;
    var before := Front(run);
    if before != [] {
      assert Last(before) == run[|run| - 2];
      BucketCountsItsWindow(l, before, key);
      SweepKeepsWindow(l, before, key, Last(before).at, now);
    }
    LastEffect(l, run, key);
    CheckKeepsWindow(l, run, key, BucketOf(BeforeCheck(l, After(l, before), now), key), now);
  }

  /** One key's bucket after a request, by whether that request was a grant for the key. */
  function KeyAfter(l: Limits, b: Option<Bucket>, granted: bool, now: int): Option<Bucket> {
    if !granted then b
    else if b.None? || Expired(l, b.value, now) then Some(Bucket(now, 1))
    else Some(Bucket(b.value.windowStart, b.value.count + 1))
  }

  predicate MayGrant(l: Limits, b: Option<Bucket>, now: int) {
    b.Some? && !Expired(l, b.value, now) ==> b.value.count < l.maxRequests
  }

  /** What one check does to one key's bucket. */
  lemma CheckEffect(l: Limits, buckets: Buckets, checked: string, key: string, now: int)
    ensures
      var b := BucketOf(BeforeCheck(l, buckets, now), key);
      var (after, decision) := Check(l, buckets, checked, now);
      var granted := checked == key && decision.Allowed?;
      BucketOf(after, key) == KeyAfter(l, b, granted, now) && (granted ==> MayGrant(l, b, now))
  {
  }

  /** What the last request of a run does to one key's bucket. */
  lemma LastEffect(l: Limits, run: seq<Request>, key: string)
    requires run != []
    ensures
      var now := Last(run).at;
      var granted := GrantsLast(l, run, key);
      var b := BucketOf(BeforeCheck(l, After(l, Front(run)), now), key);
      BucketOf(After(l, run), key) == KeyAfter(l, b, granted, now) && (granted ==> MayGrant(l, b, now))
  {
    var before, last := After(l, Front(run)), Last(run);
    CheckEffect(l, before, last.key, key, last.at);
    assert After(l, run) == Check(l, before, last.key, last.at).0;
  }

  predicate GrantsLast(l: Limits, run: seq<Request>, key: string)
    requires run != []
  {
    Last(run).key == key && DecisionOfLast(l, run).Allowed?
  }

  /** One more request, granted to the key or not, keeps the account. */
  lemma CheckKeepsWindow(l: Limits, run: seq<Request>, key: string, b: Option<Bucket>, now: int)
    requires run != [] && l.windowMs > 0 && now == Last(run).at
    requires WindowOk(l, Front(run), key, b, now)
    requires b.None? || Expired(l, b.value, now) ==> GrantsFrom(l, Front(run), key, now) == 0
    requires GrantsLast(l, run, key) ==> MayGrant(l, b, now)
    ensures WindowOk(l, run, key, KeyAfter(l, b, GrantsLast(l, run, key), now), now)
  {
    if GrantsLast(l, run, key) && (b.None? || Expired(l, b.value, now)) {
      LaterMeansFewer(l, Front(run), key, now, now + l.windowMs);
      GrantsUnfold(l, run, key, now);
      GrantsUnfold(l, run, key, now + l.windowMs);
    } else if b.Some? {
      GrantsUnfold(l, run, key, b.value.windowStart);
      GrantsUnfold(l, run, key, b.value.windowStart + l.windowMs);
    } else {
      GrantsUnfold(l, run, key, now);
    }
  }

  // ------------------------------------------------------ the reference limiter

  /** One key alone: no cap, no sweeping. */
  function SoloCheck(l: Limits, bucket: Option<Bucket>, now: int): (Option<Bucket>, Decision) {
    if bucket.None? || Expired(l, bucket.value, now) then (Some(Bucket(now, 1)), Allowed)
    else if bucket.value.count < l.maxRequests then
      (Some(Bucket(bucket.value.windowStart, bucket.value.count + 1)), Allowed)
    else (bucket, Refused(RetryAfter(l, bucket.value, now)))
  }

  function SoloAfter(l: Limits, run: seq<Request>, key: string): Option<Bucket> {
    if run == [] then None
    else if Last(run).key != key then SoloAfter(l, Front(run), key)
    else SoloCheck(l, SoloAfter(l, Front(run), key), Last(run).at).0
  }

  /** The cap never turned this key away. */
  predicate NeverCapped(l: Limits, run: seq<Request>, key: string) {
    run == [] ||
    (NeverCapped(l, Front(run), key)
     && (Last(run).key == key ==> !CapRefuses(l, After(l, Front(run)), key, Last(run).at)))
  }

  /** Sweeping only forgets what the reference limiter would treat as expired. */
  lemma {:induction false} BucketMatchesReference(l: Limits, run: seq<Request>, key: string)
    requires Monotone(run) && run != [] && NeverCapped(l, run, key)
    ensures
      var solo := SoloAfter(l, run, key);
      BucketOf(After(l, run), key) == solo
      || (BucketOf(After(l, run), key).None? && Expired(l, solo.value, Last(run).at))
  {
    var before := Front(run);
    if before != [] {
      assert Last(before) == run[|run| - 2];
      BucketMatchesReference(l, before, key);
    }
  }

  /** As long as the cap never refused a key, it gets exactly the decisions of its own unlimited limiter. */
  lemma DecisionsMatchReference(l: Limits, run: seq<Request>, key: string)
    requires run != [] && Last(run).key == key && Monotone(run) && NeverCapped(l, run, key)
    ensures DecisionOfLast(l, run) == SoloCheck(l, SoloAfter(l, Front(run), key), Last(run).at).1
  {
    var before := Front(run);
    if before != [] {
      assert Last(before) == run[|run| - 2];
      BucketMatchesReference(l, before, key);
    }
  }

  // -------------------------------------------------------- exact decisions

  /** The key has a bucket whose window still runs. */
  predicate Live(l: Limits, buckets: Buckets, key: string, now: int) {
    key in buckets && !Expired(l, buckets[key], now)
  }

  /** A dead bucket makes the swept map smaller than the cap. */
  lemma DeadBucketLeavesRoom(l: Limits, buckets: Buckets, key: string, now: int)
    requires key in buckets && Expired(l, buckets[key], now)
    ensures |Swept(l, buckets, now)| < |buckets|
  {
    var swept := Swept(l, buckets, now);
    SmallerSet(swept.Keys, buckets.Keys - {key});
    assert |buckets.Keys - {key}| == |buckets.Keys| - 1;
  }

  /**
   Every request of every run: a key with a live window is allowed while its quota lasts, any other exactly when fewer
   keys than the cap have a live window.
   */
  lemma RequestIsAllowedIff(l: Limits, run: seq<Request>)
    requires run != []
    ensures
      var buckets, key, now := After(l, Front(run)), Last(run).key, Last(run).at;
      DecisionOfLast(l, run).Allowed? <==>
        if Live(l, buckets, key, now) then buckets[key].count < l.maxRequests
        else |Swept(l, buckets, now)| < l.maxTrackedKeys
  {
    var buckets, key, now := After(l, Front(run)), Last(run).key, Last(run).at;
    TrackedKeysStayUnderTheCap(l, Front(run));
    SmallerMap(Swept(l, buckets, now), buckets);
    if key in buckets && Expired(l, buckets[key], now) { DeadBucketLeavesRoom(l, buckets, key, now); }
  }

  /** A key refused by its quota keeps its bucket. */
  lemma RefusedBucketStays(l: Limits, run: seq<Request>)
    requires run != [] && Live(l, After(l, Front(run)), Last(run).key, Last(run).at)
    requires DecisionOfLast(l, run).Refused?
    ensures
      var key, bucket := Last(run).key, After(l, Front(run))[Last(run).key];
      && BucketOf(After(l, run), key) == Some(bucket) && bucket.count >= l.maxRequests
      && DecisionOfLast(l, run) == Refused(RetryAfter(l, bucket, Last(run).at))
  {
  }

  /**
   What a refusal tells a caller who asks next: after the seconds it names the request is allowed, and up to a second
   before them it is not.
   */
  lemma RefusalSaysWhenToRetry(l: Limits, run: seq<Request>, at: int)
    requires run != [] && Live(l, After(l, Front(run)), Last(run).key, Last(run).at)
    requires DecisionOfLast(l, run).Refused?
    ensures
      var now, wait := Last(run).at, DecisionOfLast(l, run).retryAfterSeconds;
      var retry := DecisionOfLast(l, run + [Request(Last(run).key, at)]);
      && wait >= 1
      && (at >= now + 1000 * wait ==> retry.Allowed?)
      && (at <= now + 1000 * (wait - 1) && wait > 1 ==> retry.Refused?)
  {
    var next := run + [Request(Last(run).key, at)];
    assert Front(next) == run;
    RefusedBucketStays(l, run);
    RequestIsAllowedIff(l, next);
    TrackedKeysStayUnderTheCap(l, run);
    var key := Last(run).key;
    if Expired(l, After(l, run)[key], at) { DeadBucketLeavesRoom(l, After(l, run), key, at); }
  }

  /** A new key turned away because every tracked key is live is told to come back in a second. */
  lemma CappedKeyWaitsASecond(l: Limits, run: seq<Request>)
    requires run != [] && !Live(l, After(l, Front(run)), Last(run).key, Last(run).at)
    ensures DecisionOfLast(l, run).Refused? ==> DecisionOfLast(l, run) == Refused(1)
  {
  }

  /** A check forgets another key's bucket exactly when the map is full and that bucket is dead. */
  lemma OtherBucketsStayIff(l: Limits, run: seq<Request>, other: string)
    requires run != [] && other != Last(run).key
    ensures
      var before := After(l, Front(run));
      BucketOf(After(l, run), other) ==
        if |before| >= l.maxTrackedKeys && !Live(l, before, other, Last(run).at) then None else BucketOf(before, other)
  {
  }

  // ------------------------------------------------------------- the limiter

  class FixedWindowRateLimiter {
    const limits: Limits
    var buckets: Buckets

    constructor (limits: Limits)
      ensures this.limits == limits && buckets == map[]
    {
      this.limits := limits;
      buckets := map[];
    }

    method CheckKey(key: string, timestamp: int) returns (decision: Decision)
      modifies this
      ensures (buckets, decision) == Check(limits, old(buckets), key, timestamp)
    {
      if |buckets| >= limits.maxTrackedKeys {
        SweepExpired(timestamp);
      }
      if key !in buckets || timestamp - buckets[key].windowStart >= limits.windowMs {
        if key !in buckets && |buckets| >= limits.maxTrackedKeys {
          return Refused(1);
        }
        buckets := buckets[key := Bucket(timestamp, 1)];
        return Allowed;
      }
      var bucket := buckets[key];
      if bucket.count < limits.maxRequests {
        buckets := buckets[key := Bucket(bucket.windowStart, bucket.count + 1)];
        return Allowed;
      }
      return Refused(RetryAfter(limits, bucket, timestamp));
    }

    /** Visit every bucket and delete the expired ones. */
    method SweepExpired(reference: int)
      modifies this
      ensures buckets == Swept(limits, old(buckets), reference)
    {
      var pending := buckets.Keys;
      while pending != {}
        invariant pending <= old(buckets).Keys
        invariant buckets == map k | k in old(buckets)
          && (k in pending || !Expired(limits, old(buckets)[k], reference)) :: old(buckets)[k]
        decreases |pending|
      {
        var key :| key in pending;
        if reference - buckets[key].windowStart >= limits.windowMs {
          buckets := buckets - {key};
        }
        pending := pending - {key};
      }
    }
  }
}
