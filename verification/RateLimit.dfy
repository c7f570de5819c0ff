/**
 * The sliding-window rate limiter (`api/middleware/rate_limit.py`). Several API replicas share one Redis sorted set
 * per key. A replica reads its own clock before the pipeline runs, so timestamps may reach Redis out of order; the
 * key's expiry runs on Redis's clock.
 */
module RateLimit {
  import NumberTheory

  /** One `check` that reached Redis: the replica's timestamp and Redis's time when the pipeline ran. */
  datatype Request = Request(now: real, at: real)

  /** A sorted set whose members are their own scores, and the moment Redis drops the key. */
  datatype ZSet = ZSet(members: set<real>, deadline: real)

  /** The members Redis still holds at time `at`. */
  function Unexpired(z: ZSet, at: real): set<real> {
    if at > z.deadline then {} else z.members
  }

  /** `ZREMRANGEBYSCORE key 0 (now - 60)`. */
  function Pruned(members: set<real>, now: real): set<real> {
    set t | t in members && !(0.0 <= t <= now - 60.0)
  }

  /** The members that `ZCARD` counts for request `r`. */
  function Counted(z: ZSet, r: Request): set<real> {
    Pruned(Unexpired(z, r.at), r.now)
  }

  function Recorded(z: ZSet, r: Request): ZSet {
    ZSet(Counted(z, r) + {r.now}, r.at + 120.0)
  }

  const EMPTY := ZSet({}, 0.0)

  /** The sorted set of one key after all of its requests. */
  function Replay(log: seq<Request>): ZSet {
    if log == [] then EMPTY
    else Recorded(Replay(log[..|log| - 1]), log[|log| - 1])
  }

  /** What the `k`-th request of a key counts, and whether it is admitted. */
  function CountAt(log: seq<Request>, k: nat): set<real>
    requires k < |log|
  {
    Counted(Replay(log[..k]), log[k])
  }

  predicate Admitted(log: seq<Request>, k: nat, rpm: int)
    requires k < |log|
  {
    |CountAt(log, k)| < rpm
  }

  // ---------------------------------------------------------------- the shared store and the limiter

  /** Redis, as far as the limiter uses it. `log` remembers every request, per key. */
  class Redis {
    var zsets: map<string, ZSet>
    ghost var log: map<string, seq<Request>>

    ghost predicate Valid()
      reads this
    {
      && zsets.Keys == log.Keys
      && forall key :: key in zsets ==> log[key] != [] && zsets[key] == Replay(log[key])
    }

    ghost function History(key: string): seq<Request>
      reads this
    {
      if key in log then log[key] else []
    }

    constructor ()
      ensures Valid() && log == map[]
    {
      zsets := map[];
      log := map[];
    }
  }

  class RateLimiter {
    const redis: Redis
    const rpm: int

    constructor (redis: Redis, rpm: int)
      ensures this.redis == redis && this.rpm == rpm
    {
      this.redis := redis;
      this.rpm := rpm;
    }

    /** The pipeline runs as one atomic step, appending one request to the key's history and touching no other key. */
    method Check(key: string, now: real, at: real) returns (admitted: bool)
      requires redis.Valid()
      modifies redis
      ensures redis.Valid()
      ensures rpm <= 0 ==> admitted && redis.log == old(redis.log)
      ensures rpm > 0 ==> redis.log == old(redis.log)[key := old(redis.History(key)) + [Request(now, at)]]
      ensures rpm > 0 ==> admitted == Admitted(redis.log[key], |redis.log[key]| - 1, rpm)
    {
      if rpm <= 0 {
        return true;
      }
      ghost var before, r := redis.History(key), Request(now, at);
      var z := if key in redis.zsets then redis.zsets[key] else EMPTY;
      var members := Pruned(Unexpired(z, at), now);
      var count := |members|;
      members := members + {now};
      ReplayStep(before, r);
      assert ZSet(members, at + 120.0) == Replay(before + [r]) && |before + [r]| == |before| + 1;
      redis.zsets := redis.zsets[key := ZSet(members, at + 120.0)];
      redis.log := redis.log[key := before + [r]];
      admitted := count < rpm;
    }
  }

  lemma {:induction false} ReplayStep(log: seq<Request>, r: Request)
    ensures Replay(log + [r]) == Recorded(Replay(log), r)
    ensures CountAt(log + [r], |log|) == Counted(Replay(log), r)
  {
    assert (log + [r])[..|log|] == log;
  }

  // ---------------------------------------------------------------- the naive reference

  /** The latest timestamp among the first `k` requests. */
  function Latest(log: seq<Request>, k: nat): (m: real)
    requires 0 < k <= |log|
    ensures forall i :: 0 <= i < k ==> log[i].now <= m
  {
    if k == 1 then log[0].now
    else
      var m := Latest(log, k - 1);
      if log[k - 1].now >= m then log[k - 1].now else m
  }

  lemma {:induction false} LatestIsAttained(log: seq<Request>, k: nat) returns (i: nat)
    requires 0 < k <= |log|
    ensures i < k && log[i].now == Latest(log, k)
  {
    if k == 1 || log[k - 1].now >= Latest(log, k - 1) {
      i := k - 1;
    } else {
      i := LatestIsAttained(log, k - 1);
    }
  }

  /** The distinct timestamps among the first `n` requests that are less than 60 seconds older than `m`. */
  ghost function Since(log: seq<Request>, n: nat, m: real): set<real>
    requires n <= |log|
  {
    set i | 0 <= i < n && log[i].now > m - 60.0 :: log[i].now
  }

  /** Distinct timestamps before the `k`-th request, admitted or not, from the last 60 seconds of all seen so far. */
  ghost function Recent(log: seq<Request>, k: nat): set<real>
    requires k < |log|
  {
    Since(log, k, Latest(log, k + 1))
  }

  /** No request is more than `d` seconds behind the latest timestamp already seen. */
  ghost predicate WithinSkew(log: seq<Request>, d: real) {
    forall i, j :: 0 <= i < j < |log| ==> log[j].now >= log[i].now - d
  }

  /** Redis has dropped the key between request `k - 1` and request `k`. */
  predicate ExpiredBefore(log: seq<Request>, k: nat) {
    0 < k < |log| && log[k].at > log[k - 1].at + 120.0
  }

  /** Whenever Redis has dropped the key, the timestamps have moved on by the window as well. */
  ghost predicate ExpiryIsLate(log: seq<Request>) {
    forall i, k :: 0 <= i < k && ExpiredBefore(log, k) ==> log[i].now <= log[k].now - 60.0
  }

  ghost predicate NonNegative(log: seq<Request>) {
    forall i :: 0 <= i < |log| ==> log[i].now >= 0.0
  }

  /** The setting in which the limiter is meant to work: positive clocks less than 60 seconds apart. */
  ghost predicate Orderly(log: seq<Request>) {
    && NonNegative(log)
    && ExpiryIsLate(log)
    && exists d :: d < 60.0 && WithinSkew(log, d)
  }

  /** Every replica's clock agrees with Redis's clock up to `e`, and Redis's clock never runs backwards. */
  ghost predicate ClocksAgree(log: seq<Request>, e: real) {
    && (forall i :: 0 <= i < |log| ==> log[i].at - e <= log[i].now <= log[i].at + e)
    && (forall i, j :: 0 <= i < j < |log| ==> log[i].at <= log[j].at)
  }

  /** What the `k`-th request counts, given what was stored before it. */
  lemma {:induction false} CountedFromStored(log: seq<Request>, k: nat)
    requires NonNegative(log) && ExpiryIsLate(log) && 0 < k < |log|
    requires Replay(log[..k]) == ZSet(Since(log, k, Latest(log, k)), log[k - 1].at + 120.0)
    ensures CountAt(log, k) == Recent(log, k)
  {
    if ExpiredBefore(log, k) {
      assert Recent(log, k) == {};
    }
  }

  /** What is stored after the `k`-th request, given what it counted. */
  lemma {:induction false} StoredFromCounted(log: seq<Request>, k: nat, m: real)
    requires k < |log| && CountAt(log, k) == Since(log, k, m) && log[k].now > m - 60.0
    ensures Replay(log[..k + 1]) == ZSet(Since(log, k + 1, m), log[k].at + 120.0)
  {
    assert log[..k + 1] == log[..k] + [log[k]];
    ReplayStep(log[..k], log[k]);
  }

  lemma {:induction false} NaiveStep(log: seq<Request>, k: nat)
    requires NonNegative(log) && ExpiryIsLate(log) && k + 1 < |log|
    requires CountAt(log, k) == Recent(log, k) && log[k].now > Latest(log, k + 1) - 60.0
    ensures CountAt(log, k + 1) == Recent(log, k + 1)
  {
    StoredFromCounted(log, k, Latest(log, k + 1));
    CountedFromStored(log, k + 1);
  }

  /** The latest timestamp so far is at most `d` ahead of the current one. */
  lemma {:induction false} SkewBoundsLatest(log: seq<Request>, d: real, k: nat)
    requires k < |log| && WithinSkew(log, d) && d >= 0.0
    ensures Latest(log, k + 1) <= log[k].now + d
  {
    var i := LatestIsAttained(log, k + 1);
    assert i < k ==> log[k].now >= log[i].now - d;
  }

  lemma {:induction false} SkewKeepsRecent(log: seq<Request>, d: real, k: nat)
    requires k < |log| && d < 60.0 && WithinSkew(log, d)
    ensures log[k].now > Latest(log, k + 1) - 60.0
  {
    var e := if d >= 0.0 then d else 0.0;
    assert WithinSkew(log, e);
    SkewBoundsLatest(log, e, k);
  }

  lemma {:induction false} CountWithinSkew(log: seq<Request>, d: real, k: nat)
    requires NonNegative(log) && ExpiryIsLate(log) && d < 60.0 && WithinSkew(log, d)
    requires k < |log|
    ensures CountAt(log, k) == Recent(log, k)
  {
    if k == 0 {
      assert Recent(log, 0) == {};
    } else {
      CountWithinSkew(log, d, k - 1);
      SkewKeepsRecent(log, d, k - 1);
      NaiveStep(log, k - 1);
    }
  }

  /** The limiter refines the naive log: it counts exactly the recent distinct timestamps. */
  lemma {:induction false} CountIsNaive(log: seq<Request>, k: nat)
    requires Orderly(log) && k < |log|
    ensures CountAt(log, k) == Recent(log, k)
  {
    var d :| d < 60.0 && WithinSkew(log, d);
    CountWithinSkew(log, d, k);
  }

  /** Below the limit of recent distinct timestamps a request is admitted, and only there. */
  lemma {:induction false} AdmittedNaively(log: seq<Request>, k: nat, rpm: int)
    requires Orderly(log) && k < |log|
    ensures Admitted(log, k, rpm) <==> |Recent(log, k)| < rpm
  {
    CountIsNaive(log, k);
  }

  /** Does the limiter count naively in every run of this skew? */
  ghost predicate CountsNaively(d: real) {
    forall log, k: nat :: Setting(log, d) && k < |log| ==> CountAt(log, k) == Recent(log, k)
  }

  /** A skew of 60 seconds: the lagging request 100 stays stored, though it has left the window of 160. */
  const LAGGARD := [Request(160.0, 160.0), Request(100.0, 160.0), Request(159.0, 160.0)]

  lemma {:induction false} LaggardIsCounted()
    ensures 100.0 in CountAt(LAGGARD, 2) && 100.0 !in Recent(LAGGARD, 2)
  {
    var log := LAGGARD;
    var z := Replay(log[..2]);
    assert log[..2] == log[..1] + [log[1]];
    ReplayStep(log[..1], log[1]);
    assert 100.0 in z.members && z.deadline == 280.0;
    assert 100.0 in Pruned(Unexpired(z, 160.0), 159.0);
    assert log[0].now <= Latest(log, 3);
  }

  /** The refinement holds exactly for skews below 60 seconds. */
  lemma {:induction false} NaiveExactly(d: real)
    requires d >= 0.0
    ensures CountsNaively(d) <==> d < 60.0
  {
    if d < 60.0 {
      forall log, k: nat | Setting(log, d) && k < |log| ensures CountAt(log, k) == Recent(log, k) {
        CountIsNaive(log, k);
      }
    } else {
      LaggardIsCounted();
    }
  }

  /** The prune starts at score zero: a negative timestamp stays until the key expires. */
  lemma {:induction false} NegativeStampsStay(log: seq<Request>, r: Request, t: real)
    requires t in Replay(log).members && t < 0.0 && r.at <= Replay(log).deadline
    ensures t in Replay(log + [r]).members
  {
    ReplayStep(log, r);
  }

  // ---------------------------------------------------------------- the bound over every window

  /** The admitted requests whose timestamps lie in the half-open window of length `len` from `a` on. */
  ghost function AdmittedIn(log: seq<Request>, rpm: int, a: real, len: real): set<nat> {
    set k: nat | k < |log| && Admitted(log, k, rpm) && a <= log[k].now < a + len
  }

  ghost function Stamps(log: seq<Request>, ks: set<nat>): set<real>
    requires forall k :: k in ks ==> k < |log|
  {
    set k | k in ks :: log[k].now
  }

  ghost predicate Distinct(log: seq<Request>) {
    forall i, j :: 0 <= i < j < |log| ==> log[i].now != log[j].now
  }

  /** Positive clocks at most `d` seconds apart, and no early expiry. */
  ghost predicate Setting(log: seq<Request>, d: real) {
    NonNegative(log) && ExpiryIsLate(log) && WithinSkew(log, d)
  }

  lemma {:induction false} Greatest(s: set<nat>) returns (k: nat)
    requires s != {}
    ensures k in s && forall i :: i in s ==> i <= k
    decreases |s|
  {
    var x :| x in s;
    if s - {x} == {} {
      k := x;
      assert s == {x};
    } else {
      var y := Greatest(s - {x});
      k := if x > y then x else y;
      forall i | i in s ensures i <= k {
        if i != x { assert i in s - {x}; }
      }
    }
  }

  lemma {:induction false} SubsetSize<T>(s: set<T>, t: set<T>)
    requires s <= t
    ensures |s| <= |t|
  {
    assert t == s + (t - s);
  }

  /** An earlier admitted request in the window is still counted by a later one in the window. */
  lemma {:induction false} StillCounted(log: seq<Request>, rpm: int, d: real, a: real, i: nat, k: nat)
    requires Setting(log, d) && 0.0 <= d < 60.0
    requires i in AdmittedIn(log, rpm, a, 60.0 - d) && k in AdmittedIn(log, rpm, a, 60.0 - d) && i < k
    ensures log[i].now in Recent(log, k)
  {
    SkewBoundsLatest(log, d, k);
  }

  lemma {:induction false} StampsWithin(log: seq<Request>, ks: set<nat>, ts: set<real>)
    requires forall k :: k in ks ==> k < |log| && log[k].now in ts
    ensures |Stamps(log, ks)| <= |ts|
  {
    SubsetSize(Stamps(log, ks), ts);
  }

  /** In every window of 60 - d seconds at most `rpm` distinct timestamps are admitted, in any order of arrival. */
  lemma {:induction false} AdmittedStampsBounded(log: seq<Request>, rpm: int, d: real, a: real)
    requires Setting(log, d) && 0.0 <= d < 60.0 && rpm > 0
    ensures |Stamps(log, AdmittedIn(log, rpm, a, 60.0 - d))| <= rpm
  {
    var ks := AdmittedIn(log, rpm, a, 60.0 - d);
    if ks == {} {
      assert Stamps(log, ks) == {};
    } else {
      var k := Greatest(ks);
      CountIsNaive(log, k);
      forall i | i in ks ensures log[i].now in Recent(log, k) + {log[k].now} {
        if i < k { StillCounted(log, rpm, d, a, i, k); }
      }
      StampsWithin(log, ks, Recent(log, k) + {log[k].now});
    }
  }

  /** The limit itself: with distinct timestamps, at most `rpm` requests per window of 60 - d seconds. */
  lemma {:induction false} AdmittedBounded(log: seq<Request>, rpm: int, d: real, a: real)
    requires Setting(log, d) && 0.0 <= d < 60.0 && rpm > 0
    requires Distinct(log)
    ensures |AdmittedIn(log, rpm, a, 60.0 - d)| <= rpm
  {
    var ks := AdmittedIn(log, rpm, a, 60.0 - d);
    AdmittedStampsBounded(log, rpm, d, a);
    var stamp := (k: nat) => if k < |log| then log[k].now else 0.0;
    NumberTheory.SameSize(ks, Stamps(log, ks), stamp);
  }

  /** The latest timestamp is always stored: no earlier one prunes it, and no expiry loses it. */
  lemma {:induction false} LatestIsStored(log: seq<Request>, k: nat)
    requires NonNegative(log) && ExpiryIsLate(log) && 0 < k <= |log|
    ensures Latest(log, k) in Replay(log[..k]).members && Replay(log[..k]).deadline == log[k - 1].at + 120.0
  {
    var n := k - 1;
    assert log[..k] == log[..n] + [log[n]];
    ReplayStep(log[..n], log[n]);
    if n > 0 {
      LatestIsStored(log, n);
      if ExpiredBefore(log, n) {
        var i := LatestIsAttained(log, n);
        assert log[i].now <= log[n].now - 60.0;
      }
    }
  }

  /** Under a limit of one, a request is admitted only 60 seconds or more after all earlier ones. */
  lemma {:induction false} AdmittedAlone(log: seq<Request>, i: nat, k: nat)
    requires NonNegative(log) && ExpiryIsLate(log)
    requires i < k < |log| && Admitted(log, k, 1)
    ensures log[i].now <= log[k].now - 60.0
  {
    if !ExpiredBefore(log, k) {
      LatestIsStored(log, k);
      assert CountAt(log, k) == {};
      assert Latest(log, k) !in CountAt(log, k);
    }
  }

  /** A limit of one needs no distinctness and holds for whole 60 seconds, however far the clocks are apart. */
  lemma {:induction false} LimitOfOne(log: seq<Request>, a: real)
    requires NonNegative(log) && ExpiryIsLate(log)
    ensures |AdmittedIn(log, 1, a, 60.0)| <= 1
  {
    var ks := AdmittedIn(log, 1, a, 60.0);
    if ks != {} {
      var k := Greatest(ks);
      forall i | i in ks ensures i == k {
        if i < k { AdmittedAlone(log, i, k); }
      }
      SubsetSize(ks, {k});
    }
  }

  /** Clocks within `e` of Redis's clock are within `2e` of each other, and expiry never bites before the window. */
  lemma {:induction false} AgreeingClocks(log: seq<Request>, e: real)
    requires ClocksAgree(log, e) && NonNegative(log) && 0.0 <= e <= 30.0
    ensures Setting(log, 2.0 * e)
  {
    forall i, k | 0 <= i < k && ExpiredBefore(log, k) ensures log[i].now <= log[k].now - 60.0 {
      assert log[i].at <= log[k - 1].at by { if i < k - 1 { assert log[i].at <= log[k - 1].at; } }
    }
  }

  /** The same requests on a Redis server that never expires a key. */
  ghost function WithoutExpiry(log: seq<Request>): seq<Request> {
    seq(|log|, i requires 0 <= i < |log| => Request(log[i].now, 0.0))
  }

  /** Whatever is stored comes from some request. */
  lemma {:induction false} StoredIsStamp(log: seq<Request>, t: real) returns (i: nat)
    requires t in Replay(log).members
    ensures i < |log| && log[i].now == t
  {
    var n := |log| - 1;
    if t == log[n].now {
      i := n;
    } else {
      i := StoredIsStamp(log[..n], t);
    }
  }

  /** When the key is dropped, all its members have left the window already. */
  lemma {:induction false} DroppedIsPruned(log: seq<Request>, e: real, k: nat)
    requires ClocksAgree(log, e) && NonNegative(log) && e <= 30.0 && ExpiredBefore(log, k)
    ensures Pruned(Replay(log[..k]).members, log[k].now) == {}
  {
    forall t | t in Replay(log[..k]).members ensures 0.0 <= t <= log[k].now - 60.0 {
      var i := StoredIsStamp(log[..k], t);
      assert log[i].now == t;
      assert i == k - 1 || log[i].at <= log[k - 1].at;
    }
  }

  /** Both servers count the same, given that they store the same. */
  lemma {:induction false} SameCount(log: seq<Request>, e: real, k: nat)
    requires ClocksAgree(log, e) && NonNegative(log) && e <= 30.0 && k < |log|
    requires Replay(log[..k]).members == Replay(WithoutExpiry(log)[..k]).members
    ensures CountAt(log, k) == CountAt(WithoutExpiry(log), k)
  {
    var other := WithoutExpiry(log);
    assert Unexpired(Replay(other[..k]), 0.0) == Replay(other[..k]).members;
    if k > 0 {
      assert log[..k][k - 1] == log[k - 1];
      if ExpiredBefore(log, k) { DroppedIsPruned(log, e, k); }
    }
  }

  lemma {:induction false} SameStored(log: seq<Request>, e: real, k: nat)
    requires ClocksAgree(log, e) && NonNegative(log) && e <= 30.0 && k <= |log|
    ensures Replay(log[..k]).members == Replay(WithoutExpiry(log)[..k]).members
  {
    if k > 0 {
      var n, other := k - 1, WithoutExpiry(log);
      SameStored(log, e, n);
      SameCount(log, e, n);
      assert log[..k] == log[..n] + [log[n]] && other[..k] == other[..n] + [other[n]];
      ReplayStep(log[..n], log[n]);
      ReplayStep(other[..n], other[n]);
    }
  }

  /** With clocks at most 30 seconds from Redis's, the 120-second expiry never changes a decision. */
  lemma {:induction false} ExpiryNeverMatters(log: seq<Request>, e: real, k: nat, rpm: int)
    requires ClocksAgree(log, e) && NonNegative(log) && e <= 30.0 && k < |log|
    ensures Admitted(log, k, rpm) == Admitted(WithoutExpiry(log), k, rpm)
  {
    SameStored(log, e, k);
    SameCount(log, e, k);
  }

  /** Does the expiry leave every decision alone, whenever clocks are within `e` of Redis's? */
  ghost predicate ExpiryIsInvisible(e: real) {
    forall log, k: nat, rpm :: ClocksAgree(log, e) && NonNegative(log) && k < |log| ==>
      Admitted(log, k, rpm) == Admitted(WithoutExpiry(log), k, rpm)
  }

  /** A fast clock and then a slow one: Redis drops a key whose only member is still in the window. */
  lemma {:induction false} EarlyExpiry(e: real)
    requires e > 30.0
    ensures var log := [Request(e, 0.0), Request(90.0, 90.0 + e)];
            && ClocksAgree(log, e) && NonNegative(log)
            && Admitted(log, 1, 1) && !Admitted(WithoutExpiry(log), 1, 1)
  {
    var log := [Request(e, 0.0), Request(90.0, 90.0 + e)];
    var other := WithoutExpiry(log);
    assert log[..1] == [] + [log[0]] && other[..1] == [] + [other[0]];
    ReplayStep([], log[0]);
    ReplayStep([], other[0]);
    assert Counted(EMPTY, log[0]) == {} && Counted(EMPTY, other[0]) == {};
    assert CountAt(log, 1) == {};
    assert CountAt(other, 1) == {e};
  }

  /** The expiry is invisible exactly when clocks stay within 30 seconds of Redis's. */
  lemma {:induction false} ExpiryIsExact(e: real)
    ensures ExpiryIsInvisible(e) <==> e <= 30.0
  {
    if e <= 30.0 {
      forall log, k: nat, rpm | ClocksAgree(log, e) && NonNegative(log) && k < |log|
        ensures Admitted(log, k, rpm) == Admitted(WithoutExpiry(log), k, rpm)
      {
        ExpiryNeverMatters(log, e, k, rpm);
      }
    } else {
      EarlyExpiry(e);
    }
  }

  // ---------------------------------------------------------------- the hypotheses are needed

  lemma {:induction false} SinceSize(log: seq<Request>, n: nat, m: real)
    requires n <= |log|
    ensures |Since(log, n, m)| <= n
  {
    if n == 0 {
      assert Since(log, 0, m) == {};
    } else {
      SinceSize(log, n - 1, m);
      SubsetSize(Since(log, n, m), Since(log, n - 1, m) + {log[n - 1].now});
    }
  }

  /** `rpm` requests in the `x` seconds before second 100. */
  function Burst(rpm: nat, x: real): seq<Request>
    requires rpm > 0
  {
    seq(rpm, i requires 0 <= i < rpm => Request(100.0 - Lag(x, i), 100.0))
  }

  function Lag(x: real, i: nat): real {
    x / (i + 1) as real
  }

  /** A run with skew `d` that prunes the burst a little early: the leading clock is at 160, a lagging one follows. */
  function SkewedRun(rpm: nat, x: real, d: real): seq<Request>
    requires rpm > 0
  {
    Burst(rpm, x) + [Request(160.0, 160.0)] + (if d > 0.0 then [Request(160.0 - d, 160.0)] else [])
  }

  ghost predicate BoundHolds(rpm: int, d: real, window: real) {
    forall log, a :: Setting(log, d) && Distinct(log) ==> |AdmittedIn(log, rpm, a, window)| <= rpm
  }

  lemma {:induction false} LagShrinks(x: real, i: nat, j: nat)
    requires x > 0.0 && i < j
    ensures 0.0 < Lag(x, j) < Lag(x, i) <= x
  {
    var p, q := (i + 1) as real, (j + 1) as real;
    assert Lag(x, i) * p == x && Lag(x, j) * q == x;
    Smaller(Lag(x, j), q, Lag(x, i), p);
  }

  lemma {:induction false} Smaller(u: real, q: real, v: real, p: real)
    requires q > p >= 1.0 && u * q == v * p > 0.0
    ensures 0.0 < u < v <= v * p
  {}

  lemma {:induction false} BurstStamps(rpm: nat, x: real)
    requires rpm > 0 && 0.0 < x <= 1.0
    ensures forall i :: 0 <= i < rpm ==> 100.0 - x <= Burst(rpm, x)[i].now <= 100.0
    ensures forall i, j :: 0 <= i < j < rpm ==> Burst(rpm, x)[i].now < Burst(rpm, x)[j].now
    ensures Burst(rpm, x)[0].now == 100.0 - x
  {
    forall i: nat, j: nat | i < j ensures 0.0 < Lag(x, j) < Lag(x, i) <= x { LagShrinks(x, i, j); }
  }

  lemma {:induction false} SkewedRunSetting(rpm: nat, x: real, d: real)
    requires rpm > 0 && 0.0 <= d < 60.0 && 0.0 < x <= 1.0
    ensures Setting(SkewedRun(rpm, x, d), d) && Distinct(SkewedRun(rpm, x, d))
  {
    BurstStamps(rpm, x);
    var log, burst := SkewedRun(rpm, x, d), Burst(rpm, x);
    assert forall i, j :: 0 <= i < j < rpm ==> log[i].now < log[j].now by {
      forall i, j | 0 <= i < j < rpm ensures log[i].now < log[j].now {
        assert log[i] == burst[i] && log[j] == burst[j];
      }
    }
    Assembled(log, rpm, d);
  }

  /** A rising burst up to second 100, a request at 160, and one that lags it by `d`. */
  ghost predicate IsAssembled(log: seq<Request>, rpm: nat, d: real) {
    && rpm > 0 && |log| == rpm + (if d > 0.0 then 2 else 1)
    && (forall i :: 0 <= i < rpm ==> 0.0 <= log[i].now <= 100.0 && log[i].at == 100.0)
    && (forall i, j :: 0 <= i < j < rpm ==> log[i].now < log[j].now)
    && log[rpm] == Request(160.0, 160.0) && (d > 0.0 ==> log[rpm + 1] == Request(160.0 - d, 160.0))
  }

  lemma {:induction false} Assembled(log: seq<Request>, rpm: nat, d: real)
    requires IsAssembled(log, rpm, d) && 0.0 <= d < 60.0
    ensures Setting(log, d) && Distinct(log)
  {
    forall i, j | 0 <= i < j < |log| ensures log[j].now >= log[i].now - d && log[i].now != log[j].now {}
  }

  /** The limits and skews that the run defeats: a limit of one only without the lagging request. */
  predicate Defeated(rpm: nat, d: real) {
    0.0 <= d < 60.0 && (rpm >= 2 || (rpm == 1 && d == 0.0))
  }

  lemma {:induction false} SkewedRunAdmitted(rpm: nat, x: real, d: real, k: nat)
    requires Defeated(rpm, d) && 0.0 < x <= 1.0
    requires k < |SkewedRun(rpm, x, d)|
    ensures Admitted(SkewedRun(rpm, x, d), k, rpm)
  {
    var log := SkewedRun(rpm, x, d);
    SkewedRunSetting(rpm, x, d);
    CountIsNaive(log, k);
    if k < rpm {
      SinceSize(log, k, Latest(log, k + 1));
    } else {
      OnlyTheLeaderIsRecent(rpm, x, d, k, Latest(log, k + 1));
    }
  }

  lemma {:induction false} OnlyTheLeaderIsRecent(rpm: nat, x: real, d: real, k: nat, m: real)
    requires Defeated(rpm, d) && 0.0 < x <= 1.0
    requires rpm <= k < |SkewedRun(rpm, x, d)| && m >= SkewedRun(rpm, x, d)[rpm].now
    ensures |Since(SkewedRun(rpm, x, d), k, m)| < rpm
  {
    var log, burst := SkewedRun(rpm, x, d), Burst(rpm, x);
    BurstStamps(rpm, x);
    assert forall i :: 0 <= i < rpm ==> log[i] == burst[i];
    SubsetSize(Since(log, k, m), if k == rpm then {} else {160.0});
  }

  /** The length of the windows in which the limit is kept: a limit of one is not affected by skew. */
  function SafeWindow(rpm: int, d: real): real {
    if rpm == 1 then 60.0 else if d < 60.0 then 60.0 - d else 0.0
  }

  /** For every limit and skew the safe window is exact: no longer window is safe, because some run exceeds it. */
  lemma {:induction false} WindowIsExact(rpm: int, d: real, window: real)
    requires rpm >= 1 && d >= 0.0
    ensures BoundHolds(rpm, d, window) <==> window <= SafeWindow(rpm, d)
  {
    if window <= SafeWindow(rpm, d) {
      forall log, a | Setting(log, d) && Distinct(log) ensures |AdmittedIn(log, rpm, a, window)| <= rpm {
        WindowIsSafe(log, rpm, d, a, window);
      }
    } else if rpm == 1 {
      ExceededWindow(1, Slack(window - 60.0), 0.0, d, window);
    } else if d < 60.0 {
      ExceededWindow(rpm, Slack(window - (60.0 - d)), d, d, window);
    } else {
      var w := if window < 60.0 then window else 60.0;
      ExceededWindow(rpm, Slack(w / 2.0), 60.0 - w / 2.0, d, window);
    }
  }

  lemma {:induction false} WindowIsSafe(log: seq<Request>, rpm: int, d: real, a: real, window: real)
    requires rpm >= 1 && d >= 0.0 && window <= SafeWindow(rpm, d)
    requires Setting(log, d) && Distinct(log)
    ensures |AdmittedIn(log, rpm, a, window)| <= rpm
  {
    if rpm == 1 {
      LimitOfOne(log, a);
      SubsetSize(AdmittedIn(log, rpm, a, window), AdmittedIn(log, rpm, a, 60.0));
    } else if d < 60.0 {
      AdmittedBounded(log, rpm, d, a);
      SubsetSize(AdmittedIn(log, rpm, a, window), AdmittedIn(log, rpm, a, 60.0 - d));
    } else {
      assert AdmittedIn(log, rpm, a, window) == {};
    }
  }

  /** Less than the given positive length, and at most one second. */
  function Slack(s: real): real {
    if s < 1.0 then s / 2.0 else 0.5
  }

  /** A run of skew `lag` is a run of every larger skew. */
  lemma {:induction false} ExceededWindow(rpm: nat, x: real, lag: real, d: real, window: real)
    requires Defeated(rpm, lag) && lag <= d && 0.0 < x <= 1.0
    requires window > 60.0 - lag + x
    ensures !BoundHolds(rpm, d, window)
  {
    SkewedRunSetting(rpm, x, lag);
    assert Setting(SkewedRun(rpm, x, lag), d);
    TooManyAdmitted(rpm, x, lag, window);
  }

  lemma {:induction false} TooManyAdmitted(rpm: nat, x: real, d: real, window: real)
    requires Defeated(rpm, d) && 0.0 < x <= 1.0
    requires window > 60.0 - d + x
    ensures |AdmittedIn(SkewedRun(rpm, x, d), rpm, 100.0 - x, window)| > rpm
  {
    var log := SkewedRun(rpm, x, d);
    var ks, last := AdmittedIn(log, rpm, 100.0 - x, window), |log| - 1;
    forall i: nat | i < rpm || i == last ensures i in ks {
      SkewedRunAdmitted(rpm, x, d, i);
      RunInWindow(rpm, x, d, window, i);
    }
    AtLeast(ks - {last}, rpm);
  }

  lemma {:induction false} RunInWindow(rpm: nat, x: real, d: real, window: real, i: nat)
    requires Defeated(rpm, d) && 0.0 < x <= 1.0
    requires window > 60.0 - d + x
    requires i < rpm || i == |SkewedRun(rpm, x, d)| - 1
    ensures 100.0 - x <= SkewedRun(rpm, x, d)[i].now < 100.0 - x + window
  {
    BurstStamps(rpm, x);
    assert i < rpm ==> SkewedRun(rpm, x, d)[i] == Burst(rpm, x)[i];
  }

  lemma {:induction false} AtLeast(s: set<nat>, n: nat)
    requires forall i: nat :: i < n ==> i in s
    ensures |s| >= n
  {
    if n > 0 {
      AtLeast(s - {n - 1}, n - 1);
    }
  }

  /** Equal timestamps overwrite each other in the sorted set: limits of two and more admit any number of them. */
  lemma {:induction false} EqualStampsEscape(log: seq<Request>, t: real, k: nat, rpm: int)
    requires k < |log| && t >= 0.0 && rpm >= 2
    requires forall i :: 0 <= i < |log| ==> log[i] == Request(t, t)
    ensures Setting(log, 0.0) && Admitted(log, k, rpm)
  {
    assert WithinSkew(log, 0.0);
    CountIsNaive(log, k);
    SubsetSize(Recent(log, k), {t});
  }

  /** The bound on every run, with or without equal timestamps. */
  ghost predicate BoundHoldsForAll(rpm: int, d: real, window: real) {
    forall log, a :: Setting(log, d) ==> |AdmittedIn(log, rpm, a, window)| <= rpm
  }

  lemma {:induction false} EqualStampsExceed(rpm: nat, d: real, window: real)
    requires rpm >= 2 && d >= 0.0 && window > 0.0
    ensures !BoundHoldsForAll(rpm, d, window)
  {
    var log := seq(rpm + 1, _ => Request(100.0, 100.0));
    var ks := AdmittedIn(log, rpm, 100.0, window);
    forall k: nat | k < rpm + 1 ensures k in ks { EqualStampsEscape(log, 100.0, k, rpm); }
    AtLeast(ks, rpm + 1);
    assert Setting(log, d);
  }

  /**
   * Without distinct timestamps a limit of one still holds for 60 seconds; a higher limit holds for no window at all,
   * however short. In particular the bound for 60 - d seconds can do without distinctness exactly for a limit of one.
   */
  lemma {:induction false} DistinctnessIsNeeded(rpm: int, d: real, window: real)
    requires rpm >= 1 && d >= 0.0
    ensures BoundHoldsForAll(rpm, d, window) <==> window <= if rpm == 1 then 60.0 else 0.0
    ensures d < 60.0 ==> (BoundHoldsForAll(rpm, d, 60.0 - d) <==> rpm == 1)
  {
    if rpm == 1 {
      forall log, a, w | Setting(log, d) && w <= 60.0 ensures |AdmittedIn(log, 1, a, w)| <= 1 {
        LimitOfOne(log, a);
        SubsetSize(AdmittedIn(log, 1, a, w), AdmittedIn(log, 1, a, 60.0));
      }
      WindowIsExact(1, d, window);
    } else {
      if d < 60.0 { EqualStampsExceed(rpm, d, 60.0 - d); }
      if window > 0.0 {
        EqualStampsExceed(rpm, d, window);
      } else {
        forall log, a ensures AdmittedIn(log, rpm, a, window) == {} {}
      }
    }
  }
}
