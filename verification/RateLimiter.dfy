/**
 The signer's fixed-window request limiter with lazy bucket eviction
 (services/sign-service/internal/policy/engine.go). Times are nanoseconds.
 */
module RateLimiter {
  import opened Text

  datatype Bucket = Bucket(start: int, count: int)

  type Buckets = map<string, Bucket>

  /** Window length and request limit, both positive. */
  datatype Limits = Limits(window: int, max: int) {
    predicate Valid() {
      window > 0 && max > 0
    }
  }

  const EVICT_ABOVE: nat := 10_000

  /** Unset configuration values fall back to 300 requests a minute. */
  function EffectiveLimits(window: int, max: int): (l: Limits)
    ensures l.Valid()
    ensures l.window == (if window > 0 then window else 60_000_000_000) && l.max == (if max > 0 then max else 300)
  {
    Limits(if window <= 0 then 60_000_000_000 else window, if max <= 0 then 300 else max)
  }

  function BucketKey(token: string, tenant: string, operation: string): string {
    Trim(token) + "|" + Trim(tenant) + "|" + Trim(operation)
  }

  /** Requests share a bucket exactly if token, tenant and operation agree, bars in the first two aside. */
  lemma BucketsAreApart(a: string, b: string, c: string, x: string, y: string, z: string)
    requires '|' !in a && '|' !in b && '|' !in x && '|' !in y
    ensures BucketKey(a, b, c) == BucketKey(x, y, z) <==> Trim(a) == Trim(x) && Trim(b) == Trim(y) && Trim(c) == Trim(z)
  {
    BucketParts(a, b, c);
    BucketParts(x, y, z);
    if BucketKey(a, b, c) == BucketKey(x, y, z) {
      var n := |Trim(a)| + |Trim(b)| + 2;
      assert Trim(c) == BucketKey(a, b, c)[n..] && Trim(z) == BucketKey(x, y, z)[n..];
    }
  }

  lemma BucketParts(a: string, b: string, c: string)
    requires '|' !in a && '|' !in b
    ensures var parts := Split(BucketKey(a, b, c), '|'); |parts| >= 2 && parts[0] == Trim(a) && parts[1] == Trim(b)
  {
    TrimIsTrimmed(a);
    TrimIsTrimmed(b);
    var rest := Trim(b) + ['|'] + Trim(c);
    SplitPrefix(Trim(b), Trim(c), '|');
    SplitPrefix(Trim(a), rest, '|');
    assert BucketKey(a, b, c) == Trim(a) + ['|'] + rest;
  }

  predicate Expired(l: Limits, b: Bucket, now: int) {
    now - b.start >= l.window
  }

  function Unexpired(l: Limits, m: Buckets, now: int): Buckets {
    map k | k in m && !Expired(l, m[k], now) :: m[k]
  }

  function Evict(l: Limits, m: Buckets, now: int): Buckets {
    if |m| > EVICT_ABOVE then Unexpired(l, m, now) else m
  }

  /** The decision on one request, without eviction. */
  function Decide(l: Limits, m: Buckets, key: string, now: int): (Buckets, bool) {
    if key !in m || Expired(l, m[key], now) then (m[key := Bucket(now, 1)], true)
    else if m[key].count >= l.max then (m, false)
    else (m[key := m[key].(count := m[key].count + 1)], true)
  }

  function Allow(l: Limits, m: Buckets, key: string, now: int): (Buckets, bool) {
    Decide(l, Evict(l, m, now), key, now)
  }

  class Engine {
    const limits: Limits
    var buckets: Buckets

    ghost predicate Valid()
      reads this
    {
      limits.Valid()
    }

    constructor (window: int, max: int)
      ensures Valid() && limits == EffectiveLimits(window, max) && buckets == map[]
    {
      limits := EffectiveLimits(window, max);
      buckets := map[];
    }

    /** The body of allow under the lock; `now` is the clock reading taken before it. */
    method Admit(token: string, tenant: string, operation: string, now: int) returns (ok: bool)
      requires Valid()
      modifies this`buckets
      ensures Valid()
      ensures (buckets, ok) == Allow(limits, old(buckets), BucketKey(token, tenant, operation), now)
      ensures var k := BucketKey(token, tenant, operation);
              var spent := k in old(buckets) && now - old(buckets)[k].start < limits.window
                  && old(buckets)[k].count >= limits.max;
              && (ok <==> !spent)
              && (|old(buckets)| <= 10_000 ==> forall j :: j in old(buckets) ==> j in buckets)
              && (|old(buckets)| > 10_000 ==>
                    forall j :: j in old(buckets) && j != k ==>
                      (j in buckets <==> now - old(buckets)[j].start < limits.window))
    {
      var key := BucketKey(token, tenant, operation);
      if |buckets| > EVICT_ABOVE {
        EvictExpired(now);
      }
      if key !in buckets || now - buckets[key].start >= limits.window {
        buckets := buckets[key := Bucket(now, 1)];
        return true;
      }
      if buckets[key].count >= limits.max {
        return false;
      }
      buckets := buckets[key := Bucket(buckets[key].start, buckets[key].count + 1)];
      ok := true;
    }

    /** The loop over all buckets that deletes the expired ones, in whatever order the map yields them. */
    method EvictExpired(now: int)
      modifies this`buckets
      ensures buckets == Unexpired(limits, old(buckets), now)
    {
      var todo := buckets.Keys;
      while todo != {}
        invariant todo <= old(buckets).Keys && buckets.Keys <= old(buckets).Keys
        invariant forall k :: k in buckets ==> buckets[k] == old(buckets)[k]
        invariant forall k :: k in old(buckets) ==>
                    (k in buckets <==> k in todo || !Expired(limits, old(buckets)[k], now))
        decreases todo
      {
        var k :| k in todo;
        if now - buckets[k].start >= limits.window {
          buckets := buckets - {k};
        }
        todo := todo - {k};
      }
    }
  }

  // ---------------------------------------------------------------- runs

  datatype Request = Request(key: string, at: int)

  /** Clock readings that never run backwards, from `now` on. */
  ghost predicate Monotone(now: int, reqs: seq<Request>)
    decreases |reqs|
  {
    reqs == [] || (now <= reqs[0].at && Monotone(reqs[0].at, reqs[1..]))
  }

  /** The answers of the limiter that evicts. */
  function Answers(l: Limits, m: Buckets, reqs: seq<Request>): (r: seq<bool>)
    ensures |r| == |reqs|
    decreases |reqs|
  {
    if reqs == [] then []
    else
      var (m', ok) := Allow(l, m, reqs[0].key, reqs[0].at);
      [ok] + Answers(l, m', reqs[1..])
  }

  /** The answers of a limiter that never forgets a bucket. */
  function PlainAnswers(l: Limits, m: Buckets, reqs: seq<Request>): (r: seq<bool>)
    ensures |r| == |reqs|
    decreases |reqs|
  {
    if reqs == [] then []
    else
      var (m', ok) := Decide(l, m, reqs[0].key, reqs[0].at);
      [ok] + PlainAnswers(l, m', reqs[1..])
  }

  /** `kept` is `full` without some buckets that have expired. */
  ghost predicate Forgets(l: Limits, kept: Buckets, full: Buckets, now: int) {
    && (forall k :: k in kept ==> k in full && kept[k] == full[k])
    && (forall k :: k in full && k !in kept ==> Expired(l, full[k], now))
  }

  /** Over any run with a monotone clock, eviction changes no answer. */
  lemma {:induction false} EvictionIsInvisible(l: Limits, kept: Buckets, full: Buckets, now: int, reqs: seq<Request>)
    requires Forgets(l, kept, full, now) && Monotone(now, reqs)
    ensures Answers(l, kept, reqs) == PlainAnswers(l, full, reqs)
    decreases |reqs|
  {
    if reqs != [] {
      var r := reqs[0];
      assert Forgets(l, Evict(l, kept, r.at), full, r.at);
      EvictionIsInvisible(l, Allow(l, kept, r.key, r.at).0, Decide(l, full, r.key, r.at).0, r.at, reqs[1..]);
    }
  }

  function OnlyOf(reqs: seq<Request>, key: string): seq<Request>
    decreases |reqs|
  {
    if reqs == [] then []
    else (if reqs[0].key == key then [reqs[0]] else []) + OnlyOf(reqs[1..], key)
  }

  /** Keys do not interfere: what one key gets is what it would get if it were alone. */
  lemma {:induction false} KeysDoNotInterfere(l: Limits, m: Buckets, alone: Buckets, reqs: seq<Request>, key: string,
                                              from: int)
    requires (key in m <==> key in alone) && (key in m ==> m[key] == alone[key])
    ensures var own := OnlyOf(reqs, key);
            Admitted(l, reqs, PlainAnswers(l, m, reqs), key, from) ==
            Admitted(l, own, PlainAnswers(l, alone, own), key, from)
    decreases |reqs|
  {
    if reqs != [] {
      var r, rest := reqs[0], reqs[1..];
      var m' := Decide(l, m, r.key, r.at).0;
      assert PlainAnswers(l, m, reqs)[1..] == PlainAnswers(l, m', rest);
      if r.key == key {
        var alone' := Decide(l, alone, r.key, r.at).0;
        KeysDoNotInterfere(l, m', alone', rest, key, from);
        FirstOfOwn(l, alone, r, OnlyOf(rest, key), key, from);
      } else {
        KeysDoNotInterfere(l, m', alone, rest, key, from);
        assert OnlyOf(reqs, key) == OnlyOf(rest, key);
      }
    }
  }

  lemma FirstOfOwn(l: Limits, m: Buckets, r: Request, rest: seq<Request>, key: string, from: int)
    ensures var (m', ok) := Decide(l, m, r.key, r.at);
            Admitted(l, [r] + rest, PlainAnswers(l, m, [r] + rest), key, from) ==
            (if ok && r.key == key && from <= r.at < from + l.window then 1 else 0)
            + Admitted(l, rest, PlainAnswers(l, m', rest), key, from)
  {
    var reqs := [r] + rest;
    assert reqs[1..] == rest;
    assert PlainAnswers(l, m, reqs)[1..] == PlainAnswers(l, Decide(l, m, r.key, r.at).0, rest);
  }

  /** Admitted requests of one key with a reading in [from, from + window). */
  function Admitted(l: Limits, reqs: seq<Request>, answers: seq<bool>, key: string, from: int): (n: nat)
    requires |answers| == |reqs|
    decreases |reqs|
  {
    if reqs == [] then 0
    else
      (if answers[0] && reqs[0].key == key && from <= reqs[0].at < from + l.window then 1 else 0)
      + Admitted(l, reqs[1..], answers[1..], key, from)
  }

  ghost predicate WellFormed(l: Limits, m: Buckets, now: int) {
    forall k :: k in m ==> 1 <= m[k].count <= l.max && m[k].start <= now
  }

  /** How many requests of `key` the window starting at `from` can still take. */
  function Budget(l: Limits, m: Buckets, key: string, from: int, now: int): int {
    if now >= from + l.window then 0
    else if key !in m || m[key].start + l.window <= from then 2 * l.max - 1
    else if m[key].start >= from then l.max - m[key].count
    else 2 * l.max - m[key].count
  }

  lemma {:induction false} BudgetHolds(l: Limits, m: Buckets, reqs: seq<Request>, key: string, from: int, now: int)
    requires l.Valid() && WellFormed(l, m, now) && Monotone(now, reqs)
    ensures Admitted(l, reqs, PlainAnswers(l, m, reqs), key, from) <= Budget(l, m, key, from, now)
    decreases |reqs|
  {
    if reqs != [] {
      var r := reqs[0];
      var m' := Decide(l, m, r.key, r.at).0;
      assert WellFormed(l, m', r.at);
      BudgetHolds(l, m', reqs[1..], key, from, r.at);
      assert PlainAnswers(l, m, reqs)[1..] == PlainAnswers(l, m', reqs[1..]);
    }
  }

  /**
   Whatever the arrival pattern, a monotone clock lets at most 2*max - 1 requests of
   one key through in any half-open interval of one window length.
   */
  lemma WindowBound(l: Limits, reqs: seq<Request>, key: string, from: int)
    requires l.Valid() && (reqs == [] || Monotone(reqs[0].at, reqs))
    ensures Admitted(l, reqs, Answers(l, map[], reqs), key, from) <= 2 * l.max - 1
  {
    if reqs != [] {
      EvictionIsInvisible(l, map[], map[], reqs[0].at, reqs);
      BudgetHolds(l, map[], reqs, key, from, reqs[0].at);
    }
  }

  // ---------------------------------------------------------------- the bound is the best possible

  function Burst(key: string, at: int, n: nat): (r: seq<Request>)
    ensures |r| == n
  {
    if n == 0 then [] else [Request(key, at)] + Burst(key, at, n - 1)
  }

  function WorstCase(l: Limits, key: string): seq<Request>
    requires l.Valid()
  {
    [Request(key, 0)] + (Burst(key, l.window - 1, l.max - 1) + Burst(key, l.window, l.max))
  }

  /** A burst inside a running bucket is admitted whole as long as it fits, and then the rest runs. */
  lemma {:induction false} BurstFits(l: Limits, m: Buckets, key: string, at: int, n: nat, rest: seq<Request>, from: int)
    requires l.Valid() && key in m && !Expired(l, m[key], at) && m[key].count + n <= l.max
    requires from <= at < from + l.window
    ensures var reqs := Burst(key, at, n) + rest;
            Admitted(l, reqs, PlainAnswers(l, m, reqs), key, from) ==
            n + Admitted(l, rest, PlainAnswers(l, m[key := Bucket(m[key].start, m[key].count + n)], rest), key, from)
    decreases n
  {
    var reqs := Burst(key, at, n) + rest;
    if n == 0 {
      assert reqs == rest && m[key := Bucket(m[key].start, m[key].count)] == m;
    } else {
      var m' := m[key := Bucket(m[key].start, m[key].count + 1)];
      assert reqs[0] == Request(key, at) && reqs[1..] == Burst(key, at, n - 1) + rest;
      assert PlainAnswers(l, m, reqs)[1..] == PlainAnswers(l, m', reqs[1..]);
      BurstFits(l, m', key, at, n - 1, rest, from);
      assert m'[key := Bucket(m'[key].start, m'[key].count + (n - 1))] ==
             m[key := Bucket(m[key].start, m[key].count + n)];
    }
  }

  lemma {:induction false} BurstIsMonotone(now: int, key: string, at: int, n: nat, rest: seq<Request>)
    requires now <= at && Monotone(at, rest)
    ensures Monotone(now, Burst(key, at, n) + rest)
    decreases n
  {
    var reqs := Burst(key, at, n) + rest;
    if n == 0 {
      assert reqs == rest;
    } else {
      assert reqs[1..] == Burst(key, at, n - 1) + rest;
      BurstIsMonotone(at, key, at, n - 1, rest);
    }
  }

  /** A new bucket opens at the first request of a burst that comes one window after the old one. */
  lemma BurstOpensBucket(l: Limits, m: Buckets, key: string, at: int, n: nat, from: int)
    requires l.Valid() && key in m && Expired(l, m[key], at) && 1 <= n <= l.max
    requires from <= at < from + l.window
    ensures var reqs := Burst(key, at, n); Admitted(l, reqs, PlainAnswers(l, m, reqs), key, from) == n
  {
    var reqs := Burst(key, at, n);
    var m' := m[key := Bucket(at, 1)];
    assert reqs[1..] == Burst(key, at, n - 1) + [];
    assert PlainAnswers(l, m, reqs)[1..] == PlainAnswers(l, m', reqs[1..]);
    BurstFits(l, m', key, at, n - 1, [], from);
  }

  /** For every limit and every window of at least two ticks some monotone run reaches 2*max - 1. */
  lemma WindowBoundIsTight(l: Limits, key: string)
    requires l.Valid() && l.window >= 2
    ensures Monotone(0, WorstCase(l, key))
    ensures Admitted(l, WorstCase(l, key), Answers(l, map[], WorstCase(l, key)), key, 1) == 2 * l.max - 1
  {
    var reqs := WorstCase(l, key);
    var second := Burst(key, l.window, l.max);
    var m := map[key := Bucket(0, 1)];
    var m2 := m[key := Bucket(0, 1 + (l.max - 1))];
    assert second + [] == second;
    BurstIsMonotone(l.window - 1, key, l.window, l.max, []);
    BurstIsMonotone(0, key, l.window - 1, l.max - 1, second);
    EvictionIsInvisible(l, map[], map[], 0, reqs);
    assert reqs[1..] == Burst(key, l.window - 1, l.max - 1) + second;
    assert PlainAnswers(l, map[], reqs)[1..] == PlainAnswers(l, m, reqs[1..]);
    BurstFits(l, m, key, l.window - 1, l.max - 1, second, 1);
    BurstOpensBucket(l, m2, key, l.window, l.max, 1);
  }
}
