/**
 The signer's limiter when clock readings reach the lock out of order: the reading is
 taken before the lock, so a request may bring one that is older than an earlier caller's.
 */
module LateReadings {
  import opened Arithmetic
  import opened RateLimiter

  /** Each reading is at most `late` behind the newest one before it. */
  ghost predicate AtMostLate(late: nat, newest: int, reqs: seq<Request>)
    decreases |reqs|
  {
    reqs == [] || (newest - late <= reqs[0].at && AtMostLate(late, Max(newest, reqs[0].at), reqs[1..]))
  }

  /** A run whose readings are at most `late` behind, from its first one on. */
  ghost predicate IsLateRun(late: nat, reqs: seq<Request>) {
    reqs == [] || AtMostLate(late, reqs[0].at, reqs)
  }

  /** Lateness zero is the monotone clock. */
  lemma {:induction false} NeverLateIsMonotone(newest: int, reqs: seq<Request>)
    ensures AtMostLate(0, newest, reqs) <==> Monotone(newest, reqs)
    decreases |reqs|
  {
    if reqs != [] && newest <= reqs[0].at {
      NeverLateIsMonotone(reqs[0].at, reqs[1..]);
    }
  }

  // ---------------------------------------------------------------- the bound

  /** A window [from, from + window) watched by a limiter whose readings are at most `late` behind. */
  datatype Watched = Watched(limits: Limits, late: nat, key: string, from: int) {
    predicate Valid() {
      limits.Valid() && late < limits.window
    }

    /** Bucket starts are at least this far apart, even across an eviction. */
    function Gap(): int {
      limits.window - late
    }

    /** The earliest start of a bucket that can still take a request of the window. */
    function First(): int {
      from - limits.window + 1
    }

    /** Once a reading is newer than this, no request of the window can come. */
    function Last(): int {
      from + limits.window + late - 1
    }

    /** What the buckets that start at `start` or later can admit to the window. */
    function FromStart(start: int): int
      requires Valid()
    {
      limits.max * Capacity(Gap(), Last() - Max(First(), start))
    }

    predicate Hits(r: Request) {
      r.key == key && from <= r.at < from + limits.window
    }

    function Budget(m: Buckets, newest: int): int
      requires Valid()
    {
      if key !in m then FromStart(newest - late)
      else
        var b := m[key];
        (if b.start >= First() && newest <= Last() then limits.max - b.count else 0)
        + FromStart(Max(b.start + Gap(), newest - late))
    }
  }

  lemma ScaledMonotone(f: int, a: int, b: int)
    requires f >= 0 && 0 <= a <= b
    ensures 0 <= f * a <= f * b
  {
    assert f * b == f * a + f * (b - a);
  }

  lemma LaterStartsAdmitLess(w: Watched, a: int, b: int)
    requires w.Valid() && a <= b
    ensures 0 <= w.FromStart(b) <= w.FromStart(a)
  {
    CapacityIsMonotone(w.Gap(), w.Last() - Max(w.First(), b), w.Last() - Max(w.First(), a));
    ScaledMonotone(w.limits.max, Capacity(w.Gap(), w.Last() - Max(w.First(), b)),
                   Capacity(w.Gap(), w.Last() - Max(w.First(), a)));
  }

  /** A bucket that starts at a useful time takes one share of what remained from there on. */
  lemma OneBucketOfMany(w: Watched, earliest: int, start: int)
    requires w.Valid() && earliest <= start && w.First() <= start <= w.Last()
    ensures w.limits.max + w.FromStart(start + w.Gap()) <= w.FromStart(earliest)
  {
    LaterStartsAdmitLess(w, earliest, start);
    var rest := Capacity(w.Gap(), w.Last() - start - w.Gap());
    assert Capacity(w.Gap(), w.Last() - start) == 1 + rest;
    assert w.limits.max * (1 + rest) == w.limits.max + w.limits.max * rest;
  }

  lemma NewerReadingsShrink(w: Watched, m: Buckets, a: int, b: int)
    requires w.Valid() && WellFormed(w.limits, m, a) && a <= b
    ensures w.Budget(m, b) <= w.Budget(m, a)
  {
    if w.key in m {
      var s := m[w.key].start + w.Gap();
      LaterStartsAdmitLess(w, Max(s, a - w.late), Max(s, b - w.late));
    } else {
      LaterStartsAdmitLess(w, a - w.late, b - w.late);
    }
  }

  lemma EvictionShrinks(w: Watched, m: Buckets, at: int, newest: int)
    requires w.Valid() && WellFormed(w.limits, m, newest) && at <= newest
    ensures w.Budget(Evict(w.limits, m, at), newest) <= w.Budget(m, newest)
  {
    if w.key in m && w.key !in Evict(w.limits, m, at) {
      assert newest - w.late >= m[w.key].start + w.Gap();
    }
  }

  /** Opening a bucket at `at` pays for itself out of what the starts from `earliest` on could admit. */
  lemma OpeningIsPaid(w: Watched, m: Buckets, at: int, newest: int, earliest: int)
    requires w.Valid() && newest - w.late <= at <= newest && newest - w.late <= earliest <= at
    ensures (if w.Hits(Request(w.key, at)) then 1 else 0) + w.Budget(m[w.key := Bucket(at, 1)], newest)
            <= w.FromStart(earliest)
  {
    var next := Max(at + w.Gap(), newest - w.late);
    LaterStartsAdmitLess(w, at + w.Gap(), next);
    LaterStartsAdmitLess(w, earliest, next);
    if at >= w.First() && newest <= w.Last() {
      OneBucketOfMany(w, earliest, at);
    }
  }

  lemma DecisionIsPaid(w: Watched, m: Buckets, r: Request, newest: int)
    requires w.Valid() && WellFormed(w.limits, m, newest) && newest - w.late <= r.at <= newest
    ensures var (m', ok) := Decide(w.limits, m, r.key, r.at);
            (if ok && w.Hits(r) then 1 else 0) + w.Budget(m', newest) <= w.Budget(m, newest)
  {
    if r.key == w.key {
      if w.key !in m {
        OpeningIsPaid(w, m, r.at, newest, newest - w.late);
      } else if Expired(w.limits, m[w.key], r.at) {
        OpeningIsPaid(w, m, r.at, newest, Max(m[w.key].start + w.Gap(), newest - w.late));
      }
    }
  }

  lemma AnswerIsPaid(w: Watched, m: Buckets, r: Request, newest: int)
    requires w.Valid() && WellFormed(w.limits, m, newest) && newest - w.late <= r.at
    ensures var (m', ok) := Allow(w.limits, m, r.key, r.at); var newer := Max(newest, r.at);
            && WellFormed(w.limits, m', newer)
            && (if ok && w.Hits(r) then 1 else 0) + w.Budget(m', newer) <= w.Budget(m, newest)
  {
    var newer := Max(newest, r.at);
    NewerReadingsShrink(w, m, newest, newer);
    EvictionShrinks(w, m, r.at, newer);
    DecisionIsPaid(w, Evict(w.limits, m, r.at), r, newer);
  }

  lemma BudgetIsNatural(w: Watched, m: Buckets, newest: int)
    requires w.Valid() && WellFormed(w.limits, m, newest)
    ensures w.Budget(m, newest) >= 0
  {
    var start := if w.key in m then Max(m[w.key].start + w.Gap(), newest - w.late) else newest - w.late;
    LaterStartsAdmitLess(w, start, start);
  }

  lemma {:induction false} LateBudgetHolds(w: Watched, m: Buckets, reqs: seq<Request>, newest: int)
    requires w.Valid() && WellFormed(w.limits, m, newest) && AtMostLate(w.late, newest, reqs)
    ensures Admitted(w.limits, reqs, Answers(w.limits, m, reqs), w.key, w.from) <= w.Budget(m, newest)
    decreases |reqs|
  {
    if reqs == [] {
      BudgetIsNatural(w, m, newest);
    } else {
      var r := reqs[0];
      var m' := Allow(w.limits, m, r.key, r.at).0;
      AnswerIsPaid(w, m, r, newest);
      LateBudgetHolds(w, m', reqs[1..], Max(newest, r.at));
      assert Answers(w.limits, m, reqs)[1..] == Answers(w.limits, m', reqs[1..]);
    }
  }

  /**
   With readings at most `late` behind the newest, for any `late` below the window, and
   with eviction, any interval of one window length admits at most
   max * (floor((2*window + late - 2) / (window - late)) + 1) requests of a key.
   */
  lemma LateWindowBound(l: Limits, late: nat, reqs: seq<Request>, key: string, from: int)
    requires l.Valid() && late < l.window && IsLateRun(late, reqs)
    ensures Admitted(l, reqs, Answers(l, map[], reqs), key, from)
            <= l.max * ((2 * l.window + late - 2) / (l.window - late) + 1)
  {
    var w := Watched(l, late, key, from);
    var newest := if reqs == [] then 0 else reqs[0].at;
    LateBudgetHolds(w, map[], reqs, newest);
    LaterStartsAdmitLess(w, if w.First() < newest - late then w.First() else newest - late, newest - late);
    CapacityIsQuotient(w.Gap(), 2 * l.window + late - 2);
    assert w.Last() - w.First() == 2 * l.window + late - 2;
  }

  // ---------------------------------------------------------------- a window late or more

  const CROWD: nat := EVICT_ABOVE + 1

  /** Other keys, told apart by their lengths. */
  function Other(key: string, i: nat): (k: string)
    ensures |k| == |key| + 1 + i
  {
    key + seq(i + 1, _ => '|')
  }

  /** Other keys from number i on, all with the reading `window`, until there are enough buckets for evictions. */
  function Gathering(l: Limits, key: string, i: nat): (reqs: seq<Request>)
    requires i <= CROWD
    decreases CROWD - i
  {
    if i == CROWD then [] else [Request(Other(key, i), l.window)] + Gathering(l, key, i + 1)
  }

  /** The key asks with the reading 0, and then another key's reading `window` evicts its bucket. */
  function Ousting(l: Limits, key: string, n: nat): seq<Request> {
    if n == 0 then [] else [Request(key, 0), Request(Other(key, 0), l.window)] + Ousting(l, key, n - 1)
  }

  /** The buckets are those of the first i other keys, all started at `window`. */
  ghost predicate IsGathered(l: Limits, m: Buckets, key: string, i: nat) {
    && |m| == i
    && (forall k :: k in m ==> m[k].start == l.window && |key| < |k| <= |key| + i)
    && (i > 0 ==> Other(key, 0) in m)
  }

  lemma FirstRequest(l: Limits, m: Buckets, r: Request, rest: seq<Request>, key: string, from: int)
    ensures var (m', ok) := Allow(l, m, r.key, r.at);
            Admitted(l, [r] + rest, Answers(l, m, [r] + rest), key, from) ==
            (if ok && r.key == key && from <= r.at < from + l.window then 1 else 0)
            + Admitted(l, rest, Answers(l, m', rest), key, from)
  {
    var reqs := [r] + rest;
    assert reqs[1..] == rest;
    assert Answers(l, m, reqs)[1..] == Answers(l, Allow(l, m, r.key, r.at).0, rest);
  }

  /** Readings at `window` evict no bucket that started there. */
  lemma NothingExpires(l: Limits, m: Buckets, at: int)
    requires l.Valid() && at <= l.window && forall k :: k in m ==> m[k].start == l.window
    ensures Evict(l, m, at) == m
  {
    assert Unexpired(l, m, at) == m;
  }

  lemma OneMoreGathers(l: Limits, m: Buckets, key: string, i: nat)
    requires l.Valid() && IsGathered(l, m, key, i)
    ensures var k := Other(key, i); IsGathered(l, Allow(l, m, k, l.window).0, key, i + 1) && k != key
  {
    NothingExpires(l, m, l.window);
    assert Other(key, i) !in m;
  }

  lemma GatheringUnfolds(l: Limits, key: string, i: nat, rest: seq<Request>)
    requires i < CROWD
    ensures Gathering(l, key, i) + rest == [Request(Other(key, i), l.window)] + (Gathering(l, key, i + 1) + rest)
  {
  }

  /** A request of another key leaves the count to the requests behind it. */
  lemma OtherIsPassedOver(l: Limits, m: Buckets, reqs: seq<Request>, r: Request, more: seq<Request>, key: string)
    requires reqs == [r] + more && r.key != key
    ensures Admitted(l, reqs, Answers(l, m, reqs), key, 0) ==
            Admitted(l, more, Answers(l, Allow(l, m, r.key, r.at).0, more), key, 0)
  {
    FirstRequest(l, m, r, more, key, 0);
  }

  lemma {:induction false} CrowdGathers(l: Limits, m: Buckets, key: string, i: nat, rest: seq<Request>)
    returns (crowd: Buckets)
    requires l.Valid() && i <= CROWD && IsGathered(l, m, key, i)
    ensures IsGathered(l, crowd, key, CROWD)
    ensures var reqs := Gathering(l, key, i) + rest;
            Admitted(l, reqs, Answers(l, m, reqs), key, 0) == Admitted(l, rest, Answers(l, crowd, rest), key, 0)
    decreases CROWD - i
  {
    if i == CROWD {
      assert Gathering(l, key, i) + rest == rest;
      return m;
    }
    var reqs, more := Gathering(l, key, i) + rest, Gathering(l, key, i + 1) + rest;
    var r := Request(Other(key, i), l.window);
    GatheringUnfolds(l, key, i, rest);
    OneMoreGathers(l, m, key, i);
    OtherIsPassedOver(l, m, reqs, r, more, key);
    crowd := CrowdGathers(l, Allow(l, m, r.key, r.at).0, key, i + 1, rest);
  }

  /** With a crowd of buckets the key's own one lasts only until the next request, whatever the limit. */
  lemma KeyIsOusted(l: Limits, m: Buckets, key: string)
    requires l.Valid() && IsGathered(l, m, key, CROWD)
    ensures Allow(l, m, key, 0) == (m[key := Bucket(0, 1)], true)
    ensures IsGathered(l, Allow(l, m[key := Bucket(0, 1)], Other(key, 0), l.window).0, key, CROWD)
  {
    NothingExpires(l, m, 0);
    assert key !in m;
    var more := m[key := Bucket(0, 1)];
    assert |more| == CROWD + 1;
    assert Unexpired(l, more, l.window) == m;
  }

  lemma PairIsAdmitted(l: Limits, m: Buckets, key: string, rest: seq<Request>) returns (after: Buckets)
    requires l.Valid() && IsGathered(l, m, key, CROWD)
    ensures IsGathered(l, after, key, CROWD)
    ensures var reqs := [Request(key, 0), Request(Other(key, 0), l.window)] + rest;
            Admitted(l, reqs, Answers(l, m, reqs), key, 0) ==
            1 + Admitted(l, rest, Answers(l, after, rest), key, 0)
  {
    var first, second := Request(key, 0), Request(Other(key, 0), l.window);
    KeyIsOusted(l, m, key);
    FirstRequest(l, m, first, [second] + rest, key, 0);
    FirstRequest(l, m[key := Bucket(0, 1)], second, rest, key, 0);
    assert [first] + ([second] + rest) == [first, second] + rest;
    assert second.key != key;
    after := Allow(l, m[key := Bucket(0, 1)], second.key, second.at).0;
  }

  lemma {:induction false} EachPairIsAdmitted(l: Limits, m: Buckets, key: string, n: nat)
    requires l.Valid() && IsGathered(l, m, key, CROWD)
    ensures Admitted(l, Ousting(l, key, n), Answers(l, m, Ousting(l, key, n)), key, 0) == n
    decreases n
  {
    if n > 0 {
      var after := PairIsAdmitted(l, m, key, Ousting(l, key, n - 1));
      EachPairIsAdmitted(l, after, key, n - 1);
    }
  }

  ghost predicate IsWithin(lo: int, hi: int, reqs: seq<Request>) {
    forall i :: 0 <= i < |reqs| ==> lo <= reqs[i].at <= hi
  }

  lemma {:induction false} WithinIsLate(late: nat, newest: int, reqs: seq<Request>)
    requires IsWithin(newest - late, newest, reqs)
    ensures AtMostLate(late, newest, reqs)
    decreases |reqs|
  {
    if reqs != [] {
      WithinIsLate(late, newest, reqs[1..]);
    }
  }

  lemma {:induction false} GatheringIsWithin(l: Limits, key: string, i: nat)
    requires l.Valid() && i <= CROWD
    ensures IsWithin(0, l.window, Gathering(l, key, i))
    decreases CROWD - i
  {
    if i < CROWD {
      GatheringIsWithin(l, key, i + 1);
    }
  }

  lemma {:induction false} OustingIsWithin(l: Limits, key: string, n: nat)
    requires l.Valid()
    ensures IsWithin(0, l.window, Ousting(l, key, n))
  {
    if n > 0 {
      OustingIsWithin(l, key, n - 1);
    }
  }

  /**
   From a lateness of one window on there is no bound: for every limit and every n some run
   with readings no later than that admits n requests of a key to one window.
   */
  lemma StaleReadingsBreakTheBound(l: Limits, late: nat, key: string, n: nat) returns (reqs: seq<Request>)
    requires l.Valid() && late >= l.window
    ensures IsLateRun(late, reqs) && Admitted(l, reqs, Answers(l, map[], reqs), key, 0) == n
  {
    var crowd := CrowdGathers(l, map[], key, 0, Ousting(l, key, n));
    EachPairIsAdmitted(l, crowd, key, n);
    reqs := Gathering(l, key, 0) + Ousting(l, key, n);
    GatheringIsWithin(l, key, 0);
    OustingIsWithin(l, key, n);
    WithinIsLate(late, l.window, reqs);
    assert Gathering(l, key, 0)[0] == Request(Other(key, 0), l.window);
  }

  // ---------------------------------------------------------------- exactly when there is a bound

  /** No run that is at most `late` admits more than the bound to any interval of one window length. */
  ghost predicate IsBound(l: Limits, late: nat, bound: nat) {
    forall reqs, key, from :: IsLateRun(late, reqs) ==> Admitted(l, reqs, Answers(l, map[], reqs), key, from) <= bound
  }

  /** For every limit, some bound holds if and only if readings are less than one window late. */
  lemma BoundExistsExactly(l: Limits, late: nat)
    requires l.Valid()
    ensures (exists bound: nat :: IsBound(l, late, bound)) <==> late < l.window
  {
    if late < l.window {
      var bound := l.max * ((2 * l.window + late - 2) / (l.window - late) + 1);
      ScaledMonotone(l.max, 0, (2 * l.window + late - 2) / (l.window - late) + 1);
      forall reqs, key, from | IsLateRun(late, reqs)
        ensures Admitted(l, reqs, Answers(l, map[], reqs), key, from) <= bound
      {
        LateWindowBound(l, late, reqs, key, from);
      }
      assert IsBound(l, late, bound);
    } else {
      forall bound: nat ensures !IsBound(l, late, bound) {
        var reqs := StaleReadingsBreakTheBound(l, late, "", bound + 1);
      }
    }
  }
}
