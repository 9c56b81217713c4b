/** What the breaker of one endpoint remembers over a whole run of reports and refreshes. */
module EndpointHistory {
  import opened Arithmetic
  import opened Wrappers
  import opened EndpointManager

  datatype Event = Success(key: string) | Failure(key: string, at: int) | Refresh(items: seq<Endpoint>)

  function Step(b: Breaker, t: Directory, e: Event): Directory {
    match e
    case Success(k) => AfterSuccess(t, k)
    case Failure(k, at) => AfterFailure(b, t, k, at)
    case Refresh(items) => Refreshed(t, items)
  }

  function Run(b: Breaker, t: Directory, es: seq<Event>): Directory {
    if es == [] then t else Step(b, Run(b, t, es[..|es| - 1]), es[|es| - 1])
  }

  function TimesAfter(e: Event, k: string, times: seq<int>): seq<int> {
    match e
    case Success(key) => if key == k then [] else times
    case Failure(key, at) => if key == k then times + [at] else times
    case Refresh(_) => times
  }

  /** Times of the failures of `k` since its last success, given those before the run. */
  function FailuresSince(es: seq<Event>, k: string, earlier: seq<int>): seq<int> {
    if es == [] then earlier else TimesAfter(es[|es| - 1], k, FailuresSince(es[..|es| - 1], k, earlier))
  }

  predicate Lists(items: seq<Endpoint>, k: string) {
    exists i :: 0 <= i < |items| && EndpointKey(items[i]) == k
  }

  /** Every refresh of the run lists the endpoint. */
  predicate KeptBy(es: seq<Event>, k: string) {
    forall i :: 0 <= i < |es| && es[i].Refresh? ==> Lists(es[i].items, k)
  }

  /** The failure that last filled up a group of `threshold` failures. */
  function LastTrip(times: seq<int>, threshold: int): int
    requires threshold > 0 && |times| >= threshold
  {
    NextQuotient(|times|, threshold);
    TripIndex(|times|, threshold);
    times[threshold * (|times| / threshold) - 1]
  }

  lemma TripIndex(n: nat, d: int)
    requires d > 0 && n >= d
    ensures d <= d * (n / d) <= n
  {
    if n / d > 1 {
      ProductGap(d, n / d, 1);
    }
  }

  ghost predicate MatchesHistory(b: Breaker, h: Health, times: seq<int>)
    requires b.Valid()
  {
    && h.failStreak == |times| % b.failThreshold
    && (if |times| < b.failThreshold then h.openUntil == None
        else h.openUntil == Some(LastTrip(times, b.failThreshold) + b.openDuration))
    && h.penalty >= 0
  }

  lemma FailureExtendsHistory(b: Breaker, weight: int, h: Health, times: seq<int>, at: int)
    requires b.Valid() && MatchesHistory(b, h, times)
    ensures MatchesHistory(b, OnFailure(b, weight, h, at), times + [at])
  {
    var d, n := b.failThreshold, |times|;
    NextQuotient(n, d);
    NextQuotient(n + 1, d);
    if n < d {
      QuotientIsUnique(d, n, 0);
    }
    if n % d + 1 < d && n >= d {
      TripIndex(n, d);
      assert LastTrip(times + [at], d) == LastTrip(times, d);
    }
  }

  lemma {:induction false} RefreshKeepsHealth(t: Directory, items: seq<Endpoint>, k: string)
    requires k in t && Lists(items, k)
    ensures k in Refreshed(t, items) && Refreshed(t, items)[k].health == t[k].health
  {
    var n := |items| - 1;
    if EndpointKey(items[n]) != k {
      var i :| 0 <= i < |items| && EndpointKey(items[i]) == k;
      assert items[..n][i] == items[i];
      RefreshKeepsHealth(t, items[..n], k);
    }
  }

  lemma StepKeepsHistory(b: Breaker, t: Directory, e: Event, k: string, times: seq<int>)
    requires b.Valid() && k in t && MatchesHistory(b, t[k].health, times) && (e.Refresh? ==> Lists(e.items, k))
    ensures k in Step(b, t, e) && MatchesHistory(b, Step(b, t, e)[k].health, TimesAfter(e, k, times))
  {
    match e
    case Success(key) => NewEndpointMatches(b);
    case Failure(key, at) => FailureExtendsHistory(b, t[k].endpoint.weight, t[k].health, times, at);
    case Refresh(items) => RefreshKeepsHealth(t, items, k);
  }

  /**
   For an endpoint that every refresh keeps, after n failures since its last success:
   the streak is n modulo the threshold, and the circuit is untouched below the
   threshold and otherwise open until openDuration after the latest failure whose
   number is a multiple of it.
   */
  lemma {:induction false} BreakerRemembers(b: Breaker, t: Directory, es: seq<Event>, k: string, earlier: seq<int>)
    requires b.Valid() && k in t && MatchesHistory(b, t[k].health, earlier) && KeptBy(es, k)
    ensures k in Run(b, t, es) && MatchesHistory(b, Run(b, t, es)[k].health, FailuresSince(es, k, earlier))
  {
    if es != [] {
      var n := |es| - 1;
      var front := es[..n];
      assert KeptBy(front, k);
      BreakerRemembers(b, t, front, k, earlier);
      StepKeepsHistory(b, Run(b, t, front), es[n], k, FailuresSince(front, k, earlier));
    }
  }

  /** A new endpoint starts with an empty history. */
  lemma NewEndpointMatches(b: Breaker)
    requires b.Valid()
    ensures MatchesHistory(b, NEW_HEALTH, [])
  {
    QuotientIsUnique(b.failThreshold, 0, 0);
  }

  /** Penalties never go negative, whatever is reported. */
  lemma {:induction false} PenaltiesStayNatural(b: Breaker, t: Directory, es: seq<Event>)
    requires forall k :: k in t ==> t[k].health.penalty >= 0
    ensures forall k :: k in Run(b, t, es) ==> Run(b, t, es)[k].health.penalty >= 0
  {
    if es != [] {
      var n := |es| - 1;
      PenaltiesStayNatural(b, t, es[..n]);
      if es[n].Refresh? {
        RefreshedPenalties(Run(b, t, es[..n]), es[n].items);
      }
    }
  }

  lemma {:induction false} RefreshedPenalties(t: Directory, items: seq<Endpoint>)
    requires forall k :: k in t ==> t[k].health.penalty >= 0
    ensures forall k :: k in Refreshed(t, items) ==> Refreshed(t, items)[k].health.penalty >= 0
  {
    if items != [] {
      RefreshedPenalties(t, items[..|items| - 1]);
    }
  }

  /**
   At any point of any run every endpoint has a weight between 1 and its listed weight,
   even after the weight changed.
   */
  lemma WeightStaysInRange(b: Breaker, es: seq<Event>, k: string)
    requires k in Run(b, map[], es)
    ensures var c := Run(b, map[], es)[k];
            1 <= EffectiveWeight(c) <= if c.endpoint.weight >= 1 then c.endpoint.weight else 1
  {
    PenaltiesStayNatural(b, map[], es);
  }

  /** At any point of any run an endpoint is filed under its own key, so a report meets the endpoint it names. */
  lemma {:induction false} KeysNameEndpoints(b: Breaker, es: seq<Event>)
    ensures forall k :: k in Run(b, map[], es) ==> EndpointKey(Run(b, map[], es)[k].endpoint) == k
  {
    if es != [] {
      var n := |es| - 1;
      KeysNameEndpoints(b, es[..n]);
      if es[n].Refresh? {
        RefreshedShape(Run(b, map[], es[..n]), es[n].items);
      }
    }
  }

  /**
   From the failure that trips it until openDuration later an endpoint's circuit is open,
   so that it is not chosen as long as another circuit of its pool is closed.
   */
  lemma TrippedIsOpen(b: Breaker, h: Health, times: seq<int>, now: int)
    requires b.Valid() && MatchesHistory(b, h, times)
    ensures IsClosed(h, now) <==> |times| < b.failThreshold || LastTrip(times, b.failThreshold) + b.openDuration <= now
  {
  }

  lemma TrippedIsAvoided(b: Breaker, cs: seq<Candidate>, times: seq<int>, now: int, draw: int -> int, ep: Endpoint,
                         i: nat, j: nat)
    requires b.Valid() && i < |cs| && j < |cs| && IsChoice(cs, now, draw, ep)
    requires MatchesHistory(b, cs[i].health, times) && |times| >= b.failThreshold
    requires now < LastTrip(times, b.failThreshold) + b.openDuration && IsClosed(cs[j].health, now)
    ensures exists m :: 0 <= m < |cs| && m != i && ep == cs[m].endpoint && IsClosed(cs[m].health, now)
  {
    ChoiceIsSound(cs, now, draw, ep);
    TrippedIsOpen(b, cs[i].health, times, now);
    var m :| 0 <= m < |cs| && ep == cs[m].endpoint && IsBestOf(cs, now, m);
  }
}
