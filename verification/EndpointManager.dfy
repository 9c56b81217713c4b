/**
 The chain gateway's RPC endpoint manager: circuit breaker, weighted random choice and
 refresh (services/chain-gateway/internal/endpoint/manager.go). Times are nanoseconds.
 */
module EndpointManager {
  import opened Wrappers
  import opened Text

  datatype Endpoint = Endpoint(id: int, chain: string, network: string, model: string, url: string, weight: int,
                               timeoutMs: int)

  function EndpointKey(ep: Endpoint): string {
    ep.chain + "|" + ep.network + "|" + ep.model + "|" + ep.url
  }

  function PoolKey(chain: string, network: string, model: string): string {
    chain + "|" + network + "|" + model
  }

  function PoolKeyOf(ep: Endpoint): string {
    PoolKey(ep.chain, ep.network, ep.model)
  }

  // ---------------------------------------------------------------- one endpoint

  /** Breaker and penalty; openUntil is None for the zero time. */
  datatype Health = Health(failStreak: int, penalty: int, openUntil: Option<int>, successes: nat, failures: nat)

  const NEW_HEALTH := Health(0, 0, None, 0, 0)

  datatype Breaker = Breaker(openDuration: int, failThreshold: int) {
    predicate Valid() {
      openDuration > 0 && failThreshold > 0
    }
  }

  /** Unset parameters fall back to 30 seconds and 3 failures. */
  function EffectiveBreaker(openDuration: int, failThreshold: int): (b: Breaker)
    ensures b.Valid()
    ensures b.openDuration == (if openDuration > 0 then openDuration else 30_000_000_000)
    ensures b.failThreshold == (if failThreshold > 0 then failThreshold else 3)
  {
    Breaker(if openDuration <= 0 then 30_000_000_000 else openDuration, if failThreshold <= 0 then 3 else failThreshold)
  }

  function OnSuccess(h: Health): Health {
    Health(0, if h.penalty > 0 then h.penalty - 1 else h.penalty, None, h.successes + 1, h.failures)
  }

  function OnFailure(b: Breaker, weight: int, h: Health, now: int): Health {
    var maxPenalty := if weight - 1 < 0 then 0 else weight - 1;
    var penalty := if h.penalty < maxPenalty then h.penalty + 1 else h.penalty;
    if h.failStreak + 1 >= b.failThreshold then
      Health(0, penalty, Some(now + b.openDuration), h.successes, h.failures + 1)
    else Health(h.failStreak + 1, penalty, h.openUntil, h.successes, h.failures + 1)
  }

  datatype Candidate = Candidate(endpoint: Endpoint, health: Health)

  function EffectiveWeight(c: Candidate): (w: int)
    ensures w >= 1
  {
    var w := c.endpoint.weight - c.health.penalty;
    if w <= 0 then 1 else w
  }

  predicate IsAvailable(c: Candidate, now: int) {
    c.health.openUntil.None? || now >= c.health.openUntil.value
  }

  /** A penalty that successes and failures of an endpoint can lead to. */
  predicate IsWeighed(c: Candidate) {
    c.endpoint.weight >= 1 && 0 <= c.health.penalty < c.endpoint.weight
  }

  /**
   A new endpoint has its listed weight. Each failure takes one off, down to one, and each
   success gives one back, up to the listed weight.
   */
  lemma WeightSteps(b: Breaker, c: Candidate, now: int)
    requires c.endpoint.weight >= 1
    ensures var unused := Candidate(c.endpoint, NEW_HEALTH);
            IsWeighed(unused) && EffectiveWeight(unused) == c.endpoint.weight
    ensures IsWeighed(c) ==>
              var failed := Candidate(c.endpoint, OnFailure(b, c.endpoint.weight, c.health, now));
              var eased := Candidate(c.endpoint, OnSuccess(c.health));
              && IsWeighed(failed) && IsWeighed(eased)
              && EffectiveWeight(failed) == (if EffectiveWeight(c) > 1 then EffectiveWeight(c) - 1 else 1)
              && EffectiveWeight(eased) ==
                 (if EffectiveWeight(c) < c.endpoint.weight then EffectiveWeight(c) + 1 else c.endpoint.weight)
  {
  }

  lemma JoinedNames(a: string, b: string, c: string, rest: string)
    requires '|' !in a && '|' !in b && '|' !in c
    ensures Split(a + "|" + b + "|" + c + "|" + rest, '|') == [a, b, c] + Split(rest, '|')
  {
    var two := c + ['|'] + rest;
    var one := b + ['|'] + two;
    SplitPrefix(c, rest, '|');
    SplitPrefix(b, two, '|');
    SplitPrefix(a, one, '|');
    assert a + "|" + b + "|" + c + "|" + rest == a + ['|'] + one;
    assert [a] + ([b] + ([c] + Split(rest, '|'))) == [a, b, c] + Split(rest, '|');
  }

  predicate HasPlainNames(ep: Endpoint) {
    '|' !in ep.chain && '|' !in ep.network && '|' !in ep.model
  }

  lemma PoolNames(a: string, b: string, c: string)
    requires '|' !in a && '|' !in b && '|' !in c
    ensures Split(PoolKey(a, b, c), '|') == [a, b, c]
  {
    var one := b + ['|'] + c;
    SplitWithoutSeparator(c, '|');
    SplitPrefix(b, c, '|');
    SplitPrefix(a, one, '|');
    assert PoolKey(a, b, c) == a + ['|'] + one;
  }

  /** Names without bars are in one pool exactly if chain, network and model agree. */
  lemma PoolsAreApart(a: Endpoint, chain: string, network: string, model: string)
    requires HasPlainNames(a) && '|' !in chain && '|' !in network && '|' !in model
    ensures PoolKeyOf(a) == PoolKey(chain, network, model)
            <==> a.chain == chain && a.network == network && a.model == model
  {
    PoolNames(a.chain, a.network, a.model);
    PoolNames(chain, network, model);
    var x, y := Split(PoolKeyOf(a), '|'), Split(PoolKey(chain, network, model), '|');
    assert x[0] == a.chain && x[1] == a.network && x[2] == a.model;
    assert y[0] == chain && y[1] == network && y[2] == model;
  }

  lemma EndpointNames(a: Endpoint)
    requires HasPlainNames(a)
    ensures EndpointKey(a) == PoolKeyOf(a) + "|" + a.url
    ensures |Split(EndpointKey(a), '|')| >= 3 && Split(EndpointKey(a), '|')[..3] == [a.chain, a.network, a.model]
  {
    JoinedNames(a.chain, a.network, a.model, a.url);
    var parts := [a.chain, a.network, a.model] + Split(a.url, '|');
    assert parts[..3] == [a.chain, a.network, a.model];
  }

  /** And they share an endpoint key exactly if the url agrees as well. */
  lemma EndpointsAreApart(a: Endpoint, b: Endpoint)
    requires HasPlainNames(a) && HasPlainNames(b)
    ensures EndpointKey(a) == EndpointKey(b) <==>
            a.chain == b.chain && a.network == b.network && a.model == b.model && a.url == b.url
  {
    EndpointNames(a);
    EndpointNames(b);
    if EndpointKey(a) == EndpointKey(b) {
      var x, y := Split(EndpointKey(a), '|')[..3], Split(EndpointKey(b), '|')[..3];
      assert x[0] == a.chain && x[1] == a.network && x[2] == a.model;
      assert y[0] == b.chain && y[1] == b.network && y[2] == b.model;
      assert a.url == EndpointKey(a)[|PoolKeyOf(a)| + 1..];
      assert b.url == EndpointKey(b)[|PoolKeyOf(b)| + 1..];
    }
  }

  // ---------------------------------------------------------------- choosing one

  function Available(cs: seq<Candidate>, now: int): seq<Candidate> {
    if cs == [] then []
    else
      var last := cs[|cs| - 1];
      Available(cs[..|cs| - 1], now) + (if IsAvailable(last, now) then [last] else [])
  }

  lemma {:induction false} AvailableMembers(cs: seq<Candidate>, now: int)
    ensures forall c :: c in Available(cs, now) <==> c in cs && IsAvailable(c, now)
  {
    if cs != [] {
      AvailableMembers(cs[..|cs| - 1], now);
    }
  }

  /** The circuit is closed: it was never opened, or its time is over. */
  predicate IsClosed(h: Health, now: int) {
    match h.openUntil
    case None => true
    case Some(t) => t <= now
  }

  /** Exactly the pool members with a closed circuit are available. */
  lemma {:induction false} AvailableIsClosed(cs: seq<Candidate>, now: int)
    ensures forall c :: c in Available(cs, now) <==> c in cs && IsClosed(c.health, now)
  {
    if cs != [] {
      AvailableIsClosed(cs[..|cs| - 1], now);
    }
  }

  lemma {:induction false} NoneAvailable(cs: seq<Candidate>, now: int)
    requires Available(cs, now) == []
    ensures forall i :: 0 <= i < |cs| ==> cs[i].health.openUntil.Some? && now < cs[i].health.openUntil.value
  {
    if cs != [] {
      NoneAvailable(cs[..|cs| - 1], now);
    }
  }

  function TotalWeight(cs: seq<Candidate>): (w: nat)
    ensures cs != [] ==> w > 0
  {
    if cs == [] then 0 else EffectiveWeight(cs[0]) + TotalWeight(cs[1..])
  }

  /** Walks the weights until the draw falls inside one. */
  function PickIndex(cs: seq<Candidate>, r: int): (i: nat)
    requires 0 <= r < TotalWeight(cs)
    ensures i < |cs|
  {
    if r < EffectiveWeight(cs[0]) then 0 else 1 + PickIndex(cs[1..], r - EffectiveWeight(cs[0]))
  }

  /** An index whose circuit closes first. */
  ghost predicate IsSoonest(cs: seq<Candidate>, i: int) {
    && 0 <= i < |cs| && cs[i].health.openUntil.Some?
    && (forall j :: 0 <= j < |cs| ==>
          cs[j].health.openUntil.Some? && cs[i].health.openUntil.value <= cs[j].health.openUntil.value)
    && (forall j :: 0 <= j < i ==> cs[i].health.openUntil.value < cs[j].health.openUntil.value)
  }

  lemma {:induction false} PickIndexIsInterval(cs: seq<Candidate>, r: int, i: nat)
    requires 0 <= r < TotalWeight(cs) && i < |cs|
    ensures PickIndex(cs, r) == i <==> TotalWeight(cs[..i]) <= r < TotalWeight(cs[..i]) + EffectiveWeight(cs[i])
  {
    var w := EffectiveWeight(cs[0]);
    if i == 0 {
      assert cs[..0] == [];
    } else {
      assert cs[..i][1..] == cs[1..][..i - 1];
      if r >= w {
        PickIndexIsInterval(cs[1..], r - w, i - 1);
      }
    }
  }

  function Draws(lo: int, hi: int): (s: set<int>)
    requires lo <= hi
    ensures |s| == hi - lo
    ensures forall r :: r in s <==> lo <= r < hi
    decreases hi - lo
  {
    if lo == hi then {} else {lo} + Draws(lo + 1, hi)
  }

  lemma {:induction false} WeightSplit(cs: seq<Candidate>, i: nat)
    requires i < |cs|
    ensures TotalWeight(cs[..i]) + EffectiveWeight(cs[i]) <= TotalWeight(cs)
  {
    if i > 0 {
      WeightSplit(cs[1..], i - 1);
      assert cs[..i][1..] == cs[1..][..i - 1];
    }
  }

  /** The draws that select candidate i. */
  function Hits(cs: seq<Candidate>, i: nat): set<int> {
    set r | 0 <= r < TotalWeight(cs) && PickIndex(cs, r) == i
  }

  /** The choice is exact: of the TotalWeight possible draws, exactly EffectiveWeight(i) select candidate i. */
  lemma ChoiceIsExact(cs: seq<Candidate>, i: nat)
    requires i < |cs|
    ensures |Hits(cs, i)| == EffectiveWeight(cs[i])
  {
    var lo := TotalWeight(cs[..i]);
    var draws := Draws(lo, lo + EffectiveWeight(cs[i]));
    WeightSplit(cs, i);
    forall r | 0 <= r < TotalWeight(cs) ensures PickIndex(cs, r) == i <==> r in draws {
      PickIndexIsInterval(cs, r, i);
    }
    assert Hits(cs, i) == draws;
  }

  // ---------------------------------------------------------------- the manager

  class EndpointState {
    var endpoint: Endpoint
    var failStreak: int
    var penalty: int
    var openUntil: Option<int>
    var successCount: nat
    var failureCount: nat

    function Current(): Health
      reads this
    {
      Health(failStreak, penalty, openUntil, successCount, failureCount)
    }

    function Snapshot(): Candidate
      reads this
    {
      Candidate(endpoint, Current())
    }

    constructor (item: Endpoint)
      ensures endpoint == item && Current() == NEW_HEALTH
    {
      endpoint := item;
      failStreak, penalty, openUntil, successCount, failureCount := 0, 0, None, 0, 0;
    }

    method RecordSuccess()
      modifies this
      ensures endpoint == old(endpoint) && Current() == OnSuccess(old(Current()))
      ensures failStreak == 0 && openUntil == None && successCount == old(successCount) + 1
      ensures failureCount == old(failureCount)
      ensures penalty == if old(penalty) > 0 then old(penalty) - 1 else old(penalty)
    {
      failStreak := 0;
      successCount := successCount + 1;
      if penalty > 0 {
        penalty := penalty - 1;
      }
      openUntil := None;
    }

    method RecordFailure(b: Breaker, now: int)
      modifies this
      ensures endpoint == old(endpoint) && Current() == OnFailure(b, endpoint.weight, old(Current()), now)
      ensures failureCount == old(failureCount) + 1 && successCount == old(successCount)
      ensures if old(failStreak) + 1 >= b.failThreshold then failStreak == 0 && openUntil == Some(now + b.openDuration)
              else failStreak == old(failStreak) + 1 && openUntil == old(openUntil)
      ensures penalty == if old(penalty) < endpoint.weight - 1 || old(penalty) < 0 then old(penalty) + 1
                         else old(penalty)
    {
      failStreak := failStreak + 1;
      failureCount := failureCount + 1;
      var maxPenalty := endpoint.weight - 1;
      if maxPenalty < 0 {
        maxPenalty := 0;
      }
      if penalty < maxPenalty {
        penalty := penalty + 1;
      }
      if failStreak >= b.failThreshold {
        openUntil := Some(now + b.openDuration);
        failStreak := 0;
      }
    }
  }

  type Directory = map<string, Candidate>

  /** What a refresh makes of the known endpoints: listed ones keep their health and take the listed data, others go. */
  function Refreshed(v: Directory, items: seq<Endpoint>): Directory {
    if items == [] then map[]
    else
      var last := items[|items| - 1];
      var k := EndpointKey(last);
      Refreshed(v, items[..|items| - 1])[k := Candidate(last, if k in v then v[k].health else NEW_HEALTH)]
  }

  /** After a refresh exactly the listed keys are known. */
  lemma {:induction false} RefreshedKeys(v: Directory, items: seq<Endpoint>, k: string)
    ensures k in Refreshed(v, items) <==> exists i :: 0 <= i < |items| && EndpointKey(items[i]) == k
  {
    if items != [] {
      var n := |items| - 1;
      var front := items[..n];
      RefreshedKeys(v, front, k);
      if k in Refreshed(v, front) {
        var i :| 0 <= i < |front| && EndpointKey(front[i]) == k;
        assert EndpointKey(items[i]) == k;
      }
    }
  }

  /** Each has the data listed last under it, and the health it had before, or a new one's if it was unknown. */
  lemma {:induction false} RefreshedData(v: Directory, items: seq<Endpoint>, k: string) returns (i: nat)
    requires k in Refreshed(v, items)
    ensures Refreshed(v, items)[k].health == (if k in v then v[k].health else NEW_HEALTH)
    ensures IsLastOfKey(items, i) && EndpointKey(items[i]) == k && Refreshed(v, items)[k].endpoint == items[i]
  {
    var n := |items| - 1;
    var front := items[..n];
    if EndpointKey(items[n]) == k {
      i := n;
    } else {
      i := RefreshedData(v, front, k);
      LastOfLonger(front, items[n], i);
      assert front + [items[n]] == items;
    }
  }

  /** After a refresh every endpoint is filed under its own key. */
  lemma {:induction false} RefreshedShape(v: Directory, items: seq<Endpoint>)
    ensures forall k :: k in Refreshed(v, items) ==> EndpointKey(Refreshed(v, items)[k].endpoint) == k
  {
    if items != [] {
      RefreshedShape(v, items[..|items| - 1]);
    }
  }

  function AfterSuccess(t: Directory, key: string): Directory {
    if key in t then t[key := t[key].(health := OnSuccess(t[key].health))] else t
  }

  function AfterFailure(b: Breaker, t: Directory, key: string, now: int): Directory {
    if key in t then t[key := t[key].(health := OnFailure(b, t[key].endpoint.weight, t[key].health, now))] else t
  }

  function Filed(pools: map<string, seq<EndpointState>>, p: string, st: EndpointState): map<string, seq<EndpointState>>
  {
    pools[p := (if p in pools then pools[p] else []) + [st]]
  }

  /** Refresh's pool table: the state object of each listed endpoint appended to its pool, in list order. */
  function PoolsOf(objs: seq<EndpointState>, items: seq<Endpoint>): map<string, seq<EndpointState>>
    requires |objs| == |items|
  {
    if items == [] then map[]
    else
      var n := |items| - 1;
      Filed(PoolsOf(objs[..n], items[..n]), PoolKeyOf(items[n]), objs[n])
  }

  /** The state objects listed for one pool, in list order. */
  function PoolMembers(objs: seq<EndpointState>, items: seq<Endpoint>, p: string): seq<EndpointState>
    requires |objs| == |items|
  {
    if items == [] then []
    else
      var n := |items| - 1;
      PoolMembers(objs[..n], items[..n], p) + (if PoolKeyOf(items[n]) == p then [objs[n]] else [])
  }

  /** Each pool of the refreshed table holds exactly the objects of its listed endpoints, and no pool is empty. */
  lemma {:induction false} PoolShape(objs: seq<EndpointState>, items: seq<Endpoint>, p: string)
    requires |objs| == |items|
    ensures p in PoolsOf(objs, items) <==> PoolMembers(objs, items, p) != []
    ensures p in PoolsOf(objs, items) ==> PoolsOf(objs, items)[p] == PoolMembers(objs, items, p)
  {
    if items != [] {
      var n := |items| - 1;
      PoolShape(objs[..n], items[..n], p);
    }
  }

  /** A pool member is the object of a listed endpoint with that pool key. */
  lemma {:induction false} MembersAreListed(objs: seq<EndpointState>, items: seq<Endpoint>, p: string,
                                            obj: EndpointState)
    returns (i: nat)
    requires |objs| == |items| && obj in PoolMembers(objs, items, p)
    ensures i < |items| && obj == objs[i] && PoolKeyOf(items[i]) == p
  {
    var n := |items| - 1;
    if obj in PoolMembers(objs[..n], items[..n], p) {
      i := MembersAreListed(objs[..n], items[..n], p, obj);
    } else {
      i := n;
    }
  }

  /** And every listed endpoint is a member of its pool. */
  lemma {:induction false} ListedAreMembers(objs: seq<EndpointState>, items: seq<Endpoint>, i: nat)
    requires |objs| == |items| && i < |items|
    ensures objs[i] in PoolMembers(objs, items, PoolKeyOf(items[i]))
  {
    var n := |items| - 1;
    if i < n {
      ListedAreMembers(objs[..n], items[..n], i);
    }
  }

  /** No later endpoint of the list has the same key. */
  ghost predicate IsLastOfKey(items: seq<Endpoint>, i: int) {
    0 <= i < |items| && forall j :: i < j < |items| ==> EndpointKey(items[j]) != EndpointKey(items[i])
  }

  /**
   Which object the list position i got: the one in the state table, if the key was known
   before or is not listed again; otherwise one that the state table has lost.
   */
  ghost predicate IsPlaced(known: map<string, EndpointState>, states: map<string, EndpointState>, items: seq<Endpoint>,
                           obj: EndpointState, i: int)
    requires 0 <= i < |items|
  {
    var k := EndpointKey(items[i]);
    && k in states
    && if k in known || IsLastOfKey(items, i) then obj == states[k] else obj !in states.Values + known.Values
  }

  ghost predicate AllPlaced(known: map<string, EndpointState>, states: map<string, EndpointState>,
                            items: seq<Endpoint>, objs: seq<EndpointState>) {
    |objs| == |items| && forall i :: 0 <= i < |items| ==> IsPlaced(known, states, items, objs[i], i)
  }

  ghost predicate IsInjective(states: map<string, EndpointState>) {
    forall j, k :: j in states && k in states && j != k ==> states[j] != states[k]
  }

  /** Known keys have their known objects, and the others have none of these. */
  ghost predicate ReusesKnown(known: map<string, EndpointState>, states: map<string, EndpointState>) {
    forall k :: k in states ==> if k in known then states[k] == known[k] else states[k] !in known.Values
  }

  /** One more listed endpoint. */
  lemma PlacesOneMore(known: map<string, EndpointState>, states: map<string, EndpointState>, items: seq<Endpoint>,
                      objs: seq<EndpointState>, item: Endpoint, st: EndpointState)
    requires AllPlaced(known, states, items, objs) && IsInjective(known) && IsInjective(states)
    requires ReusesKnown(known, states)
    requires if EndpointKey(item) in known then st == known[EndpointKey(item)]
             else st !in objs && st !in states.Values && st !in known.Values
    ensures AllPlaced(known, states[EndpointKey(item) := st], items + [item], objs + [st])
  {
    var after, more := states[EndpointKey(item) := st], items + [item];
    forall i | 0 <= i < |more| ensures IsPlaced(known, after, more, (objs + [st])[i], i) {
      if i < |items| {
        assert IsPlaced(known, states, items, objs[i], i);
        PlaceStays(known, states, items, objs[i], i, item, st);
      } else {
        assert IsLastOfKey(more, i);
      }
    }
  }

  lemma PlaceStays(known: map<string, EndpointState>, states: map<string, EndpointState>, items: seq<Endpoint>,
                   obj: EndpointState, i: nat, item: Endpoint, st: EndpointState)
    requires i < |items| && IsPlaced(known, states, items, obj, i) && IsInjective(states) && ReusesKnown(known, states)
    requires if EndpointKey(item) in known then st == known[EndpointKey(item)]
             else st != obj && st !in states.Values && st !in known.Values
    ensures IsPlaced(known, states[EndpointKey(item) := st], items + [item], obj, i)
  {
    LastOfLonger(items, item, i);
    assert (items + [item])[i] == items[i];
  }

  lemma LastOfLonger(items: seq<Endpoint>, item: Endpoint, i: nat)
    requires i < |items|
    ensures IsLastOfKey(items + [item], i) <==> IsLastOfKey(items, i) && EndpointKey(item) != EndpointKey(items[i])
  {
    var more := items + [item];
    if IsLastOfKey(more, i) {
      assert more[|items|] == item;
      forall j | i < j < |items| ensures EndpointKey(items[j]) != EndpointKey(items[i]) {
        assert more[j] == items[j];
      }
    }
  }

  /** The lists one endpoint longer, as the loop over them needs it. */
  lemma ListsOneMore(known: map<string, EndpointState>, states: map<string, EndpointState>, items: seq<Endpoint>,
                     n: nat, objs: seq<EndpointState>, st: EndpointState, before: Directory)
    requires n < |items| && AllPlaced(known, states, items[..n], objs) && IsInjective(known) && IsInjective(states)
    requires ReusesKnown(known, states)
    requires if EndpointKey(items[n]) in known then st == known[EndpointKey(items[n])]
             else st !in objs && st !in states.Values && st !in known.Values
    ensures var k := EndpointKey(items[n]);
            var health := if k in before then before[k].health else NEW_HEALTH;
            && AllPlaced(known, states[k := st], items[..n + 1], objs + [st])
            && PoolsOf(objs + [st], items[..n + 1]) == Filed(PoolsOf(objs, items[..n]), PoolKeyOf(items[n]), st)
            && Refreshed(before, items[..n + 1]) ==
               Refreshed(before, items[..n])[k := Candidate(items[n], health)]
  {
    var upTo := items[..n + 1];
    assert upTo == items[..n] + [items[n]] && upTo[..n] == items[..n] && (objs + [st])[..n] == objs;
    PlacesOneMore(known, states, items[..n], objs, items[n], st);
  }

  /** Reports reach every pooled object if and only if each key that is listed again was known before the refresh. */
  lemma PoolsAreTrackedExactly(known: map<string, EndpointState>, states: map<string, EndpointState>,
                               items: seq<Endpoint>, objs: seq<EndpointState>)
    requires AllPlaced(known, states, items, objs)
    ensures (forall i :: 0 <= i < |objs| ==> objs[i] in states.Values)
            <==> (forall i :: 0 <= i < |items| ==> EndpointKey(items[i]) in known || IsLastOfKey(items, i))
  {
    forall i | 0 <= i < |items|
      ensures objs[i] in states.Values <==> EndpointKey(items[i]) in known || IsLastOfKey(items, i)
    {
      assert IsPlaced(known, states, items, objs[i], i);
    }
  }

  datatype SelectError = MissingArgument | NoEndpoint

  class Manager {
    const breaker: Breaker
    var pools: map<string, seq<EndpointState>>
    var states: map<string, EndpointState>

    /** Every endpoint has its own state object, and no pool is empty. */
    ghost predicate Valid()
      reads this, states.Values
    {
      && breaker.Valid()
      && IsInjective(states)
      && (forall p :: p in pools ==> pools[p] != [])
    }

    ghost function Table(): Directory
      reads this, states.Values
    {
      map k | k in states :: states[k].Snapshot()
    }

    constructor (openDuration: int, failThreshold: int)
      ensures Valid() && breaker == EffectiveBreaker(openDuration, failThreshold)
      ensures states == map[] && pools == map[]
    {
      breaker := EffectiveBreaker(openDuration, failThreshold);
      pools := map[];
      states := map[];
    }

    method ReportSuccess(key: string)
      requires Valid()
      modifies states.Values
      ensures Valid()
      ensures Table() == AfterSuccess(old(Table()), key)
    {
      if key in states {
        states[key].RecordSuccess();
      }
    }

    method ReportFailure(key: string, now: int)
      requires Valid()
      modifies states.Values
      ensures Valid()
      ensures Table() == AfterFailure(breaker, old(Table()), key, now)
    {
      if key in states {
        states[key].RecordFailure(breaker, now);
      }
    }

    /** The state object a listed endpoint gets: the known one with the listed data, or a new one. */
    method StateFor(item: Endpoint) returns (st: EndpointState)
      requires IsInjective(states)
      modifies states.Values
      ensures var k := EndpointKey(item);
              && st.endpoint == item
              && (if k in states then st == states[k] && st.Current() == old(st.Current())
                  else fresh(st) && st.Current() == NEW_HEALTH)
              && (forall j :: j in states && j != k ==> unchanged(states[j]))
    {
      var k := EndpointKey(item);
      if k !in states {
        st := new EndpointState(item);
      } else {
        st := states[k];
        st.endpoint := item;
      }
    }

    /** A table under construction: its snapshots are `target`, and it reuses the known state objects. */
    ghost predicate Built(newStates: map<string, EndpointState>, target: Directory, before: Directory)
      reads this, states.Values, newStates.Values
    {
      && newStates.Keys == target.Keys
      && (forall k :: k in newStates ==> newStates[k].Snapshot() == target[k])
      && ReusesKnown(states, newStates) && IsInjective(newStates)
      && states.Keys == before.Keys
      && (forall k :: k in states ==> states[k].Current() == before[k].health)
    }

    method Adopt(item: Endpoint, newStates: map<string, EndpointState>, ghost target: Directory,
                 ghost before: Directory)
      returns (st: EndpointState)
      requires Built(newStates, target, before)
      requires IsInjective(states)
      modifies states.Values
      ensures if EndpointKey(item) in states then st == states[EndpointKey(item)] else fresh(st)
      ensures var k := EndpointKey(item);
              var health := if k in before then before[k].health else NEW_HEALTH;
              Built(newStates[k := st], target[k := Candidate(item, health)], before)
    {
      st := StateFor(item);
    }

    /**
     The loop over the listed endpoints. It looks keys up in the old table only, so a new key
     gets an object each time.
     */
    method BuildTables(items: seq<Endpoint>)
      returns (newPools: map<string, seq<EndpointState>>, newStates: map<string, EndpointState>,
               ghost objs: seq<EndpointState>)
      requires IsInjective(states)
      modifies states.Values
      ensures Built(newStates, Refreshed(old(Table()), items), old(Table()))
      ensures AllPlaced(states, newStates, items, objs) && newPools == PoolsOf(objs, items)
    {
      ghost var before := Table();
      newPools, newStates, objs := map[], map[], [];
      for n := 0 to |items|
        invariant Built(newStates, Refreshed(before, items[..n]), before)
        invariant AllPlaced(states, newStates, items[..n], objs) && newPools == PoolsOf(objs, items[..n])
      {
        var item := items[n];
        ghost var target := Refreshed(before, items[..n]);
        var st := Adopt(item, newStates, target, before);
        ListsOneMore(states, newStates, items, n, objs, st, before);
        newStates := newStates[EndpointKey(item) := st];
        newPools := Filed(newPools, PoolKeyOf(item), st);
        objs := objs + [st];
      }
      assert items[..|items|] == items;
    }

    /** A successful refresh with any list of endpoints; a failed listing changes neither table. */
    method Refresh(items: seq<Endpoint>) returns (ghost objs: seq<EndpointState>)
      requires Valid()
      modifies this`pools, this`states, states.Values
      ensures Valid()
      ensures Table() == Refreshed(old(Table()), items)
      ensures forall k :: k in states && k in old(states) ==> states[k] == old(states[k])
      ensures AllPlaced(old(states), states, items, objs) && pools == PoolsOf(objs, items)
    {
      ghost var before := Table();
      var newPools, newStates;
      newPools, newStates, objs := BuildTables(items);
      forall p | p in newPools ensures newPools[p] != [] {
        PoolShape(objs, items, p);
      }
      pools, states := newPools, newStates;
      assert Table() == Refreshed(before, items);
    }

    /** `draw(n)` is the random number generator's Intn(n). */
    method Select(chain: string, network: string, model: string, now: int, draw: int -> int)
      returns (r: Result<Endpoint, SelectError>)
      requires Valid()
      requires forall n :: n > 0 ==> 0 <= draw(n) < n
      ensures var c, w, m := Lower(Trim(chain)), Lower(Trim(network)), Lower(Trim(model));
              if c == "" || w == "" || m == "" then r == Failure(MissingArgument)
              else if PoolKey(c, w, m) !in pools then r == Failure(NoEndpoint)
              else r.Success? && IsChoice(Snapshots(pools[PoolKey(c, w, m)]), now, draw, r.value)
                   && IsSound(Snapshots(pools[PoolKey(c, w, m)]), now, r.value)
    {
      var c, w, m := Lower(Trim(chain)), Lower(Trim(network)), Lower(Trim(model));
      if c == "" || w == "" || m == "" {
        return Failure(MissingArgument);
      }
      var key := PoolKey(c, w, m);
      if key !in pools {
        return Failure(NoEndpoint);
      }
      var pick := Choose(pools[key], now, draw);
      ChoiceIsSound(Snapshots(pools[key]), now, draw, pick);
      r := Success(pick);
    }
  }

  /** The result that a pool allows: a weighted pick among the available, or the soonest to close if none is. */
  ghost predicate IsChoice(cs: seq<Candidate>, now: int, draw: int -> int, ep: Endpoint) {
    var live := Available(cs, now);
    if live != [] then IsWeightedPick(live, draw(TotalWeight(live)), ep)
    else exists i :: IsSoonest(cs, i) && ep == cs[i].endpoint
  }

  /**
   The endpoint is a pool member's; with any circuit of the pool closed it is one whose
   circuit is, and with all open no circuit closes sooner.
   */
  ghost predicate IsSound(cs: seq<Candidate>, now: int, ep: Endpoint) {
    exists i :: 0 <= i < |cs| && ep == cs[i].endpoint && IsBestOf(cs, now, i)
  }

  ghost predicate IsBestOf(cs: seq<Candidate>, now: int, i: int)
    requires 0 <= i < |cs|
  {
    if exists j :: 0 <= j < |cs| && IsClosed(cs[j].health, now) then IsClosed(cs[i].health, now)
    else forall j :: 0 <= j < |cs| ==> cs[i].health.openUntil.value <= cs[j].health.openUntil.value
  }

  lemma ChoiceIsSound(cs: seq<Candidate>, now: int, draw: int -> int, ep: Endpoint)
    requires IsChoice(cs, now, draw, ep)
    ensures IsSound(cs, now, ep)
  {
    AvailableIsClosed(cs, now);
    var live := Available(cs, now);
    if live != [] {
      var c := live[PickIndex(live, draw(TotalWeight(live)))];
      assert c in live;
      var i :| 0 <= i < |cs| && cs[i] == c;
      assert IsBestOf(cs, now, i);
    } else {
      var i :| IsSoonest(cs, i) && ep == cs[i].endpoint;
      forall j | 0 <= j < |cs| ensures !IsClosed(cs[j].health, now) {
        assert cs[j] in cs;
      }
      assert IsBestOf(cs, now, i);
    }
  }

  ghost predicate IsWeightedPick(live: seq<Candidate>, r: int, ep: Endpoint) {
    0 <= r < TotalWeight(live) && ep == live[PickIndex(live, r)].endpoint
  }

  method Choose(candidates: seq<EndpointState>, now: int, draw: int -> int) returns (ep: Endpoint)
    requires candidates != []
    requires forall n :: n > 0 ==> 0 <= draw(n) < n
    ensures IsChoice(Snapshots(candidates), now, draw, ep)
  {
    var available := FilterAvailable(candidates, now);
    if available == [] {
      ep := ChooseSoonest(candidates, now);
    } else {
      ep := ChooseWeighted(available, draw);
    }
  }

  method ChooseWeighted(available: seq<EndpointState>, draw: int -> int) returns (ep: Endpoint)
    requires available != []
    requires forall n :: n > 0 ==> 0 <= draw(n) < n
    ensures var live := Snapshots(available); IsWeightedPick(live, draw(TotalWeight(live)), ep)
  {
    var n := PickWeighted(available, draw);
    ep := available[n].endpoint;
  }

  /** Every circuit is open: the one that closes first is tried. */
  method ChooseSoonest(candidates: seq<EndpointState>, now: int) returns (ep: Endpoint)
    requires candidates != [] && Available(Snapshots(candidates), now) == []
    ensures exists i :: IsSoonest(Snapshots(candidates), i) && ep == Snapshots(candidates)[i].endpoint
  {
    NoneAvailable(Snapshots(candidates), now);
    var pick := SoonestOf(candidates);
    ep := candidates[pick].endpoint;
  }

  method FilterAvailable(candidates: seq<EndpointState>, now: int) returns (available: seq<EndpointState>)
    ensures Snapshots(available) == Available(Snapshots(candidates), now)
  {
    ghost var cs := Snapshots(candidates);
    available := [];
    for n := 0 to |candidates|
      invariant Snapshots(available) == Available(cs[..n], now)
    {
      var st := candidates[n];
      assert cs[..n + 1][..n] == cs[..n] && cs[..n + 1][n] == st.Snapshot();
      if st.openUntil.None? || now >= st.openUntil.value {
        assert (available + [st])[..|available|] == available;
        available := available + [st];
      }
    }
    assert cs[..|cs|] == cs;
  }

  /** Both loops of the weighted choice; its two fallback returns are dead code. */
  method PickWeighted(available: seq<EndpointState>, draw: int -> int) returns (i: int)
    requires available != []
    requires forall n :: n > 0 ==> 0 <= draw(n) < n
    ensures var live := Snapshots(available); i == PickIndex(live, draw(TotalWeight(live)))
    ensures 0 <= i < |available|
  {
    ghost var live := Snapshots(available);
    var total := 0;
    for n := 0 to |available|
      invariant total + TotalWeight(live[n..]) == TotalWeight(live)
    {
      assert live[n..][0] == live[n] && live[n..][1..] == live[n + 1..];
      total := total + EffectiveWeight(available[n].Snapshot());
    }
    assert total == TotalWeight(live);
    if total <= 0 {
      assert false;
      return 0;
    }
    var d := draw(total);
    var acc := 0;
    for n := 0 to |available|
      invariant 0 <= acc <= d && d - acc < TotalWeight(live[n..])
      invariant n + PickIndex(live[n..], d - acc) == PickIndex(live, d)
    {
      assert live[n..][0] == live[n] && live[n..][1..] == live[n + 1..];
      acc := acc + EffectiveWeight(available[n].Snapshot());
      if d < acc {
        return n;
      }
    }
    assert false;
    return 0;
  }

  /** The loop that looks for the endpoint whose circuit closes first. */
  method SoonestOf(candidates: seq<EndpointState>) returns (pick: nat)
    requires candidates != []
    requires forall i :: 0 <= i < |candidates| ==> candidates[i].openUntil.Some?
    ensures IsSoonest(Snapshots(candidates), pick)
  {
    pick := 0;
    for n := 1 to |candidates|
      invariant pick < n
      invariant IsSoonest(Snapshots(candidates[..n]), pick)
    {
      if candidates[n].openUntil.value < candidates[pick].openUntil.value {
        pick := n;
      }
    }
    assert candidates[..|candidates|] == candidates;
  }

  function Snapshots(pool: seq<EndpointState>): (cs: seq<Candidate>)
    reads pool
    ensures |cs| == |pool|
    ensures forall i :: 0 <= i < |pool| ==> cs[i] == pool[i].Snapshot()
  {
    if pool == [] then [] else Snapshots(pool[..|pool| - 1]) + [pool[|pool| - 1].Snapshot()]
  }
}
