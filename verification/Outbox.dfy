/**
 The scanner's outbox table: what its rows hold, how they are keyed, and the statements
 that write and list them (services/scan-account-service/internal/store/postgres.go; the
 keys are in services/scan-account-service/internal/worker/scanner_utils.go).
 */
module Outbox {
  import opened Wrappers
  import opened Text
  import opened SeenEvents

  // ---------------------------------------------------------------- payloads and keys

  datatype Kind = DepositNotify | ProjectDepositNotify | SweepTrigger | SweepRun

  datatype DepositPayload = DepositPayload(
    tenant: string, account: string, orderId: string, eventIndex: int, chain: string, network: string, coin: string,
    amount: string, txHash: string, from: string, to: string, watch: string, treasury: string, cold: string,
    autoSweep: bool, sweepThreshold: string, hotBalanceCap: string, confirmations: int, requiredConfs: int,
    unlockConfs: int, scanStatus: ScanStatus, status: LedgerStatus, projectNotify: bool, sweepTrigger: bool)

  datatype SweepPayload = SweepPayload(
    tenant: string, orderId: string, from: string, treasury: string, cold: string, hotBalanceCap: string,
    chain: string, network: string, asset: string, amount: string)

  datatype Payload = Deposit(deposit: DepositPayload) | Sweep(sweep: SweepPayload)

  /** A row's key: what kind of event it is, and the deposit it belongs to. */
  datatype Key = Key(kind: Kind, deposit: string)

  function Underscored(s: string): (r: string)
    ensures |r| == |s|
    ensures forall i :: 0 <= i < |s| ==> r[i] == if s[i] == ' ' then '_' else s[i]
  {
    seq(|s|, i requires 0 <= i < |s| => if s[i] == ' ' then '_' else s[i])
  }

  function NormalPart(v: string): string {
    var x := Lower(Trim(v));
    if x == "" then "unknown" else Underscored(x)
  }

  /** The part that the four keys of one deposit share. It names no account, no address and no status. */
  function DepositKey(tenant: string, chain: string, network: string, txHash: string, eventIndex: int): string {
    Join([NormalPart(tenant), NormalPart(chain), NormalPart(network), Lower(Trim(txHash)), Signed(eventIndex)], ':')
  }

  lemma NormalPartIsOneWord(v: string)
    requires ':' !in v
    ensures ':' !in NormalPart(v) && NormalPart(v) != ""
  {
    LowerTrimIsStable(v);
  }

  /**
   What a part of the key shows: the trimmed text in lower case with underscores for
   blanks, or that there is none.
   */
  lemma NormalPartShows(v: string, i: nat)
    ensures Trim(v) == "" ==> NormalPart(v) == "unknown"
    ensures Trim(v) != "" && i < |Trim(v)| ==>
              && |NormalPart(v)| == |Trim(v)|
              && NormalPart(v)[i] == if Trim(v)[i] == ' ' then '_' else LowerChar(Trim(v)[i])
  {
  }

  lemma KeyPartsSplit(tenant: string, chain: string, network: string, txHash: string, eventIndex: int)
    requires ':' !in tenant && ':' !in chain && ':' !in network && ':' !in txHash
    ensures Split(DepositKey(tenant, chain, network, txHash, eventIndex), ':') ==
            [NormalPart(tenant), NormalPart(chain), NormalPart(network), Lower(Trim(txHash)), Signed(eventIndex)]
  {
    NormalPartIsOneWord(tenant);
    NormalPartIsOneWord(chain);
    NormalPartIsOneWord(network);
    LowerTrimIsStable(txHash);
    ParseIntegerOfSigned(eventIndex);
    SplitJoin([NormalPart(tenant), NormalPart(chain), NormalPart(network), Lower(Trim(txHash)), Signed(eventIndex)],
              ':');
  }

  /**
   For names without colons, deposits share a key exactly if all parts agree in normal form
   and the index is the same.
   */
  lemma DepositKeysDiffer(a: DepositPayload, b: DepositPayload)
    requires ':' !in a.tenant && ':' !in a.chain && ':' !in a.network && ':' !in a.txHash
    requires ':' !in b.tenant && ':' !in b.chain && ':' !in b.network && ':' !in b.txHash
    ensures KeyOf(a) == KeyOf(b) <==>
            NormalPart(a.tenant) == NormalPart(b.tenant) && NormalPart(a.chain) == NormalPart(b.chain) &&
            NormalPart(a.network) == NormalPart(b.network) && Lower(Trim(a.txHash)) == Lower(Trim(b.txHash)) &&
            a.eventIndex == b.eventIndex
  {
    KeyPartsSplit(a.tenant, a.chain, a.network, a.txHash, a.eventIndex);
    KeyPartsSplit(b.tenant, b.chain, b.network, b.txHash, b.eventIndex);
    ParseIntegerOfSigned(a.eventIndex);
    ParseIntegerOfSigned(b.eventIndex);
    if KeyOf(a) == KeyOf(b) {
      FivePartsEqual(Split(KeyOf(a), ':'), NormalPart(a.tenant), NormalPart(a.chain), NormalPart(a.network),
                     Lower(Trim(a.txHash)), Signed(a.eventIndex));
      FivePartsEqual(Split(KeyOf(b), ':'), NormalPart(b.tenant), NormalPart(b.chain), NormalPart(b.network),
                     Lower(Trim(b.txHash)), Signed(b.eventIndex));
    }
  }

  lemma FivePartsEqual(parts: seq<string>, a: string, b: string, c: string, d: string, e: string)
    requires parts == [a, b, c, d, e]
    ensures parts[0] == a && parts[1] == b && parts[2] == c && parts[3] == d && parts[4] == e
  {
  }

  function KeyOf(p: DepositPayload): string {
    DepositKey(p.tenant, p.chain, p.network, p.txHash, p.eventIndex)
  }

  function Prefix(k: Kind): string {
    match k
    case DepositNotify => "dep"
    case ProjectDepositNotify => "project-dep"
    case SweepTrigger => "sweep-trigger"
    case SweepRun => "sweep"
  }

  /** The event_key column. */
  function Printed(k: Key): string {
    Prefix(k.kind) + [':'] + k.deposit
  }

  lemma PrefixesDiffer(a: Kind, b: Kind)
    requires |Prefix(a)| == |Prefix(b)|
    ensures a == b
  {
  }

  lemma PrefixHasNoSeparator(k: Kind)
    ensures ':' !in Prefix(k)
  {
  }

  /** The printed key starts with the kind's word. */
  lemma PrintedWords(deposit: string)
    ensures Printed(Key(DepositNotify, deposit)) == "dep:" + deposit
    ensures Printed(Key(ProjectDepositNotify, deposit)) == "project-dep:" + deposit
    ensures Printed(Key(SweepTrigger, deposit)) == "sweep-trigger:" + deposit
    ensures Printed(Key(SweepRun, deposit)) == "sweep:" + deposit
  {
  }

  /** Rows of different kinds or deposits never share an event_key. */
  lemma PrintedKeysDiffer(a: Key, b: Key)
    requires Printed(a) == Printed(b)
    ensures a == b
  {
    var p, q := Prefix(a.kind), Prefix(b.kind);
    PrefixHasNoSeparator(a.kind);
    PrefixHasNoSeparator(b.kind);
    SplitPrefix(p, a.deposit, ':');
    SplitPrefix(q, b.deposit, ':');
    assert p == Split(Printed(a), ':')[0] == q;
    PrefixesDiffer(a.kind, b.kind);
    assert a.deposit == Printed(a)[|p| + 1..];
  }

  // ---------------------------------------------------------------- rows

  /** The status column: PENDING, DONE or FAILED. */
  datatype RowState = Queued | Done | Failed

  datatype OutboxRow = OutboxRow(tenant: string, chain: string, network: string, payload: Payload, state: RowState,
                                 attempt: int, maxAttempts: int, nextRetryAt: int)

  /** An event as callers write it and as a listing returns it. */
  datatype Event = Event(key: Key, tenant: string, chain: string, network: string, payload: Payload, attempt: int,
                         maxAttempts: int)

  type OutboxRows = map<Key, OutboxRow>

  function AttemptLimit(maxAttempts: int): int {
    if maxAttempts <= 0 then 12 else maxAttempts
  }

  /** Both inserting statements refuse blank columns. */
  predicate Acceptable(ev: Event) {
    Trim(ev.tenant) != "" && Trim(ev.chain) != "" && Trim(ev.network) != ""
  }

  function FreshRow(ev: Event, now: int): OutboxRow {
    OutboxRow(ev.tenant, ev.chain, ev.network, ev.payload, Queued, 0, AttemptLimit(ev.maxAttempts), now)
  }

  /** UpsertOutboxEvent leaves a settled row alone. */
  function Upserted(rows: OutboxRows, ev: Event, now: int): OutboxRows {
    if !Acceptable(ev) || (ev.key in rows && rows[ev.key].state != Queued) then rows
    else rows[ev.key := FreshRow(ev, now)]
  }

  /** InsertOutboxEventIfAbsent gives a FAILED row another life, and no other. */
  function Inserted(rows: OutboxRows, ev: Event, now: int): OutboxRows {
    if !Acceptable(ev) || (ev.key in rows && rows[ev.key].state != Failed) then rows
    else rows[ev.key := FreshRow(ev, now)]
  }

  function MarkedDone(rows: OutboxRows, k: Key): OutboxRows {
    if k in rows then rows[k := rows[k].(state := Done)] else rows
  }

  /** The attempt counted is the one after the listing's, whatever the row says by now. */
  function MarkedRetry(rows: OutboxRows, ev: Event, now: int): OutboxRows {
    if ev.key !in rows then rows
    else
      var next := ev.attempt + 1;
      var state := if next >= AttemptLimit(ev.maxAttempts) then Failed else Queued;
      rows[ev.key := rows[ev.key].(state := state, attempt := next,
                                   nextRetryAt := now + Backoff(Some(ev.key.kind), next))]
  }

  function Snapshot(k: Key, row: OutboxRow): Event {
    Event(k, row.tenant, row.chain, row.network, row.payload, row.attempt, row.maxAttempts)
  }

  // ---------------------------------------------------------------- back-off

  function Pow2(n: nat): (r: nat)
    ensures r >= 1
  {
    if n == 0 then 1 else 2 * Pow2(n - 1)
  }

  /** First delay and longest delay of a type, in seconds; None is a type the scanner does not know. */
  function Delays(kind: Option<Kind>): (int, int) {
    match kind
    case None => (2, 300)
    case Some(DepositNotify) => (2, 60)
    case Some(ProjectDepositNotify) => (5, 300)
    case Some(SweepTrigger) => (15, 600)
    case Some(SweepRun) => (30, 1800)
  }

  function Backoff(kind: Option<Kind>, attempt: int): int {
    var (base, cap) := Delays(kind);
    var n := if attempt < 1 then 1 else attempt;
    var delay := base * Pow2(if n - 1 < 6 then n - 1 else 6);
    if delay > cap then cap else delay
  }

  lemma {:induction false} Pow2Grows(m: nat, n: nat)
    requires m <= n
    ensures Pow2(m) <= Pow2(n)
    decreases n
  {
    if m < n {
      Pow2Grows(m, n - 1);
    }
  }

  lemma Pow2OfSix()
    ensures Pow2(6) == 64
  {
    assert Pow2(3) == 8;
  }

  /** The delay never shrinks from one attempt to a later one, and stays between the first and the longest delay. */
  lemma BackoffIsMonotone(kind: Option<Kind>, a: int, b: int)
    requires a <= b
    ensures Delays(kind).0 <= Backoff(kind, a) <= Backoff(kind, b) <= Delays(kind).1
  {
    var m := if a < 1 then 0 else if a - 1 < 6 then a - 1 else 6;
    var n := if b < 1 then 0 else if b - 1 < 6 then b - 1 else 6;
    Pow2Grows(m, n);
  }

  /** For the four known types the clamp on the exponent never shows: the delay is plain doubling up to the cap. */
  lemma BackoffIsCappedDoubling(kind: Kind, attempt: int)
    requires attempt >= 1
    ensures var (base, cap) := Delays(Some(kind));
            var doubled := base * Pow2(attempt - 1);
            Backoff(Some(kind), attempt) == if doubled > cap then cap else doubled
  {
    if attempt - 1 > 6 {
      Pow2OfSix();
      Pow2Grows(6, attempt - 1);
    } else if attempt - 1 == 6 {
      Pow2OfSix();
    }
  }

  /** In seconds: where each known type starts, and where and when it ends up. */
  lemma DelaysOfTypes(attempt: int)
    ensures Backoff(Some(DepositNotify), 1) == 2 && (attempt >= 6 ==> Backoff(Some(DepositNotify), attempt) == 60)
    ensures Backoff(Some(ProjectDepositNotify), 1) == 5
    ensures attempt >= 7 ==> Backoff(Some(ProjectDepositNotify), attempt) == 300
    ensures Backoff(Some(SweepTrigger), 1) == 15 && (attempt >= 7 ==> Backoff(Some(SweepTrigger), attempt) == 600)
    ensures Backoff(Some(SweepRun), 1) == 30 && (attempt >= 7 ==> Backoff(Some(SweepRun), attempt) == 1800)
  {
    Pow2OfSix();
    assert Pow2(5) == 32;
  }

  /** An unknown type does show it: its delay stops at 128 seconds, short of its cap. */
  lemma UnknownTypesStopShort(attempt: int)
    ensures Backoff(None, attempt) <= 128 < Delays(None).1
    ensures attempt >= 7 ==> Backoff(None, attempt) == 128
  {
    Pow2OfSix();
    var n := if attempt < 1 then 0 else if attempt - 1 < 6 then attempt - 1 else 6;
    Pow2Grows(n, 6);
  }

  // ---------------------------------------------------------------- listing

  predicate IsDue(row: OutboxRow, now: int, chains: set<string>) {
    row.state == Queued && row.nextRetryAt <= now && (chains == {} || Lower(row.chain) in chains)
  }

  /** The due rows in order of their ids. */
  function Listing(rows: OutboxRows, order: seq<Key>, now: int, chains: set<string>): seq<Event>
    requires forall k :: k in order ==> k in rows
  {
    if order == [] then []
    else
      var n := |order| - 1;
      var k := order[n];
      Listing(rows, order[..n], now, chains) + (if IsDue(rows[k], now, chains) then [Snapshot(k, rows[k])] else [])
  }

  predicate IsCurrentEvent(rows: OutboxRows, ev: Event) {
    ev.key in rows && rows[ev.key].state == Queued && ev == Snapshot(ev.key, rows[ev.key])
  }

  /** Each event is the current row of its key, still queued, and no key comes twice. */
  ghost predicate IsCurrent(rows: OutboxRows, evs: seq<Event>) {
    && (forall i :: 0 <= i < |evs| ==> IsCurrentEvent(rows, evs[i]))
    && (forall i, j :: 0 <= i < j < |evs| ==> evs[i].key != evs[j].key)
  }

  predicate Distinct(order: seq<Key>) {
    forall i, j :: 0 <= i < j < |order| ==> order[i] != order[j]
  }

  lemma {:induction false} ListingIsCurrent(rows: OutboxRows, order: seq<Key>, now: int, chains: set<string>)
    requires Distinct(order) && forall k :: k in order ==> k in rows
    ensures IsCurrent(rows, Listing(rows, order, now, chains))
    ensures forall i :: 0 <= i < |Listing(rows, order, now, chains)| ==>
              Listing(rows, order, now, chains)[i].key in order
  {
    if order != [] {
      ListingIsCurrent(rows, order[..|order| - 1], now, chains);
    }
  }

  /**
   A row is listed exactly if it is PENDING, its retry time has come and its chain is allowed;
   an empty set of chains allows all.
   */
  lemma {:induction false} ListingIsExact(rows: OutboxRows, order: seq<Key>, now: int, chains: set<string>, ev: Event)
    requires forall k :: k in order ==> k in rows
    ensures ev in Listing(rows, order, now, chains) <==>
            && ev.key in order && rows[ev.key].state == Queued && rows[ev.key].nextRetryAt <= now
            && (chains == {} || Lower(rows[ev.key].chain) in chains)
            && ev == Event(ev.key, rows[ev.key].tenant, rows[ev.key].chain, rows[ev.key].network, rows[ev.key].payload,
                           rows[ev.key].attempt, rows[ev.key].maxAttempts)
  {
    if order != [] {
      ListingIsExact(rows, order[..|order| - 1], now, chains, ev);
    }
  }

  /** Nothing that is due is passed over. */
  lemma {:induction false} ListingIsComplete(rows: OutboxRows, order: seq<Key>, now: int, chains: set<string>, k: Key)
    requires (forall k :: k in order ==> k in rows) && k in order && IsDue(rows[k], now, chains)
    ensures Snapshot(k, rows[k]) in Listing(rows, order, now, chains)
  {
    if order[|order| - 1] != k {
      ListingIsComplete(rows, order[..|order| - 1], now, chains, k);
    }
  }

  lemma ListingStep(rows: OutboxRows, order: seq<Key>, n: nat, now: int, chains: set<string>)
    requires n < |order| && forall k :: k in order ==> k in rows
    ensures Listing(rows, order[..n + 1], now, chains) ==
            Listing(rows, order[..n], now, chains)
            + if IsDue(rows[order[n]], now, chains) then [Snapshot(order[n], rows[order[n]])] else []
  {
    var upTo := order[..n + 1];
    assert upTo[..n] == order[..n];
  }

  lemma {:induction false} ListingGrows(rows: OutboxRows, order: seq<Key>, n: nat, now: int, chains: set<string>)
    requires n <= |order| && forall k :: k in order ==> k in rows
    ensures Listing(rows, order[..n], now, chains) <= Listing(rows, order, now, chains)
  {
    if n < |order| {
      var front := order[..|order| - 1];
      ListingGrows(rows, front, n, now, chains);
      assert front[..n] == order[..n];
    } else {
      assert order[..n] == order;
    }
  }

  // ---------------------------------------------------------------- the table

  class OutboxTable {
    var rows: OutboxRows
    /** The keys in the order their rows were created, which is the order of their ids. */
    var order: seq<Key>

    ghost predicate Valid()
      reads this
    {
      Distinct(order) && forall k :: k in rows <==> k in order
    }

    constructor ()
      ensures Valid() && rows == map[]
    {
      rows, order := map[], [];
    }

    method Put(k: Key, row: OutboxRow)
      requires Valid()
      modifies this
      ensures Valid() && rows == old(rows)[k := row]
    {
      if k !in rows {
        order := order + [k];
      }
      rows := rows[k := row];
    }

    method UpsertOutboxEvent(ev: Event, now: int) returns (ok: bool)
      requires Valid()
      modifies this
      ensures Valid() && rows == Upserted(old(rows), ev, now)
      ensures ok <==> Trim(ev.tenant) != "" && Trim(ev.chain) != "" && Trim(ev.network) != ""
      ensures rows == if ok && (ev.key !in old(rows) || old(rows)[ev.key].state == Queued)
                      then old(rows)[ev.key := OutboxRow(ev.tenant, ev.chain, ev.network, ev.payload, Queued, 0,
                                                         if ev.maxAttempts <= 0 then 12 else ev.maxAttempts, now)]
                      else old(rows)
    {
      if !Acceptable(ev) {
        return false;
      }
      if ev.key !in rows || rows[ev.key].state !in {Done, Failed} {
        Put(ev.key, FreshRow(ev, now));
      }
      ok := true;
    }

    method InsertOutboxEventIfAbsent(ev: Event, now: int) returns (ok: bool)
      requires Valid()
      modifies this
      ensures Valid() && rows == Inserted(old(rows), ev, now)
      ensures ok <==> Trim(ev.tenant) != "" && Trim(ev.chain) != "" && Trim(ev.network) != ""
      ensures rows == if ok && (ev.key !in old(rows) || old(rows)[ev.key].state == Failed)
                      then old(rows)[ev.key := OutboxRow(ev.tenant, ev.chain, ev.network, ev.payload, Queued, 0,
                                                         if ev.maxAttempts <= 0 then 12 else ev.maxAttempts, now)]
                      else old(rows)
    {
      if !Acceptable(ev) {
        return false;
      }
      if ev.key !in rows || rows[ev.key].state == Failed {
        Put(ev.key, FreshRow(ev, now));
      }
      ok := true;
    }

    /** At most limit due rows, oldest first; all of them when they fit. */
    method ListPendingOutboxEvents(now: int, limit: int, chains: set<string>) returns (evs: seq<Event>)
      requires Valid()
      ensures IsCurrent(rows, evs)
      ensures evs <= Listing(rows, order, now, chains)
      ensures var n := if limit <= 0 then 200 else limit;
              |evs| == if |Listing(rows, order, now, chains)| < n then |Listing(rows, order, now, chains)| else n
    {
      var n := if limit <= 0 then 200 else limit;
      evs := [];
      var i := 0;
      while i < |order| && |evs| < n
        invariant 0 <= i <= |order| && |evs| <= n
        invariant evs == Listing(rows, order[..i], now, chains)
      {
        var k := order[i];
        ListingStep(rows, order, i, now, chains);
        if IsDue(rows[k], now, chains) {
          evs := evs + [Snapshot(k, rows[k])];
        }
        i := i + 1;
      }
      ListingGrows(rows, order, i, now, chains);
      ListingIsCurrent(rows, order[..i], now, chains);
      assert order[..|order|] == order;
    }

    method MarkOutboxEventDone(k: Key)
      requires Valid()
      modifies this`rows
      ensures Valid() && rows == MarkedDone(old(rows), k)
      ensures rows.Keys == old(rows).Keys
      ensures forall j :: j in rows ==> rows[j] == if j == k then old(rows)[j].(state := Done) else old(rows)[j]
    {
      if k in rows {
        rows := rows[k := rows[k].(state := Done)];
      }
    }

    method MarkOutboxEventRetry(ev: Event, now: int)
      requires Valid()
      modifies this`rows
      ensures Valid() && rows == MarkedRetry(old(rows), ev, now)
      ensures rows.Keys == old(rows).Keys && forall j :: j in rows && j != ev.key ==> rows[j] == old(rows)[j]
      ensures ev.key in rows ==>
                var used := ev.attempt + 1 >= if ev.maxAttempts <= 0 then 12 else ev.maxAttempts;
                rows[ev.key] == old(rows)[ev.key].(state := if used then Failed else Queued, attempt := ev.attempt + 1,
                                                   nextRetryAt := now + Backoff(Some(ev.key.kind), ev.attempt + 1))
    {
      var nextAttempt := ev.attempt + 1;
      var state := Queued;
      if nextAttempt >= AttemptLimit(ev.maxAttempts) {
        state := Failed;
      }
      var backoff := Backoff(Some(ev.key.kind), nextAttempt);
      if ev.key in rows {
        rows := rows[ev.key := rows[ev.key].(state := state, attempt := nextAttempt, nextRetryAt := now + backoff)];
      }
    }
  }
}
