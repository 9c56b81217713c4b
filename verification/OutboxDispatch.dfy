/**
 Filling the outbox and working it off: the deposit event that a scan enqueues
 (services/scan-account-service/internal/worker/scanner_deposit.go) and the four handlers
 that chain deposit, trigger and sweep
 (services/scan-account-service/internal/worker/scanner_outbox.go). Answers of other
 services and failures of store calls are the environment's choice.
 */
module OutboxDispatch {
  import opened Wrappers
  import opened Text
  import opened SeenEvents
  import opened GroupScan
  import opened Outbox

  // ---------------------------------------------------------------- building events

  const TREASURY := "treasury-main"
  const ATTEMPTS := 24

  function OrderId(prefix: string, txHash: string, eventIndex: int, account: string, network: string): string {
    Join([prefix, txHash, Signed(eventIndex), account, NormalPart(network)], '_')
  }

  lemma OrderIdIsPrinted(prefix: string, txHash: string, eventIndex: int, account: string, network: string)
    ensures OrderId(prefix, txHash, eventIndex, account, network) ==
            prefix + "_" + txHash + "_" + Signed(eventIndex) + "_" + account + "_" + NormalPart(network)
  {
    var parts := [prefix, txHash, Signed(eventIndex), account, NormalPart(network)];
    assert parts[4..] == [NormalPart(network)] && parts[3..][1..] == parts[4..] && parts[2..][1..] == parts[3..];
    assert parts[1..][1..] == parts[2..];
    assert Join(parts[3..], '_') == account + ['_'] + NormalPart(network);
    assert Join(parts[2..], '_') == Signed(eventIndex) + ['_'] + Join(parts[3..], '_');
    assert Join(parts[1..], '_') == txHash + ['_'] + Join(parts[2..], '_');
  }

  /** Where a sweep of the watched account would go. */
  function TreasuryOf(w: Watch): string {
    Fallback(w.treasury, TREASURY)
  }

  predicate IsOwnTreasury(w: Watch) {
    Trim(w.account) == Trim(TreasuryOf(w))
  }

  /** What a scan or the reorg pass knows about the transfer when it enqueues. */
  datatype Sighted = Sighted(txHash: string, eventIndex: int, amount: string, from: string, to: string,
                             confirmations: int, requiredConfs: int, unlockConfs: int, scanStatus: ScanStatus)

  function DepositOf(w: Watch, t: Sighted): DepositPayload {
    DepositPayload(
      w.tenant, w.account, OrderId("dep", t.txHash, t.eventIndex, w.account, w.network), t.eventIndex,
      w.chain, w.network, w.coin, t.amount, t.txHash, t.from, t.to, w.address, TreasuryOf(w), Trim(w.cold),
      w.autoSweep, Trim(w.sweepThreshold), Trim(w.hotBalanceCap), t.confirmations, t.requiredConfs,
      t.unlockConfs, t.scanStatus, Ledger(t.scanStatus), !IsOwnTreasury(w), w.autoSweep && !IsOwnTreasury(w))
  }

  function SweepOf(p: DepositPayload): SweepPayload {
    SweepPayload(p.tenant, OrderId("sweep", p.txHash, p.eventIndex, p.account, p.network), p.account,
                 Fallback(p.treasury, TREASURY), Trim(p.cold), Trim(p.hotBalanceCap), p.chain, p.network,
                 Upper(p.coin), p.amount)
  }

  /** An event about the deposit, of the given kind. */
  function EventFor(kind: Kind, p: DepositPayload, payload: Payload): Event {
    Event(Key(kind, KeyOf(p)), p.tenant, Lower(Trim(p.chain)), Lower(Trim(p.network)), payload, 0, ATTEMPTS)
  }

  // ---------------------------------------------------------------- conditions

  predicate MeetsThreshold(amount: string, threshold: string) {
    Trim(threshold) == "" ||
    match (ParseInteger(Trim(amount)), ParseInteger(Trim(threshold)))
    case (Some(a), Some(t)) => a > t
    case _ => false
  }

  /** On numbers the test is strictly above; no threshold is always met, and text that is no integer never meets one. */
  lemma ThresholdOnNumbers(a: int, t: int, reading: string, blank: string)
    requires Trim(blank) == ""
    ensures MeetsThreshold(Signed(a), Signed(t)) <==> a > t
    ensures MeetsThreshold(reading, blank)
    ensures ParseInteger(Trim(reading)).None? ==> !MeetsThreshold(reading, Signed(t))
    ensures ParseInteger(Trim(reading)).None? && Trim(reading) != "" ==> !MeetsThreshold(Signed(a), reading)
  {
    ParseIntegerOfSigned(a);
    ParseIntegerOfSigned(t);
    TrimOfTrimmed(Signed(a));
    TrimOfTrimmed(Signed(t));
  }

  /** The watch's own threshold, or the scanner's when that is blank or zero. */
  function EffectiveThreshold(p: DepositPayload, sweepMin: string): string {
    var own := Trim(p.sweepThreshold);
    if own == "" || own == "0" then Trim(sweepMin) else own
  }

  function WatchedAddress(p: DepositPayload): string {
    if Trim(p.watch) != "" then Trim(p.watch) else Trim(p.to)
  }

  predicate CanNotify(p: DepositPayload) {
    p.tenant != "" && p.account != "" && p.orderId != "" && p.chain != "" && p.network != ""
  }

  predicate CanSweep(s: SweepPayload) {
    s.tenant != "" && s.orderId != "" && s.from != "" && s.chain != "" && s.network != ""
  }

  /** A sweep trigger that goes on to ask for the balance. */
  predicate WantsBalance(p: DepositPayload) {
    p.sweepTrigger && p.autoSweep && WatchedAddress(p) != ""
  }

  // ---------------------------------------------------------------- the handlers, on values

  /** The calls the dispatcher makes to other services, with their answers. */
  datatype Call =
    | Notified(deposit: DepositPayload, ok: bool)
    | ProjectNotified(deposit: DepositPayload, ok: bool)
    | BalanceRead(deposit: DepositPayload, address: string, reply: Option<string>)
    | SweepRan(key: Key, sweep: SweepPayload, ok: bool)

  datatype World = World(rows: OutboxRows, calls: seq<Call>)

  /** The environment's answers while one event is handled. */
  datatype Replies = Replies(notify: bool, projectStored: Outcome, triggerStored: Outcome, project: bool,
                             balance: Option<string>, sweepStored: Outcome, sweep: bool, marked: bool)

  function Called(w: World, c: Call): World {
    w.(calls := w.calls + [c])
  }

  function Spawned(w: World, ev: Event, stored: Outcome, now: int): World {
    if stored == Lost then w else w.(rows := Inserted(w.rows, ev, now))
  }

  function HandleDeposit(w: World, p: DepositPayload, r: Replies, now: int): (World, bool) {
    if !CanNotify(p) then (w, false)
    else
      var w1 := Called(w, Notified(p, r.notify));
      if !r.notify then (w1, false)
      else if p.status != LedgerConfirmed then (w1, true)
      else
        var project := EventFor(ProjectDepositNotify, p, Deposit(p));
        var w2 := if p.projectNotify then Spawned(w1, project, r.projectStored, now) else w1;
        (if p.sweepTrigger then Spawned(w2, EventFor(SweepTrigger, p, Deposit(p)), r.triggerStored, now) else w2, true)
  }

  function HandleProject(w: World, p: DepositPayload, r: Replies): (World, bool) {
    if !p.projectNotify then (w, true) else (Called(w, ProjectNotified(p, r.project)), r.project)
  }

  function HandleTrigger(sweepMin: string, w: World, p: DepositPayload, r: Replies, now: int): (World, bool) {
    if !WantsBalance(p) then (w, true)
    else
      var w1 := Called(w, BalanceRead(p, WatchedAddress(p), r.balance));
      if r.balance.None? then (w1, false)
      else if !MeetsThreshold(r.balance.value, EffectiveThreshold(p, sweepMin)) then (w1, true)
      else
        var ev := EventFor(SweepRun, p, Sweep(SweepOf(p)));
        (Spawned(w1, ev, r.sweepStored, now), r.sweepStored == Applied && Acceptable(ev))
  }

  function HandleSweep(w: World, k: Key, s: SweepPayload, r: Replies): (World, bool) {
    if !CanSweep(s) then (w, false) else (Called(w, SweepRan(k, s, r.sweep)), r.sweep)
  }

  /** A payload of the wrong shape does not decode. */
  function Handle(sweepMin: string, w: World, ev: Event, r: Replies, now: int): (World, bool) {
    match (ev.key.kind, ev.payload)
    case (DepositNotify, Deposit(p)) => HandleDeposit(w, p, r, now)
    case (ProjectDepositNotify, Deposit(p)) => HandleProject(w, p, r)
    case (SweepTrigger, Deposit(p)) => HandleTrigger(sweepMin, w, p, r, now)
    case (SweepRun, Sweep(s)) => HandleSweep(w, ev.key, s, r)
    case _ => (w, false)
  }

  function Marked(w: World, ev: Event, ok: bool, stored: bool, now: int): World {
    if !stored then w
    else w.(rows := if ok then MarkedDone(w.rows, ev.key) else MarkedRetry(w.rows, ev, now))
  }

  function Dispatched(sweepMin: string, w: World, ev: Event, r: Replies, now: int): World {
    var (w1, ok) := Handle(sweepMin, w, ev, r, now);
    Marked(w1, ev, ok, r.marked, now)
  }

  function DispatchedAll(sweepMin: string, w: World, evs: seq<Event>, rs: nat -> Replies, now: int): World {
    if evs == [] then w
    else
      var n := |evs| - 1;
      Dispatched(sweepMin, DispatchedAll(sweepMin, w, evs[..n], rs, now), evs[n], rs(n), now)
  }

  // ---------------------------------------------------------------- the dispatcher

  class Dispatcher {
    const table: OutboxTable
    const sweepMin: string
    ghost var calls: seq<Call>

    ghost function Now(): World
      reads this, table
    {
      World(table.rows, calls)
    }

    constructor (table: OutboxTable, sweepMin: string)
      ensures this.table == table && this.sweepMin == sweepMin && calls == []
    {
      this.table := table;
      this.sweepMin := sweepMin;
      calls := [];
    }

    /** Scans and the reorg pass report a deposit through this. */
    method EnqueueDepositEvent(w: Watch, t: Sighted, stored: Outcome, now: int) returns (ok: bool)
      requires table.Valid()
      modifies table
      ensures table.Valid()
      ensures var ev := EventFor(DepositNotify, DepositOf(w, t), Deposit(DepositOf(w, t)));
              && table.rows == (if stored == Lost then old(table.rows) else Upserted(old(table.rows), ev, now))
              && ok == (stored == Applied && Acceptable(ev))
    {
      var p := DepositOf(w, t);
      if stored == Lost {
        return false;
      }
      ok := table.UpsertOutboxEvent(EventFor(DepositNotify, p, Deposit(p)), now);
      ok := ok && stored == Applied;
    }

    /** An insert that may fail before or after it reaches the table. */
    method Spawn(ev: Event, stored: Outcome, now: int) returns (ok: bool)
      requires table.Valid()
      modifies table
      ensures table.Valid() && Now() == Spawned(old(Now()), ev, stored, now)
      ensures ok == (stored == Applied && Acceptable(ev))
    {
      ok := false;
      if stored != Lost {
        ok := table.InsertOutboxEventIfAbsent(ev, now);
        ok := ok && stored == Applied;
      }
    }

    method HandleDepositOutboxEvent(p: DepositPayload, r: Replies, now: int) returns (ok: bool)
      requires table.Valid()
      modifies this`calls, table
      ensures table.Valid() && (Now(), ok) == HandleDeposit(old(Now()), p, r, now)
    {
      if p.tenant == "" || p.account == "" || p.orderId == "" || p.chain == "" || p.network == "" {
        return false;
      }
      calls := calls + [Notified(p, r.notify)];
      if !r.notify {
        return false;
      }
      if p.status != LedgerConfirmed {
        return true;
      }
      if p.projectNotify {
        var _ := Spawn(EventFor(ProjectDepositNotify, p, Deposit(p)), r.projectStored, now);
      }
      if p.sweepTrigger {
        var _ := Spawn(EventFor(SweepTrigger, p, Deposit(p)), r.triggerStored, now);
      }
      ok := true;
    }

    method HandleSweepTriggerOutboxEvent(p: DepositPayload, r: Replies, now: int) returns (ok: bool)
      requires table.Valid()
      modifies this`calls, table
      ensures table.Valid() && (Now(), ok) == HandleTrigger(sweepMin, old(Now()), p, r, now)
    {
      if !p.sweepTrigger || !p.autoSweep {
        return true;
      }
      var threshold := Trim(p.sweepThreshold);
      if threshold == "" || threshold == "0" {
        threshold := Trim(sweepMin);
      }
      var address := Trim(p.watch);
      if address == "" {
        address := Trim(p.to);
      }
      if address == "" {
        return true;
      }
      calls := calls + [BalanceRead(p, address, r.balance)];
      if r.balance.None? {
        return false;
      }
      if !MeetsThreshold(r.balance.value, threshold) {
        return true;
      }
      ok := Spawn(EventFor(SweepRun, p, Sweep(SweepOf(p))), r.sweepStored, now);
    }

    method HandleEvent(ev: Event, r: Replies, now: int) returns (ok: bool)
      requires table.Valid()
      modifies this`calls, table
      ensures table.Valid() && (Now(), ok) == Handle(sweepMin, old(Now()), ev, r, now)
    {
      match (ev.key.kind, ev.payload)
      case (DepositNotify, Deposit(p)) => ok := HandleDepositOutboxEvent(p, r, now);
      case (SweepTrigger, Deposit(p)) => ok := HandleSweepTriggerOutboxEvent(p, r, now);
      case (ProjectDepositNotify, Deposit(p)) =>
        if !p.projectNotify {
          return true;
        }
        calls := calls + [ProjectNotified(p, r.project)];
        ok := r.project;
      case (SweepRun, Sweep(s)) =>
        if !CanSweep(s) {
          return false;
        }
        calls := calls + [SweepRan(ev.key, s, r.sweep)];
        ok := r.sweep;
      case _ => ok := false;
    }

    method DispatchEvent(ev: Event, r: Replies, now: int)
      requires table.Valid()
      modifies this`calls, table
      ensures table.Valid() && Now() == Dispatched(sweepMin, old(Now()), ev, r, now)
    {
      var ok := HandleEvent(ev, r, now);
      if r.marked {
        if ok {
          table.MarkOutboxEventDone(ev.key);
        } else {
          table.MarkOutboxEventRetry(ev, now);
        }
      }
    }

    /** One pass: list what is due, then handle and mark each event in turn. */
    method DispatchOutbox(limit: int, chains: set<string>, rs: nat -> Replies, now: int) returns (evs: seq<Event>)
      requires table.Valid()
      modifies this`calls, table
      ensures table.Valid() && IsCurrent(old(table.rows), evs)
      ensures Now() == DispatchedAll(sweepMin, old(Now()), evs, rs, now)
    {
      evs := table.ListPendingOutboxEvents(now, limit, chains);
      for i := 0 to |evs|
        invariant table.Valid() && Now() == DispatchedAll(sweepMin, old(Now()), evs[..i], rs, now)
      {
        assert evs[..i + 1][..i] == evs[..i];
        DispatchEvent(evs[i], rs(i), now);
      }
      assert evs[..|evs|] == evs;
    }
  }
}
