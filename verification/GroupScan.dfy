/**
 The paginated scan of one watch group and its checkpoint
 (services/scan-account-service/internal/worker/scanner_deposit.go, and the checkpoint
 statements of services/scan-account-service/internal/store/postgres.go). Gateway
 replies and the failure of any store call are the environment's choice.
 */
module GroupScan {
  import opened Wrappers
  import opened Text
  import opened Pagination
  import opened SeenEvents

  datatype Watch = Watch(tenant: string, account: string, model: string, chain: string, coin: string, network: string,
                         address: string, minConf: int, unlockConf: int, treasury: string, cold: string,
                         autoSweep: bool, sweepThreshold: string, hotBalanceCap: string)

  datatype Transfer = Transfer(txHash: string, from: string, to: string, amount: string, confirmations: int,
                               index: int, status: string)

  /** What ListIncomingTransfers answers to one call. */
  datatype GatewayReply = GatewayError | Page(items: seq<Transfer>, next: string)

  /** Everything one scan is given: the group, the platform's own addresses, the settings and the gateway's answers. */
  datatype Scan = Scan(network: string, watches: seq<Watch>, managed: set<string>, reorgWindow: int,
                       maxPages: int, limits: Limits, replies: seq<GatewayReply>)

  function Normal(address: string): string {
    Lower(Trim(address))
  }

  /** Transfers out of a managed address move the platform's own money. */
  predicate IsInternal(tx: Transfer, managed: set<string>) {
    Normal(tx.from) != "" && Normal(tx.from) in managed
  }

  /** The watches that a transfer pays into. */
  function Matches(watches: seq<Watch>, to: string): seq<Watch> {
    if watches == [] then []
    else
      var w := watches[|watches| - 1];
      Matches(watches[..|watches| - 1], to) + (if Normal(w.address) == Normal(to) then [w] else [])
  }

  function EventIndex(tx: Transfer, position: nat): int {
    if tx.index <= 0 then position else tx.index
  }

  function KeyFor(w: Watch, tx: Transfer, position: nat): EventKey {
    EventKey(w.tenant, w.account, w.model, w.chain, w.coin, w.network, w.address, tx.txHash, EventIndex(tx, position))
  }

  function SightingOf(scan: Scan, w: Watch, tx: Transfer, position: nat): Sighting {
    var minConf := AtLeastOne(w.minConf);
    var t := Thresholds(minConf, EffectiveUnlock(w.unlockConf, minConf), scan.reorgWindow);
    Sighting(KeyFor(w, tx, position), ResolveStatus(tx.status, tx.confirmations, t), tx.confirmations,
             tx.amount, tx.from, Fallback(tx.to, w.address))
  }

  function MatchSightings(scan: Scan, ws: seq<Watch>, tx: Transfer, position: nat): (r: seq<Sighting>)
    ensures |r| == |ws|
  {
    if ws == [] then []
    else MatchSightings(scan, ws[..|ws| - 1], tx, position) + [SightingOf(scan, ws[|ws| - 1], tx, position)]
  }

  lemma {:induction false} MatchSightingsAt(scan: Scan, ws: seq<Watch>, tx: Transfer, position: nat, i: nat)
    requires i < |ws|
    ensures MatchSightings(scan, ws, tx, position)[i] == SightingOf(scan, ws[i], tx, position)
  {
    if i < |ws| - 1 {
      MatchSightingsAt(scan, ws[..|ws| - 1], tx, position, i);
    }
  }

  /** The rows one transfer asks for: none if it is internal or pays nobody. */
  function TxSightings(scan: Scan, tx: Transfer, position: nat): seq<Sighting> {
    if IsInternal(tx, scan.managed) || Normal(tx.to) == "" then []
    else MatchSightings(scan, Matches(scan.watches, tx.to), tx, position)
  }

  function PageSightings(scan: Scan, items: seq<Transfer>): seq<Sighting> {
    if items == [] then []
    else
      var n := |items| - 1;
      PageSightings(scan, items[..n]) + TxSightings(scan, items[n], n)
  }

  /** One fetched page and the cursor it was asked for with. */
  datatype Fetch = Fetch(at: string, items: seq<Transfer>, next: string)

  function ScanSightings(scan: Scan, fs: seq<Fetch>): seq<Sighting> {
    if fs == [] then [] else ScanSightings(scan, fs[..|fs| - 1]) + PageSightings(scan, fs[|fs| - 1].items)
  }

  /** The page as the pagination guard sees it. */
  function Seen(f: Fetch): Observation {
    Observation(f.at, f.next, |f.items|)
  }

  function Observations(fs: seq<Fetch>): (r: seq<Observation>)
    ensures |r| == |fs|
    ensures forall i :: 0 <= i < |fs| ==> r[i] == Seen(fs[i])
  {
    seq(|fs|, i requires 0 <= i < |fs| => Seen(fs[i]))
  }

  /** The cursor that page i is asked for with. */
  function CursorBefore(start: string, fs: seq<Fetch>, i: nat): string
    requires i <= |fs|
  {
    if i == 0 then start else fs[i - 1].next
  }

  /** What the guard remembers after the pages. */
  function GuardMemory(scan: Scan, fs: seq<Fetch>): Memory {
    MemoryAfter(scan.limits, Observations(fs))
  }

  function Verdict(scan: Scan, fs: seq<Fetch>, i: int): Decision
    requires 0 <= i < |fs|
  {
    DecisionAt(scan.limits, Observations(fs), i)
  }

  function ReplyOf(f: Fetch): GatewayReply {
    Page(f.items, f.next)
  }

  /** The pages are the gateway's answers in order, each asked for with the cursor the page before led to. */
  ghost predicate Chained(scan: Scan, start: string, fs: seq<Fetch>) {
    && |fs| <= |scan.replies|
    && (forall i :: 0 <= i < |fs| ==> scan.replies[i] == ReplyOf(fs[i]))
    && (forall i {:trigger CursorBefore(start, fs, i)} :: 0 <= i < |fs| ==> fs[i].at == CursorBefore(start, fs, i))
  }

  ghost predicate IsTrace(scan: Scan, start: string, fs: seq<Fetch>) {
    Chained(scan, start, fs) && RunsOn(scan.limits, Observations(fs))
  }

  /** The cursor to store: past the last page that led on, or past an empty page that ended the scan. */
  function NextCheckpoint(scan: Scan, start: string, fs: seq<Fetch>): string {
    if fs == [] then start
    else
      var last := fs[|fs| - 1];
      if Verdict(scan, fs, |fs| - 1) in {Advance, Stop(MaxEmptyPages)} then last.next else last.at
  }

  // ---------------------------------------------------------------- the checkpoint

  predicate Numeric(s: string) {
    s != "" && AllDigits(s)
  }

  /** UpsertChainCheckpoint: a numeric cursor never replaces a larger numeric one. */
  function Saved(was: Option<string>, cursor: string): Option<string> {
    if was.Some? && Numeric(cursor) && Numeric(was.value) && DecimalValue(cursor) < DecimalValue(was.value) then was
    else Some(cursor)
  }

  /** Only a strictly smaller number fails to replace a number. */
  lemma SavedMovesOn(was: Option<string>, cursor: string)
    ensures Saved(was, cursor) == Some(cursor) ||
            (was.Some? && Saved(was, cursor) == was && IsBelow(cursor, was.value))
    ensures was.Some? && IsBelow(cursor, was.value) ==> Saved(was, cursor) == was
  {
  }

  /** Both cursors are numbers, and the first is the smaller one. */
  predicate IsBelow(a: string, b: string) {
    a != "" && b != "" && AllDigits(a) && AllDigits(b) && DecimalValue(a) < DecimalValue(b)
  }

  datatype Tables = Tables(seen: Rows, checkpoint: Option<string>)

  /** GetChainCheckpoint: the stored cursor, or else the newest one of a single address. */
  function StartCursor(t: Tables, addressCursor: string): string {
    if t.checkpoint.Some? then t.checkpoint.value else addressCursor
  }

  function PageLimit(scan: Scan): nat {
    if scan.maxPages <= 0 then 1 else scan.maxPages
  }

  /** It fetched at least one page and stopped only where the guard or the page limit says so. */
  ghost predicate RunsToEnd(scan: Scan, fs: seq<Fetch>) {
    0 < |fs| <= PageLimit(scan) && (|fs| < PageLimit(scan) ==> Verdict(scan, fs, |fs| - 1) != Advance)
  }

  /** A scan that ran to its end. */
  ghost predicate Completed(scan: Scan, start: string, before: Tables, after: Tables, fs: seq<Fetch>) {
    && IsTrace(scan, start, fs) && RunsToEnd(scan, fs)
    && after.seen == UpsertAll(before.seen, ScanSightings(scan, fs))
    && after.checkpoint == Saved(before.checkpoint, NextCheckpoint(scan, start, fs))
  }

  /** A scan that stopped on an error: some rows may be written, the checkpoint is not. */
  ghost predicate Aborted(scan: Scan, start: string, before: Tables, after: Tables, fs: seq<Fetch>,
                          stored: seq<Sighting>)
  {
    && IsTrace(scan, start, fs) && stored <= ScanSightings(scan, fs)
    && after.seen == UpsertAll(before.seen, stored)
    && after.checkpoint == before.checkpoint
  }

  // ---------------------------------------------------------------- traces grow page by page

  lemma {:induction false} PageSightingsGrow(scan: Scan, items: seq<Transfer>, m: nat)
    requires m <= |items|
    ensures PageSightings(scan, items[..m]) <= PageSightings(scan, items)
  {
    if m < |items| {
      var front := items[..|items| - 1];
      PageSightingsGrow(scan, front, m);
      assert front[..m] == items[..m];
      assert PageSightings(scan, front) <= PageSightings(scan, items);
    } else {
      assert items[..m] == items;
    }
  }

  lemma PageSightingsStep(scan: Scan, items: seq<Transfer>, n: nat)
    requires n < |items|
    ensures PageSightings(scan, items[..n + 1]) == PageSightings(scan, items[..n]) + TxSightings(scan, items[n], n)
  {
    var upTo := items[..n + 1];
    assert upTo[..n] == items[..n];
  }

  lemma PrefixGrows<T>(done: seq<T>, some: seq<T>, more: seq<T>, all: seq<T>)
    requires some <= more && done + more <= all
    ensures done + some <= all
  {
    assert done + more == done + some + more[|some|..];
  }

  /** The sightings of transfer n come right after those of the transfers before it. */
  lemma TransferIsNext(scan: Scan, items: seq<Transfer>, n: nat, some: seq<Sighting>)
    requires n < |items| && some <= TxSightings(scan, items[n], n)
    ensures PageSightings(scan, items[..n]) + some <= PageSightings(scan, items)
  {
    PageSightingsStep(scan, items, n);
    PageSightingsGrow(scan, items, n + 1);
    PrefixGrows(PageSightings(scan, items[..n]), some, TxSightings(scan, items[n], n), PageSightings(scan, items));
  }

  /** One more page leaves the earlier verdicts alone, and its own is what the guard answers next. */
  lemma VerdictsExtend(scan: Scan, fs: seq<Fetch>, f: Fetch)
    ensures forall i :: 0 <= i < |fs| ==> Verdict(scan, fs + [f], i) == Verdict(scan, fs, i)
    ensures Observed(scan.limits, GuardMemory(scan, fs), Seen(f)) ==
            (GuardMemory(scan, fs + [f]), Verdict(scan, fs + [f], |fs|))
  {
    assert Observations(fs + [f]) == Observations(fs) + [Seen(f)];
    OneMorePage(scan.limits, Observations(fs), Seen(f));
  }

  lemma SightingsExtend(scan: Scan, fs: seq<Fetch>, f: Fetch)
    ensures ScanSightings(scan, fs + [f]) == ScanSightings(scan, fs) + PageSightings(scan, f.items)
  {
    assert (fs + [f])[..|fs|] == fs;
  }

  lemma ChainExtends(scan: Scan, start: string, fs: seq<Fetch>, f: Fetch)
    requires Chained(scan, start, fs)
    requires |fs| < |scan.replies| && scan.replies[|fs|] == ReplyOf(f)
    requires f.at == CursorBefore(start, fs, |fs|)
    ensures Chained(scan, start, fs + [f])
  {
    var gs := fs + [f];
    forall i {:trigger CursorBefore(start, gs, i)} | 0 <= i < |gs| ensures gs[i].at == CursorBefore(start, gs, i) {
      assert CursorBefore(start, gs, i) == CursorBefore(start, fs, i);
    }
  }

  lemma TraceRunsOn(scan: Scan, fs: seq<Fetch>, f: Fetch)
    requires RunsOn(scan.limits, Observations(fs)) && (fs != [] ==> Verdict(scan, fs, |fs| - 1) == Advance)
    ensures RunsOn(scan.limits, Observations(fs + [f]))
  {
    assert Observations(fs + [f]) == Observations(fs) + [Seen(f)];
    RunsOnExtends(scan.limits, Observations(fs), Seen(f));
  }

  /** Where the page loop stands: cursor, checkpoint to store, whether to stop, and the guard's memory. */
  datatype Progress = Progress(current: string, next: string, stop: bool, memory: Memory)

  ghost predicate StandsAt(scan: Scan, start: string, fs: seq<Fetch>, at: Progress) {
    && IsTrace(scan, start, fs) && at.next == NextCheckpoint(scan, start, fs) && at.memory == GuardMemory(scan, fs)
    && (at.stop ==> fs != [] && Verdict(scan, fs, |fs| - 1) != Advance)
    && (!at.stop ==> at.current == CursorBefore(start, fs, |fs|))
    && (!at.stop && fs != [] ==> Verdict(scan, fs, |fs| - 1) == Advance)
  }

  lemma StartsAt(scan: Scan, start: string)
    ensures StandsAt(scan, start, [], Progress(start, start, false, FRESH))
  {
    assert Observations([]) == [];
  }

  lemma TraceGrows(scan: Scan, start: string, fs: seq<Fetch>, at: Progress, f: Fetch)
    requires StandsAt(scan, start, fs, at) && !at.stop && f.at == at.current
    requires |fs| < |scan.replies| && scan.replies[|fs|] == ReplyOf(f)
    ensures IsTrace(scan, start, fs + [f])
  {
    ChainExtends(scan, start, fs, f);
    TraceRunsOn(scan, fs, f);
  }

  /** One page further: what the loop does with the guard's verdict is what the trace says. */
  lemma MovesOn(scan: Scan, start: string, fs: seq<Fetch>, at: Progress, f: Fetch, memory: Memory, verdict: Decision)
    requires StandsAt(scan, start, fs, at) && !at.stop && f.at == at.current && IsTrace(scan, start, fs + [f])
    requires (memory, verdict) == Observed(scan.limits, at.memory, Seen(f))
    ensures StandsAt(scan, start, fs + [f],
                 Progress(if verdict == Advance then f.next else at.current,
                          if verdict in {Advance, Stop(MaxEmptyPages)} then f.next else at.next,
                          verdict != Advance, memory))
  {
    VerdictsExtend(scan, fs, f);
    var gs := fs + [f];
    assert gs[|gs| - 1] == f && CursorBefore(start, gs, |gs|) == f.next;
    CheckpointAtCursor(scan, start, fs);
  }

  /** While the scan goes on, the checkpoint it would store is its cursor. */
  lemma CheckpointAtCursor(scan: Scan, start: string, fs: seq<Fetch>)
    requires fs != [] ==> Verdict(scan, fs, |fs| - 1) == Advance
    ensures NextCheckpoint(scan, start, fs) == CursorBefore(start, fs, |fs|)
  {
  }

  // ---------------------------------------------------------------- the scan itself

  /** The store calls that may fail. */
  datatype Site =
    | ReadCheckpoint
    | ListManaged
    | UpsertSeen(page: nat, tx: nat, watch: nat)
    | Enqueue(page: nat, tx: nat, watch: nat)
    | SaveCheckpoint

  /** The gateway answers as many calls as the scan may make. */
  ghost predicate GatewayAnswers(scan: Scan) {
    |scan.replies| >= PageLimit(scan) && forall i :: 0 <= i < PageLimit(scan) ==> scan.replies[i].Page?
  }

  ghost predicate StoreWorks(outcome: Site -> Outcome) {
    forall site :: outcome(site) == Applied
  }

  /** The sightings are in the rows, and exactly those that were news have had their events enqueued. */
  ghost predicate IsRecorded(before: Rows, earlier: seq<Sighting>, stored: seq<Sighting>, rows: Rows,
                             enqueued: seq<Sighting>)
  {
    rows == UpsertAll(before, stored) && enqueued == earlier + NewsAmong(before, stored)
  }

  lemma NothingRecorded(rows: Rows, enqueued: seq<Sighting>)
    ensures IsRecorded(rows, enqueued, [], rows, enqueued)
  {
  }

  lemma RecordedAppend(before: Rows, earlier: seq<Sighting>, a: seq<Sighting>, mid: Rows, soFar: seq<Sighting>,
                       b: seq<Sighting>, rows: Rows, enqueued: seq<Sighting>)
    requires IsRecorded(before, earlier, a, mid, soFar) && IsRecorded(mid, soFar, b, rows, enqueued)
    ensures IsRecorded(before, earlier, a + b, rows, enqueued)
  {
    UpsertAllAppend(before, a, b);
    NewsAmongAppend(before, a, b);
  }

  lemma OneRecorded(before: Rows, earlier: seq<Sighting>, s: Sighting, notify: bool)
    requires notify <==> IsNews(before, s)
    ensures IsRecorded(before, earlier, [s], Upsert(before, s), earlier + if notify then [s] else [])
  {
    assert [s][..0] == [];
    assert UpsertAll(before, []) == before;
  }

  class Scanner {
    var table: SeenTable
    var checkpoint: Option<string>
    /** The sightings for which a deposit event was enqueued without error. */
    ghost var enqueued: seq<Sighting>

    ghost function State(): Tables
      reads this, table
    {
      Tables(table.rows, checkpoint)
    }

    constructor (table: SeenTable, checkpoint: Option<string>)
      ensures this.table == table && this.checkpoint == checkpoint && enqueued == []
    {
      enqueued := [];
      this.table := table;
      this.checkpoint := checkpoint;
    }

    /** The innermost loop: one row per matched watch, then one enqueue if the row was news. */
    method RecordMatches(scan: Scan, matched: seq<Watch>, tx: Transfer, page: nat, position: nat,
                         outcome: Site -> Outcome)
      returns (ok: bool, ghost stored: seq<Sighting>)
      modifies table`rows, this`enqueued
      ensures stored <= MatchSightings(scan, matched, tx, position) && table.rows == UpsertAll(old(table.rows), stored)
      ensures ok ==> stored == MatchSightings(scan, matched, tx, position)
      ensures ok ==> IsRecorded(old(table.rows), old(enqueued), stored, table.rows, enqueued)
      ensures StoreWorks(outcome) ==> ok
    {
      ghost var all := MatchSightings(scan, matched, tx, position);
      stored := [];
      NothingRecorded(table.rows, enqueued);
      for n := 0 to |matched|
        invariant stored == all[..n] && table.rows == UpsertAll(old(table.rows), stored)
        invariant IsRecorded(old(table.rows), old(enqueued), stored, table.rows, enqueued)
      {
        ghost var rows, soFar := table.rows, enqueued;
        MatchSightingsAt(scan, matched, tx, position, n);
        var sighting := SightingOf(scan, matched[n], tx, position);
        ghost var more;
        ok, more := RecordOne(sighting, outcome(UpsertSeen(page, position, n)), outcome(Enqueue(page, position, n)));
        UpsertAllAppend(old(table.rows), stored, more);
        if !ok {
          return ok, stored + more;
        }
        RecordedAppend(old(table.rows), old(enqueued), stored, rows, soFar, more, table.rows, enqueued);
        stored := stored + more;
      }
      ok := true;
    }

    /** One row, and one enqueue if the row was news. */
    method RecordOne(s: Sighting, upsert: Outcome, enqueue: Outcome) returns (ok: bool, ghost stored: seq<Sighting>)
      modifies table`rows, this`enqueued
      ensures stored <= [s] && table.rows == UpsertAll(old(table.rows), stored)
      ensures ok ==> stored == [s] && IsRecorded(old(table.rows), old(enqueued), stored, table.rows, enqueued)
      ensures upsert == Applied && enqueue == Applied ==> ok
    {
      if upsert == Lost {
        return false, [];
      }
      stored := [s];
      var change := table.UpsertSeenEvent(s);
      OneRecorded(old(table.rows), old(enqueued), s, change.notify);
      if upsert != Applied || (change.notify && enqueue != Applied) {
        return false, stored;
      }
      if change.notify {
        enqueued := enqueued + [s];
      }
      ok := true;
    }

    /** One transfer: internal ones and those that pay no address are passed over. */
    method RecordTransfer(scan: Scan, tx: Transfer, page: nat, position: nat, outcome: Site -> Outcome)
      returns (ok: bool, ghost stored: seq<Sighting>)
      modifies table`rows, this`enqueued
      ensures stored <= TxSightings(scan, tx, position) && table.rows == UpsertAll(old(table.rows), stored)
      ensures ok ==> stored == TxSightings(scan, tx, position)
      ensures ok ==> IsRecorded(old(table.rows), old(enqueued), stored, table.rows, enqueued)
      ensures StoreWorks(outcome) ==> ok
    {
      if IsInternal(tx, scan.managed) || Normal(tx.to) == "" {
        return true, [];
      }
      ok, stored := RecordMatches(scan, Matches(scan.watches, tx.to), tx, page, position, outcome);
    }

    /** The loop over the transfers of one page. */
    method RecordPage(scan: Scan, items: seq<Transfer>, page: nat, outcome: Site -> Outcome)
      returns (ok: bool, ghost stored: seq<Sighting>)
      modifies table`rows, this`enqueued
      ensures stored <= PageSightings(scan, items) && table.rows == UpsertAll(old(table.rows), stored)
      ensures ok ==> stored == PageSightings(scan, items)
      ensures ok ==> IsRecorded(old(table.rows), old(enqueued), stored, table.rows, enqueued)
      ensures StoreWorks(outcome) ==> ok
    {
      stored := [];
      NothingRecorded(table.rows, enqueued);
      for n := 0 to |items|
        invariant stored == PageSightings(scan, items[..n]) && table.rows == UpsertAll(old(table.rows), stored)
        invariant IsRecorded(old(table.rows), old(enqueued), stored, table.rows, enqueued)
      {
        ghost var more;
        ghost var rows, soFar := table.rows, enqueued;
        ok, more := RecordTransfer(scan, items[n], page, n, outcome);
        TransferIsNext(scan, items, n, more);
        if !ok {
          UpsertAllAppend(old(table.rows), stored, more);
          return ok, stored + more;
        }
        PageSightingsStep(scan, items, n);
        RecordedAppend(old(table.rows), old(enqueued), stored, rows, soFar, more, table.rows, enqueued);
        stored := stored + more;
      }
      assert items[..|items|] == items;
      ok := true;
    }

    /** One page: its rows, then the guard's verdict on it. */
    method ScanPage(scan: Scan, items: seq<Transfer>, current: string, next: string, page: nat, guard: Guard,
                    outcome: Site -> Outcome)
      returns (ok: bool, verdict: Decision, ghost stored: seq<Sighting>)
      requires guard.limits == scan.limits
      modifies table`rows, this`enqueued, guard
      ensures stored <= PageSightings(scan, items) && table.rows == UpsertAll(old(table.rows), stored)
      ensures ok ==> stored == PageSightings(scan, items)
      ensures ok ==> IsRecorded(old(table.rows), old(enqueued), stored, table.rows, enqueued)
      ensures StoreWorks(outcome) ==> ok
      ensures ok ==>
                (guard.Current(), verdict) ==
                Observed(scan.limits, old(guard.Current()), Observation(current, next, |items|))
    {
      verdict := Advance;
      ok, stored := RecordPage(scan, items, page, outcome);
      if ok {
        verdict := guard.Observe(current, next, |items|);
      }
    }

    /** Page number |fs| of a scan that stands at the given cursor. */
    method TakePage(scan: Scan, ghost start: string, ghost fs: seq<Fetch>, ghost stored: seq<Sighting>,
                    ghost before: Rows, ghost earlier: seq<Sighting>, current: string, ghost next: string, guard: Guard,
                    outcome: Site -> Outcome, i: nat)
      returns (ok: bool, verdict: Decision, ghost all: seq<Sighting>)
      requires guard.limits == scan.limits && StandsAt(scan, start, fs, Progress(current, next, false, guard.Current()))
      requires stored == ScanSightings(scan, fs) && IsRecorded(before, earlier, stored, table.rows, enqueued)
      requires i == |fs| < |scan.replies| && scan.replies[i].Page?
      modifies table`rows, this`enqueued, guard
      ensures var fetch := Fetch(current, scan.replies[i].items, scan.replies[i].next);
              && IsTrace(scan, start, fs + [fetch]) && all <= ScanSightings(scan, fs + [fetch])
              && table.rows == UpsertAll(before, all)
              && (ok ==>
                    && all == ScanSightings(scan, fs + [fetch])
                    && IsRecorded(before, earlier, all, table.rows, enqueued)
                    && StandsAt(scan, start, fs + [fetch],
                                Progress(if verdict == Advance then fetch.next else current,
                                         if verdict in {Advance, Stop(MaxEmptyPages)} then fetch.next else next,
                                         verdict != Advance, guard.Current())))
      ensures StoreWorks(outcome) ==> ok
    {
      var page := scan.replies[i];
      ghost var fetch, at := Fetch(current, page.items, page.next), Progress(current, next, false, guard.Current());
      TraceGrows(scan, start, fs, at, fetch);
      SightingsExtend(scan, fs, fetch);
      ghost var more;
      ghost var rows, soFar := table.rows, enqueued;
      ok, verdict, more := ScanPage(scan, page.items, current, page.next, i, guard, outcome);
      all := stored + more;
      if !ok {
        UpsertAllAppend(before, stored, more);
        return;
      }
      RecordedAppend(before, earlier, stored, rows, soFar, more, table.rows, enqueued);
      MovesOn(scan, start, fs, at, fetch, guard.Current(), verdict);
    }

    /** The page loop. */
    method ScanPages(scan: Scan, start: string, outcome: Site -> Outcome)
      returns (ok: bool, next: string, ghost fs: seq<Fetch>, ghost stored: seq<Sighting>)
      modifies table`rows, this`enqueued
      ensures IsTrace(scan, start, fs) && stored <= ScanSightings(scan, fs)
      ensures table.rows == UpsertAll(old(table.rows), stored)
      ensures ok ==> RunsToEnd(scan, fs) && stored == ScanSightings(scan, fs) && next == NextCheckpoint(scan, start, fs)
      ensures ok ==> IsRecorded(old(table.rows), old(enqueued), stored, table.rows, enqueued)
      ensures StoreWorks(outcome) && GatewayAnswers(scan) ==> ok
    {
      var guard := new Guard(scan.limits.maxEmptyPages, scan.limits.cursorStallGuard);
      var current, stop, i := start, false, 0;
      next, fs, stored := start, [], [];
      var maxPages := if scan.maxPages <= 0 then 1 else scan.maxPages;
      StartsAt(scan, start);
      NothingRecorded(table.rows, enqueued);
      while i < maxPages && !stop
        invariant i == |fs| && guard.limits == scan.limits && fresh(guard)
        invariant StandsAt(scan, start, fs, Progress(current, next, stop, guard.Current()))
        invariant stored == ScanSightings(scan, fs) && table.rows == UpsertAll(old(table.rows), stored)
        invariant IsRecorded(old(table.rows), old(enqueued), stored, table.rows, enqueued)
        invariant i <= maxPages
        decreases maxPages - i, !stop
      {
        if i >= |scan.replies| || scan.replies[i].GatewayError? {
          return false, next, fs, stored;
        }
        var page := scan.replies[i];
        ghost var fetch := Fetch(current, page.items, page.next);
        var verdict;
        ok, verdict, stored := TakePage(scan, start, fs, stored, old(table.rows), old(enqueued), current, next, guard,
                                        outcome, i);
        fs := fs + [fetch];
        if !ok {
          return;
        }
        if verdict == Advance || verdict == Stop(MaxEmptyPages) {
          next := page.next;
        }
        stop := verdict != Advance;
        if !stop {
          current := page.next;
        }
        i := i + 1;
      }
      ok := true;
    }

    /**
     The whole scan. Only a checkpoint statement that was applied and still reported an error
     fails with all rows written.
     */
    method ScanGroup(scan: Scan, addressCursor: string, outcome: Site -> Outcome)
      returns (ok: bool, ghost fs: seq<Fetch>, ghost stored: seq<Sighting>)
      modifies this`checkpoint, this`enqueued, table`rows
      ensures ok && fs == [] ==> State() == old(State()) && enqueued == old(enqueued)
      ensures ok && fs != [] ==>
                IsRecorded(old(table.rows), old(enqueued), ScanSightings(scan, fs), table.rows, enqueued)
      ensures ok && fs != [] ==> Completed(scan, StartCursor(old(State()), addressCursor), old(State()), State(), fs)
      ensures !ok ==>
                || Aborted(scan, StartCursor(old(State()), addressCursor), old(State()), State(), fs, stored)
                || (outcome(SaveCheckpoint) == AppliedWithError &&
                    Completed(scan, StartCursor(old(State()), addressCursor), old(State()), State(), fs))
      ensures ok && (exists w :: w in scan.watches && Lower(Trim(w.address)) != "") ==> fs != []
      ensures scan.watches != [] && Trim(scan.network) == "" ==> !ok
      ensures StoreWorks(outcome) && GatewayAnswers(scan) && Trim(scan.network) != "" ==> ok
    {
      fs, stored := [], [];
      if |scan.watches| == 0 {
        return true, fs, stored;
      }
      if Trim(scan.network) == "" || outcome(ReadCheckpoint) != Applied {
        return false, fs, stored;
      }
      var start := if checkpoint.Some? then checkpoint.value else addressCursor;
      var listening := exists w :: w in scan.watches && Normal(w.address) != "";
      if !listening {
        return true, fs, stored;
      }
      if outcome(ListManaged) != Applied {
        return false, fs, stored;
      }
      var next;
      ok, next, fs, stored := ScanPages(scan, start, outcome);
      if !ok || outcome(SaveCheckpoint) == Lost {
        return false, fs, stored;
      }
      checkpoint := Saved(checkpoint, next);
      ok := outcome(SaveCheckpoint) == Applied;
    }
  }
}
