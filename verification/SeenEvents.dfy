/**
 Deposit sightings: the scan status of a transfer
 (services/scan-account-service/internal/worker/scanner_utils.go) and the seen-event
 table (services/scan-account-service/internal/store/postgres.go).
 */
module SeenEvents {
  import opened Wrappers
  import opened Text

  // ---------------------------------------------------------------- statuses

  datatype ScanStatus = SEEN | PENDING | CONFIRMED | FINALIZED | REORGED

  datatype LedgerStatus = LedgerPending | LedgerConfirmed | LedgerReverted

  /** Confirmation thresholds of a watch, and the scanner's reorg window. */
  datatype Thresholds = Thresholds(minConf: int, unlockConf: int, reorgWindow: int)

  function AtLeastOne(minConf: int): int {
    if minConf <= 0 then 1 else minConf
  }

  /** A positive unlock threshold is raised to the minimum. */
  function EffectiveUnlock(unlockConf: int, minConf: int): (r: int)
    ensures unlockConf <= 0 ==> r == unlockConf
    ensures unlockConf > 0 ==> r >= minConf && r >= unlockConf && r in {unlockConf, minConf}
  {
    if unlockConf > 0 && unlockConf < minConf then minConf else unlockConf
  }

  /** Statuses that the chain reports and that decide the scan status by themselves. */
  predicate IsTerminal(raw: string) {
    Upper(Trim(raw)) in ["REORGED", "REVERTED", "FAILED", "FINALIZED"]
  }

  function StatusByCount(confirmations: int, t: Thresholds): ScanStatus {
    var minConf := AtLeastOne(t.minConf);
    var unlockConf := EffectiveUnlock(t.unlockConf, minConf);
    var window := if t.reorgWindow < 0 then 0 else t.reorgWindow;
    if confirmations <= 0 then SEEN
    else if confirmations < minConf then PENDING
    else if unlockConf > 0 && confirmations >= unlockConf then FINALIZED
    else if unlockConf <= 0 && window > 0 && confirmations >= minConf + window then FINALIZED
    else CONFIRMED
  }

  function ResolveStatus(raw: string, confirmations: int, t: Thresholds): ScanStatus {
    if !IsTerminal(raw) then StatusByCount(confirmations, t)
    else if Upper(Trim(raw)) == "FINALIZED" then FINALIZED
    else REORGED
  }

  function Ledger(s: ScanStatus): LedgerStatus {
    match s
    case CONFIRMED => LedgerConfirmed
    case FINALIZED => LedgerConfirmed
    case REORGED => LedgerReverted
    case SEEN => LedgerPending
    case PENDING => LedgerPending
  }

  function Rank(s: ScanStatus): int {
    match s
    case SEEN => 0
    case PENDING => 1
    case CONFIRMED => 2
    case FINALIZED => 3
    case REORGED => -1
  }

  /**
   What each status needs, for a transfer whose raw status is not terminal: the ledger sees
   it CONFIRMED exactly from the watch's minimum on, which is at least one confirmation.
   */
  lemma StatusNeeds(raw: string, confirmations: int, t: Thresholds)
    requires !IsTerminal(raw)
    ensures var s := ResolveStatus(raw, confirmations, t);
            var minConf := if t.minConf < 1 then 1 else t.minConf;
            var unlocked := if t.unlockConf > minConf then t.unlockConf else minConf;
            && (s == SEEN <==> confirmations <= 0)
            && (s == PENDING <==> 1 <= confirmations < t.minConf)
            && (Ledger(s) == LedgerConfirmed <==> confirmations >= 1 && confirmations >= t.minConf)
            && (t.unlockConf > 0 ==> (s == FINALIZED <==> confirmations >= unlocked))
            && (t.unlockConf <= 0 ==>
                  (s == FINALIZED <==> t.reorgWindow > 0 && confirmations >= minConf + t.reorgWindow))
            && (Ledger(s) == LedgerPending <==> s in {SEEN, PENDING}) && s != REORGED
  {
  }

  /** The words by which a chain decides the status alone, in any case and with blanks around. */
  lemma TerminalWords(raw: string, confirmations: int, t: Thresholds)
    ensures IsTerminal(raw) <==> Upper(Trim(raw)) in {"REORGED", "REVERTED", "FAILED", "FINALIZED"}
    ensures Upper(Trim(raw)) in {"REORGED", "REVERTED", "FAILED"} ==>
              var s := ResolveStatus(raw, confirmations, t); s == REORGED && Ledger(s) == LedgerReverted
    ensures Upper(Trim(raw)) == "FINALIZED" ==>
              var s := ResolveStatus(raw, confirmations, t); s == FINALIZED && Ledger(s) == LedgerConfirmed
  {
  }

  /** More confirmations never lower the status. */
  lemma MoreConfirmations(a: int, b: int, t: Thresholds)
    requires a <= b
    ensures 0 <= Rank(StatusByCount(a, t)) <= Rank(StatusByCount(b, t))
    ensures Ledger(StatusByCount(a, t)) == LedgerConfirmed ==> Ledger(StatusByCount(b, t)) == LedgerConfirmed
  {
  }

  // ---------------------------------------------------------------- the table

  datatype EventKey = EventKey(tenant: string, account: string, model: string, chain: string, coin: string,
                               network: string, address: string, txHash: string, eventIndex: int)

  datatype Row = Row(status: ScanStatus, confirmations: int, amount: string, from: string, to: string, notFound: int)

  type Rows = map<EventKey, Row>

  /** One call of UpsertSeenEvent. */
  datatype Sighting = Sighting(key: EventKey, status: ScanStatus, confirmations: int, amount: string, from: string,
                               to: string)

  /** A sighting is news when it is the first, changes the status or brings more confirmations. */
  predicate IsNews(rows: Rows, s: Sighting) {
    s.key !in rows || s.status != rows[s.key].status || s.confirmations > rows[s.key].confirmations
  }

  /** News overwrites the row and clears its not-found count; anything else leaves it alone. */
  function Upsert(rows: Rows, s: Sighting): Rows {
    if IsNews(rows, s) then rows[s.key := Row(s.status, s.confirmations, s.amount, s.from, s.to, 0)] else rows
  }

  function UpsertAll(rows: Rows, ss: seq<Sighting>): Rows {
    if ss == [] then rows else Upsert(UpsertAll(rows, ss[..|ss| - 1]), ss[|ss| - 1])
  }

  /** The sightings that were news when they came, in order. */
  function NewsAmong(rows: Rows, ss: seq<Sighting>): seq<Sighting> {
    if ss == [] then []
    else
      var n := |ss| - 1;
      NewsAmong(rows, ss[..n]) + (if IsNews(UpsertAll(rows, ss[..n]), ss[n]) then [ss[n]] else [])
  }

  lemma {:induction false} NewsAmongAppend(rows: Rows, a: seq<Sighting>, b: seq<Sighting>)
    ensures NewsAmong(rows, a + b) == NewsAmong(rows, a) + NewsAmong(UpsertAll(rows, a), b)
  {
    if b == [] {
      assert a + b == a;
    } else {
      var front := b[..|b| - 1];
      NewsAmongAppend(rows, a, front);
      UpsertAllAppend(rows, a, front);
      assert (a + b)[..|a + b| - 1] == a + front;
    }
  }

  /** How many of the sightings of one event notify the ledger. */
  function Notifications(rows: Rows, ss: seq<Sighting>, k: EventKey): nat {
    if ss == [] then 0
    else
      var n := |ss| - 1;
      Notifications(rows, ss[..n], k)
      + (if ss[n].key == k && IsNews(UpsertAll(rows, ss[..n]), ss[n]) then 1 else 0)
  }

  lemma {:induction false} UpsertAllAppend(rows: Rows, a: seq<Sighting>, b: seq<Sighting>)
    ensures UpsertAll(rows, a + b) == UpsertAll(UpsertAll(rows, a), b)
  {
    if b == [] {
      assert a + b == a;
    } else {
      UpsertAllAppend(rows, a, b[..|b| - 1]);
      assert (a + b)[..|a + b| - 1] == a + b[..|b| - 1];
    }
  }

  /** No row is ever removed, and every sighting leaves a row. */
  lemma {:induction false} UpsertAllCovers(rows: Rows, ss: seq<Sighting>)
    ensures forall k :: k in rows ==> k in UpsertAll(rows, ss)
    ensures forall i :: 0 <= i < |ss| ==> ss[i].key in UpsertAll(rows, ss)
  {
    if ss != [] {
      UpsertAllCovers(rows, ss[..|ss| - 1]);
    }
  }

  /** A row has the status of its last sighting. */
  lemma {:induction false} LastSightingDecides(rows: Rows, ss: seq<Sighting>, i: nat)
    requires i < |ss| && forall j :: i < j < |ss| ==> ss[j].key != ss[i].key
    ensures ss[i].key in UpsertAll(rows, ss) && UpsertAll(rows, ss)[ss[i].key].status == ss[i].status
  {
    if i < |ss| - 1 {
      LastSightingDecides(rows, ss[..|ss| - 1], i);
    }
  }

  // ---------------------------------------------------------------- one event over a run

  function Confirmations(ss: seq<Sighting>, k: EventKey): set<int> {
    set i | 0 <= i < |ss| && ss[i].key == k :: ss[i].confirmations
  }

  /** The event's sightings follow fixed thresholds, no terminal chain status, and confirmations that never fall. */
  ghost predicate Steady(ss: seq<Sighting>, k: EventKey, t: Thresholds) {
    && (forall i :: 0 <= i < |ss| && ss[i].key == k ==> ss[i].status == StatusByCount(ss[i].confirmations, t))
    && (forall i, j :: 0 <= i < j < |ss| && ss[i].key == k && ss[j].key == k ==>
          ss[i].confirmations <= ss[j].confirmations)
  }

  /** The confirmations of the event's last sighting. */
  function Latest(ss: seq<Sighting>, k: EventKey): Option<int> {
    if ss == [] then None
    else if ss[|ss| - 1].key == k then Some(ss[|ss| - 1].confirmations)
    else Latest(ss[..|ss| - 1], k)
  }

  lemma {:induction false} LatestIsHighest(ss: seq<Sighting>, k: EventKey, t: Thresholds)
    requires Steady(ss, k, t)
    ensures Latest(ss, k).None? ==> Confirmations(ss, k) == {}
    ensures Latest(ss, k).Some? ==> Latest(ss, k).value in Confirmations(ss, k)
    ensures forall c :: c in Confirmations(ss, k) ==> c <= Latest(ss, k).value
  {
    if ss != [] {
      var n := |ss| - 1;
      SplitConfirmations(ss, k);
      if ss[n].key == k {
        forall c | c in Confirmations(ss, k) ensures c <= ss[n].confirmations {
          var i :| 0 <= i < |ss| && ss[i].key == k && ss[i].confirmations == c;
        }
      } else {
        assert Steady(ss[..n], k, t);
        LatestIsHighest(ss[..n], k, t);
      }
    }
  }

  /** The row shows the latest count and its status. */
  lemma {:induction false} SteadyRow(rows: Rows, ss: seq<Sighting>, k: EventKey, t: Thresholds)
    requires k !in rows && Steady(ss, k, t)
    ensures k in UpsertAll(rows, ss) <==> Latest(ss, k).Some?
    ensures k in UpsertAll(rows, ss) ==>
              var row := UpsertAll(rows, ss)[k];
              row.confirmations == Latest(ss, k).value && row.status == StatusByCount(row.confirmations, t)
  {
    if ss != [] {
      var n := |ss| - 1;
      assert Steady(ss[..n], k, t);
      SteadyRow(rows, ss[..n], k, t);
      if ss[n].key == k && Latest(ss[..n], k).Some? {
        LatestIsHighest(ss[..n], k, t);
        LatestIsHighest(ss, k, t);
        SplitConfirmations(ss, k);
      }
    }
  }

  /** The event notifies exactly once per distinct confirmation count. */
  lemma {:induction false} NotifiesOncePerCount(rows: Rows, ss: seq<Sighting>, k: EventKey, t: Thresholds)
    requires k !in rows && Steady(ss, k, t)
    ensures Notifications(rows, ss, k) == |Confirmations(ss, k)|
  {
    if ss != [] {
      var n := |ss| - 1;
      assert Steady(ss[..n], k, t);
      NotifiesOncePerCount(rows, ss[..n], k, t);
      SplitConfirmations(ss, k);
      if ss[n].key == k {
        NewsIsANewCount(rows, ss, k, t);
      }
    }
  }

  lemma NewsIsANewCount(rows: Rows, ss: seq<Sighting>, k: EventKey, t: Thresholds)
    requires k !in rows && Steady(ss, k, t) && ss != [] && ss[|ss| - 1].key == k
    ensures var n := |ss| - 1;
            IsNews(UpsertAll(rows, ss[..n]), ss[n]) <==> ss[n].confirmations !in Confirmations(ss[..n], k)
  {
    var n := |ss| - 1;
    assert Steady(ss[..n], k, t);
    SteadyRow(rows, ss[..n], k, t);
    LatestIsHighest(ss[..n], k, t);
    LatestIsHighest(ss, k, t);
    SplitConfirmations(ss, k);
  }

  lemma SplitConfirmations(ss: seq<Sighting>, k: EventKey)
    requires ss != []
    ensures var n := |ss| - 1;
            Confirmations(ss, k) == Confirmations(ss[..n], k) + (if ss[n].key == k then {ss[n].confirmations} else {})
  {
    var n := |ss| - 1;
    forall c | c in Confirmations(ss, k)
      ensures c in Confirmations(ss[..n], k) + (if ss[n].key == k then {ss[n].confirmations} else {})
    {
      var i :| 0 <= i < |ss| && ss[i].key == k && ss[i].confirmations == c;
      if i < n {
        assert ss[..n][i] == ss[i];
      }
    }
    forall c | c in Confirmations(ss[..n], k) ensures c in Confirmations(ss, k) {
      var i :| 0 <= i < n && ss[..n][i].key == k && ss[..n][i].confirmations == c;
      assert ss[i].key == k;
    }
  }

  /**
   Along every steady run an event's status never falls, its ledger status never leaves
   CONFIRMED, and it notifies exactly once per distinct confirmation count.
   */
  lemma StatusNeverFalls(rows: Rows, ss: seq<Sighting>, k: EventKey, t: Thresholds, i: nat)
    requires k !in rows && Steady(ss, k, t) && i <= |ss| && k in UpsertAll(rows, ss[..i])
    ensures k in UpsertAll(rows, ss)
    ensures var before, after := UpsertAll(rows, ss[..i])[k].status, UpsertAll(rows, ss)[k].status;
            && Rank(before) <= Rank(after)
            && (Ledger(before) == LedgerConfirmed ==> Ledger(after) == LedgerConfirmed)
    ensures Notifications(rows, ss, k) == |Confirmations(ss, k)|
  {
    assert Steady(ss[..i], k, t);
    SteadyRow(rows, ss[..i], k, t);
    SteadyRow(rows, ss, k, t);
    NotifiesOncePerCount(rows, ss, k, t);
    LatestIsHighest(ss[..i], k, t);
    LatestIsHighest(ss, k, t);
    var c := Latest(ss[..i], k).value;
    var j :| 0 <= j < i && ss[..i][j].key == k && ss[..i][j].confirmations == c;
    assert ss[j].key == k && c in Confirmations(ss, k);
    MoreConfirmations(c, Latest(ss, k).value, t);
  }

  // ---------------------------------------------------------------- the store

  /** What UpsertSeenEvent reports back. */
  datatype Change = Change(notify: bool, inserted: bool, oldStatus: Option<ScanStatus>, newStatus: ScanStatus,
                           oldConfirms: int, newConfirms: int)

  class SeenTable {
    var rows: Rows

    constructor (rows: Rows)
      ensures this.rows == rows
    {
      this.rows := rows;
    }

    method UpsertSeenEvent(s: Sighting) returns (change: Change)
      modifies this`rows
      ensures rows == Upsert(old(rows), s)
      ensures rows == if !change.notify then old(rows)
                      else old(rows)[s.key := Row(s.status, s.confirmations, s.amount, s.from, s.to, 0)]
      ensures change.notify <==>
                || s.key !in old(rows) || s.status != old(rows)[s.key].status
                || s.confirmations > old(rows)[s.key].confirmations
      ensures change.notify == IsNews(old(rows), s) && change.inserted == (s.key !in old(rows))
      ensures change.oldStatus == (if s.key in old(rows) then Some(old(rows)[s.key].status) else None)
      ensures change.newStatus == rows[s.key].status == s.status
      ensures change.oldConfirms == (if s.key in old(rows) then old(rows)[s.key].confirmations else 0)
      ensures change.newConfirms == rows[s.key].confirmations
    {
      if s.key !in rows {
        rows := rows[s.key := Row(s.status, s.confirmations, s.amount, s.from, s.to, 0)];
        return Change(true, true, None, s.status, 0, s.confirmations);
      }
      var was := rows[s.key];
      var shouldNotify := false;
      if s.status != was.status {
        shouldNotify := true;
      }
      if s.confirmations > was.confirmations {
        shouldNotify := true;
      }
      if !shouldNotify {
        return Change(false, false, Some(was.status), was.status, was.confirmations, was.confirmations);
      }
      rows := rows[s.key := Row(s.status, s.confirmations, s.amount, s.from, s.to, 0)];
      change := Change(true, false, Some(was.status), s.status, was.confirmations, s.confirmations);
    }

    /** None when there is no such row, which the caller sees as an error. */
    method IncrementNotFound(k: EventKey) returns (count: Option<int>)
      modifies this`rows
      ensures if k in old(rows) then
                && count == Some(old(rows)[k].notFound + 1)
                && rows == old(rows)[k := old(rows)[k].(notFound := old(rows)[k].notFound + 1)]
              else count == None && rows == old(rows)
    {
      if k !in rows {
        return None;
      }
      rows := rows[k := rows[k].(notFound := rows[k].notFound + 1)];
      count := Some(rows[k].notFound);
    }

    method ResetNotFound(k: EventKey)
      modifies this`rows
      ensures rows == if k in old(rows) then old(rows)[k := old(rows)[k].(notFound := 0)] else old(rows)
    {
      if k in rows {
        rows := rows[k := rows[k].(notFound := 0)];
      }
    }
  }
}
