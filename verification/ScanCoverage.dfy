/** What the stored chain checkpoint promises over every run of group scans. */
module ScanCoverage {
  import opened Wrappers
  import opened Text
  import opened Pagination
  import opened SeenEvents
  import opened GroupScan

  /** A page that some scan fetched. */
  datatype Visit = Visit(scan: Scan, fetch: Fetch)

  /** Every transfer on the page that is not internal and pays a watch of the scan has its row. */
  ghost predicate Covered(v: Visit, rows: Rows) {
    forall i, w :: 0 <= i < |v.fetch.items| && w in v.scan.watches && Owed(v, i, w) ==>
      RowKey(w, v.fetch.items[i], i) in rows
  }

  /**
   The row of a transfer that pays a watch: all of the watch's identity, the hash, and the
   event index or the position.
   */
  function RowKey(w: Watch, tx: Transfer, position: nat): EventKey {
    EventKey(w.tenant, w.account, w.model, w.chain, w.coin, w.network, w.address, tx.txHash,
             if tx.index > 0 then tx.index else position)
  }

  predicate Owed(v: Visit, i: nat, w: Watch)
    requires i < |v.fetch.items|
  {
    var tx := v.fetch.items[i];
    var from, to := Lower(Trim(tx.from)), Lower(Trim(tx.to));
    !(from != "" && from in v.scan.managed) && to != "" && Lower(Trim(w.address)) == to
  }

  function CursorReached(from: string, vs: seq<Visit>, i: nat): string
    requires i <= |vs|
  {
    if i == 0 then from else vs[i - 1].fetch.next
  }

  /** The pages lead from one cursor to another, each starting where the one before ended. */
  ghost predicate Leads(from: string, to: string, vs: seq<Visit>) {
    && (forall i {:trigger CursorReached(from, vs, i)} :: 0 <= i < |vs| ==>
          vs[i].fetch.at == CursorReached(from, vs, i))
    && to == CursorReached(from, vs, |vs|)
  }

  lemma LeadsAppend(a: string, b: string, c: string, xs: seq<Visit>, ys: seq<Visit>)
    requires Leads(a, b, xs) && Leads(b, c, ys)
    ensures Leads(a, c, xs + ys)
  {
    var vs := xs + ys;
    forall i {:trigger CursorReached(a, vs, i)} | 0 <= i < |vs| ensures vs[i].fetch.at == CursorReached(a, vs, i) {
      if i < |xs| {
        assert CursorReached(a, vs, i) == CursorReached(a, xs, i);
      } else {
        assert CursorReached(a, vs, i) == CursorReached(b, ys, i - |xs|);
      }
    }
  }

  // ---------------------------------------------------------------- one scan

  lemma {:induction false} MatchesAreExact(ws: seq<Watch>, to: string)
    ensures forall w :: w in Matches(ws, to) <==> w in ws && Normal(w.address) == Normal(to)
  {
    if ws != [] {
      MatchesAreExact(ws[..|ws| - 1], to);
    }
  }

  ghost predicate Names(ss: seq<Sighting>, k: EventKey) {
    exists j :: 0 <= j < |ss| && ss[j].key == k
  }

  lemma NamesAppend(a: seq<Sighting>, b: seq<Sighting>, k: EventKey)
    requires Names(a, k) || Names(b, k)
    ensures Names(a + b, k)
  {
    if Names(a, k) {
      var j :| 0 <= j < |a| && a[j].key == k;
      assert (a + b)[j].key == k;
    } else {
      var j :| 0 <= j < |b| && b[j].key == k;
      assert (a + b)[|a| + j].key == k;
    }
  }

  /** The sightings of a transfer name the row of every watch it owes. */
  lemma TransferIsComplete(scan: Scan, f: Fetch, i: nat, w: Watch)
    requires i < |f.items| && w in scan.watches && Owed(Visit(scan, f), i, w)
    ensures Names(TxSightings(scan, f.items[i], i), KeyFor(w, f.items[i], i))
  {
    var tx := f.items[i];
    var matched := Matches(scan.watches, tx.to);
    MatchesAreExact(scan.watches, tx.to);
    var k :| 0 <= k < |matched| && matched[k] == w;
    MatchSightingsAt(scan, matched, tx, i, k);
    assert TxSightings(scan, tx, i)[k].key == KeyFor(w, tx, i);
  }

  /** So do the sightings of a page for every transfer on it. */
  lemma {:induction false} PageIsComplete(scan: Scan, f: Fetch, n: nat, i: nat, w: Watch)
    requires i < n <= |f.items| && w in scan.watches && Owed(Visit(scan, f), i, w)
    ensures Names(PageSightings(scan, f.items[..n]), KeyFor(w, f.items[i], i))
    decreases n
  {
    PageSightingsStep(scan, f.items, n - 1);
    if i < n - 1 {
      PageIsComplete(scan, f, n - 1, i, w);
    } else {
      TransferIsComplete(scan, f, i, w);
    }
    var front, last := PageSightings(scan, f.items[..n - 1]), TxSightings(scan, f.items[n - 1], n - 1);
    NamesAppend(front, last, KeyFor(w, f.items[i], i));
  }

  lemma {:induction false} ScanContainsPage(scan: Scan, fs: seq<Fetch>, p: nat, s: Sighting)
    requires p < |fs| && s in PageSightings(scan, fs[p].items)
    ensures s in ScanSightings(scan, fs)
  {
    if p < |fs| - 1 {
      ScanContainsPage(scan, fs[..|fs| - 1], p, s);
    }
  }

  ghost predicate RowsSurvive(before: Rows, after: Rows) {
    forall k :: k in before ==> k in after
  }

  /**
   What a scan that reached its checkpoint statement leaves behind, whatever other groups'
   scans and the reorg pass wrote meanwhile: the rows it owed are there and the
   checkpoint, which no other group writes, is saved.
   */
  ghost predicate Finishes(scan: Scan, start: string, before: Tables, after: Tables, fs: seq<Fetch>) {
    && IsTrace(scan, start, fs) && RunsToEnd(scan, fs)
    && RowsSurvive(before.seen, after.seen)
    && (var ss := ScanSightings(scan, fs); forall i :: 0 <= i < |ss| ==> ss[i].key in after.seen)
    && after.checkpoint == Saved(before.checkpoint, NextCheckpoint(scan, start, fs))
  }

  /** After such a scan every fetched page is covered. */
  lemma CompletedScanCovers(scan: Scan, start: string, before: Tables, after: Tables, fs: seq<Fetch>, p: nat)
    requires Finishes(scan, start, before, after, fs) && p < |fs|
    ensures Covered(Visit(scan, fs[p]), after.seen)
  {
    var ss := ScanSightings(scan, fs);
    var v := Visit(scan, fs[p]);
    forall i, w | 0 <= i < |v.fetch.items| && w in scan.watches && Owed(v, i, w)
      ensures RowKey(w, v.fetch.items[i], i) in after.seen
    {
      PageIsComplete(scan, fs[p], |fs[p].items|, i, w);
      assert fs[p].items[..|fs[p].items|] == fs[p].items;
      var page := PageSightings(scan, fs[p].items);
      var j :| 0 <= j < |page| && page[j].key == KeyFor(w, v.fetch.items[i], i);
      ScanContainsPage(scan, fs, p, page[j]);
      var m :| 0 <= m < |ss| && ss[m] == page[j];
      assert ss[m].key in after.seen;
    }
  }

  lemma TransferSightingIsOwed(scan: Scan, f: Fetch, i: nat, s: Sighting) returns (w: Watch)
    requires i < |f.items| && s in TxSightings(scan, f.items[i], i)
    ensures w in scan.watches && Owed(Visit(scan, f), i, w) && s == SightingOf(scan, w, f.items[i], i)
  {
    var tx := f.items[i];
    var matched, ss := Matches(scan.watches, tx.to), TxSightings(scan, tx, i);
    var j :| 0 <= j < |ss| && ss[j] == s;
    MatchSightingsAt(scan, matched, tx, i, j);
    MatchesAreExact(scan.watches, tx.to);
    w := matched[j];
    assert w in matched;
  }

  lemma {:induction false} SightingHasTransfer(scan: Scan, items: seq<Transfer>, n: nat, s: Sighting) returns (i: nat)
    requires n <= |items| && s in PageSightings(scan, items[..n])
    ensures i < n && s in TxSightings(scan, items[i], i)
    decreases n
  {
    var front, last := PageSightings(scan, items[..n - 1]), TxSightings(scan, items[n - 1], n - 1);
    PageSightingsStep(scan, items, n - 1);
    assert s in front + last;
    if s in last {
      i := n - 1;
    } else {
      i := SightingHasTransfer(scan, items, n - 1, s);
    }
  }

  /** And nothing else is stored: each sighting of a page is that of a transfer owed to a watch of the scan. */
  lemma SightingsAreOwed(scan: Scan, f: Fetch, s: Sighting) returns (i: nat, w: Watch)
    requires s in PageSightings(scan, f.items)
    ensures i < |f.items| && w in scan.watches && Owed(Visit(scan, f), i, w) && s == SightingOf(scan, w, f.items[i], i)
  {
    assert f.items[..|f.items|] == f.items;
    i := SightingHasTransfer(scan, f.items, |f.items|, s);
    w := TransferSightingIsOwed(scan, f, i, s);
  }

  /**
   The row that a first sighting leaves: the transfer's own amount, sender and confirmations,
   its recipient or else the watched address, and a status by the watch's thresholds.
   */
  lemma FirstSightingShowsTransfer(scan: Scan, w: Watch, tx: Transfer, i: nat, rows: Rows)
    requires RowKey(w, tx, i) !in rows
    ensures var k := RowKey(w, tx, i);
            var after := Upsert(rows, SightingOf(scan, w, tx, i));
            && after.Keys == rows.Keys + {k} && (forall j :: j in rows ==> after[j] == rows[j])
            && var row := after[k];
            && row.amount == tx.amount && row.from == tx.from && row.confirmations == tx.confirmations
            && row.to == (if Trim(tx.to) == "" then w.address else tx.to) && row.notFound == 0
            && (!IsTerminal(tx.status) ==>
                  (Ledger(row.status) == LedgerConfirmed <==> tx.confirmations >= 1 && tx.confirmations >= w.minConf))
            && (IsTerminal(tx.status) && Upper(Trim(tx.status)) != "FINALIZED" ==> row.status == REORGED)
            && (Upper(Trim(tx.status)) == "FINALIZED" ==> row.status == FINALIZED)
  {
  }

  /**
   A finished scan moves the checkpoint past its pages: to the cursor behind the last page, if
   the scan could go on there or ended on empty pages, else to the cursor of the last page. It
   stays only if both are numbers and that cursor is strictly below it.
   */
  lemma FinishedScanMovesCheckpoint(scan: Scan, start: string, before: Tables, after: Tables, fs: seq<Fetch>)
    requires Finishes(scan, start, before, after, fs)
    ensures var last := fs[|fs| - 1];
            var c := if Verdict(scan, fs, |fs| - 1) in {Advance, Stop(MaxEmptyPages)} then last.next else last.at;
            if before.checkpoint.Some? && IsBelow(c, before.checkpoint.value) then after.checkpoint == before.checkpoint
            else after.checkpoint == Some(c)
  {
    SavedMovesOn(before.checkpoint, NextCheckpoint(scan, start, fs));
  }

  /** So the next scan starts at that cursor or, numerically, beyond it. */
  lemma NextScanStartsThere(scan: Scan, start: string, before: Tables, after: Tables, fs: seq<Fetch>,
                            addressCursor: string)
    requires Finishes(scan, start, before, after, fs)
    ensures var c, next := NextCheckpoint(scan, start, fs), StartCursor(after, addressCursor);
            next == c || IsBelow(c, next)
  {
    SavedMovesOn(before.checkpoint, NextCheckpoint(scan, start, fs));
  }

  /** The pages between the cursor a scan started from and the one it wants to store. */
  function PagesBehind(scan: Scan, fs: seq<Fetch>): seq<Fetch>
    requires fs != []
  {
    if Verdict(scan, fs, |fs| - 1) in {Advance, Stop(MaxEmptyPages)} then fs else fs[..|fs| - 1]
  }

  lemma CheckpointFollowsPages(scan: Scan, start: string, fs: seq<Fetch>)
    requires fs != [] && IsTrace(scan, start, fs)
    ensures Leads(start, NextCheckpoint(scan, start, fs), Visits(scan, PagesBehind(scan, fs)))
  {
    var n := |fs| - 1;
    assert fs[n].at == CursorBefore(start, fs, n);
    var vs := Visits(scan, PagesBehind(scan, fs));
    forall i {:trigger CursorReached(start, vs, i)} | 0 <= i < |vs|
      ensures vs[i].fetch.at == CursorReached(start, vs, i)
    {
      assert CursorReached(start, vs, i) == CursorBefore(start, fs, i);
    }
  }

  function Visits(scan: Scan, fs: seq<Fetch>): (vs: seq<Visit>)
    ensures |vs| == |fs|
    ensures forall i :: 0 <= i < |fs| ==> vs[i] == Visit(scan, fs[i])
  {
    seq(|fs|, i requires 0 <= i < |fs| => Visit(scan, fs[i]))
  }

  // ---------------------------------------------------------------- every run

  /**
   A scan of the group that reached its checkpoint, with the pages it fetched; or anything
   else that happens to the tables: a failed scan of the group, the scans of other groups
   and single addresses, the reorg pass.
   */
  datatype Act =
    | Finished(scan: Scan, addressCursor: string, fs: seq<Fetch>)
    | Elsewhere

  ghost predicate IsStep(before: Tables, act: Act, after: Tables) {
    match act
    case Finished(scan, cursor, fs) => Finishes(scan, StartCursor(before, cursor), before, after, fs)
    case Elsewhere => after.checkpoint == before.checkpoint && RowsSurvive(before.seen, after.seen)
  }

  /** The two ends of ScanGroup are such steps. */
  lemma ScansAreSteps(scan: Scan, cursor: string, before: Tables, after: Tables, fs: seq<Fetch>, stored: seq<Sighting>)
    ensures Completed(scan, StartCursor(before, cursor), before, after, fs) ==>
              IsStep(before, Finished(scan, cursor, fs), after)
    ensures Aborted(scan, StartCursor(before, cursor), before, after, fs, stored) ==> IsStep(before, Elsewhere, after)
  {
    UpsertAllCovers(before.seen, ScanSightings(scan, fs));
    UpsertAllCovers(before.seen, stored);
  }

  /** So is a scan whose row statements are mixed, in any order, with those of scans running beside it. */
  lemma MixedScanIsAStep(scan: Scan, cursor: string, before: Tables, after: Tables, fs: seq<Fetch>,
                         mixed: seq<Sighting>)
    requires var start := StartCursor(before, cursor);
             && IsTrace(scan, start, fs) && RunsToEnd(scan, fs)
             && after == Tables(UpsertAll(before.seen, mixed),
                                Saved(before.checkpoint, NextCheckpoint(scan, start, fs)))
    requires forall s :: s in ScanSightings(scan, fs) ==> s in mixed
    ensures IsStep(before, Finished(scan, cursor, fs), after)
  {
    UpsertAllCovers(before.seen, mixed);
    var ss := ScanSightings(scan, fs);
    forall i | 0 <= i < |ss| ensures ss[i].key in after.seen {
      assert ss[i] in mixed;
      var j :| 0 <= j < |mixed| && mixed[j] == ss[i];
      assert mixed[j].key in after.seen;
    }
  }

  ghost predicate IsRun(states: seq<Tables>, acts: seq<Act>) {
    && |states| == |acts| + 1
    && forall i :: 0 <= i < |acts| ==> IsStep(states[i], acts[i], states[i + 1])
  }

  ghost predicate AllCovered(vs: seq<Visit>, rows: Rows) {
    forall i :: 0 <= i < |vs| ==> Covered(vs[i], rows)
  }

  /** Where a page was fetched: in which scan of the run, and as which of its pages. */
  datatype Spot = Spot(act: nat, page: nat)

  predicate IsEarlier(a: Spot, b: Spot) {
    a.act < b.act || (a.act == b.act && a.page < b.page)
  }

  /** The page is the one that this scan of the run fetched there. */
  ghost predicate IsFetchedAt(acts: seq<Act>, spot: Spot, v: Visit) {
    && spot.act < |acts| && acts[spot.act].Finished? && spot.page < |acts[spot.act].fs|
    && v == Visit(acts[spot.act].scan, acts[spot.act].fs[spot.page])
  }

  /** The visits are pages that scans of the run fetched, in the order they were fetched, each once. */
  ghost predicate IsItinerary(acts: seq<Act>, spots: seq<Spot>, vs: seq<Visit>) {
    && |spots| == |vs|
    && (forall i :: 0 <= i < |vs| ==> IsFetchedAt(acts, spots[i], vs[i]))
    && (forall i, j :: 0 <= i < j < |spots| ==> IsEarlier(spots[i], spots[j]))
  }

  /** Nothing of the run's first n acts is a scan that reached its checkpoint. */
  ghost predicate NoneFinished(acts: seq<Act>, n: nat) {
    forall i :: 0 <= i < n <= |acts| ==> acts[i].Elsewhere?
  }

  /** Where scanning began: the run's first checkpoint, or the address cursor of the first scan to store one. */
  ghost predicate IsOrigin(states: seq<Tables>, acts: seq<Act>, from: string)
    requires states != []
  {
    match states[0].checkpoint
    case Some(cursor) => from == cursor
    case None =>
      exists m :: 0 <= m < |acts| && acts[m].Finished? && acts[m].addressCursor == from && NoneFinished(acts, m)
  }

  lemma ItineraryExtends(acts: seq<Act>, act: Act, spots: seq<Spot>, vs: seq<Visit>, more: seq<Spot>, ws: seq<Visit>)
    requires IsItinerary(acts, spots, vs) && IsItinerary(acts + [act], more, ws)
    requires forall i :: 0 <= i < |more| ==> more[i].act == |acts|
    ensures IsItinerary(acts + [act], spots + more, vs + ws)
  {
    var longer := acts + [act];
    forall i | 0 <= i < |spots| ensures IsFetchedAt(longer, spots[i], vs[i]) && spots[i].act < |acts| {
      assert IsFetchedAt(acts, spots[i], vs[i]);
    }
    forall i | 0 <= i < |spots + more| ensures IsFetchedAt(longer, (spots + more)[i], (vs + ws)[i]) {
      if i >= |spots| {
        assert IsFetchedAt(longer, more[i - |spots|], ws[i - |spots|]);
      }
    }
  }

  lemma OriginExtends(states: seq<Tables>, acts: seq<Act>, after: Tables, act: Act, from: string)
    requires states != [] && IsOrigin(states, acts, from)
    ensures IsOrigin(states + [after], acts + [act], from)
  {
    if states[0].checkpoint.None? {
      var m :| 0 <= m < |acts| && acts[m].Finished? && acts[m].addressCursor == from && NoneFinished(acts, m);
      assert (acts + [act])[m] == acts[m];
      assert NoneFinished(acts + [act], m);
    }
  }

  /** What a run has earned so far. */
  ghost predicate IsEarned(states: seq<Tables>, acts: seq<Act>, from: string, spots: seq<Spot>, vs: seq<Visit>)
    requires |states| == |acts| + 1
  {
    var now := states[|acts|];
    if now.checkpoint.None? then states[0].checkpoint.None? && NoneFinished(acts, |acts|)
    else
      && IsOrigin(states, acts, from) && Leads(from, now.checkpoint.value, vs)
      && IsItinerary(acts, spots, vs) && AllCovered(vs, now.seen)
  }

  lemma QuietStepEarns(states: seq<Tables>, acts: seq<Act>, act: Act, after: Tables, from: string, spots: seq<Spot>,
                       vs: seq<Visit>)
    requires |states| == |acts| + 1 && IsEarned(states, acts, from, spots, vs)
    requires IsStep(states[|acts|], act, after) && after.checkpoint == states[|acts|].checkpoint
    ensures IsEarned(states + [after], acts + [act], from, spots, vs)
  {
    if after.checkpoint.Some? {
      OriginExtends(states, acts, after, act, from);
      ItineraryExtends(acts, act, spots, vs, [], []);
      assert spots + [] == spots && vs + [] == vs;
    }
  }

  lemma MovingStepEarns(states: seq<Tables>, acts: seq<Act>, act: Act, after: Tables, from: string, spots: seq<Spot>,
                        vs: seq<Visit>) returns (from': string, spots': seq<Spot>, vs': seq<Visit>)
    requires |states| == |acts| + 1 && IsEarned(states, acts, from, spots, vs)
    requires IsStep(states[|acts|], act, after) && after.checkpoint != states[|acts|].checkpoint
    ensures IsEarned(states + [after], acts + [act], from', spots', vs')
  {
    var before := states[|acts|];
    var more, ws := StepIsEarned(before, act, after, acts);
    if before.checkpoint.Some? {
      OriginExtends(states, acts, after, act, from);
      LeadsAppend(from, before.checkpoint.value, after.checkpoint.value, vs, ws);
      ItineraryExtends(acts, act, spots, vs, more, ws);
      from', spots', vs' := from, spots + more, vs + ws;
    } else {
      assert (acts + [act])[|acts|] == act && NoneFinished(acts + [act], |acts|);
      from', spots', vs' := act.addressCursor, more, ws;
    }
  }

  /**
   Whatever pages the gateway returned and wherever stores failed, the stored chain
   checkpoint is reached from where scanning began only through pages that scans of the
   run fetched, in that order, and processed in full: every transfer on them that is not
   internal and pays a watch loaded in that scan has its seen-event row. Without a
   checkpoint no scan of the run has finished.
   */
  lemma {:induction false} CheckpointIsEarned(states: seq<Tables>, acts: seq<Act>)
    returns (from: string, spots: seq<Spot>, vs: seq<Visit>)
    requires IsRun(states, acts)
    ensures IsEarned(states, acts, from, spots, vs)
    decreases |acts|
  {
    if acts == [] {
      return if states[0].checkpoint.Some? then states[0].checkpoint.value else "", [], [];
    }
    var n := |acts| - 1;
    var front, earlier, after := states[..|acts|], acts[..n], states[n + 1];
    assert IsRun(front, earlier);
    from, spots, vs := CheckpointIsEarned(front, earlier);
    assert IsStep(states[n], acts[n], after);
    assert front + [after] == states && earlier + [acts[n]] == acts;
    if after.checkpoint == states[n].checkpoint {
      QuietStepEarns(front, earlier, acts[n], after, from, spots, vs);
    } else {
      from, spots, vs := MovingStepEarns(front, earlier, acts[n], after, from, spots, vs);
    }
  }

  /** One scan moves the checkpoint over pages it fetched and covered. */
  lemma StepIsEarned(before: Tables, act: Act, after: Tables, acts: seq<Act>) returns (spots: seq<Spot>, vs: seq<Visit>)
    requires IsStep(before, act, after) && after.checkpoint != before.checkpoint
    ensures act.Finished? && after.checkpoint.Some?
    ensures Leads(StartCursor(before, act.addressCursor), after.checkpoint.value, vs) && AllCovered(vs, after.seen)
    ensures IsItinerary(acts + [act], spots, vs) && forall i :: 0 <= i < |spots| ==> spots[i].act == |acts|
  {
    var start := StartCursor(before, act.addressCursor);
    vs := Visits(act.scan, PagesBehind(act.scan, act.fs));
    spots := seq(|vs|, i requires 0 <= i < |vs| => Spot(|acts|, i));
    CheckpointFollowsPages(act.scan, start, act.fs);
    assert (acts + [act])[|acts|] == act;
    forall i | 0 <= i < |vs| ensures Covered(vs[i], after.seen) && IsFetchedAt(acts + [act], spots[i], vs[i]) {
      CompletedScanCovers(act.scan, start, before, after, act.fs, i);
    }
  }

  predicate IsNumber(checkpoint: Option<string>) {
    checkpoint.Some? && Numeric(checkpoint.value)
  }

  function Height(checkpoint: Option<string>): nat {
    if IsNumber(checkpoint) then DecimalValue(checkpoint.value) else 0
  }

  /** Over any stretch of a run in which the stored checkpoint is always numeric, it never moves back. */
  lemma {:induction false} NumericCheckpointsDoNotFall(states: seq<Tables>, acts: seq<Act>, i: nat, j: nat)
    requires IsRun(states, acts) && i <= j <= |acts|
    requires forall m :: i <= m <= j ==> IsNumber(states[m].checkpoint)
    ensures Height(states[i].checkpoint) <= Height(states[j].checkpoint)
    decreases j
  {
    if i < j {
      NumericCheckpointsDoNotFall(states, acts, i, j - 1);
      assert IsNumber(states[j - 1].checkpoint) && IsNumber(states[j].checkpoint);
      assert IsStep(states[j - 1], acts[j - 1], states[j]);
    }
  }
}
