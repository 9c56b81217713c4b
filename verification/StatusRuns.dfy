/**
 A deposit's status over whole runs, in which scans and reorg checks store sightings of the
 same row and any store statement may fail.
 */
module StatusRuns {
  import opened Wrappers
  import opened SeenEvents
  import opened Reorg
  import GroupScan

  // ---------------------------------------------------------------- a run as a sequence of sightings

  /** The sighting that an event of a run stores for the row, if it stores one. */
  function StoredFor(cfg: Config, rows: Rows, e: Event, k: EventKey): seq<Sighting> {
    match e
    case Scan(s) => if s.key == k then [s] else []
    case Check(key, minConf, unlockConf, reply, st) =>
      if key != k || k !in rows || st.upsert == Lost then []
      else
        var c := Candidate(k, rows[k], minConf, unlockConf);
        match reply
        case Unreachable => []
        case Missing =>
          if st.increment != Applied || rows[k].notFound + 1 < cfg.threshold then [] else [CheckSighting(c, REORGED, 0)]
        case Found(status, confirmations) =>
          if rows[k].notFound > 0 && st.reset != Applied then []
          else
            var next := ResolveStatus(status, confirmations, CandidateThresholds(c, cfg.window));
            [CheckSighting(c, next, confirmations)]
  }

  function SightingsOf(cfg: Config, es: seq<Event>, k: EventKey): seq<Sighting> {
    if es == [] then []
    else
      var front := es[..|es| - 1];
      SightingsOf(cfg, front, k) + StoredFor(cfg, Run(cfg, map[], front), es[|es| - 1], k)
  }

  /** The statement stored the sighting and still reported an error, so nobody is told. */
  predicate IsMuted(e: Event, k: EventKey) {
    e.Check? && e.key == k && e.stores.upsert == AppliedWithError
  }

  /** The event stores news about the row. */
  predicate BringsNews(cfg: Config, rows: Rows, e: Event, k: EventKey) {
    var ss := StoredFor(cfg, rows, e, k);
    ss != [] && IsNews(rows, ss[0])
  }

  /** How many events of the run notify the ledger about the row. */
  function Notices(cfg: Config, es: seq<Event>, k: EventKey): nat {
    if es == [] then 0
    else
      var front, e := es[..|es| - 1], es[|es| - 1];
      Notices(cfg, front, k) + (if BringsNews(cfg, Run(cfg, map[], front), e, k) && !IsMuted(e, k) then 1 else 0)
  }

  /** Two tables show the same status and confirmations for the row. */
  ghost predicate IsSameView(a: Rows, b: Rows, k: EventKey) {
    && (k in a <==> k in b)
    && (k in a ==> a[k].status == b[k].status && a[k].confirmations == b[k].confirmations)
  }

  lemma UpsertOne(rows: Rows, s: Sighting)
    ensures UpsertAll(rows, [s]) == Upsert(rows, s)
  {
    assert [s][..0] == [];
  }

  /** Not-found counts aside, an event does to the row what storing its sighting does. */
  lemma ViewStep(cfg: Config, rows: Rows, other: Rows, e: Event, k: EventKey)
    requires IsSameView(rows, other, k)
    ensures IsSameView(Next(cfg, rows, e), UpsertAll(other, StoredFor(cfg, rows, e, k)), k)
  {
    var ss := StoredFor(cfg, rows, e, k);
    if ss != [] {
      UpsertOne(other, ss[0]);
    }
  }

  /** So a run shows, for each row, what its sightings show. */
  lemma {:induction false} RunShowsSightings(cfg: Config, es: seq<Event>, k: EventKey)
    ensures IsSameView(Run(cfg, map[], es), UpsertAll(map[], SightingsOf(cfg, es, k)), k)
  {
    if es != [] {
      var n := |es| - 1;
      var front, rows := es[..n], Run(cfg, map[], es[..n]);
      RunShowsSightings(cfg, front, k);
      ViewStep(cfg, rows, UpsertAll(map[], SightingsOf(cfg, front, k)), es[n], k);
      UpsertAllAppend(map[], SightingsOf(cfg, front, k), StoredFor(cfg, rows, es[n], k));
    }
  }

  lemma StoredForRow(cfg: Config, rows: Rows, e: Event, k: EventKey)
    ensures var ss := StoredFor(cfg, rows, e, k); ss == [] || (ss == [ss[0]] && ss[0].key == k)
  {
  }

  lemma NotificationsStep(rows: Rows, ss: seq<Sighting>, more: seq<Sighting>, k: EventKey)
    requires more == [] || (more == [more[0]] && more[0].key == k)
    ensures Notifications(rows, ss + more, k) ==
            Notifications(rows, ss, k) + if more != [] && IsNews(UpsertAll(rows, ss), more[0]) then 1 else 0
  {
    assert more == [] ==> ss + more == ss;
    assert more != [] ==> (ss + more)[..|ss|] == ss;
  }

  lemma NewsInBothViews(cfg: Config, rows: Rows, other: Rows, e: Event, k: EventKey)
    requires IsSameView(rows, other, k)
    ensures var ss := StoredFor(cfg, rows, e, k); BringsNews(cfg, rows, e, k) <==> ss != [] && IsNews(other, ss[0])
  {
    StoredForRow(cfg, rows, e, k);
  }

  /** Each sighting that is news is announced, unless its statement was stored and reported an error. */
  lemma {:induction false} NoticesAreNotifications(cfg: Config, es: seq<Event>, k: EventKey)
    ensures Notices(cfg, es, k) <= Notifications(map[], SightingsOf(cfg, es, k), k)
    ensures (forall i :: 0 <= i < |es| ==> !IsMuted(es[i], k)) ==>
              Notices(cfg, es, k) == Notifications(map[], SightingsOf(cfg, es, k), k)
  {
    if es != [] {
      var n := |es| - 1;
      var front, rows := es[..n], Run(cfg, map[], es[..n]);
      var before, ss := SightingsOf(cfg, front, k), StoredFor(cfg, rows, es[n], k);
      NoticesAreNotifications(cfg, front, k);
      RunShowsSightings(cfg, front, k);
      StoredForRow(cfg, rows, es[n], k);
      NotificationsStep(map[], before, ss, k);
      NewsInBothViews(cfg, rows, UpsertAll(map[], before), es[n], k);
      assert SightingsOf(cfg, es, k) == before + ss;
    }
  }

  lemma {:induction false} SightingsGrow(cfg: Config, es: seq<Event>, i: nat, k: EventKey)
    requires i <= |es|
    ensures SightingsOf(cfg, es[..i], k) <= SightingsOf(cfg, es, k)
  {
    if i < |es| {
      var front := es[..|es| - 1];
      SightingsGrow(cfg, front, i, k);
      assert front[..i] == es[..i];
    } else {
      assert es[..i] == es;
    }
  }

  // ---------------------------------------------------------------- steady runs

  /** The confirmations that an event reports for the row. */
  function Reported(e: Event, k: EventKey): Option<int> {
    match e
    case Scan(s) => if s.key == k then Some(s.confirmations) else None
    case Check(key, _, _, reply, _) => if key == k && reply.Found? then Some(reply.confirmations) else None
  }

  /**
   A sighting by the watch's thresholds; a check that finds the transaction, with no
   terminal status, or no answer.
   */
  predicate IsSteadyEvent(cfg: Config, e: Event, k: EventKey, t: Thresholds) {
    match e
    case Scan(s) => s.key == k ==> s.status == StatusByCount(s.confirmations, t)
    case Check(key, minConf, unlockConf, reply, _) =>
      key == k ==>
        && !reply.Missing? && (reply.Found? ==> !IsTerminal(reply.status))
        && t == Thresholds(AtLeastOne(minConf), EffectiveUnlock(unlockConf, AtLeastOne(minConf)), cfg.window)
  }

  /** Thresholds are fixed, no status is terminal, and confirmations never fall. */
  ghost predicate IsSteadyRun(cfg: Config, es: seq<Event>, k: EventKey, t: Thresholds) {
    && (forall i :: 0 <= i < |es| ==> IsSteadyEvent(cfg, es[i], k, t))
    && (forall i, j :: 0 <= i < j < |es| && Reported(es[i], k).Some? && Reported(es[j], k).Some? ==>
          Reported(es[i], k).value <= Reported(es[j], k).value)
  }

  lemma StoredIsReported(cfg: Config, rows: Rows, e: Event, k: EventKey, t: Thresholds)
    requires IsSteadyEvent(cfg, e, k, t)
    ensures var ss := StoredFor(cfg, rows, e, k);
            && |ss| <= 1
            && (ss != [] ==>
                  && ss[0].key == k && Reported(e, k) == Some(ss[0].confirmations)
                  && ss[0].status == StatusByCount(ss[0].confirmations, t))
  {
  }

  lemma {:induction false} SightingsAreBounded(cfg: Config, es: seq<Event>, k: EventKey, t: Thresholds, c: int)
    requires forall i :: 0 <= i < |es| ==> IsSteadyEvent(cfg, es[i], k, t)
    requires forall i :: 0 <= i < |es| && Reported(es[i], k).Some? ==> Reported(es[i], k).value <= c
    ensures forall i :: 0 <= i < |SightingsOf(cfg, es, k)| ==> SightingsOf(cfg, es, k)[i].confirmations <= c
  {
    if es != [] {
      var front := es[..|es| - 1];
      SightingsAreBounded(cfg, front, k, t, c);
      StoredIsReported(cfg, Run(cfg, map[], front), es[|es| - 1], k, t);
    }
  }

  lemma SteadyAppend(ss: seq<Sighting>, s: Sighting, k: EventKey, t: Thresholds)
    requires Steady(ss, k, t) && s.key == k && s.status == StatusByCount(s.confirmations, t)
    requires forall i :: 0 <= i < |ss| ==> ss[i].confirmations <= s.confirmations
    ensures Steady(ss + [s], k, t)
  {
  }

  lemma {:induction false} SteadyRunsHaveSteadySightings(cfg: Config, es: seq<Event>, k: EventKey, t: Thresholds)
    requires IsSteadyRun(cfg, es, k, t)
    ensures Steady(SightingsOf(cfg, es, k), k, t)
  {
    if es != [] {
      var n := |es| - 1;
      var front := es[..n];
      assert IsSteadyRun(cfg, front, k, t);
      SteadyRunsHaveSteadySightings(cfg, front, k, t);
      var before, ss := SightingsOf(cfg, front, k), StoredFor(cfg, Run(cfg, map[], front), es[n], k);
      StoredIsReported(cfg, Run(cfg, map[], front), es[n], k, t);
      if ss != [] {
        SightingsAreBounded(cfg, front, k, t, ss[0].confirmations);
        SteadyAppend(before, ss[0], k, t);
        assert ss == [ss[0]];
      } else {
        assert before + ss == before;
      }
    }
  }

  /**
   Over every steady run of scans and reorg checks, whichever store statements fail: from any
   point on, the row's status never falls and its ledger status never leaves CONFIRMED, and
   the row notified at most once per distinct confirmation count that was stored, and
   exactly once if no stored statement reported an error.
   */
  lemma StatusNeverFallsInRuns(cfg: Config, es: seq<Event>, k: EventKey, t: Thresholds, i: nat)
    requires IsSteadyRun(cfg, es, k, t) && i <= |es| && k in Run(cfg, map[], es[..i])
    ensures k in Run(cfg, map[], es)
    ensures var before, after := Run(cfg, map[], es[..i])[k].status, Run(cfg, map[], es)[k].status;
            Rank(before) <= Rank(after) && (Ledger(before) == LedgerConfirmed ==> Ledger(after) == LedgerConfirmed)
    ensures Notices(cfg, es, k) <= |Confirmations(SightingsOf(cfg, es, k), k)|
    ensures (forall i :: 0 <= i < |es| ==> !IsMuted(es[i], k)) ==>
              Notices(cfg, es, k) == |Confirmations(SightingsOf(cfg, es, k), k)|
  {
    var early, ss := SightingsOf(cfg, es[..i], k), SightingsOf(cfg, es, k);
    SteadyRunsHaveSteadySightings(cfg, es, k, t);
    SightingsGrow(cfg, es, i, k);
    assert ss[..|early|] == early;
    RunShowsSightings(cfg, es[..i], k);
    RunShowsSightings(cfg, es, k);
    StatusNeverFalls(map[], ss, k, t, |early|);
    NoticesAreNotifications(cfg, es, k);
  }

  // ---------------------------------------------------------------- how much a confirmed row has

  /** A scan's or a check's news that confirms the row brings at least the watch's minimum. */
  predicate RespectsMinimum(e: Event, k: EventKey, minConf: int) {
    match e
    case Scan(s) =>
      s.key == k && Ledger(s.status) == LedgerConfirmed ==> s.confirmations >= 1 && s.confirmations >= minConf
    case Check(key, minimum, _, reply, _) =>
      key == k && reply.Found? ==> !IsTerminal(reply.status) && minimum >= minConf
  }

  /** A group scan's sightings do, for transfers without a terminal status. */
  lemma ScannedSightingRespectsMinimum(scan: GroupScan.Scan, w: GroupScan.Watch, tx: GroupScan.Transfer, i: nat,
                                       k: EventKey)
    requires !IsTerminal(tx.status)
    ensures RespectsMinimum(Scan(GroupScan.SightingOf(scan, w, tx, i)), k, w.minConf)
  {
    var minConf := AtLeastOne(w.minConf);
    StatusNeeds(tx.status, tx.confirmations,
                Thresholds(minConf, EffectiveUnlock(w.unlockConf, minConf), scan.reorgWindow));
  }

  ghost predicate HasMinimum(rows: Rows, k: EventKey, minConf: int) {
    k in rows && Ledger(rows[k].status) == LedgerConfirmed ==>
      rows[k].confirmations >= 1 && rows[k].confirmations >= minConf
  }

  lemma StepKeepsMinimum(cfg: Config, rows: Rows, e: Event, k: EventKey, minConf: int)
    requires HasMinimum(rows, k, minConf) && RespectsMinimum(e, k, minConf)
    ensures HasMinimum(Next(cfg, rows, e), k, minConf)
  {
    if e.Check? && e.key == k && e.reply.Found? && k in rows {
      var c := Candidate(k, rows[k], e.minConf, e.unlockConf);
      StatusNeeds(e.reply.status, e.reply.confirmations, CandidateThresholds(c, cfg.window));
    }
  }

  /**
   In any run, whatever fails and however confirmations rise and fall, a row whose ledger
   status is CONFIRMED has at least its watch's minimum of confirmations, and at least one.
   */
  lemma {:induction false} ConfirmedRowsHaveMinimum(cfg: Config, es: seq<Event>, k: EventKey, minConf: int)
    requires forall i :: 0 <= i < |es| ==> RespectsMinimum(es[i], k, minConf)
    ensures HasMinimum(Run(cfg, map[], es), k, minConf)
  {
    if es != [] {
      var n := |es| - 1;
      ConfirmedRowsHaveMinimum(cfg, es[..n], k, minConf);
      StepKeepsMinimum(cfg, Run(cfg, map[], es[..n]), es[n], k, minConf);
    }
  }
}
