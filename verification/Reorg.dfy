/**
 Reorg reconciliation: events whose transaction the chain no longer finds
 (services/scan-account-service/internal/worker/scanner_reorg.go). Finality replies
 are the environment's choice, and so are which rows are checked and which store calls fail.
 */
module Reorg {
  import opened Wrappers
  import opened Text
  import opened SeenEvents

  datatype Reply = Unreachable | Missing | Found(status: string, confirmations: int)

  /** A row as ListReorgCandidates returned it, with the thresholds of its watch. */
  datatype Candidate = Candidate(key: EventKey, listed: Row, minConf: int, unlockConf: int)

  function CandidateThresholds(c: Candidate, window: int): Thresholds {
    var minConf := AtLeastOne(c.minConf);
    Thresholds(minConf, EffectiveUnlock(c.unlockConf, minConf), window)
  }

  function CheckSighting(c: Candidate, status: ScanStatus, confirmations: int): Sighting {
    Sighting(c.key, status, confirmations, c.listed.amount, c.listed.from, Fallback(c.listed.to, c.key.address))
  }

  function WithNotFound(rows: Rows, k: EventKey, n: int): Rows
    requires k in rows
  {
    rows[k := rows[k].(notFound := n)]
  }

  /** How the store answers the statements of one check. */
  datatype Stores = Stores(increment: Outcome, reset: Outcome, upsert: Outcome)

  const WORKING := Stores(Applied, Applied, Applied)

  function Stored(rows: Rows, s: Sighting, o: Outcome): Rows {
    if o == Lost then rows else Upsert(rows, s)
  }

  /** What checking one candidate does to the table. A statement that reports an error ends the check. */
  function Checked(rows: Rows, c: Candidate, reply: Reply, st: Stores, window: int, threshold: int): Rows {
    match reply
    case Unreachable => rows
    case Missing =>
      if c.key !in rows || st.increment == Lost then rows
      else
        var miss := rows[c.key].notFound + 1;
        var counted := WithNotFound(rows, c.key, miss);
        if st.increment != Applied || miss < threshold then counted
        else Stored(counted, CheckSighting(c, REORGED, 0), st.upsert)
    case Found(status, confirmations) =>
      var isCounted := c.listed.notFound > 0;
      var cleared := if isCounted && c.key in rows && st.reset != Lost then WithNotFound(rows, c.key, 0) else rows;
      if isCounted && st.reset != Applied then cleared
      else
        var next := ResolveStatus(status, confirmations, CandidateThresholds(c, window));
        Stored(cleared, CheckSighting(c, next, confirmations), st.upsert)
  }

  /**
   The sighting whose deposit event is enqueued after the check: the one that was stored
   without error and was news.
   */
  function CheckNews(rows: Rows, c: Candidate, reply: Reply, st: Stores, window: int, threshold: int): seq<Sighting> {
    match reply
    case Unreachable => []
    case Missing =>
      if c.key !in rows || st.increment != Applied || rows[c.key].notFound + 1 < threshold then []
      else NewsOf(WithNotFound(rows, c.key, rows[c.key].notFound + 1), CheckSighting(c, REORGED, 0), st.upsert)
    case Found(status, confirmations) =>
      var isCounted := c.listed.notFound > 0;
      if isCounted && st.reset != Applied then []
      else
        var cleared := if isCounted && c.key in rows then WithNotFound(rows, c.key, 0) else rows;
        var next := ResolveStatus(status, confirmations, CandidateThresholds(c, window));
        NewsOf(cleared, CheckSighting(c, next, confirmations), st.upsert)
  }

  function NewsOf(rows: Rows, s: Sighting, o: Outcome): seq<Sighting> {
    if o == Applied && IsNews(rows, s) then [s] else []
  }

  function NewsOfAll(rows: Rows, cs: seq<Candidate>, replies: seq<Reply>, sts: seq<Stores>, cfg: Config): seq<Sighting>
    requires |cs| == |replies| == |sts|
  {
    if cs == [] then []
    else
      var n := |cs| - 1;
      var front := CheckedAll(rows, cs[..n], replies[..n], sts[..n], cfg);
      NewsOfAll(rows, cs[..n], replies[..n], sts[..n], cfg)
      + (if Trim(cs[n].key.network) == "" then []
         else CheckNews(front, cs[n], replies[n], sts[n], cfg.window, cfg.threshold))
  }

  function CheckedAll(rows: Rows, cs: seq<Candidate>, replies: seq<Reply>, sts: seq<Stores>, cfg: Config): Rows
    requires |cs| == |replies| == |sts|
  {
    if cs == [] then rows
    else
      var n := |cs| - 1;
      var front := CheckedAll(rows, cs[..n], replies[..n], sts[..n], cfg);
      if Trim(cs[n].key.network) == "" then front
      else Checked(front, cs[n], replies[n], sts[n], cfg.window, cfg.threshold)
  }

  datatype Config = Config(window: int, threshold: int)

  /**
   reconcileReorgCandidates over one listing; candidates without a network are passed over.
   The result is the sightings whose deposit events it enqueues, in order.
   */
  method ReconcileCandidates(table: SeenTable, cs: seq<Candidate>, replies: seq<Reply>, sts: seq<Stores>, cfg: Config)
    returns (news: seq<Sighting>)
    requires |cs| == |replies| == |sts|
    modifies table`rows
    ensures table.rows == CheckedAll(old(table.rows), cs, replies, sts, cfg)
    ensures news == NewsOfAll(old(table.rows), cs, replies, sts, cfg)
  {
    news := [];
    for n := 0 to |cs|
      invariant table.rows == CheckedAll(old(table.rows), cs[..n], replies[..n], sts[..n], cfg)
      invariant news == NewsOfAll(old(table.rows), cs[..n], replies[..n], sts[..n], cfg)
    {
      PassStep(old(table.rows), cs, replies, sts, cfg, n);
      if Trim(cs[n].key.network) != "" {
        var more := ReconcileOne(table, cs[n], replies[n], sts[n], cfg);
        news := news + more;
      }
    }
    assert cs[..|cs|] == cs && replies[..|cs|] == replies && sts[..|cs|] == sts;
  }

  lemma PassStep(rows: Rows, cs: seq<Candidate>, replies: seq<Reply>, sts: seq<Stores>, cfg: Config, n: nat)
    requires |cs| == |replies| == |sts| && n < |cs|
    ensures var before := CheckedAll(rows, cs[..n], replies[..n], sts[..n], cfg);
            var isChecked := Trim(cs[n].key.network) != "";
            && CheckedAll(rows, cs[..n + 1], replies[..n + 1], sts[..n + 1], cfg) ==
               (if isChecked then Checked(before, cs[n], replies[n], sts[n], cfg.window, cfg.threshold) else before)
            && NewsOfAll(rows, cs[..n + 1], replies[..n + 1], sts[..n + 1], cfg) ==
               NewsOfAll(rows, cs[..n], replies[..n], sts[..n], cfg)
               + (if isChecked then CheckNews(before, cs[n], replies[n], sts[n], cfg.window, cfg.threshold) else [])
  {
    var a, b, c := cs[..n + 1], replies[..n + 1], sts[..n + 1];
    assert a[..n] == cs[..n] && b[..n] == replies[..n] && c[..n] == sts[..n];
  }

  /** One statement of the store, which may be lost, and whether an event is due after it. */
  method Record(table: SeenTable, s: Sighting, o: Outcome) returns (news: seq<Sighting>)
    modifies table`rows
    ensures table.rows == Stored(old(table.rows), s, o) && news == NewsOf(old(table.rows), s, o)
  {
    news := [];
    if o != Lost {
      var change := table.UpsertSeenEvent(s);
      if o == Applied && change.notify {
        news := [s];
      }
    }
  }

  method ReconcileMissing(table: SeenTable, c: Candidate, st: Stores, cfg: Config) returns (news: seq<Sighting>)
    modifies table`rows
    ensures table.rows == Checked(old(table.rows), c, Missing, st, cfg.window, cfg.threshold)
    ensures news == CheckNews(old(table.rows), c, Missing, st, cfg.window, cfg.threshold)
  {
    if st.increment == Lost {
      return [];
    }
    var miss := table.IncrementNotFound(c.key);
    if st.increment != Applied || miss.None? || miss.value < cfg.threshold {
      return [];
    }
    news := Record(table, CheckSighting(c, REORGED, 0), st.upsert);
  }

  method ReconcileOne(table: SeenTable, c: Candidate, reply: Reply, st: Stores, cfg: Config)
    returns (news: seq<Sighting>)
    modifies table`rows
    ensures table.rows == Checked(old(table.rows), c, reply, st, cfg.window, cfg.threshold)
    ensures news == CheckNews(old(table.rows), c, reply, st, cfg.window, cfg.threshold)
  {
    match reply
    case Unreachable => news := [];
    case Missing => news := ReconcileMissing(table, c, st, cfg);
    case Found(status, confirmations) =>
      if c.listed.notFound > 0 {
        if st.reset != Lost {
          table.ResetNotFound(c.key);
        }
        if st.reset != Applied {
          return [];
        }
      }
      var next := ResolveStatus(status, confirmations, CandidateThresholds(c, cfg.window));
      news := Record(table, CheckSighting(c, next, confirmations), st.upsert);
  }

  // ---------------------------------------------------------------- runs

  /** A scanner's sighting, or a check of the row as it stands. */
  datatype Event = Scan(s: Sighting) | Check(key: EventKey, minConf: int, unlockConf: int, reply: Reply, stores: Stores)

  function Next(cfg: Config, rows: Rows, e: Event): Rows {
    match e
    case Scan(s) => Upsert(rows, s)
    case Check(k, minConf, unlockConf, reply, st) =>
      if k !in rows then rows
      else Checked(rows, Candidate(k, rows[k], minConf, unlockConf), reply, st, cfg.window, cfg.threshold)
  }

  function Run(cfg: Config, rows: Rows, es: seq<Event>): Rows {
    if es == [] then rows else Next(cfg, Run(cfg, rows, es[..|es| - 1]), es[|es| - 1])
  }

  function ToEvents(cs: seq<Candidate>, replies: seq<Reply>, sts: seq<Stores>): seq<Event>
    requires |cs| == |replies| == |sts|
  {
    if cs == [] then []
    else
      var n := |cs| - 1;
      ToEvents(cs[..n], replies[..n], sts[..n])
      + (if Trim(cs[n].key.network) == "" then [] else [CheckOf(cs[n], replies[n], sts[n])])
  }

  function CheckOf(c: Candidate, reply: Reply, st: Stores): Event {
    Check(c.key, c.minConf, c.unlockConf, reply, st)
  }

  /** A listing: every row appears once, as it stands. */
  ghost predicate IsListing(rows: Rows, cs: seq<Candidate>) {
    && (forall i :: 0 <= i < |cs| ==> cs[i].key in rows && cs[i].listed == rows[cs[i].key])
    && (forall i, j :: 0 <= i < j < |cs| ==> cs[i].key != cs[j].key)
  }

  lemma CheckedTouchesOnlyItsRow(rows: Rows, c: Candidate, reply: Reply, st: Stores, cfg: Config, k: EventKey)
    requires k != c.key && k in rows
    ensures var after := Checked(rows, c, reply, st, cfg.window, cfg.threshold); k in after && after[k] == rows[k]
  {
  }

  lemma {:induction false} OtherRowsStay(rows: Rows, cs: seq<Candidate>, replies: seq<Reply>, sts: seq<Stores>,
                                         cfg: Config, k: EventKey)
    requires |cs| == |replies| == |sts| && k in rows && forall i :: 0 <= i < |cs| ==> cs[i].key != k
    ensures var after := CheckedAll(rows, cs, replies, sts, cfg); k in after && after[k] == rows[k]
  {
    if cs != [] {
      var n := |cs| - 1;
      OtherRowsStay(rows, cs[..n], replies[..n], sts[..n], cfg, k);
      var before := CheckedAll(rows, cs[..n], replies[..n], sts[..n], cfg);
      CheckedTouchesOnlyItsRow(before, cs[n], replies[n], sts[n], cfg, k);
    }
  }

  lemma RunAppend(cfg: Config, rows: Rows, es: seq<Event>, e: Event)
    ensures Run(cfg, rows, es + [e]) == Next(cfg, Run(cfg, rows, es), e)
  {
    assert (es + [e])[..|es|] == es;
  }

  /** So each candidate of a listing is checked once, from the row it was listed with, unless its network is blank. */
  lemma {:induction false} PassChecksEach(rows: Rows, cs: seq<Candidate>, replies: seq<Reply>, sts: seq<Stores>,
                                          cfg: Config, i: nat)
    requires |cs| == |replies| == |sts| && IsListing(rows, cs) && i < |cs|
    ensures var k := cs[i].key;
            var after := CheckedAll(rows, cs, replies, sts, cfg);
            var alone := Checked(rows, cs[i], replies[i], sts[i], cfg.window, cfg.threshold);
            k in after && after[k] == if Trim(k.network) == "" then rows[k] else alone[k]
  {
    var n := |cs| - 1;
    var front := cs[..n];
    var before := CheckedAll(rows, front, replies[..n], sts[..n], cfg);
    if i < n {
      PassChecksEach(rows, front, replies[..n], sts[..n], cfg, i);
      CheckedTouchesOnlyItsRow(before, cs[n], replies[n], sts[n], cfg, cs[i].key);
    } else {
      OtherRowsStay(rows, front, replies[..n], sts[..n], cfg, cs[n].key);
      CheckDependsOnRow(rows, before, cs[n], replies[n], sts[n], cfg);
    }
  }

  lemma CheckDependsOnRow(a: Rows, b: Rows, c: Candidate, reply: Reply, st: Stores, cfg: Config)
    requires c.key in a && c.key in b && a[c.key] == b[c.key]
    ensures var x := Checked(a, c, reply, st, cfg.window, cfg.threshold);
            var y := Checked(b, c, reply, st, cfg.window, cfg.threshold);
            c.key in x && c.key in y && x[c.key] == y[c.key]
  {
  }

  /**
   What a check with a working store leaves in the row it was listed from. Found: the status
   by the reply and the watch's thresholds, the reply's confirmations if these or the status
   moved, and no misses. Missing: one more miss and nothing else, until the threshold turns
   it REORGED with no confirmations. No answer: nothing. Amount and sender never change, and
   an event is due exactly if the status or the confirmations did.
   */
  lemma CheckShows(rows: Rows, c: Candidate, reply: Reply, window: int, threshold: int)
    requires c.key in rows && c.listed == rows[c.key] && c.listed.notFound >= 0
    ensures var was, after := rows[c.key], Checked(rows, c, reply, WORKING, window, threshold);
            var minConf := AtLeastOne(c.minConf);
            var t := Thresholds(minConf, EffectiveUnlock(c.unlockConf, minConf), window);
            && c.key in after
            && var row := after[c.key];
            && row.amount == was.amount && row.from == was.from
            && row.to in {was.to, if Trim(was.to) == "" then c.key.address else was.to}
            && (reply == Unreachable ==> row == was)
            && (reply == Missing && was.notFound + 1 < threshold ==> row == was.(notFound := was.notFound + 1))
            && (reply == Missing && was.notFound + 1 >= threshold ==> row.status == REORGED)
            && (reply.Found? ==>
                  && row.notFound == 0
                  && row.status == ResolveStatus(reply.status, reply.confirmations, t)
                  && (row.confirmations == reply.confirmations ||
                      (row.status == was.status && reply.confirmations < row.confirmations == was.confirmations)))
            && (CheckNews(rows, c, reply, WORKING, window, threshold) != [] <==>
                  row.status != was.status || row.confirmations != was.confirmations)
  {
    if reply.Missing? && rows[c.key].notFound + 1 >= threshold {
      MissingShows(rows, c, window, threshold);
    }
  }

  lemma MissingShows(rows: Rows, c: Candidate, window: int, threshold: int)
    requires c.key in rows && c.listed == rows[c.key] && rows[c.key].notFound + 1 >= threshold
    ensures var was, after := rows[c.key], Checked(rows, c, Missing, WORKING, window, threshold);
            && c.key in after && after[c.key].status == REORGED
            && (was.status != REORGED ==> after[c.key].confirmations == 0 && after[c.key].notFound == 0)
  {
  }

  /** Within one pass the listed copies are never stale: the pass is a run of checks of current rows. */
  lemma {:induction false} PassIsARun(cfg: Config, rows: Rows, cs: seq<Candidate>, replies: seq<Reply>,
                                      sts: seq<Stores>)
    requires |cs| == |replies| == |sts| && IsListing(rows, cs)
    ensures CheckedAll(rows, cs, replies, sts, cfg) == Run(cfg, rows, ToEvents(cs, replies, sts))
  {
    if cs != [] {
      var n := |cs| - 1;
      var front, events := cs[..n], ToEvents(cs[..n], replies[..n], sts[..n]);
      assert IsListing(rows, front);
      PassIsARun(cfg, rows, front, replies[..n], sts[..n]);
      if Trim(cs[n].key.network) != "" {
        OtherRowsStay(rows, front, replies[..n], sts[..n], cfg, cs[n].key);
        RunAppend(cfg, rows, events, CheckOf(cs[n], replies[n], sts[n]));
      } else {
        assert ToEvents(cs, replies, sts) == events;
      }
    }
  }

  /** Consecutive not-found replies for the event since its last found reply. */
  function Misses(es: seq<Event>, k: EventKey): nat {
    if es == [] then 0 else MissesAfter(Misses(es[..|es| - 1], k), es[|es| - 1], k)
  }

  function MissesAfter(misses: nat, e: Event, k: EventKey): nat {
    if e.Check? && e.key == k && e.reply.Missing? then misses + 1
    else if e.Check? && e.key == k && e.reply.Found? then 0
    else misses
  }

  /** A found reply whose reset statement is lost. */
  predicate LosesReset(e: Event, k: EventKey) {
    e.Check? && e.key == k && e.reply.Found? && e.stores.reset == Lost
  }

  /**
   One step, exactly: a count that is within the misses stays within them unless the row
   is counted and the reset of a found reply is lost. No other failure of the store matters.
   */
  lemma CountStepIsExact(cfg: Config, rows: Rows, e: Event, k: EventKey, misses: nat)
    requires k in rows && 0 <= rows[k].notFound <= misses
    ensures var after := Next(cfg, rows, e);
            && k in after && 0 <= after[k].notFound
            && (after[k].notFound <= MissesAfter(misses, e, k) <==> !(LosesReset(e, k) && rows[k].notFound > 0))
  {
  }

  lemma NewRowsAreUncounted(cfg: Config, rows: Rows, e: Event, k: EventKey)
    requires k !in rows
    ensures var after := Next(cfg, rows, e); k in after ==> after[k].notFound == 0
  {
  }

  /** In every run that loses no reset of the event the stored count never exceeds its consecutive misses. */
  lemma {:induction false} CountNeverExceedsMisses(cfg: Config, es: seq<Event>, k: EventKey)
    requires forall i :: 0 <= i < |es| ==> !LosesReset(es[i], k)
    ensures var rows := Run(cfg, map[], es); k in rows ==> 0 <= rows[k].notFound <= Misses(es, k)
  {
    if es != [] {
      var n := |es| - 1;
      var rows := Run(cfg, map[], es[..n]);
      CountNeverExceedsMisses(cfg, es[..n], k);
      if k in rows {
        CountStepIsExact(cfg, rows, es[n], k, Misses(es[..n], k));
      } else {
        NewRowsAreUncounted(cfg, rows, es[n], k);
      }
    }
  }

  ghost predicate IsWithinMisses(cfg: Config, es: seq<Event>, k: EventKey) {
    var rows := Run(cfg, map[], es);
    k in rows ==> 0 <= rows[k].notFound <= Misses(es, k)
  }

  /** Event i of the run loses the reset of the row while it is counted. */
  ghost predicate LosesCount(cfg: Config, es: seq<Event>, i: nat, k: EventKey)
    requires i < |es|
  {
    var rows := Run(cfg, map[], es[..i]);
    LosesReset(es[i], k) && k in rows && rows[k].notFound > 0
  }

  /** One event further, exactly. */
  lemma NextCountIsExact(cfg: Config, es: seq<Event>, i: nat, k: EventKey)
    requires i < |es| && IsWithinMisses(cfg, es[..i], k)
    ensures IsWithinMisses(cfg, es[..i + 1], k) <==> !LosesCount(cfg, es, i, k)
  {
    var upTo := es[..i + 1];
    assert upTo[..i] == es[..i];
    var rows := Run(cfg, map[], es[..i]);
    if k in rows {
      CountStepIsExact(cfg, rows, es[i], k, Misses(es[..i], k));
    } else {
      NewRowsAreUncounted(cfg, rows, es[i], k);
    }
  }

  lemma {:induction false} CountStaysWithin(cfg: Config, es: seq<Event>, n: nat, k: EventKey)
    requires n <= |es| && forall i :: 0 <= i < n ==> !LosesCount(cfg, es, i, k)
    ensures IsWithinMisses(cfg, es[..n], k)
    decreases n
  {
    if n > 0 {
      CountStaysWithin(cfg, es, n - 1, k);
      NextCountIsExact(cfg, es, n - 1, k);
    }
  }

  /**
   Over every run and every store failure: the count stays within the consecutive misses at
   each point if and only if no found reply loses the reset of the row while it is counted.
   */
  lemma CountIsExact(cfg: Config, es: seq<Event>, k: EventKey)
    ensures (forall n :: 0 <= n <= |es| ==> IsWithinMisses(cfg, es[..n], k))
            <==> (forall i :: 0 <= i < |es| ==> !LosesCount(cfg, es, i, k))
  {
    if forall i :: 0 <= i < |es| ==> !LosesCount(cfg, es, i, k) {
      forall n | 0 <= n <= |es| ensures IsWithinMisses(cfg, es[..n], k) {
        CountStaysWithin(cfg, es, n, k);
      }
    } else {
      var i :| 0 <= i < |es| && LosesCount(cfg, es, i, k);
      if IsWithinMisses(cfg, es[..i], k) {
        NextCountIsExact(cfg, es, i, k);
        assert !IsWithinMisses(cfg, es[..i + 1], k);
      }
    }
  }

  /** So a row turns REORGED on a not-found reply only after at least `threshold` consecutive misses. */
  lemma AbsenceNeedsEnoughMisses(cfg: Config, es: seq<Event>, e: Event, k: EventKey)
    requires e.Check? && e.key == k && e.reply == Missing && forall i :: 0 <= i < |es| ==> !LosesReset(es[i], k)
    requires var rows := Run(cfg, map[], es);
             k in rows && rows[k].status != REORGED && Next(cfg, rows, e)[k].status == REORGED
    ensures Misses(es + [e], k) >= cfg.threshold
  {
    CountNeverExceedsMisses(cfg, es, k);
    assert (es + [e])[..|es|] == es;
  }

  function Missed(k: EventKey, minConf: int, unlockConf: int, m: nat): (es: seq<Event>)
    ensures |es| == m
  {
    if m == 0 then [] else Missed(k, minConf, unlockConf, m - 1) + [Check(k, minConf, unlockConf, Missing, WORKING)]
  }

  /** A miss with a working store counts or marks, and a marked row stays marked. */
  lemma MissCountsOrMarks(cfg: Config, rows: Rows, k: EventKey, minConf: int, unlockConf: int)
    requires k in rows && rows[k].notFound >= 0
    ensures var after := Next(cfg, rows, Check(k, minConf, unlockConf, Missing, WORKING));
            && k in after && after[k].notFound >= 0
            && (after[k].status == REORGED || after[k].notFound == rows[k].notFound + 1)
            && (rows[k].status == REORGED || rows[k].notFound + 1 >= cfg.threshold ==> after[k].status == REORGED)
  {
  }

  /** And conversely, with a working store, `threshold` misses in a row with nothing else in between do mark the row. */
  lemma {:induction false} EnoughMissesMark(cfg: Config, rows: Rows, k: EventKey, minConf: int, unlockConf: int, m: nat)
    requires k in rows && rows[k].notFound >= 0
    ensures var after := Run(cfg, rows, Missed(k, minConf, unlockConf, m));
            && k in after && after[k].notFound >= 0
            && (after[k].status == REORGED || after[k].notFound >= m)
            && (m >= 1 && m >= cfg.threshold ==> after[k].status == REORGED)
  {
    if m > 0 {
      EnoughMissesMark(cfg, rows, k, minConf, unlockConf, m - 1);
      var front := Missed(k, minConf, unlockConf, m - 1);
      RunAppend(cfg, rows, front, Check(k, minConf, unlockConf, Missing, WORKING));
      MissCountsOrMarks(cfg, Run(cfg, rows, front), k, minConf, unlockConf);
    }
  }
}
