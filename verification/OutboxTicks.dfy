/**
 How often an outbox row is handled. A schedule is what one scanner process does: it
 enqueues deposits and makes passes over current listings, in any order and with any
 answers. Each handling is counted where the handler is called, and so is each handling
 whose mark was lost; both counts start again when the row is set or reset.
 */
module OutboxTicks {
  import opened GroupScan
  import opened Outbox
  import opened OutboxDispatch
  import opened OutboxRowLife

  datatype Tally = Tally(handled: nat, lost: nat)

  type Tallies = map<Key, Tally>

  function TallyOf(t: Tallies, k: Key): Tally {
    if k in t then t[k] else Tally(0, 0)
  }

  datatype Life = Life(world: World, tallies: Tallies)

  const NEWBORN := Life(World(map[], []), map[])

  function Restarted(t: Tallies, before: OutboxRows, after: OutboxRows): Tallies {
    map k | k in t && !IsReset(before, after, k) :: t[k]
  }

  function Counted(t: Tallies, k: Key, marked: bool): Tallies {
    var was := TallyOf(t, k);
    t[k := Tally(was.handled + 1, was.lost + if marked then 0 else 1)]
  }

  /** One event handled and, unless the statement is lost, marked. */
  function HandledOnce(sweepMin: string, l: Life, ev: Event, r: Replies, now: int): Life {
    var (w, ok) := Handle(sweepMin, l.world, ev, r, now);
    Life(Marked(w, ev, ok, r.marked, now), Counted(Restarted(l.tallies, l.world.rows, w.rows), ev.key, r.marked))
  }

  function HandledAll(sweepMin: string, l: Life, evs: seq<Event>, rs: nat -> Replies, now: int): Life {
    if evs == [] then l
    else
      var n := |evs| - 1;
      HandledOnce(sweepMin, HandledAll(sweepMin, l, evs[..n], rs, now), evs[n], rs(n), now)
  }

  /** A deposit reported by a scan or the reorg pass. */
  function Reported(l: Life, w: Watch, t: Sighted, now: int): Life {
    var p := DepositOf(w, t);
    var ev := EventFor(DepositNotify, p, Deposit(p));
    var rows := Upserted(l.world.rows, ev, now);
    var isSet := Acceptable(ev) && (ev.key !in l.world.rows || l.world.rows[ev.key].state == Queued);
    Life(l.world.(rows := rows), if isSet then l.tallies - {ev.key} else l.tallies)
  }

  datatype Tick =
    | Report(watch: Watch, sighted: Sighted, at: int)
    | Pass(evs: seq<Event>, answers: nat -> Replies, at: int)

  ghost function After(sweepMin: string, ticks: seq<Tick>): Life {
    if |ticks| == 0 then NEWBORN
    else
      var l := After(sweepMin, ticks[..|ticks| - 1]);
      match ticks[|ticks| - 1]
      case Report(w, t, now) => Reported(l, w, t, now)
      case Pass(evs, rs, now) => HandledAll(sweepMin, l, evs, rs, now)
  }

  /** Every pass works on a listing of the rows as they stand. */
  ghost predicate IsSchedule(sweepMin: string, ticks: seq<Tick>) {
    forall i :: 0 <= i < |ticks| && ticks[i].Pass? ==> IsCurrent(After(sweepMin, ticks[..i]).world.rows, ticks[i].evs)
  }

  // ---------------------------------------------------------------- the counted pass is the dispatcher's

  lemma {:induction false} PassIsCounted(sweepMin: string, l: Life, evs: seq<Event>, rs: nat -> Replies, now: int)
    ensures HandledAll(sweepMin, l, evs, rs, now).world == DispatchedAll(sweepMin, l.world, evs, rs, now)
  {
    if evs != [] {
      PassIsCounted(sweepMin, l, evs[..|evs| - 1], rs, now);
    }
  }

  // ---------------------------------------------------------------- what every row keeps

  ghost predicate AllCounted(l: Life) {
    forall k :: k in l.world.rows ==> IsCounted(l, k)
  }

  /** Handlings less lost marks are the row's attempts, plus one if it is DONE; FAILED means that no attempt is left. */
  predicate IsCounted(l: Life, k: Key)
    requires k in l.world.rows
  {
    var t := TallyOf(l.tallies, k);
    t.lost <= t.handled && IsSound(l.world.rows[k], t.handled - t.lost)
  }

  lemma HandlerKeepsCounts(sweepMin: string, l: Life, ev: Event, r: Replies, now: int)
    requires AllCounted(l)
    ensures var w := Handle(sweepMin, l.world, ev, r, now).0;
            AllCounted(Life(w, Restarted(l.tallies, l.world.rows, w.rows)))
  {
    var w := Handle(sweepMin, l.world, ev, r, now).0;
    var after := Life(w, Restarted(l.tallies, l.world.rows, w.rows));
    forall k | k in w.rows ensures IsCounted(after, k) {
      HandlersOnlySpawn(sweepMin, l.world, ev, r, now, k);
      assert k in l.world.rows ==> IsCounted(l, k);
    }
  }

  lemma MarkKeepsCounts(w: World, t: Tallies, ev: Event, ok: bool, marked: bool, now: int)
    requires AllCounted(Life(w, t)) && IsCurrent(w.rows, [ev])
    ensures AllCounted(Life(Marked(w, ev, ok, marked, now), Counted(t, ev.key, marked)))
  {
    assert [ev][0] == ev;
    var before, after := Life(w, t), Life(Marked(w, ev, ok, marked, now), Counted(t, ev.key, marked));
    forall k | k in after.world.rows ensures IsCounted(after, k) {
      assert IsCounted(before, k);
    }
  }

  lemma HandledOnceKeepsCounts(sweepMin: string, l: Life, ev: Event, r: Replies, now: int)
    requires AllCounted(l) && IsCurrent(l.world.rows, [ev])
    ensures AllCounted(HandledOnce(sweepMin, l, ev, r, now))
  {
    assert [ev][0] == ev;
    var (w, ok) := Handle(sweepMin, l.world, ev, r, now);
    HandlerKeepsCounts(sweepMin, l, ev, r, now);
    HandlersSpareQueuedRows(sweepMin, l.world, ev, r, now, ev.key);
    MarkKeepsCounts(w, Restarted(l.tallies, l.world.rows, w.rows), ev, ok, r.marked, now);
  }

  lemma {:induction false} PassKeepsCounts(sweepMin: string, l: Life, evs: seq<Event>, rs: nat -> Replies, now: int)
    requires AllCounted(l) && IsCurrent(l.world.rows, evs)
    ensures AllCounted(HandledAll(sweepMin, l, evs, rs, now))
  {
    if evs != [] {
      var n := |evs| - 1;
      var front := evs[..n];
      PassKeepsCounts(sweepMin, l, front, rs, now);
      PassIsCounted(sweepMin, l, front, rs, now);
      assert evs[n].key in l.world.rows;
      DispatchedAllSpares(sweepMin, l.world, front, rs, now, evs[n].key);
      HandledOnceKeepsCounts(sweepMin, HandledAll(sweepMin, l, front, rs, now), evs[n], rs(n), now);
    }
  }

  lemma ReportKeepsCounts(l: Life, w: Watch, t: Sighted, now: int)
    requires AllCounted(l)
    ensures AllCounted(Reported(l, w, t, now))
  {
    var after := Reported(l, w, t, now);
    forall k | k in after.world.rows ensures IsCounted(after, k) {
      assert k in l.world.rows ==> IsCounted(l, k);
    }
  }

  lemma {:induction false} ScheduleKeepsCounts(sweepMin: string, ticks: seq<Tick>)
    requires IsSchedule(sweepMin, ticks)
    ensures AllCounted(After(sweepMin, ticks))
  {
    if |ticks| > 0 {
      var n := |ticks| - 1;
      var front := ticks[..n];
      assert forall i :: 0 <= i < n ==> front[..i] == ticks[..i];
      ScheduleKeepsCounts(sweepMin, front);
      match ticks[n]
      case Report(w, t, now) => ReportKeepsCounts(After(sweepMin, front), w, t, now);
      case Pass(evs, rs, now) => PassKeepsCounts(sweepMin, After(sweepMin, front), evs, rs, now);
    }
  }

  /**
   Over every schedule of enqueues and passes from an empty outbox: since it was last set
   or reset a row was handled at most max times, not counting handlings whose mark was
   lost; a PENDING row has attempts left, and FAILED holds exactly when none are.
   */
  lemma HandledAtMostMaxTimes(sweepMin: string, ticks: seq<Tick>, k: Key)
    requires IsSchedule(sweepMin, ticks) && k in After(sweepMin, ticks).world.rows
    ensures var l := After(sweepMin, ticks); var row, t := l.world.rows[k], TallyOf(l.tallies, k);
            && t.handled <= row.maxAttempts + t.lost
            && (row.state == Queued ==> t.handled < row.maxAttempts + t.lost && row.attempt < row.maxAttempts)
            && (row.state == Failed <==> row.attempt == row.maxAttempts)
            && (row.state == Failed ==> t.handled == row.maxAttempts + t.lost)
  {
    ScheduleKeepsCounts(sweepMin, ticks);
    assert IsCounted(After(sweepMin, ticks), k);
  }
}
