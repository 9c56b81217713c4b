/**
 The life of an outbox row. Runs here are those of one dispatcher, which marks a row only
 while the row is still as listed; a pass of the dispatcher is shown to be such a run.
 */
module OutboxRowLife {
  import opened Wrappers
  import opened SeenEvents
  import opened Outbox
  import opened OutboxDispatch
  import opened OutboxRuns
  import opened OutboxFinality

  /** A mark meets the row just as the dispatcher listed it. */
  predicate IsTimely(st: State, step: Step) {
    step.MarkDone? || step.MarkRetry? ==>
      && step.ev.key in st.rows && st.rows[step.ev.key].state == Queued
      && step.ev == Snapshot(step.ev.key, st.rows[step.ev.key])
  }

  datatype Run = Run(states: seq<State>, steps: seq<Step>)

  ghost predicate IsTimelyRun(sweepMin: string, run: Run) {
    && IsRun(sweepMin, run.states, run.steps)
    && forall i :: 0 <= i < |run.steps| ==> IsTimely(run.states[i], run.steps[i])
  }

  // ---------------------------------------------------------------- what every row keeps

  /** Marks, attempts and the limit agree; a row is FAILED exactly when its attempts are used up. */
  predicate IsSound(row: OutboxRow, marks: nat) {
    && 0 <= row.attempt <= row.maxAttempts && row.maxAttempts > 0
    && (row.state == Failed <==> row.attempt == row.maxAttempts)
    && marks == row.attempt + (if row.state == Done then 1 else 0)
  }

  ghost predicate AllSound(st: State) {
    forall k :: k in st.rows ==> IsSound(st.rows[k], MarksOf(st, k))
  }

  lemma SpawnKeepsSound(st: State, ev: Event, now: int)
    requires AllSound(st)
    ensures AllSound(Spawning(st, ev, now))
  {
  }

  lemma EnqueueKeepsSound(st: State, step: Step)
    requires AllSound(st) && step.Enqueue?
    ensures AllSound(Apply(st, step))
  {
  }

  lemma MarkKeepsSound(st: State, step: Step)
    requires AllSound(st) && (step.MarkDone? || step.MarkRetry?) && IsTimely(st, step)
    ensures AllSound(Apply(st, step))
  {
    assert IsSound(st.rows[step.ev.key], MarksOf(st, step.ev.key));
  }

  lemma StepKeepsSound(sweepMin: string, st: State, step: Step)
    requires AllSound(st) && Enabled(sweepMin, st, step) && IsTimely(st, step)
    ensures AllSound(Apply(st, step))
  {
    match step
    case Enqueue(_, _, _) => EnqueueKeepsSound(st, step);
    case SpawnProject(ev, now) =>
      SpawnKeepsSound(st, EventFor(ProjectDepositNotify, ev.payload.deposit, ev.payload), now);
    case SpawnTrigger(ev, now) => SpawnKeepsSound(st, EventFor(SweepTrigger, ev.payload.deposit, ev.payload), now);
    case SpawnSweep(ev, now) =>
      SpawnKeepsSound(st, EventFor(SweepRun, ev.payload.deposit, Sweep(SweepOf(ev.payload.deposit))), now);
    case MarkDone(_) => MarkKeepsSound(st, step);
    case MarkRetry(_, _) => MarkKeepsSound(st, step);
    case _ =>
  }

  /**
   Over every timely run from an empty outbox: a PENDING row has attempts left, FAILED
   means exactly that none are left, and no row is marked more often than its limit
   between two resets.
   */
  lemma {:induction false} RowsStaySound(sweepMin: string, run: Run, k: Key)
    requires IsTimelyRun(sweepMin, run) && run.states[0] == EMPTY
    ensures AllSound(run.states[|run.steps|])
    ensures var st := run.states[|run.steps|];
            k in st.rows ==>
              && (st.rows[k].state == Queued ==> st.rows[k].attempt < st.rows[k].maxAttempts)
              && (st.rows[k].state == Failed <==> st.rows[k].attempt == st.rows[k].maxAttempts)
              && MarksOf(st, k) <= st.rows[k].maxAttempts
    decreases |run.steps|
  {
    if run.steps != [] {
      var n := |run.steps| - 1;
      var front := Run(run.states[..n + 1], run.steps[..n]);
      assert IsTimelyRun(sweepMin, front);
      RowsStaySound(sweepMin, front, k);
      assert IsStep(sweepMin, run.states[n], run.steps[n], run.states[n + 1]);
      StepKeepsSound(sweepMin, run.states[n], run.steps[n]);
    }
    assert k in run.states[|run.steps|].rows ==>
      IsSound(run.states[|run.steps|].rows[k], MarksOf(run.states[|run.steps|], k));
  }

  lemma StepKeepsFinal(sweepMin: string, st: State, step: Step, k: Key)
    requires k in st.rows && IsFinal(k, st.rows[k]) && Enabled(sweepMin, st, step) && IsTimely(st, step)
    ensures IsKept(st, Apply(st, step), k)
  {
    OnlyMarksTouchFinal(sweepMin, st, step, k);
  }

  /** One dispatcher's marks are timely, so its settled rows are frozen: no later step changes or marks them. */
  lemma {:induction false} FinalRowsAreFrozen(sweepMin: string, run: Run, i: nat, j: nat, k: Key)
    requires IsTimelyRun(sweepMin, run) && i <= j <= |run.steps|
    requires k in run.states[i].rows && IsFinal(k, run.states[i].rows[k])
    ensures IsKept(run.states[i], run.states[j], k)
    decreases j
  {
    if i < j {
      FinalRowsAreFrozen(sweepMin, run, i, j - 1, k);
      assert IsStep(sweepMin, run.states[j - 1], run.steps[j - 1], run.states[j]);
      StepKeepsFinal(sweepMin, run.states[j - 1], run.steps[j - 1], k);
    }
  }

  /**
   The listing holds no lock once it is read, so two dispatchers can list the same row.
   If one settles it and the other then reports a failure, DONE does not last.
   */
  lemma UntimelyRetryRevivesDone(sweepMin: string, st: State, k: Key, now: int)
    requires k in st.rows && st.rows[k].state == Queued && st.rows[k].attempt + 1 < st.rows[k].maxAttempts
    ensures var ev := Snapshot(k, st.rows[k]);
            var listed := Apply(st, List(k));
            var done := Apply(listed, MarkDone(ev));
            var again := Apply(done, MarkRetry(ev, now));
            && Enabled(sweepMin, st, List(k)) && Enabled(sweepMin, listed, MarkDone(ev))
            && Enabled(sweepMin, done, MarkRetry(ev, now))
            && IsTimely(listed, MarkDone(ev)) && !IsTimely(done, MarkRetry(ev, now))
            && done.rows[k].state == Done && again.rows[k].state == Queued
  {
  }

  // ---------------------------------------------------------------- a pass is a run

  function End(run: Run): State
    requires run.states != []
  {
    run.states[|run.states| - 1]
  }

  function WorldOf(st: State): World {
    World(st.rows, st.calls)
  }

  /** The run begins with another. */
  ghost predicate Extends(run: Run, out: Run) {
    run.states <= out.states && run.steps <= out.steps
  }

  /** The run goes on from another without listing anything. */
  ghost predicate GoesOn(sweepMin: string, run: Run, out: Run) {
    && IsTimelyRun(sweepMin, run) && IsTimelyRun(sweepMin, out)
    && Extends(run, out) && End(out).listed == End(run).listed
  }

  lemma Then(sweepMin: string, run: Run, step: Step) returns (out: Run)
    requires IsTimelyRun(sweepMin, run) && Enabled(sweepMin, End(run), step) && IsTimely(End(run), step)
    ensures IsTimelyRun(sweepMin, out) && Extends(run, out) && End(out) == Apply(End(run), step)
  {
    var after := Apply(End(run), step);
    RunExtends(sweepMin, run.states, run.steps, step, after);
    out := Run(run.states + [after], run.steps + [step]);
    TimelyExtends(run, step, after);
  }

  lemma TimelyExtends(run: Run, step: Step, after: State)
    requires |run.states| == |run.steps| + 1 && IsTimely(End(run), step)
    requires forall i :: 0 <= i < |run.steps| ==> IsTimely(run.states[i], run.steps[i])
    ensures var states, steps := run.states + [after], run.steps + [step];
            forall i :: 0 <= i < |steps| ==> IsTimely(states[i], steps[i])
  {
  }

  lemma HandleDepositIsARun(sweepMin: string, run: Run, ev: Event, r: Replies, now: int) returns (out: Run)
    requires IsTimelyRun(sweepMin, run) && IsListed(End(run), ev, DepositNotify)
    ensures GoesOn(sweepMin, run, out)
    ensures WorldOf(End(out)) == HandleDeposit(WorldOf(End(run)), ev.payload.deposit, r, now).0
  {
    out := run;
    var p := ev.payload.deposit;
    if CanNotify(p) {
      out := Then(sweepMin, out, CallNotify(ev, r.notify));
      if r.notify && p.status == LedgerConfirmed {
        assert End(out).calls[|End(out).calls| - 1] == Notified(p, true);
        if p.projectNotify && r.projectStored != Lost {
          out := Then(sweepMin, out, SpawnProject(ev, now));
        }
        if p.sweepTrigger && r.triggerStored != Lost {
          out := Then(sweepMin, out, SpawnTrigger(ev, now));
        }
      }
    }
  }

  lemma HandleTriggerIsARun(sweepMin: string, run: Run, ev: Event, r: Replies, now: int) returns (out: Run)
    requires IsTimelyRun(sweepMin, run) && IsListed(End(run), ev, SweepTrigger)
    ensures GoesOn(sweepMin, run, out)
    ensures WorldOf(End(out)) == HandleTrigger(sweepMin, WorldOf(End(run)), ev.payload.deposit, r, now).0
  {
    out := run;
    var p := ev.payload.deposit;
    if WantsBalance(p) {
      out := Then(sweepMin, out, ReadBalance(ev, r.balance));
      if r.balance.Some? && MeetsThreshold(r.balance.value, EffectiveThreshold(p, sweepMin)) && r.sweepStored != Lost {
        assert Suffices(sweepMin, End(out).calls[|End(out).calls| - 1], p);
        out := Then(sweepMin, out, SpawnSweep(ev, now));
      }
    }
  }

  lemma HandleIsARun(sweepMin: string, run: Run, ev: Event, r: Replies, now: int) returns (out: Run)
    requires IsTimelyRun(sweepMin, run) && ev in End(run).listed
    ensures GoesOn(sweepMin, run, out)
    ensures WorldOf(End(out)) == Handle(sweepMin, WorldOf(End(run)), ev, r, now).0
  {
    match (ev.key.kind, ev.payload)
    case (DepositNotify, Deposit(p)) => out := HandleDepositIsARun(sweepMin, run, ev, r, now);
    case (SweepTrigger, Deposit(p)) => out := HandleTriggerIsARun(sweepMin, run, ev, r, now);
    case (ProjectDepositNotify, Deposit(p)) =>
      out := run;
      if p.projectNotify {
        out := Then(sweepMin, run, CallProject(ev, r.project));
      }
    case (SweepRun, Sweep(s)) =>
      out := run;
      if CanSweep(s) {
        out := Then(sweepMin, run, CallSweep(ev, r.sweep));
      }
    case _ => out := run;
  }

  /** A spawn set the row, or gave a FAILED row another life. */
  predicate IsReset(before: OutboxRows, after: OutboxRows, k: Key) {
    k in after && after[k].state == Queued && (k !in before || before[k].state == Failed)
  }

  /** The row is as it was, or a spawn set it afresh. */
  predicate IsSameOrReset(before: OutboxRows, after: OutboxRows, k: Key) {
    && (k in before ==> k in after)
    && (k in after ==>
          || (k in before && after[k] == before[k])
          || (IsReset(before, after, k) && after[k].attempt == 0 && after[k].maxAttempts > 0))
  }

  lemma SpawnOnRow(w: World, ev: Event, stored: Outcome, now: int, k: Key)
    ensures IsSameOrReset(w.rows, Spawned(w, ev, stored, now).rows, k)
  {
  }

  lemma HandleDepositOnRow(w: World, p: DepositPayload, r: Replies, now: int, k: Key)
    ensures IsSameOrReset(w.rows, HandleDeposit(w, p, r, now).0.rows, k)
  {
    var w1 := Called(w, Notified(p, r.notify));
    var project, trigger := EventFor(ProjectDepositNotify, p, Deposit(p)), EventFor(SweepTrigger, p, Deposit(p));
    SpawnOnRow(w1, project, r.projectStored, now, k);
    SpawnOnRow(w1, trigger, r.triggerStored, now, k);
    SpawnOnRow(Spawned(w1, project, r.projectStored, now), trigger, r.triggerStored, now, k);
  }

  lemma HandleTriggerOnRow(sweepMin: string, w: World, p: DepositPayload, r: Replies, now: int, k: Key)
    ensures IsSameOrReset(w.rows, HandleTrigger(sweepMin, w, p, r, now).0.rows, k)
  {
    SpawnOnRow(Called(w, BalanceRead(p, WatchedAddress(p), r.balance)), EventFor(SweepRun, p, Sweep(SweepOf(p))),
               r.sweepStored, now, k);
  }

  /** Handlers change rows only by spawning: a row there is was there before, or was set afresh. */
  lemma HandlersOnlySpawn(sweepMin: string, w: World, ev: Event, r: Replies, now: int, k: Key)
    ensures IsSameOrReset(w.rows, Handle(sweepMin, w, ev, r, now).0.rows, k)
  {
    match (ev.key.kind, ev.payload)
    case (DepositNotify, Deposit(p)) => HandleDepositOnRow(w, p, r, now, k);
    case (SweepTrigger, Deposit(p)) => HandleTriggerOnRow(sweepMin, w, p, r, now, k);
    case _ =>
  }

  /** So they leave every queued row alone. */
  lemma HandlersSpareQueuedRows(sweepMin: string, w: World, ev: Event, r: Replies, now: int, k: Key)
    requires k in w.rows && w.rows[k].state == Queued
    ensures var after := Handle(sweepMin, w, ev, r, now).0; k in after.rows && after.rows[k] == w.rows[k]
  {
    HandlersOnlySpawn(sweepMin, w, ev, r, now, k);
  }

  lemma DispatchIsARun(sweepMin: string, run: Run, ev: Event, r: Replies, now: int) returns (out: Run)
    requires IsTimelyRun(sweepMin, run) && ev in End(run).listed && IsCurrent(End(run).rows, [ev])
    ensures GoesOn(sweepMin, run, out)
    ensures WorldOf(End(out)) == Dispatched(sweepMin, WorldOf(End(run)), ev, r, now)
  {
    assert [ev][0] == ev;
    out := HandleIsARun(sweepMin, run, ev, r, now);
    HandlersSpareQueuedRows(sweepMin, WorldOf(End(run)), ev, r, now, ev.key);
    if r.marked {
      var ok := Handle(sweepMin, WorldOf(End(run)), ev, r, now).1;
      out := Then(sweepMin, out, if ok then MarkDone(ev) else MarkRetry(ev, now));
    }
  }

  lemma {:induction false} DispatchedAllSpares(sweepMin: string, w: World, evs: seq<Event>, rs: nat -> Replies,
                                               now: int, k: Key)
    requires k in w.rows && w.rows[k].state == Queued && forall i :: 0 <= i < |evs| ==> evs[i].key != k
    ensures var after := DispatchedAll(sweepMin, w, evs, rs, now); k in after.rows && after.rows[k] == w.rows[k]
  {
    if evs != [] {
      var n := |evs| - 1;
      DispatchedAllSpares(sweepMin, w, evs[..n], rs, now, k);
      HandlersSpareQueuedRows(sweepMin, DispatchedAll(sweepMin, w, evs[..n], rs, now), evs[n], rs(n), now, k);
    }
  }

  lemma {:induction false} ListAll(sweepMin: string, run: Run, evs: seq<Event>) returns (out: Run)
    requires IsTimelyRun(sweepMin, run) && IsCurrent(End(run).rows, evs)
    ensures IsTimelyRun(sweepMin, out) && Extends(run, out)
    ensures WorldOf(End(out)) == WorldOf(End(run)) && End(out).marks == End(run).marks
    ensures forall i :: 0 <= i < |evs| ==> evs[i] in End(out).listed
    decreases |evs|
  {
    out := run;
    if evs != [] {
      var n := |evs| - 1;
      assert evs[n].key in End(run).rows;
      out := ListAll(sweepMin, run, evs[..n]);
      out := Then(sweepMin, out, List(evs[n].key));
    }
  }

  /**
   A dispatcher's pass over its listing, whatever the answers and whichever marks fail,
   is a timely run: what is proved of runs holds of DispatchOutbox.
   */
  lemma {:induction false} PassIsARun(sweepMin: string, run: Run, evs: seq<Event>, rs: nat -> Replies, now: int)
    returns (out: Run)
    requires IsTimelyRun(sweepMin, run) && IsCurrent(End(run).rows, evs)
    requires forall i :: 0 <= i < |evs| ==> evs[i] in End(run).listed
    ensures GoesOn(sweepMin, run, out)
    ensures WorldOf(End(out)) == DispatchedAll(sweepMin, WorldOf(End(run)), evs, rs, now)
    decreases |evs|
  {
    out := run;
    if evs != [] {
      var n := |evs| - 1;
      out := PassIsARun(sweepMin, run, evs[..n], rs, now);
      assert evs[n].key in End(run).rows;
      DispatchedAllSpares(sweepMin, WorldOf(End(run)), evs[..n], rs, now, evs[n].key);
      out := DispatchIsARun(sweepMin, out, evs[n], rs(n), now);
    }
  }

  /** Listing and pass together, from the state any timely run has reached. */
  lemma DispatchOutboxIsARun(sweepMin: string, run: Run, evs: seq<Event>, rs: nat -> Replies, now: int)
    returns (out: Run)
    requires IsTimelyRun(sweepMin, run) && IsCurrent(End(run).rows, evs)
    ensures IsTimelyRun(sweepMin, out) && Extends(run, out)
    ensures WorldOf(End(out)) == DispatchedAll(sweepMin, WorldOf(End(run)), evs, rs, now)
  {
    out := ListAll(sweepMin, run, evs);
    out := PassIsARun(sweepMin, out, evs, rs, now);
  }
}
