/** When a settled outbox row stays settled, with any number of dispatchers and listings of any age. */
module OutboxFinality {
  import opened Outbox
  import opened OutboxDispatch
  import opened OutboxRuns

  /** DONE for every kind; FAILED too for deposits, which are only ever upserted. */
  predicate IsFinal(k: Key, row: OutboxRow) {
    row.state == Done || (row.state == Failed && k.kind == DepositNotify)
  }

  predicate IsMarkOf(step: Step, k: Key) {
    (step.MarkDone? || step.MarkRetry?) && step.ev.key == k
  }

  predicate IsRetryOf(step: Step, k: Key) {
    step.MarkRetry? && step.ev.key == k
  }

  /**
   The steps that take a settled row out of its state: any retry of DONE; a success or a
   retry with attempts left of FAILED.
   */
  predicate Unsettles(step: Step, k: Key, state: RowState) {
    if state == Done then IsRetryOf(step, k)
    else IsMarkOf(step, k) && (step.MarkDone? || step.ev.attempt + 1 < AttemptLimit(step.ev.maxAttempts))
  }

  ghost predicate IsKept(st: State, after: State, k: Key) {
    k in st.rows && k in after.rows && after.rows[k] == st.rows[k] && MarksOf(after, k) == MarksOf(st, k)
  }

  // ---------------------------------------------------------------- one step

  lemma SpawnKeepsFinal(st: State, ev: Event, now: int, k: Key)
    requires k in st.rows && IsFinal(k, st.rows[k]) && ev.key.kind != DepositNotify
    ensures IsKept(st, Spawning(st, ev, now), k)
  {
  }

  lemma EnqueueKeepsFinal(st: State, step: Step, k: Key)
    requires k in st.rows && IsFinal(k, st.rows[k]) && step.Enqueue?
    ensures IsKept(st, Apply(st, step), k)
  {
  }

  lemma MarkKeepsOthers(st: State, step: Step, k: Key)
    requires k in st.rows && (step.MarkDone? || step.MarkRetry?) && step.ev.key != k
    ensures IsKept(st, Apply(st, step), k)
  {
  }

  /** Whatever is enqueued, spawned, listed or called leaves a settled row alone; only marks of its own key touch it. */
  lemma OnlyMarksTouchFinal(sweepMin: string, st: State, step: Step, k: Key)
    requires k in st.rows && IsFinal(k, st.rows[k]) && Enabled(sweepMin, st, step) && !IsMarkOf(step, k)
    ensures IsKept(st, Apply(st, step), k)
  {
    match step
    case Enqueue(_, _, _) => EnqueueKeepsFinal(st, step, k);
    case SpawnProject(ev, now) =>
      SpawnKeepsFinal(st, EventFor(ProjectDepositNotify, ev.payload.deposit, ev.payload), now, k);
    case SpawnTrigger(ev, now) =>
      SpawnKeepsFinal(st, EventFor(SweepTrigger, ev.payload.deposit, ev.payload), now, k);
    case SpawnSweep(ev, now) =>
      SpawnKeepsFinal(st, EventFor(SweepRun, ev.payload.deposit, Sweep(SweepOf(ev.payload.deposit))), now, k);
    case MarkDone(_) => MarkKeepsOthers(st, step, k);
    case MarkRetry(_, _) => MarkKeepsOthers(st, step, k);
    case _ =>
  }

  /** The row is as settled as it was: same state and payload, and for DONE the very same row. */
  ghost predicate IsStillSettled(st: State, after: State, k: Key)
    requires k in st.rows
  {
    && k in after.rows && after.rows[k].state == st.rows[k].state && after.rows[k].payload == st.rows[k].payload
    && (st.rows[k].state == Done ==> after.rows[k] == st.rows[k])
  }

  lemma MarkOfFinalIsExact(st: State, step: Step, k: Key)
    requires k in st.rows && IsFinal(k, st.rows[k]) && IsMarkOf(step, k)
    ensures IsStillSettled(st, Apply(st, step), k) <==> !Unsettles(step, k, st.rows[k].state)
  {
  }

  /**
   For any step the code can take, a settled row survives it exactly when it is not an
   unsettling mark of that row.
   */
  lemma FinalStepIsExact(sweepMin: string, st: State, step: Step, k: Key)
    requires k in st.rows && IsFinal(k, st.rows[k]) && Enabled(sweepMin, st, step)
    ensures IsStillSettled(st, Apply(st, step), k) <==> !Unsettles(step, k, st.rows[k].state)
  {
    if IsMarkOf(step, k) {
      MarkOfFinalIsExact(st, step, k);
    } else {
      OnlyMarksTouchFinal(sweepMin, st, step, k);
    }
  }

  // ---------------------------------------------------------------- every run

  lemma {:induction false} QuietStepsKeepFinal(sweepMin: string, states: seq<State>, steps: seq<Step>, i: nat, j: nat,
                                               k: Key)
    requires IsRun(sweepMin, states, steps) && i <= j <= |steps|
    requires k in states[i].rows && IsFinal(k, states[i].rows[k])
    requires forall m :: i <= m < j ==> !Unsettles(steps[m], k, states[i].rows[k].state)
    ensures IsStillSettled(states[i], states[j], k)
    decreases j
  {
    if i < j {
      QuietStepsKeepFinal(sweepMin, states, steps, i, j - 1, k);
      assert IsStep(sweepMin, states[j - 1], steps[j - 1], states[j]);
      FinalStepIsExact(sweepMin, states[j - 1], steps[j - 1], k);
    }
  }

  /**
   Over every run, whoever dispatches: a row that is DONE at some point, or a deposit row
   that is FAILED, stays settled up to a later point if and only if no step in between is
   an unsettling mark of its key. For DONE that is exactly: no retry mark of its key.
   Marks of other rows and repeated DONE marks do no harm, however stale.
   */
  lemma FinalityIsExact(sweepMin: string, states: seq<State>, steps: seq<Step>, i: nat, j: nat, k: Key)
    requires IsRun(sweepMin, states, steps) && i <= j <= |steps|
    requires k in states[i].rows && IsFinal(k, states[i].rows[k])
    ensures (forall m :: i <= m <= j ==> IsStillSettled(states[i], states[m], k))
            <==> (forall m :: i <= m < j ==> !Unsettles(steps[m], k, states[i].rows[k].state))
  {
    if forall m :: i <= m < j ==> !Unsettles(steps[m], k, states[i].rows[k].state) {
      forall m | i <= m <= j ensures IsStillSettled(states[i], states[m], k) {
        QuietStepsKeepFinal(sweepMin, states, steps, i, m, k);
      }
    } else {
      var m :| i <= m < j && Unsettles(steps[m], k, states[i].rows[k].state);
      if IsStillSettled(states[i], states[m], k) {
        assert IsStep(sweepMin, states[m], steps[m], states[m + 1]);
        FinalStepIsExact(sweepMin, states[m], steps[m], k);
        UnsettledIsGone(states[i], states[m], states[m + 1], k);
      }
    }
  }

  lemma UnsettledIsGone(first: State, before: State, after: State, k: Key)
    requires k in first.rows && IsStillSettled(first, before, k) && !IsStillSettled(before, after, k)
    ensures !IsStillSettled(first, after, k)
  {
  }

  /** The DONE case in its own words: the row is the same throughout exactly when nobody reports a retry for it. */
  lemma DoneIsFinalUnlessRetried(sweepMin: string, states: seq<State>, steps: seq<Step>, i: nat, j: nat, k: Key)
    requires IsRun(sweepMin, states, steps) && i <= j <= |steps|
    requires k in states[i].rows && states[i].rows[k].state == Done
    ensures (forall m :: i <= m <= j ==> k in states[m].rows && states[m].rows[k] == states[i].rows[k])
            <==> (forall m :: i <= m < j ==> !IsRetryOf(steps[m], k))
  {
    FinalityIsExact(sweepMin, states, steps, i, j, k);
    assert forall m :: i <= m < j ==> (Unsettles(steps[m], k, Done) <==> IsRetryOf(steps[m], k));
    assert forall m :: i <= m <= j ==>
      (IsStillSettled(states[i], states[m], k) <==> k in states[m].rows && states[m].rows[k] == states[i].rows[k]);
  }
}
