/**
 Every run of the outbox. A step is one atomic action: an enqueue by a scan, the listing
 of a row, one call of a handler or one mark. Any number of dispatchers may take steps in
 any order, on listings as old as they like; a single dispatcher's pass is one such run.
 */
module OutboxRuns {
  import opened Wrappers
  import opened Text
  import opened SeenEvents
  import opened GroupScan
  import opened Outbox
  import opened OutboxDispatch

  /** Besides rows and calls: every listing handed out, and the marks each row got since it was last (re)set. */
  datatype State = State(rows: OutboxRows, listed: set<Event>, calls: seq<Call>, marks: map<Key, nat>)

  const EMPTY := State(map[], {}, [], map[])

  datatype Step =
    | Enqueue(watch: Watch, sighted: Sighted, now: int)
    | List(key: Key)
    | CallNotify(ev: Event, ok: bool)
    | SpawnProject(ev: Event, now: int)
    | SpawnTrigger(ev: Event, now: int)
    | CallProject(ev: Event, ok: bool)
    | ReadBalance(ev: Event, reply: Option<string>)
    | SpawnSweep(ev: Event, now: int)
    | CallSweep(ev: Event, ok: bool)
    | MarkDone(ev: Event)
    | MarkRetry(ev: Event, now: int)

  predicate IsListed(st: State, ev: Event, kind: Kind) {
    ev in st.listed && ev.key.kind == kind && (kind == SweepRun <==> ev.payload.Sweep?)
  }

  /** Some balance the dispatcher read for this deposit was above its threshold. */
  ghost predicate BalanceSufficed(sweepMin: string, calls: seq<Call>, p: DepositPayload) {
    exists b :: 0 <= b < |calls| && Suffices(sweepMin, calls[b], p)
  }

  predicate Suffices(sweepMin: string, c: Call, p: DepositPayload) {
    && c.BalanceRead? && c.deposit == p && c.address == WatchedAddress(p) && c.reply.Some?
    && MeetsThreshold(c.reply.value, EffectiveThreshold(p, sweepMin))
  }

  /** When the code can take the step. */
  ghost predicate Enabled(sweepMin: string, st: State, step: Step) {
    match step
    case Enqueue(_, _, _) => true
    case List(key) => key in st.rows && st.rows[key].state == Queued
    case CallNotify(ev, _) => IsListed(st, ev, DepositNotify) && CanNotify(ev.payload.deposit)
    case SpawnProject(ev, _) =>
      && IsListed(st, ev, DepositNotify) && Notified(ev.payload.deposit, true) in st.calls
      && ev.payload.deposit.status == LedgerConfirmed && ev.payload.deposit.projectNotify
    case SpawnTrigger(ev, _) =>
      && IsListed(st, ev, DepositNotify) && Notified(ev.payload.deposit, true) in st.calls
      && ev.payload.deposit.status == LedgerConfirmed && ev.payload.deposit.sweepTrigger
    case CallProject(ev, _) => IsListed(st, ev, ProjectDepositNotify) && ev.payload.deposit.projectNotify
    case ReadBalance(ev, _) => IsListed(st, ev, SweepTrigger) && WantsBalance(ev.payload.deposit)
    case SpawnSweep(ev, _) =>
      && IsListed(st, ev, SweepTrigger) && WantsBalance(ev.payload.deposit)
      && BalanceSufficed(sweepMin, st.calls, ev.payload.deposit)
    case CallSweep(ev, _) => IsListed(st, ev, SweepRun) && CanSweep(ev.payload.sweep)
    case MarkDone(ev) => ev in st.listed
    case MarkRetry(ev, _) => ev in st.listed
  }

  function MarksOf(st: State, k: Key): nat {
    if k in st.marks then st.marks[k] else 0
  }

  /** The marks of a row that is set or reset start again. */
  function Spawning(st: State, ev: Event, now: int): State {
    if !Acceptable(ev) || (ev.key in st.rows && st.rows[ev.key].state != Failed) then st
    else st.(rows := Inserted(st.rows, ev, now), marks := st.marks[ev.key := 0])
  }

  function Apply(st: State, step: Step): State
    requires step.List? ==> step.key in st.rows
    requires step.CallNotify? || step.SpawnProject? || step.SpawnTrigger? ==> step.ev.payload.Deposit?
    requires step.CallProject? || step.ReadBalance? || step.SpawnSweep? ==> step.ev.payload.Deposit?
    requires step.CallSweep? ==> step.ev.payload.Sweep?
  {
    match step
    case Enqueue(w, t, now) =>
      var p := DepositOf(w, t);
      var ev := EventFor(DepositNotify, p, Deposit(p));
      if !Acceptable(ev) || (ev.key in st.rows && st.rows[ev.key].state != Queued) then st
      else st.(rows := Upserted(st.rows, ev, now), marks := st.marks[ev.key := 0])
    case List(key) => st.(listed := st.listed + {Snapshot(key, st.rows[key])})
    case CallNotify(ev, ok) => st.(calls := st.calls + [Notified(ev.payload.deposit, ok)])
    case SpawnProject(ev, now) => Spawning(st, EventFor(ProjectDepositNotify, ev.payload.deposit, ev.payload), now)
    case SpawnTrigger(ev, now) => Spawning(st, EventFor(SweepTrigger, ev.payload.deposit, ev.payload), now)
    case CallProject(ev, ok) => st.(calls := st.calls + [ProjectNotified(ev.payload.deposit, ok)])
    case ReadBalance(ev, reply) =>
      st.(calls := st.calls + [BalanceRead(ev.payload.deposit, WatchedAddress(ev.payload.deposit), reply)])
    case SpawnSweep(ev, now) =>
      Spawning(st, EventFor(SweepRun, ev.payload.deposit, Sweep(SweepOf(ev.payload.deposit))), now)
    case CallSweep(ev, ok) => st.(calls := st.calls + [SweepRan(ev.key, ev.payload.sweep, ok)])
    case MarkDone(ev) => st.(rows := MarkedDone(st.rows, ev.key), marks := st.marks[ev.key := MarksOf(st, ev.key) + 1])
    case MarkRetry(ev, now) =>
      st.(rows := MarkedRetry(st.rows, ev, now), marks := st.marks[ev.key := MarksOf(st, ev.key) + 1])
  }

  ghost predicate IsStep(sweepMin: string, before: State, step: Step, after: State) {
    Enabled(sweepMin, before, step) && after == Apply(before, step)
  }

  ghost predicate IsRun(sweepMin: string, states: seq<State>, steps: seq<Step>) {
    && |states| == |steps| + 1
    && forall i :: 0 <= i < |steps| ==> IsStep(sweepMin, states[i], steps[i], states[i + 1])
  }

  lemma RunExtends(sweepMin: string, states: seq<State>, steps: seq<Step>, step: Step, after: State)
    requires IsRun(sweepMin, states, steps) && IsStep(sweepMin, states[|steps|], step, after)
    ensures IsRun(sweepMin, states + [after], steps + [step])
  {
    var ss, ts := states + [after], steps + [step];
    forall i | 0 <= i < |ts| ensures IsStep(sweepMin, ss[i], ts[i], ss[i + 1]) {
      if i < |steps| {
        assert IsStep(sweepMin, states[i], steps[i], states[i + 1]);
        assert ss[i] == states[i] && ts[i] == steps[i] && ss[i + 1] == states[i + 1];
      } else {
        assert ss[i] == states[|steps|] && ts[i] == step && ss[i + 1] == after;
      }
    }
  }

  // ---------------------------------------------------------------- causality

  predicate IsTreasuryDeposit(p: DepositPayload) {
    Trim(p.account) == Trim(Fallback(p.treasury, TREASURY))
  }

  /** Payloads come from watches: deposits on the treasury itself are neither reported to the project nor swept. */
  predicate IsBuilt(p: DepositPayload) {
    && p.status == Ledger(p.scanStatus)
    && (p.projectNotify <==> !IsTreasuryDeposit(p))
    && (p.sweepTrigger <==> p.autoSweep && !IsTreasuryDeposit(p))
  }

  /** The deposit was reported to the ledger as confirmed, and the ledger took it. */
  predicate IsConfirmed(calls: seq<Call>, p: DepositPayload) {
    p.status == LedgerConfirmed && Notified(p, true) in calls
  }

  /**
   What must come before a sweep: a successful notification of a confirmed deposit with
   auto-sweep on, and after it a balance above the threshold, for the same deposit key.
   */
  ghost predicate EarnedBy(sweepMin: string, calls: seq<Call>, n: int, b: int, deposit: string, s: SweepPayload) {
    && 0 <= n < b < |calls| && calls[n].Notified? && calls[n].ok
    && var p := calls[n].deposit;
    && KeyOf(p) == deposit && IsBuilt(p) && p.status == LedgerConfirmed && p.sweepTrigger && s == SweepOf(p)
    && Suffices(sweepMin, calls[b], p)
  }

  ghost predicate Earned(sweepMin: string, calls: seq<Call>, deposit: string, s: SweepPayload) {
    exists n, b :: EarnedBy(sweepMin, calls, n, b, deposit, s)
  }

  /** What a row or a listing of the given kind stands for. */
  ghost predicate IsJustified(sweepMin: string, calls: seq<Call>, k: Key, payload: Payload) {
    match payload
    case Sweep(s) => k.kind == SweepRun && Earned(sweepMin, calls, k.deposit, s)
    case Deposit(p) =>
      k.kind != SweepRun && IsBuilt(p) && k.deposit == KeyOf(p) && (k.kind != DepositNotify ==> IsConfirmed(calls, p))
  }

  /** A balance is read and a project told only for a deposit that was confirmed before. */
  predicate IsInOrder(calls: seq<Call>, c: Call) {
    && (c.BalanceRead? ==> IsConfirmed(calls, c.deposit))
    && (c.ProjectNotified? ==> IsConfirmed(calls, c.deposit) && IsBuilt(c.deposit) && c.deposit.projectNotify)
  }

  ghost predicate IsOrdered(calls: seq<Call>) {
    forall b :: 0 <= b < |calls| ==> IsInOrder(calls[..b], calls[b])
  }

  ghost predicate RowsJustified(sweepMin: string, st: State) {
    forall k :: k in st.rows ==> IsJustified(sweepMin, st.calls, k, st.rows[k].payload)
  }

  ghost predicate ListingsJustified(sweepMin: string, st: State) {
    forall ev :: ev in st.listed ==> IsJustified(sweepMin, st.calls, ev.key, ev.payload)
  }

  ghost predicate SweepsEarned(sweepMin: string, calls: seq<Call>) {
    forall i :: 0 <= i < |calls| && calls[i].SweepRan? ==>
      calls[i].key.kind == SweepRun && Earned(sweepMin, calls[..i], calls[i].key.deposit, calls[i].sweep)
  }

  ghost predicate Justified(sweepMin: string, st: State) {
    && RowsJustified(sweepMin, st) && ListingsJustified(sweepMin, st)
    && IsOrdered(st.calls) && SweepsEarned(sweepMin, st.calls)
  }

  lemma DepositsAreBuilt(w: Watch, t: Sighted)
    ensures IsBuilt(DepositOf(w, t))
  {
  }

  /** More calls never take a justification away. */
  lemma EarnedGrows(sweepMin: string, calls: seq<Call>, c: Call, deposit: string, s: SweepPayload)
    requires Earned(sweepMin, calls, deposit, s)
    ensures Earned(sweepMin, calls + [c], deposit, s)
  {
    var n, b :| EarnedBy(sweepMin, calls, n, b, deposit, s);
    assert EarnedBy(sweepMin, calls + [c], n, b, deposit, s);
  }

  lemma JustifiedGrows(sweepMin: string, calls: seq<Call>, c: Call, k: Key, payload: Payload)
    requires IsJustified(sweepMin, calls, k, payload)
    ensures IsJustified(sweepMin, calls + [c], k, payload)
  {
    if payload.Sweep? {
      EarnedGrows(sweepMin, calls, c, k.deposit, payload.sweep);
    }
  }

  /** A call of a handler: rows and listings stay justified; the call itself must be in order. */
  lemma CallKeeps(sweepMin: string, st: State, c: Call)
    requires Justified(sweepMin, st)
    requires IsInOrder(st.calls, c)
    requires c.SweepRan? ==> c.key.kind == SweepRun && Earned(sweepMin, st.calls, c.key.deposit, c.sweep)
    ensures Justified(sweepMin, st.(calls := st.calls + [c]))
  {
    var calls := st.calls + [c];
    forall k | k in st.rows ensures IsJustified(sweepMin, calls, k, st.rows[k].payload) {
      JustifiedGrows(sweepMin, st.calls, c, k, st.rows[k].payload);
    }
    forall ev | ev in st.listed ensures IsJustified(sweepMin, calls, ev.key, ev.payload) {
      JustifiedGrows(sweepMin, st.calls, c, ev.key, ev.payload);
    }
    CallsExtend(sweepMin, st.calls, c);
  }

  lemma CallsExtend(sweepMin: string, calls: seq<Call>, c: Call)
    requires IsOrdered(calls) && SweepsEarned(sweepMin, calls)
    requires IsInOrder(calls, c)
    requires c.SweepRan? ==> c.key.kind == SweepRun && Earned(sweepMin, calls, c.key.deposit, c.sweep)
    ensures IsOrdered(calls + [c]) && SweepsEarned(sweepMin, calls + [c])
  {
    var more := calls + [c];
    forall i | 0 <= i < |more|
      ensures IsInOrder(more[..i], more[i])
      ensures more[i].SweepRan? ==>
                more[i].key.kind == SweepRun && Earned(sweepMin, more[..i], more[i].key.deposit, more[i].sweep)
    {
      if i < |calls| {
        assert more[..i] == calls[..i];
      } else {
        assert more[..i] == calls;
      }
    }
  }

  /** A sufficient balance for a deposit that may be swept earns the sweep. */
  lemma BalanceEarnsSweep(sweepMin: string, calls: seq<Call>, p: DepositPayload)
    requires IsOrdered(calls) && IsBuilt(p) && p.sweepTrigger && BalanceSufficed(sweepMin, calls, p)
    ensures Earned(sweepMin, calls, KeyOf(p), SweepOf(p))
  {
    var b :| 0 <= b < |calls| && Suffices(sweepMin, calls[b], p);
    var before := calls[..b];
    assert IsInOrder(before, calls[b]);
    var n :| 0 <= n < |before| && before[n] == Notified(p, true);
    assert calls[n] == before[n];
    assert EarnedBy(sweepMin, calls, n, b, KeyOf(p), SweepOf(p));
  }

  lemma SpawnKeeps(sweepMin: string, st: State, ev: Event, now: int)
    requires Justified(sweepMin, st) && IsJustified(sweepMin, st.calls, ev.key, ev.payload)
    ensures Justified(sweepMin, Spawning(st, ev, now))
  {
  }

  lemma RowKeeps(sweepMin: string, st: State, k: Key, row: OutboxRow, marks: map<Key, nat>)
    requires Justified(sweepMin, st) && IsJustified(sweepMin, st.calls, k, row.payload)
    ensures Justified(sweepMin, st.(rows := st.rows[k := row], marks := marks))
  {
  }

  lemma EnqueueKeeps(sweepMin: string, st: State, step: Step)
    requires Justified(sweepMin, st) && step.Enqueue?
    ensures Justified(sweepMin, Apply(st, step))
  {
    DepositsAreBuilt(step.watch, step.sighted);
    var p := DepositOf(step.watch, step.sighted);
    var ev := EventFor(DepositNotify, p, Deposit(p));
    var after := Apply(st, step);
    if after != st {
      assert after == st.(rows := st.rows[ev.key := FreshRow(ev, step.now)], marks := st.marks[ev.key := 0]);
      RowKeeps(sweepMin, st, ev.key, FreshRow(ev, step.now), st.marks[ev.key := 0]);
    }
  }

  /** Rows that keep their payloads keep their justification. */
  lemma SamePayloadsKeep(sweepMin: string, st: State, rows: OutboxRows, marks: map<Key, nat>)
    requires Justified(sweepMin, st)
    requires rows.Keys == st.rows.Keys && forall k :: k in rows ==> rows[k].payload == st.rows[k].payload
    ensures Justified(sweepMin, st.(rows := rows, marks := marks))
  {
  }

  lemma ListKeeps(sweepMin: string, st: State, k: Key)
    requires Justified(sweepMin, st) && k in st.rows
    ensures Justified(sweepMin, st.(listed := st.listed + {Snapshot(k, st.rows[k])}))
  {
  }

  lemma MarkKeeps(sweepMin: string, st: State, step: Step)
    requires Justified(sweepMin, st) && (step.MarkDone? || step.MarkRetry? || (step.List? && step.key in st.rows))
    ensures Justified(sweepMin, Apply(st, step))
  {
    match step
    case List(k) => ListKeeps(sweepMin, st, k);
    case MarkDone(ev) =>
      SamePayloadsKeep(sweepMin, st, MarkedDone(st.rows, ev.key), st.marks[ev.key := MarksOf(st, ev.key) + 1]);
    case MarkRetry(ev, now) =>
      SamePayloadsKeep(sweepMin, st, MarkedRetry(st.rows, ev, now), st.marks[ev.key := MarksOf(st, ev.key) + 1]);
  }

  lemma StepKeepsJustified(sweepMin: string, st: State, step: Step)
    requires Justified(sweepMin, st) && Enabled(sweepMin, st, step)
    ensures Justified(sweepMin, Apply(st, step))
  {
    match step
    case Enqueue(w, t, _) => EnqueueKeeps(sweepMin, st, step);
    case CallNotify(ev, ok) => CallKeeps(sweepMin, st, Notified(ev.payload.deposit, ok));
    case SpawnProject(ev, now) =>
      SpawnKeeps(sweepMin, st, EventFor(ProjectDepositNotify, ev.payload.deposit, ev.payload), now);
    case SpawnTrigger(ev, now) => SpawnKeeps(sweepMin, st, EventFor(SweepTrigger, ev.payload.deposit, ev.payload), now);
    case CallProject(ev, ok) => CallKeeps(sweepMin, st, ProjectNotified(ev.payload.deposit, ok));
    case ReadBalance(ev, reply) => 
      CallKeeps(sweepMin, st, BalanceRead(ev.payload.deposit, WatchedAddress(ev.payload.deposit), reply));
    case SpawnSweep(ev, now) =>
      BalanceEarnsSweep(sweepMin, st.calls, ev.payload.deposit);
      SpawnKeeps(sweepMin, st, EventFor(SweepRun, ev.payload.deposit, Sweep(SweepOf(ev.payload.deposit))), now);
    case CallSweep(ev, ok) => CallKeeps(sweepMin, st, SweepRan(ev.key, ev.payload.sweep, ok));
    case _ => MarkKeeps(sweepMin, st, step);
  }

  lemma {:induction false} RunKeepsJustified(sweepMin: string, states: seq<State>, steps: seq<Step>)
    requires IsRun(sweepMin, states, steps) && states[0] == EMPTY
    ensures Justified(sweepMin, states[|steps|])
    decreases |steps|
  {
    if steps != [] {
      var n := |steps| - 1;
      assert IsRun(sweepMin, states[..n + 1], steps[..n]);
      RunKeepsJustified(sweepMin, states[..n + 1], steps[..n]);
      assert IsStep(sweepMin, states[n], steps[n], states[n + 1]);
      StepKeepsJustified(sweepMin, states[n], steps[n]);
    }
  }

  // ---------------------------------------------------------------- where payloads come from

  /** Some enqueue of the run built the payload. */
  ghost predicate IsEnqueued(steps: seq<Step>, p: DepositPayload) {
    exists e :: 0 <= e < |steps| && steps[e].Enqueue? && p == DepositOf(steps[e].watch, steps[e].sighted)
  }

  ghost predicate PayloadsEnqueued(steps: seq<Step>, st: State) {
    && (forall k :: k in st.rows && st.rows[k].payload.Deposit? ==> IsEnqueued(steps, st.rows[k].payload.deposit))
    && (forall ev :: ev in st.listed && ev.payload.Deposit? ==> IsEnqueued(steps, ev.payload.deposit))
    && (forall i :: 0 <= i < |st.calls| && !st.calls[i].SweepRan? ==> IsEnqueued(steps, st.calls[i].deposit))
  }

  lemma EnqueuedGrows(steps: seq<Step>, step: Step, p: DepositPayload)
    requires IsEnqueued(steps, p)
    ensures IsEnqueued(steps + [step], p)
  {
    var e :| 0 <= e < |steps| && steps[e].Enqueue? && p == DepositOf(steps[e].watch, steps[e].sighted);
    assert (steps + [step])[e] == steps[e];
  }

  lemma PayloadsGrow(steps: seq<Step>, step: Step, st: State)
    requires PayloadsEnqueued(steps, st)
    ensures PayloadsEnqueued(steps + [step], st)
  {
    forall p | IsEnqueued(steps, p) ensures IsEnqueued(steps + [step], p) {
      EnqueuedGrows(steps, step, p);
    }
  }

  lemma SpawnKeepsPayloads(steps: seq<Step>, st: State, ev: Event, now: int)
    requires PayloadsEnqueued(steps, st) && (ev.payload.Deposit? ==> IsEnqueued(steps, ev.payload.deposit))
    ensures PayloadsEnqueued(steps, Spawning(st, ev, now))
  {
  }

  lemma CallKeepsPayloads(steps: seq<Step>, st: State, c: Call)
    requires PayloadsEnqueued(steps, st) && (!c.SweepRan? ==> IsEnqueued(steps, c.deposit))
    ensures PayloadsEnqueued(steps, st.(calls := st.calls + [c]))
  {
  }

  lemma EnqueueKeepsPayloads(steps: seq<Step>, st: State, step: Step)
    requires PayloadsEnqueued(steps, st) && step.Enqueue?
    ensures PayloadsEnqueued(steps + [step], Apply(st, step))
  {
    PayloadsGrow(steps, step, st);
    assert (steps + [step])[|steps|] == step;
    assert IsEnqueued(steps + [step], DepositOf(step.watch, step.sighted));
  }

  lemma MarkKeepsPayloads(steps: seq<Step>, st: State, step: Step)
    requires PayloadsEnqueued(steps, st)
    requires step.MarkDone? || step.MarkRetry? || (step.List? && step.key in st.rows)
    ensures PayloadsEnqueued(steps, Apply(st, step))
  {
  }

  lemma StepKeepsPayloads(sweepMin: string, steps: seq<Step>, st: State, step: Step)
    requires PayloadsEnqueued(steps, st) && Enabled(sweepMin, st, step)
    ensures PayloadsEnqueued(steps + [step], Apply(st, step))
  {
    PayloadsGrow(steps, step, st);
    var longer := steps + [step];
    match step
    case Enqueue(_, _, _) => EnqueueKeepsPayloads(steps, st, step);
    case CallNotify(ev, ok) => CallKeepsPayloads(longer, st, Notified(ev.payload.deposit, ok));
    case SpawnProject(ev, now) =>
      SpawnKeepsPayloads(longer, st, EventFor(ProjectDepositNotify, ev.payload.deposit, ev.payload), now);
    case SpawnTrigger(ev, now) =>
      SpawnKeepsPayloads(longer, st, EventFor(SweepTrigger, ev.payload.deposit, ev.payload), now);
    case CallProject(ev, ok) => CallKeepsPayloads(longer, st, ProjectNotified(ev.payload.deposit, ok));
    case ReadBalance(ev, reply) =>
      CallKeepsPayloads(longer, st, BalanceRead(ev.payload.deposit, WatchedAddress(ev.payload.deposit), reply));
    case SpawnSweep(ev, now) =>
      SpawnKeepsPayloads(longer, st, EventFor(SweepRun, ev.payload.deposit, Sweep(SweepOf(ev.payload.deposit))), now);
    case CallSweep(ev, ok) => CallKeepsPayloads(longer, st, SweepRan(ev.key, ev.payload.sweep, ok));
    case _ => MarkKeepsPayloads(longer, st, step);
  }

  lemma {:induction false} RunKeepsPayloads(sweepMin: string, states: seq<State>, steps: seq<Step>)
    requires IsRun(sweepMin, states, steps) && states[0] == EMPTY
    ensures PayloadsEnqueued(steps, states[|steps|])
    decreases |steps|
  {
    if steps != [] {
      var n := |steps| - 1;
      assert IsRun(sweepMin, states[..n + 1], steps[..n]);
      RunKeepsPayloads(sweepMin, states[..n + 1], steps[..n]);
      assert IsStep(sweepMin, states[n], steps[n], states[n + 1]);
      StepKeepsPayloads(sweepMin, steps[..n], states[n], steps[n]);
      assert steps[..n] + [steps[n]] == steps;
    }
  }

  /** What the ledger is told: the watch and the transfer of some enqueue of the run, field by field. */
  lemma NotificationsShowTransfers(sweepMin: string, states: seq<State>, steps: seq<Step>, i: nat) returns (e: nat)
    requires IsRun(sweepMin, states, steps) && states[0] == EMPTY
    requires i < |states[|steps|].calls| && states[|steps|].calls[i].Notified?
    ensures e < |steps| && steps[e].Enqueue?
    ensures var p, w, t := states[|steps|].calls[i].deposit, steps[e].watch, steps[e].sighted;
            && p.tenant == w.tenant && p.account == w.account && p.chain == w.chain && p.network == w.network
            && p.coin == w.coin && p.watch == w.address && p.autoSweep == w.autoSweep
            && p.txHash == t.txHash && p.eventIndex == t.eventIndex && p.amount == t.amount
            && p.from == t.from && p.to == t.to && p.confirmations == t.confirmations
            && p.requiredConfs == t.requiredConfs && p.unlockConfs == t.unlockConfs
            && p.scanStatus == t.scanStatus && p.status == Ledger(t.scanStatus)
            && p.orderId == OrderId("dep", t.txHash, t.eventIndex, w.account, w.network)
  {
    RunKeepsPayloads(sweepMin, states, steps);
    e := EnqueueOf(steps, states[|steps|].calls[i].deposit);
  }

  // ---------------------------------------------------------------- every sweep is earned

  /** The reading is an integer strictly above the threshold, or there is no threshold. */
  predicate IsAbove(reading: string, threshold: string) {
    threshold == "" ||
    (ParseInteger(Trim(reading)).Some? && ParseInteger(threshold).Some? &&
     ParseInteger(Trim(reading)).value > ParseInteger(threshold).value)
  }

  lemma SufficientIsAbove(reading: string, w: Watch, t: Sighted, sweepMin: string)
    requires MeetsThreshold(reading, EffectiveThreshold(DepositOf(w, t), sweepMin))
    ensures var own := Trim(w.sweepThreshold);
            IsAbove(reading, if own == "" || own == "0" then Trim(sweepMin) else own)
  {
    TrimIsTrimmed(w.sweepThreshold);
    TrimOfTrimmed(Trim(w.sweepThreshold));
    TrimIsTrimmed(sweepMin);
    TrimOfTrimmed(Trim(sweepMin));
  }

  /** The sweep of a deposit, field by field from the watch and the transfer. */
  lemma SweepShowsTransfer(w: Watch, t: Sighted)
    ensures var s := SweepOf(DepositOf(w, t));
            && s.tenant == w.tenant && s.from == w.account && s.chain == w.chain && s.network == w.network
            && s.treasury == (if Trim(w.treasury) == [] then TREASURY else w.treasury)
            && s.cold == Trim(w.cold) && s.hotBalanceCap == Trim(w.hotBalanceCap)
            && s.asset == Upper(w.coin) && s.amount == t.amount
            && s.orderId == OrderId("sweep", t.txHash, t.eventIndex, w.account, w.network)
            && TREASURY == "treasury-main"
  {
    TrimIsTrimmed(w.cold);
    TrimOfTrimmed(Trim(w.cold));
    TrimIsTrimmed(w.hotBalanceCap);
    TrimOfTrimmed(Trim(w.hotBalanceCap));
  }

  lemma SweepIsEarned(sweepMin: string, states: seq<State>, steps: seq<Step>, i: nat) returns (n: nat, b: nat)
    requires IsRun(sweepMin, states, steps) && states[0] == EMPTY
    requires i < |states[|steps|].calls| && states[|steps|].calls[i].SweepRan?
    ensures var calls := states[|steps|].calls;
            && n < b < i && calls[n].Notified? && calls[n].ok
            && var p := calls[n].deposit;
            && calls[i].key == Key(SweepRun, KeyOf(p)) && calls[i].sweep == SweepOf(p)
            && p.status == LedgerConfirmed && p.sweepTrigger && IsBuilt(p) && Suffices(sweepMin, calls[b], p)
  {
    RunKeepsJustified(sweepMin, states, steps);
    var calls := states[|steps|].calls;
    var before, s, d := calls[..i], calls[i].sweep, calls[i].key.deposit;
    assert Earned(sweepMin, before, d, s);
    var x, y :| EarnedBy(sweepMin, before, x, y, d, s);
    n, b := x, y;
    assert calls[n] == before[n] && calls[b] == before[b];
  }

  /** The balance reading that a sweep needs: of the watched address, strictly above the threshold that counts. */
  ghost predicate IsEnough(sweepMin: string, w: Watch, t: Sighted, c: Call) {
    && c.BalanceRead? && c.deposit == DepositOf(w, t) && c.reply.Some?
    && c.address == (if Trim(w.address) != "" then Trim(w.address) else Trim(t.to))
    && var own := Trim(w.sweepThreshold);
    IsAbove(c.reply.value, if own == "" || own == "0" then Trim(sweepMin) else own)
  }

  /** The sweep of a transfer to a watch: its amount, from the watched account to a treasury that is another account. */
  ghost predicate IsSweepOf(w: Watch, t: Sighted, c: Call) {
    && c.SweepRan? && c.key == Key(SweepRun, DepositKey(w.tenant, w.chain, w.network, t.txHash, t.eventIndex))
    && var s := c.sweep;
    && s.tenant == w.tenant && s.chain == w.chain && s.network == w.network && s.asset == Upper(w.coin)
    && s.from == w.account && s.amount == t.amount
    && s.treasury == (if Trim(w.treasury) == [] then TREASURY else w.treasury) && Trim(s.from) != Trim(s.treasury)
    && s.cold == Trim(w.cold) && s.hotBalanceCap == Trim(w.hotBalanceCap)
  }

  lemma SufficientIsEnough(sweepMin: string, w: Watch, t: Sighted, c: Call)
    requires Suffices(sweepMin, c, DepositOf(w, t))
    ensures IsEnough(sweepMin, w, t, c)
  {
    SufficientIsAbove(c.reply.value, w, t, sweepMin);
  }

  lemma SweepOfDeposit(w: Watch, t: Sighted, ok: bool)
    requires DepositOf(w, t).sweepTrigger
    ensures var p := DepositOf(w, t); IsSweepOf(w, t, SweepRan(Key(SweepRun, KeyOf(p)), SweepOf(p), ok))
  {
    SweepShowsTransfer(w, t);
  }

  /**
   Over every run from an empty outbox, whoever dispatches and however old the listings:
   each SweepRun call goes back to a deposit that was enqueued for a watch w with
   auto-sweep on and a transfer t that was CONFIRMED or FINALIZED. Before the call the
   ledger accepted its notification, and after that the balance of the watched address
   was read as an integer strictly above the watch's own threshold, or the scanner's when
   that is blank or zero, unless that is blank too. The sweep moves the amount of t from
   the account of w to its treasury, which is another account.
   */
  lemma SweepsAreEarned(sweepMin: string, states: seq<State>, steps: seq<Step>, i: nat)
    returns (e: nat, n: nat, b: nat)
    requires IsRun(sweepMin, states, steps) && states[0] == EMPTY
    requires i < |states[|steps|].calls| && states[|steps|].calls[i].SweepRan?
    ensures e < |steps| && steps[e].Enqueue?
    ensures var calls, w, t := states[|steps|].calls, steps[e].watch, steps[e].sighted;
            && n < b < i && calls[n] == Notified(DepositOf(w, t), true)
            && w.autoSweep && t.scanStatus in {CONFIRMED, FINALIZED}
            && IsEnough(sweepMin, w, t, calls[b]) && IsSweepOf(w, t, calls[i])
  {
    n, b := SweepIsEarned(sweepMin, states, steps, i);
    RunKeepsPayloads(sweepMin, states, steps);
    e := EnqueueOf(steps, states[|steps|].calls[n].deposit);
    EarnedInFull(sweepMin, steps[e].watch, steps[e].sighted, states[|steps|].calls[b], states[|steps|].calls[i]);
  }

  lemma EnqueueOf(steps: seq<Step>, p: DepositPayload) returns (e: nat)
    requires IsEnqueued(steps, p)
    ensures e < |steps| && steps[e].Enqueue? && p == DepositOf(steps[e].watch, steps[e].sighted)
  {
    var x :| 0 <= x < |steps| && steps[x].Enqueue? && p == DepositOf(steps[x].watch, steps[x].sighted);
    e := x;
  }

  lemma AutoSweepIsOn(w: Watch, t: Sighted)
    requires DepositOf(w, t).sweepTrigger && DepositOf(w, t).status == LedgerConfirmed
    ensures w.autoSweep && t.scanStatus in {CONFIRMED, FINALIZED}
  {
  }

  lemma EarnedInFull(sweepMin: string, w: Watch, t: Sighted, balance: Call, sweep: Call)
    requires var p := DepositOf(w, t);
             && p.sweepTrigger && p.status == LedgerConfirmed && Suffices(sweepMin, balance, p)
             && sweep.SweepRan? && sweep.key == Key(SweepRun, KeyOf(p)) && sweep.sweep == SweepOf(p)
    ensures w.autoSweep && t.scanStatus in {CONFIRMED, FINALIZED}
    ensures IsEnough(sweepMin, w, t, balance) && IsSweepOf(w, t, sweep)
  {
    AutoSweepIsOn(w, t);
    SufficientIsEnough(sweepMin, w, t, balance);
    SweepOfDeposit(w, t, sweep.ok);
  }

  /**
   Likewise a project hears of a deposit only after the ledger accepted it as CONFIRMED,
   and never of its treasury's own.
   */
  lemma ProjectNoticesAreEarned(sweepMin: string, states: seq<State>, steps: seq<Step>, i: nat) returns (n: nat)
    requires IsRun(sweepMin, states, steps) && states[0] == EMPTY
    requires i < |states[|steps|].calls| && states[|steps|].calls[i].ProjectNotified?
    ensures var calls := states[|steps|].calls;
            && n < i && calls[n] == Notified(calls[i].deposit, true)
            && calls[i].deposit.scanStatus in {CONFIRMED, FINALIZED} && !IsTreasuryDeposit(calls[i].deposit)
  {
    RunKeepsJustified(sweepMin, states, steps);
    var calls := states[|steps|].calls;
    var before, p := calls[..i], calls[i].deposit;
    assert IsInOrder(before, calls[i]);
    var x :| 0 <= x < |before| && before[x] == Notified(p, true);
    n := x;
    assert calls[n] == before[n];
  }
}
