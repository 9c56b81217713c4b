/** The converse of causality: a deposit that meets every condition does get its sweep. */
module OutboxReach {
  import opened Wrappers
  import opened Text
  import opened SeenEvents
  import opened GroupScan
  import opened Outbox
  import opened OutboxDispatch
  import opened OutboxRuns
  import opened OutboxRowLife

  /** Nothing that the handlers or the table refuse is missing. */
  predicate IsComplete(w: Watch) {
    Trim(w.tenant) != "" && Trim(w.chain) != "" && Trim(w.network) != "" && w.account != "" && Trim(w.address) != ""
  }

  predicate WantsSweep(w: Watch, t: Sighted) {
    IsComplete(w) && w.autoSweep && !IsOwnTreasury(w) && Ledger(t.scanStatus) == LedgerConfirmed
  }

  lemma EventsAreAcceptable(w: Watch, t: Sighted, kind: Kind, payload: Payload)
    requires IsComplete(w)
    ensures Acceptable(EventFor(kind, DepositOf(w, t), payload))
  {
    LowerTrimIsStable(w.chain);
    LowerTrimIsStable(w.network);
    TrimOfTrimmed(Lower(Trim(w.chain)));
    TrimOfTrimmed(Lower(Trim(w.network)));
  }

  lemma OrderIdIsNotBlank(prefix: string, txHash: string, eventIndex: int, account: string, network: string)
    requires prefix != ""
    ensures OrderId(prefix, txHash, eventIndex, account, network) != ""
  {
  }

  lemma {:induction false} BlankTrims(s: string)
    requires Trim(s) != ""
    ensures s != ""
  {
  }

  lemma CompleteDepositsPass(w: Watch, t: Sighted)
    requires IsComplete(w)
    ensures CanNotify(DepositOf(w, t)) && CanSweep(SweepOf(DepositOf(w, t))) && WatchedAddress(DepositOf(w, t)) != ""
  {
    BlankTrims(w.tenant);
    BlankTrims(w.chain);
    BlankTrims(w.network);
    OrderIdIsNotBlank("dep", t.txHash, t.eventIndex, w.account, w.network);
    OrderIdIsNotBlank("sweep", t.txHash, t.eventIndex, w.account, w.network);
  }

  /** The row of the kind is queued with the payload, and the ones to come are not there yet. */
  ghost predicate IsAt(st: State, kind: Kind, p: DepositPayload, payload: Payload) {
    && var k := Key(kind, KeyOf(p));
    && k in st.rows && st.rows[k].state == Queued && st.rows[k].payload == payload
    && (kind == DepositNotify ==> Key(SweepTrigger, KeyOf(p)) !in st.rows)
    && (kind != SweepRun ==> Key(SweepRun, KeyOf(p)) !in st.rows)
  }

  lemma NotifyLeadsOn(sweepMin: string, run: Run, w: Watch, t: Sighted, now: int) returns (out: Run)
    requires IsTimelyRun(sweepMin, run) && WantsSweep(w, t)
    requires IsAt(End(run), DepositNotify, DepositOf(w, t), Deposit(DepositOf(w, t)))
    ensures IsTimelyRun(sweepMin, out) && Extends(run, out)
    ensures IsAt(End(out), SweepTrigger, DepositOf(w, t), Deposit(DepositOf(w, t)))
  {
    var p := DepositOf(w, t);
    var k := Key(DepositNotify, KeyOf(p));
    var ev := Snapshot(k, End(run).rows[k]);
    CompleteDepositsPass(w, t);
    EventsAreAcceptable(w, t, SweepTrigger, Deposit(p));
    out := Then(sweepMin, run, List(k));
    out := Then(sweepMin, out, CallNotify(ev, true));
    assert End(out).calls[|End(out).calls| - 1] == Notified(p, true);
    out := Then(sweepMin, out, SpawnTrigger(ev, now));
  }

  lemma BalanceLeadsOn(sweepMin: string, run: Run, w: Watch, t: Sighted, balance: string, now: int) returns (out: Run)
    requires IsTimelyRun(sweepMin, run) && WantsSweep(w, t)
    requires MeetsThreshold(balance, EffectiveThreshold(DepositOf(w, t), sweepMin))
    requires IsAt(End(run), SweepTrigger, DepositOf(w, t), Deposit(DepositOf(w, t)))
    ensures IsTimelyRun(sweepMin, out) && Extends(run, out)
    ensures IsAt(End(out), SweepRun, DepositOf(w, t), Sweep(SweepOf(DepositOf(w, t))))
  {
    var p := DepositOf(w, t);
    var k := Key(SweepTrigger, KeyOf(p));
    var ev := Snapshot(k, End(run).rows[k]);
    CompleteDepositsPass(w, t);
    EventsAreAcceptable(w, t, SweepRun, Sweep(SweepOf(p)));
    out := Then(sweepMin, run, List(k));
    out := Then(sweepMin, out, ReadBalance(ev, Some(balance)));
    assert Suffices(sweepMin, End(out).calls[|End(out).calls| - 1], p);
    out := Then(sweepMin, out, SpawnSweep(ev, now));
  }

  /** From an empty outbox, some timely run ends with the sweep that the deposit asks for. */
  lemma SweepIsReachable(sweepMin: string, w: Watch, t: Sighted, balance: string, now: int) returns (out: Run)
    requires WantsSweep(w, t) && MeetsThreshold(balance, EffectiveThreshold(DepositOf(w, t), sweepMin))
    ensures IsTimelyRun(sweepMin, out) && out.states[0] == EMPTY && |End(out).calls| > 0
    ensures End(out).calls[|End(out).calls| - 1] ==
            SweepRan(Key(SweepRun, KeyOf(DepositOf(w, t))), SweepOf(DepositOf(w, t)), true)
  {
    var p := DepositOf(w, t);
    var k := Key(SweepRun, KeyOf(p));
    CompleteDepositsPass(w, t);
    EventsAreAcceptable(w, t, DepositNotify, Deposit(p));
    out := Then(sweepMin, Run([EMPTY], []), Step.Enqueue(w, t, now));
    out := NotifyLeadsOn(sweepMin, out, w, t, now);
    out := BalanceLeadsOn(sweepMin, out, w, t, balance, now);
    var ev := Snapshot(k, End(out).rows[k]);
    out := Then(sweepMin, out, List(k));
    out := Then(sweepMin, out, CallSweep(ev, true));
  }
}
