/** What handling one event does: when it settles its row, what it calls, and which events follow. */
module OutboxHandling {
  import opened Wrappers
  import opened Text
  import opened SeenEvents
  import opened Outbox
  import opened OutboxDispatch
  import opened OutboxRowLife

  // ---------------------------------------------------------------- outcomes

  /** The work of an event succeeds: the other service took the call, or nothing needed to be done. */
  predicate Succeeds(sweepMin: string, ev: Event, r: Replies) {
    match (ev.key.kind, ev.payload)
    case (DepositNotify, Deposit(p)) =>
      p.tenant != "" && p.account != "" && p.orderId != "" && p.chain != "" && p.network != "" && r.notify
    case (ProjectDepositNotify, Deposit(p)) => !p.projectNotify || r.project
    case (SweepTrigger, Deposit(p)) =>
      if !(p.sweepTrigger && p.autoSweep) || (Trim(p.watch) == "" && Trim(p.to) == "") then true
      else
        && r.balance.Some?
        && (MeetsThreshold(r.balance.value, EffectiveThreshold(p, sweepMin)) ==>
              r.sweepStored == Applied && Trim(p.tenant) != "" && Trim(p.chain) != "" && Trim(p.network) != "")
    case (SweepRun, Sweep(s)) =>
      s.tenant != "" && s.orderId != "" && s.from != "" && s.chain != "" && s.network != "" && r.sweep
    case _ => false
  }

  lemma {:induction false} LowerTrimIsBlank(s: string)
    ensures Trim(Lower(Trim(s))) == "" <==> Trim(s) == ""
  {
    LowerTrimIsStable(s);
    TrimOfTrimmed(Lower(Trim(s)));
  }

  /** An event's own columns are blank exactly where its deposit's are. */
  lemma BlankColumns(kind: Kind, p: DepositPayload, payload: Payload)
    ensures Acceptable(EventFor(kind, p, payload))
            <==> Trim(p.tenant) != "" && Trim(p.chain) != "" && Trim(p.network) != ""
  {
    LowerTrimIsBlank(p.chain);
    LowerTrimIsBlank(p.network);
  }

  /** The handler answers exactly that. */
  lemma HandlerAnswers(sweepMin: string, w: World, ev: Event, r: Replies, now: int)
    ensures Handle(sweepMin, w, ev, r, now).1 == Succeeds(sweepMin, ev, r)
  {
    if ev.key.kind == SweepTrigger && ev.payload.Deposit? {
      var p := ev.payload.deposit;
      BlankColumns(SweepRun, p, Sweep(SweepOf(p)));
    }
  }

  /**
   A dispatched row becomes DONE if and only if its work succeeded; otherwise it has used one
   more attempt, is FAILED when none is left, and is due again after the type's delay.
   */
  lemma DispatchSettles(sweepMin: string, w: World, ev: Event, r: Replies, now: int)
    requires IsCurrentEvent(w.rows, ev) && r.marked && ev.maxAttempts > 0
    ensures var after := Dispatched(sweepMin, w, ev, r, now);
            && ev.key in after.rows
            && var row := after.rows[ev.key];
            && row.payload == ev.payload && row.maxAttempts == ev.maxAttempts
            && (row.state == Done <==> Succeeds(sweepMin, ev, r))
            && (row.state == Done ==> row.attempt == ev.attempt)
            && (row.state != Done ==>
                  && row.attempt == ev.attempt + 1 && (row.state == Failed <==> ev.attempt + 1 >= ev.maxAttempts)
                  && row.nextRetryAt == now + Backoff(Some(ev.key.kind), ev.attempt + 1))
  {
    HandlerAnswers(sweepMin, w, ev, r, now);
    HandlersSpareQueuedRows(sweepMin, w, ev, r, now, ev.key);
  }

  // ---------------------------------------------------------------- calls and followers

  /** A deposit is reported exactly if nothing it needs is blank. */
  lemma DepositIsReported(w: World, p: DepositPayload, r: Replies, now: int)
    ensures HandleDeposit(w, p, r, now).0.calls ==
            w.calls + if p.tenant != "" && p.account != "" && p.orderId != "" && p.chain != "" && p.network != ""
                      then [Notified(p, r.notify)] else []
  {
  }

  /** The balance of the watched address is read exactly if the sweep is wanted and there is an address. */
  lemma BalanceIsRead(sweepMin: string, w: World, p: DepositPayload, r: Replies, now: int)
    ensures var address := if Trim(p.watch) != "" then Trim(p.watch) else Trim(p.to);
            HandleTrigger(sweepMin, w, p, r, now).0.calls ==
            w.calls + if p.sweepTrigger && p.autoSweep && address != "" then [BalanceRead(p, address, r.balance)]
                      else []
  {
  }

  /** The follower of the kind is there with the payload, fresh, unless it was there before and had not failed. */
  predicate IsFollowedBy(before: OutboxRows, after: OutboxRows, kind: Kind, p: DepositPayload, payload: Payload,
                         now: int)
  {
    var k := Key(kind, KeyOf(p));
    && k in after
    && if k in before && before[k].state != Failed then after[k] == before[k]
       else after[k] == OutboxRow(p.tenant, Lower(Trim(p.chain)), Lower(Trim(p.network)), payload, Queued, 0, 24, now)
  }

  lemma SpawnFollows(w: World, kind: Kind, p: DepositPayload, payload: Payload, stored: Outcome, now: int)
    requires Trim(p.tenant) != "" && Trim(p.chain) != "" && Trim(p.network) != "" && stored != Lost
    ensures IsFollowedBy(w.rows, Spawned(w, EventFor(kind, p, payload), stored, now).rows, kind, p, payload, now)
    ensures forall k :: k != Key(kind, KeyOf(p)) ==>
              var after := Spawned(w, EventFor(kind, p, payload), stored, now).rows;
              (k in after <==> k in w.rows) && (k in after ==> after[k] == w.rows[k])
  {
    BlankColumns(kind, p, payload);
  }

  /** A confirmed deposit that the ledger took is followed by what its watch asks for. */
  lemma ConfirmedDepositIsFollowed(w: World, p: DepositPayload, r: Replies, now: int)
    requires CanNotify(p) && Trim(p.tenant) != "" && Trim(p.chain) != "" && Trim(p.network) != ""
    requires r.notify && p.status == LedgerConfirmed && r.projectStored != Lost && r.triggerStored != Lost
    ensures var after := HandleDeposit(w, p, r, now).0.rows;
            && (p.projectNotify ==> IsFollowedBy(w.rows, after, ProjectDepositNotify, p, Deposit(p), now))
            && (p.sweepTrigger ==> IsFollowedBy(w.rows, after, SweepTrigger, p, Deposit(p), now))
  {
    var w1 := Called(w, Notified(p, r.notify));
    var w2 := w1;
    if p.projectNotify {
      SpawnFollows(w1, ProjectDepositNotify, p, Deposit(p), r.projectStored, now);
      w2 := Spawned(w1, EventFor(ProjectDepositNotify, p, Deposit(p)), r.projectStored, now);
    }
    if p.sweepTrigger {
      SpawnFollows(w2, SweepTrigger, p, Deposit(p), r.triggerStored, now);
    }
  }

  /** A wanted sweep whose balance is above the threshold is followed by the sweep itself. */
  lemma SufficientBalanceIsFollowed(sweepMin: string, w: World, p: DepositPayload, r: Replies, now: int)
    requires WantsBalance(p) && Trim(p.tenant) != "" && Trim(p.chain) != "" && Trim(p.network) != ""
    requires r.balance.Some? && MeetsThreshold(r.balance.value, EffectiveThreshold(p, sweepMin))
    requires r.sweepStored != Lost
    ensures IsFollowedBy(w.rows, HandleTrigger(sweepMin, w, p, r, now).0.rows, SweepRun, p, Sweep(SweepOf(p)), now)
  {
    SpawnFollows(Called(w, BalanceRead(p, WatchedAddress(p), r.balance)), SweepRun, p, Sweep(SweepOf(p)),
                 r.sweepStored, now);
  }

  /**
   Nothing follows a deposit that is not confirmed or that the ledger did not take, nor a
   balance at or below the threshold.
   */
  lemma NothingElseFollows(sweepMin: string, w: World, p: DepositPayload, r: Replies, now: int)
    ensures !r.notify || p.status != LedgerConfirmed ==> HandleDeposit(w, p, r, now).0.rows == w.rows
    ensures r.balance.None? || !MeetsThreshold(r.balance.value, EffectiveThreshold(p, sweepMin)) ==>
              HandleTrigger(sweepMin, w, p, r, now).0.rows == w.rows
  {
  }

  /** A project is told, and a sweep is run, exactly if asked for and, for the sweep, if nothing it needs is blank. */
  lemma ProjectsAndSweepsAreCalled(w: World, k: Key, p: DepositPayload, s: SweepPayload, r: Replies)
    ensures HandleProject(w, p, r).0 ==
            World(w.rows, w.calls + if p.projectNotify then [ProjectNotified(p, r.project)] else [])
    ensures var isComplete := s.tenant != "" && s.orderId != "" && s.from != "" && s.chain != "" && s.network != "";
            HandleSweep(w, k, s, r).0 == World(w.rows, w.calls + if isComplete then [SweepRan(k, s, r.sweep)] else [])
  {
  }

  // ---------------------------------------------------------------- a whole pass

  /** DONE, or still waiting with one attempt more. */
  predicate IsSettledAs(rows: OutboxRows, ev: Event, ok: bool) {
    && ev.key in rows
    && if ok then rows[ev.key].state == Done else rows[ev.key].state == Queued && rows[ev.key].attempt == ev.attempt + 1
  }

  lemma OthersKeepSettled(sweepMin: string, w: World, ev: Event, r: Replies, now: int, other: Event, ok: bool)
    requires IsSettledAs(w.rows, other, ok) && ev.key != other.key
    ensures IsSettledAs(Dispatched(sweepMin, w, ev, r, now).rows, other, ok)
  {
    HandlersOnlySpawn(sweepMin, w, ev, r, now, other.key);
  }

  /**
   A pass settles each event of its listing, if the mark reaches the store: the row ends DONE
   if the work succeeded, and still waiting with one attempt more if it failed with attempts left.
   */
  lemma {:induction false} PassSettlesEach(sweepMin: string, w: World, evs: seq<Event>, rs: nat -> Replies, now: int,
                                           i: nat)
    requires IsCurrent(w.rows, evs) && i < |evs| && rs(i).marked && evs[i].maxAttempts > 0
    requires Succeeds(sweepMin, evs[i], rs(i)) || evs[i].attempt + 1 < evs[i].maxAttempts
    ensures IsSettledAs(DispatchedAll(sweepMin, w, evs, rs, now).rows, evs[i], Succeeds(sweepMin, evs[i], rs(i)))
    decreases |evs|
  {
    var n := |evs| - 1;
    var front := evs[..n];
    var before := DispatchedAll(sweepMin, w, front, rs, now);
    if i < n {
      PassSettlesEach(sweepMin, w, front, rs, now, i);
      OthersKeepSettled(sweepMin, before, evs[n], rs(n), now, evs[i], Succeeds(sweepMin, evs[i], rs(i)));
    } else {
      assert IsCurrentEvent(w.rows, evs[n]);
      DispatchedAllSpares(sweepMin, w, front, rs, now, evs[n].key);
      DispatchSettles(sweepMin, before, evs[n], rs(n), now);
    }
  }
}
