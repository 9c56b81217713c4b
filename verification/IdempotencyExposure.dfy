/**
 Exactly when the idempotency gate keeps a key to one final reply. The measure is the
 key's exposure: final replies so far, plus requests that are still being forwarded.
 */
module IdempotencyExposure {
  import opened Wrappers
  import opened IdempotencyGate

  function Forwarders(s: State, k: Key): set<nat> {
    set id | id in s.requests && s.requests[id].key == k && s.requests[id].phase == Forwarding
  }

  function Exposure(s: State, k: Key): nat {
    |Finals(s.replies, k)| + |Forwarders(s, k)|
  }

  /** No step of the run lets a request for the key through. */
  ghost predicate LetsNoneThrough(s: State, steps: seq<Step>, k: Key) {
    forall i :: 0 <= i < |steps| ==> !LetsThrough(Run(s, steps[..i]), steps[i], k)
  }

  // ---------------------------------------------------------------- one step

  lemma RepliesOf(s: State, step: Step, k: Key)
    ensures var before, after := Finals(s.replies, k), Finals(Next(s, step).replies, k);
            after == before || (step.ForwardStep? && step.id in Forwarders(s, k) && |after| == |before| + 1)
  {
    if step.ForwardStep? && step.reply.Some? && step.id in s.requests {
      FinalsAppend(s.replies, (s.requests[step.id].key, step.reply.value), k);
    }
  }

  lemma ForwardersOf(s: State, step: Step, k: Key)
    ensures Forwarders(Next(s, step), k) ==
            if LetsThrough(s, step, k) then Forwarders(s, k) + {step.id}
            else if step.ForwardStep? then Forwarders(s, k) - {step.id}
            else Forwarders(s, k)
    ensures LetsThrough(s, step, k) ==> step.id !in Forwarders(s, k)
  {
  }

  /** Letting a request through adds one to the exposure; nothing else adds to it. */
  lemma ExposureSteps(s: State, step: Step, k: Key)
    ensures LetsThrough(s, step, k) ==> Exposure(Next(s, step), k) == Exposure(s, k) + 1
    ensures !LetsThrough(s, step, k) ==> Exposure(Next(s, step), k) <= Exposure(s, k)
  {
    RepliesOf(s, step, k);
    ForwardersOf(s, step, k);
  }

  /** An upstream that answers a forwarded request with a final reply turns exposure into a reply. */
  lemma ForwardAnswered(s: State, id: nat, reply: Reply, k: Key)
    requires id in Forwarders(s, k) && IsFinal(reply)
    ensures var after := Next(s, ForwardStep(id, Some(reply)));
            && Forwarders(after, k) == Forwarders(s, k) - {id}
            && |Finals(after.replies, k)| == |Finals(s.replies, k)| + 1
  {
    FinalsAppend(s.replies, (k, reply), k);
    ForwardersOf(s, ForwardStep(id, Some(reply)), k);
  }

  // ---------------------------------------------------------------- from any state

  lemma {:induction false} ExposureBoundsReplies(s: State, steps: seq<Step>, k: Key)
    requires LetsNoneThrough(s, steps, k)
    ensures |Finals(Run(s, steps).replies, k)| <= Exposure(Run(s, steps), k) <= Exposure(s, k)
  {
    if steps != [] {
      var n := |steps| - 1;
      var front := steps[..n];
      forall i | 0 <= i < n ensures !LetsThrough(Run(s, front[..i]), front[i], k) {
        assert front[..i] == steps[..i];
      }
      ExposureBoundsReplies(s, front, k);
      ExposureSteps(Run(s, front), steps[n], k);
    }
  }

  lemma {:induction false} RunFrom(s: State, first: Step, rest: seq<Step>)
    ensures Run(s, [first] + rest) == Run(Next(s, first), rest)
  {
    if rest == [] {
      assert [first] + rest == [first] && [first][..0] == [];
    } else {
      var n := |rest| - 1;
      RunFrom(s, first, rest[..n]);
      assert ([first] + rest)[..n + 1] == [first] + rest[..n];
    }
  }

  /** Replies that use up the whole exposure: each forwarded request gets a 200. */
  lemma {:induction false} ExposureIsReached(s: State, k: Key) returns (steps: seq<Step>)
    ensures forall i :: 0 <= i < |steps| ==> steps[i].ForwardStep?
    ensures |Finals(Run(s, steps).replies, k)| == Exposure(s, k)
    decreases Forwarders(s, k)
  {
    if Forwarders(s, k) == {} {
      return [];
    }
    var id :| id in Forwarders(s, k);
    var first := ForwardStep(id, Some(Reply(200, "")));
    ForwardAnswered(s, id, Reply(200, ""), k);
    var rest := ExposureIsReached(Next(s, first), k);
    RunFrom(s, first, rest);
    steps := [first] + rest;
  }

  /**
   From any state at all: however the requests already let through are answered, and
   whatever fails, the final replies for the key stay within n exactly when its
   exposure is within n.
   */
  lemma ExposureIsExact(s: State, k: Key, n: nat)
    ensures (forall steps :: LetsNoneThrough(s, steps, k) ==> |Finals(Run(s, steps).replies, k)| <= n)
            <==> Exposure(s, k) <= n
  {
    if Exposure(s, k) <= n {
      forall steps | LetsNoneThrough(s, steps, k) ensures |Finals(Run(s, steps).replies, k)| <= n {
        ExposureBoundsReplies(s, steps, k);
      }
    } else {
      var steps := ExposureIsReached(s, k);
      assert LetsNoneThrough(s, steps, k);
    }
  }

  /** The general overlap: any two requests for a key that are being forwarded can both bring back a final reply. */
  lemma OverlapIsExposed(s: State, a: nat, b: nat, k: Key) returns (steps: seq<Step>)
    requires a != b && a in Forwarders(s, k) && b in Forwarders(s, k)
    ensures LetsNoneThrough(s, steps, k)
    ensures |Finals(Run(s, steps).replies, k)| >= |Finals(s.replies, k)| + 2
  {
    assert {a, b} <= Forwarders(s, k);
    var rest := Forwarders(s, k) - {a, b};
    assert Forwarders(s, k) == rest + {a, b} && |rest + {a, b}| == |rest| + 2;
    steps := ExposureIsReached(s, k);
  }

  /**
   The other failure: once the statement that settles a final reply is lost, the same
   request is let through again.
   */
  lemma LostSettleReopens(s: State, step: Step, k: Key)
    requires LosesSettle(s, step, k) && k in s.rows && s.rows[k].status == PENDING
    ensures var after := Next(s, step);
            after.rows[k].status == PENDING && AnswerOf(after.rows, k, s.rows[k].hash) == New
  {
  }

  // ---------------------------------------------------------------- over runs

  /** The condition to check at the gate: a request is let through only if the key is not exposed yet. */
  ghost predicate IsGuarded(steps: seq<Step>, k: Key) {
    forall i :: 0 <= i < |steps| && LetsThrough(Run(EMPTY, steps[..i]), steps[i], k) ==>
      Exposure(Run(EMPTY, steps[..i]), k) == 0
  }

  lemma {:induction false} GuardedExposure(steps: seq<Step>, k: Key)
    requires IsGuarded(steps, k)
    ensures Exposure(Run(EMPTY, steps), k) <= 1
  {
    if steps != [] {
      var n := |steps| - 1;
      var front := steps[..n];
      forall i | 0 <= i < n && LetsThrough(Run(EMPTY, front[..i]), front[i], k)
        ensures Exposure(Run(EMPTY, front[..i]), k) == 0
      {
        assert front[..i] == steps[..i];
      }
      GuardedExposure(front, k);
      ExposureSteps(Run(EMPTY, front), steps[n], k);
    } else {
      assert Forwarders(EMPTY, k) == {};
    }
  }

  /** However the requests in flight after the first i steps are answered, there is at most one final reply. */
  ghost predicate IsSafeAfter(steps: seq<Step>, i: nat, k: Key)
    requires i <= |steps|
  {
    var s := Run(EMPTY, steps[..i]);
    forall tail :: LetsNoneThrough(s, tail, k) ==> |Finals(Run(s, tail).replies, k)| <= 1
  }

  lemma UnguardedStepExposes(steps: seq<Step>, i: nat, k: Key)
    requires i < |steps| && LetsThrough(Run(EMPTY, steps[..i]), steps[i], k)
    ensures Exposure(Run(EMPTY, steps[..i + 1]), k) == Exposure(Run(EMPTY, steps[..i]), k) + 1
  {
    var upTo := steps[..i + 1];
    assert upTo[..i] == steps[..i];
    ExposureSteps(Run(EMPTY, steps[..i]), steps[i], k);
  }

  /**
   The exact condition for one final reply per key, over every interleaving and every
   failure: at each point of the run no answer to the requests in flight can bring a
   second final reply if and only if each request was let through at exposure zero,
   that is, with no other request being forwarded and no final reply received.
   */
  lemma OneFinalReplyIsExact(steps: seq<Step>, k: Key)
    ensures IsGuarded(steps, k) <==> forall i :: 0 <= i <= |steps| ==> IsSafeAfter(steps, i, k)
  {
    if IsGuarded(steps, k) {
      forall i | 0 <= i <= |steps| ensures IsSafeAfter(steps, i, k) {
        GuardedPrefix(steps, i, k);
        GuardedExposure(steps[..i], k);
        ExposureIsExact(Run(EMPTY, steps[..i]), k, 1);
      }
    } else {
      var i :| 0 <= i < |steps| && LetsThrough(Run(EMPTY, steps[..i]), steps[i], k)
               && Exposure(Run(EMPTY, steps[..i]), k) != 0;
      UnguardedStepExposes(steps, i, k);
      ExposureIsExact(Run(EMPTY, steps[..i + 1]), k, 1);
      assert !IsSafeAfter(steps, i + 1, k);
    }
  }

  lemma GuardedPrefix(steps: seq<Step>, n: nat, k: Key)
    requires IsGuarded(steps, k) && n <= |steps|
    ensures IsGuarded(steps[..n], k)
  {
    var front := steps[..n];
    forall i | 0 <= i < n && LetsThrough(Run(EMPTY, front[..i]), front[i], k)
      ensures Exposure(Run(EMPTY, front[..i]), k) == 0
    {
      assert front[..i] == steps[..i];
    }
  }

  /** Requests that do not overlap, with their final replies settled, meet the condition. */
  lemma SerialRunsAreGuarded(steps: seq<Step>, k: Key)
    requires RunIsSerial(steps, k)
    ensures IsGuarded(steps, k)
  {
    forall i | 0 <= i < |steps| && LetsThrough(Run(EMPTY, steps[..i]), steps[i], k)
      ensures Exposure(Run(EMPTY, steps[..i]), k) == 0
    {
      var front := steps[..i];
      assert forall j :: 0 <= j < i ==> front[..j] == steps[..j];
      assert RunIsSerial(front, k);
      var active := SerialRunsKeepInvariant(front, k);
      IdleIsUnexposed(Run(EMPTY, front), k, active);
    }
  }

  lemma IdleIsUnexposed(s: State, k: Key, active: Option<nat>)
    requires SerialInvariant(s, k, active) && Idle(s, k) && (k in s.rows ==> s.rows[k].status == PENDING)
    ensures Exposure(s, k) == 0
  {
    forall id | id in Forwarders(s, k) ensures false {
      assert InFlight(s, id, k);
    }
    forall id: nat ensures active != Some(id) {
      assert !InFlight(s, id, k);
    }
  }
}
