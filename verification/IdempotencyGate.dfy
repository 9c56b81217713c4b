/**
 The API gateway's idempotency gate: the idem_requests table
 (services/api-gateway/internal/security/postgres.go) and the part of the proxy that
 reserves, forwards and settles (services/api-gateway/internal/transport/http/proxy.go).
 */
module IdempotencyGate {
  import opened Wrappers
  import opened Text

  /** Tenant, request id and operation: the table's unique key. */
  datatype Key = Key(tenant: string, requestID: string, operation: string)

  datatype Status = PENDING | SUCCESS | FAILED

  datatype Row = Row(hash: string, status: Status, response: string)

  type Rows = map<Key, Row>

  datatype Answer = New | Conflict | Replay(response: string) | Rejected(response: string)

  // ---------------------------------------------------------------- the table

  function Reserved(rows: Rows, k: Key, hash: string): Rows {
    if k in rows then rows else rows[k := Row(hash, PENDING, "")]
  }

  function AnswerOf(rows: Rows, k: Key, hash: string): Answer {
    var row := Reserved(rows, k, hash)[k];
    if row.hash != hash then Conflict
    else match row.status
      case SUCCESS => Replay(row.response)
      case FAILED => Rejected(row.response)
      case PENDING => New
  }

  function Settled(rows: Rows, k: Key, status: Status, response: string): Rows {
    if k in rows then rows[k := rows[k].(status := status, response := response)] else rows
  }

  class Table {
    var rows: Rows

    constructor ()
      ensures rows == map[]
    {
      rows := map[];
    }

    method Reserve(k: Key, hash: string) returns (answer: Answer)
      modifies this`rows
      ensures rows == Reserved(old(rows), k, hash) && answer == AnswerOf(old(rows), k, hash)
      ensures k !in old(rows) ==> answer == New && rows == old(rows)[k := Row(hash, PENDING, "")]
      ensures k in old(rows) ==>
                && rows == old(rows)
                && answer == if hash != rows[k].hash then Conflict
                             else match rows[k].status
                               case PENDING => New
                               case SUCCESS => Replay(rows[k].response)
                               case FAILED => Rejected(rows[k].response)
    {
      if k !in rows {
        rows := rows[k := Row(hash, PENDING, "")];
      }
      var row := rows[k];
      if row.hash != hash {
        return Conflict;
      }
      if row.status == SUCCESS {
        return Replay(row.response);
      }
      if row.status == FAILED {
        return Rejected(row.response);
      }
      answer := New;
    }

    method Commit(k: Key, response: string)
      modifies this`rows
      ensures rows == Settled(old(rows), k, SUCCESS, response)
      ensures rows == if k in old(rows) then old(rows)[k := Row(old(rows)[k].hash, SUCCESS, response)] else old(rows)
    {
      if k in rows {
        rows := rows[k := Row(rows[k].hash, SUCCESS, response)];
      }
    }

    method Reject(k: Key, reason: string)
      modifies this`rows
      ensures rows == Settled(old(rows), k, FAILED, reason)
      ensures rows == if k in old(rows) then old(rows)[k := Row(old(rows)[k].hash, FAILED, reason)] else old(rows)
    {
      if k in rows {
        rows := rows[k := Row(rows[k].hash, FAILED, reason)];
      }
    }
  }

  // ---------------------------------------------------------------- interleaved requests

  datatype Reply = Reply(status: int, body: string)

  predicate Is2xx(status: int) {
    200 <= status < 300
  }

  predicate Is4xx(status: int) {
    400 <= status < 500
  }

  /** A reply after which the request must not be forwarded again. */
  predicate IsFinal(r: Reply) {
    Is2xx(r.status) || Is4xx(r.status)
  }

  datatype Phase =
    | Arrived
    | Forwarding
    | Settling(reply: Reply)
    | Responded(answer: Answer, passedOn: Option<Reply>)
    | Unavailable

  datatype Request = Request(key: Key, hash: string, phase: Phase)

  /** The table, the requests in the proxy, and every reply that came back from upstream. */
  datatype State = State(rows: Rows, requests: map<nat, Request>, replies: seq<(Key, Reply)>)

  datatype Step =
    | Arrive(id: nat, key: Key, hash: string)
    | ReserveStep(id: nat, store: Outcome)
    | ForwardStep(id: nat, reply: Option<Reply>)
    | SettleStep(id: nat, store: Outcome)

  function SettledBy(rows: Rows, k: Key, reply: Reply): Rows {
    if Is2xx(reply.status) then Settled(rows, k, SUCCESS, reply.body)
    else if Is4xx(reply.status) then Settled(rows, k, FAILED, "upstream status=" + Decimal(reply.status))
    else rows
  }

  function WithPhase(s: State, id: nat, phase: Phase): map<nat, Request>
    requires id in s.requests
  {
    s.requests[id := s.requests[id].(phase := phase)]
  }

  /** One atomic action of one request; a step that is not enabled changes nothing. */
  function Next(s: State, step: Step): State {
    match step
    case Arrive(id, key, hash) =>
      if id in s.requests then s else s.(requests := s.requests[id := Request(key, hash, Arrived)])
    case ReserveStep(id, store) =>
      if id !in s.requests || s.requests[id].phase != Arrived then s
      else
        var r := s.requests[id];
        var answer := AnswerOf(s.rows, r.key, r.hash);
        var phase := if store != Applied then Unavailable
                     else if answer == New then Forwarding else Responded(answer, None);
        var rows := if store == Lost then s.rows else Reserved(s.rows, r.key, r.hash);
        s.(rows := rows, requests := WithPhase(s, id, phase))
    case ForwardStep(id, reply) =>
      if id !in s.requests || s.requests[id].phase != Forwarding then s
      else if reply.None? then s.(requests := WithPhase(s, id, Unavailable))
      else s.(requests := WithPhase(s, id, Settling(reply.value)),
              replies := s.replies + [(s.requests[id].key, reply.value)])
    case SettleStep(id, store) =>
      if id !in s.requests || !s.requests[id].phase.Settling? then s
      else
        var r := s.requests[id];
        s.(rows := if store == Lost then s.rows else SettledBy(s.rows, r.key, r.phase.reply),
           requests := WithPhase(s, id, Responded(New, Some(r.phase.reply))))
  }

  function Run(s: State, steps: seq<Step>): State {
    if steps == [] then s else Next(Run(s, steps[..|steps| - 1]), steps[|steps| - 1])
  }

  const EMPTY := State(map[], map[], [])

  /** Past its reservation and not yet answered. */
  predicate InFlight(s: State, id: nat, k: Key) {
    id in s.requests && s.requests[id].key == k && (s.requests[id].phase.Forwarding? || s.requests[id].phase.Settling?)
  }

  // ---------------------------------------------------------------- every interleaving

  /** Rows are never removed, their hash never changes, and a row that left PENDING never returns to it. */
  ghost predicate Evolves(a: Rows, b: Rows) {
    forall k :: k in a ==> k in b && b[k].hash == a[k].hash && (a[k].status != PENDING ==> b[k].status != PENDING)
  }

  lemma {:induction false} RowsEvolve(s: State, steps: seq<Step>)
    ensures Evolves(s.rows, Run(s, steps).rows)
  {
    if steps != [] {
      RowsEvolve(s, steps[..|steps| - 1]);
    }
  }

  /** A request in flight carries the hash that the table holds for its key. */
  ghost predicate HashesMatch(s: State) {
    forall id, k :: InFlight(s, id, k) ==> k in s.rows && s.rows[k].hash == s.requests[id].hash
  }

  lemma {:induction false} OnlyMatchingHashesGetThrough(steps: seq<Step>)
    ensures HashesMatch(Run(EMPTY, steps))
  {
    if steps != [] {
      var n := |steps| - 1;
      var s := Run(EMPTY, steps[..n]);
      OnlyMatchingHashesGetThrough(steps[..n]);
      var s' := Next(s, steps[n]);
      forall id, k | InFlight(s', id, k) ensures k in s'.rows && s'.rows[k].hash == s'.requests[id].hash {
        assert InFlight(s, id, k) || (steps[n].ReserveStep? && steps[n].id == id);
      }
    }
  }

  /**
   Once a key is stored, at any later point a different hash is answered Conflict, and
   once its row has left PENDING no answer is New again.
   */
  lemma LaterAnswers(s: State, steps: seq<Step>, k: Key, hash: string)
    requires k in s.rows
    ensures var answer := AnswerOf(Run(s, steps).rows, k, hash);
            && (answer == Conflict <==> hash != s.rows[k].hash)
            && (s.rows[k].status != PENDING ==> answer != New)
  {
    RowsEvolve(s, steps);
  }

  /** While the row is PENDING the gate lets every identical request through: two that overlap both reach upstream. */
  lemma OverlapForwardsTwice(k: Key, hash: string, reply: Reply) returns (steps: seq<Step>)
    requires IsFinal(reply)
    ensures steps == [Arrive(0, k, hash), Arrive(1, k, hash), ReserveStep(0, Applied), ReserveStep(1, Applied),
                      ForwardStep(0, Some(reply)), ForwardStep(1, Some(reply))]
    ensures Finals(Run(EMPTY, steps).replies, k) == [reply, reply]
  {
    var arrived := [Arrive(0, k, hash), Arrive(1, k, hash)];
    var reserved := arrived + [ReserveStep(0, Applied), ReserveStep(1, Applied)];
    RunTwo(EMPTY, [], Arrive(0, k, hash), Arrive(1, k, hash));
    assert [] + arrived == arrived;
    RunTwo(EMPTY, arrived, ReserveStep(0, Applied), ReserveStep(1, Applied));
    BothReserve(k, hash);
    BothForward(Run(EMPTY, reserved), k, reply);
    RunTwo(EMPTY, reserved, ForwardStep(0, Some(reply)), ForwardStep(1, Some(reply)));
    TwoFinals(k, reply);
    steps := reserved + [ForwardStep(0, Some(reply)), ForwardStep(1, Some(reply))];
  }

  lemma TwoFinals(k: Key, reply: Reply)
    requires IsFinal(reply)
    ensures Finals([(k, reply), (k, reply)], k) == [reply, reply]
  {
    assert [(k, reply), (k, reply)] == [] + [(k, reply)] + [(k, reply)];
    FinalsAppend([] + [(k, reply)], (k, reply), k);
    FinalsAppend([], (k, reply), k);
  }

  lemma BothReserve(k: Key, hash: string)
    ensures var s := Next(Next(EMPTY, Arrive(0, k, hash)), Arrive(1, k, hash));
            var s' := Next(Next(s, ReserveStep(0, Applied)), ReserveStep(1, Applied));
            && InFlight(s', 0, k) && InFlight(s', 1, k) && s'.replies == []
            && s'.requests[0].phase == Forwarding == s'.requests[1].phase
  {
    var s := Next(Next(EMPTY, Arrive(0, k, hash)), Arrive(1, k, hash));
    assert s.requests[0] == Request(k, hash, Arrived) && s.requests[1] == Request(k, hash, Arrived) && s.rows == map[];
    var t := Next(s, ReserveStep(0, Applied));
    assert t.requests[0].phase == Forwarding && t.rows[k] == Row(hash, PENDING, "");
  }

  lemma BothForward(s: State, k: Key, reply: Reply)
    requires InFlight(s, 0, k) && InFlight(s, 1, k) && s.replies == []
    requires s.requests[0].phase == Forwarding == s.requests[1].phase
    ensures Next(Next(s, ForwardStep(0, Some(reply))), ForwardStep(1, Some(reply))).replies == [(k, reply), (k, reply)]
  {
    var t := Next(s, ForwardStep(0, Some(reply)));
    assert t.replies == [(k, reply)] && t.requests[1] == s.requests[1];
  }

  lemma RunTwo(s: State, steps: seq<Step>, x: Step, y: Step)
    ensures Run(s, steps + [x, y]) == Next(Next(Run(s, steps), x), y)
  {
    assert (steps + [x, y])[..|steps| + 1] == steps + [x];
    assert (steps + [x])[..|steps|] == steps;
  }

  /** How a pending row is settled: 2xx commits the body, 4xx rejects with the status, anything else leaves it open. */
  lemma SettlesByStatus(s: State, id: nat)
    requires id in s.requests && s.requests[id].phase.Settling? && s.requests[id].key in s.rows
    ensures var r := s.requests[id];
            var reply, was := r.phase.reply, s.rows[r.key];
            var row := Next(s, SettleStep(id, Applied)).rows[r.key];
            && (200 <= reply.status <= 299 ==> row == Row(was.hash, SUCCESS, reply.body))
            && (400 <= reply.status <= 499 ==> row == Row(was.hash, FAILED, "upstream status=" + Decimal(reply.status)))
            && (!(200 <= reply.status <= 299) && !(400 <= reply.status <= 499) ==> row == was)
            && (IsFinal(reply) <==> 200 <= reply.status <= 299 || 400 <= reply.status <= 499)
  {
  }

  // ---------------------------------------------------------------- requests that do not overlap

  /** The final replies for one key, in order. */
  function Finals(replies: seq<(Key, Reply)>, k: Key): seq<Reply> {
    if replies == [] then []
    else
      var last := replies[|replies| - 1];
      Finals(replies[..|replies| - 1], k) + (if last.0 == k && IsFinal(last.1) then [last.1] else [])
  }

  /** The step reserves the key and the gate lets the request through. */
  predicate LetsThrough(s: State, step: Step, k: Key) {
    && step.ReserveStep? && step.store == Applied
    && step.id in s.requests && s.requests[step.id].key == k && s.requests[step.id].phase == Arrived
    && AnswerOf(s.rows, k, s.requests[step.id].hash) == New
  }

  /** The step loses the statement that should settle a final reply for the key. */
  predicate LosesSettle(s: State, step: Step, k: Key) {
    && step.SettleStep? && step.store == Lost
    && step.id in s.requests && s.requests[step.id].key == k
    && s.requests[step.id].phase.Settling? && IsFinal(s.requests[step.id].phase.reply)
  }

  /** No request is let through while another one is in flight, and final replies are settled; all else may fail. */
  ghost predicate StepIsSerial(s: State, step: Step, k: Key) {
    (LetsThrough(s, step, k) ==> Idle(s, k)) && !LosesSettle(s, step, k)
  }

  ghost predicate RunIsSerial(steps: seq<Step>, k: Key) {
    forall i :: 0 <= i < |steps| ==> StepIsSerial(Run(EMPTY, steps[..i]), steps[i], k)
  }

  ghost predicate Idle(s: State, k: Key) {
    forall id :: !InFlight(s, id, k)
  }

  /** The final replies that the row and the one request in flight account for. */
  ghost predicate Accounted(row: Option<Row>, active: Option<Phase>, finals: seq<Reply>) {
    match (row, active)
    case (None, None) => finals == []
    case (None, Some(_)) => false
    case (Some(r), Some(phase)) =>
      r.status == PENDING && finals == if phase.Settling? && IsFinal(phase.reply) then [phase.reply] else []
    case (Some(r), None) =>
      match r.status
      case PENDING => finals == []
      case SUCCESS => |finals| == 1 && Is2xx(finals[0].status) && r.response == finals[0].body
      case FAILED =>
        |finals| == 1 && Is4xx(finals[0].status) && r.response == "upstream status=" + Decimal(finals[0].status)
  }

  /** In a serial run at most one request, `active`, is in flight on the key. */
  ghost predicate SerialInvariant(s: State, k: Key, active: Option<nat>) {
    && (forall id: nat :: InFlight(s, id, k) <==> active == Some(id))
    && (active.Some? ==> active.value in s.requests)
    && Accounted(if k in s.rows then Some(s.rows[k]) else None,
                 if active.Some? then Some(s.requests[active.value].phase) else None,
                 Finals(s.replies, k))
  }

  lemma FinalsAppend(replies: seq<(Key, Reply)>, x: (Key, Reply), k: Key)
    ensures Finals(replies + [x], k) == Finals(replies, k) + (if x.0 == k && IsFinal(x.1) then [x.1] else [])
  {
    assert (replies + [x])[..|replies|] == replies;
  }

  /** A step of a request on another key, or a step that is not enabled, does not concern this key. */
  ghost predicate Foreign(s: State, step: Step, k: Key) {
    step.Arrive? || step.id !in s.requests || s.requests[step.id].key != k || Next(s, step) == s
  }

  lemma ForeignRows(s: State, step: Step, k: Key)
    requires Foreign(s, step, k)
    ensures var s' := Next(s, step); (k in s'.rows <==> k in s.rows) && (k in s.rows ==> s'.rows[k] == s.rows[k])
  {
  }

  lemma ForeignRequests(s: State, step: Step, k: Key, id: nat)
    requires Foreign(s, step, k)
    ensures var s' := Next(s, step);
            (InFlight(s', id, k) <==> InFlight(s, id, k)) && (InFlight(s, id, k) ==> s'.requests[id] == s.requests[id])
  {
  }

  lemma ForeignReplies(s: State, step: Step, k: Key)
    requires Foreign(s, step, k)
    ensures Finals(Next(s, step).replies, k) == Finals(s.replies, k)
  {
    if step.ForwardStep? && Next(s, step) != s && step.reply.Some? {
      FinalsAppend(s.replies, (s.requests[step.id].key, step.reply.value), k);
    }
  }

  lemma ForeignStep(s: State, step: Step, k: Key, active: Option<nat>)
    requires SerialInvariant(s, k, active) && Foreign(s, step, k)
    ensures SerialInvariant(Next(s, step), k, active)
  {
    var s' := Next(s, step);
    ForeignRows(s, step, k);
    ForeignReplies(s, step, k);
    forall id: nat
      ensures InFlight(s', id, k) <==> active == Some(id)
      ensures InFlight(s, id, k) ==> s'.requests[id] == s.requests[id]
    {
      ForeignRequests(s, step, k, id);
    }
    if active.Some? {
      assert InFlight(s, active.value, k) && InFlight(s', active.value, k);
    }
  }

  /** An enabled step of a request moves that request and no other. */
  lemma OthersStay(s: State, step: Step, k: Key)
    ensures forall id: nat :: id != step.id ==> (InFlight(Next(s, step), id, k) <==> InFlight(s, id, k))
  {
  }

  lemma OwnReserve(s: State, id: nat, store: Outcome, k: Key, active: Option<nat>) returns (active': Option<nat>)
    requires SerialInvariant(s, k, active) && StepIsSerial(s, ReserveStep(id, store), k)
    requires id in s.requests && s.requests[id].key == k && s.requests[id].phase == Arrived
    ensures SerialInvariant(Next(s, ReserveStep(id, store)), k, active')
  {
    var step := ReserveStep(id, store);
    OthersStay(s, step, k);
    assert !InFlight(s, id, k);
    if LetsThrough(s, step, k) {
      assert active == None;
      active' := Some(id);
    } else {
      active' := active;
      if active.Some? {
        assert InFlight(s, active.value, k);
      }
    }
  }

  lemma OwnForward(s: State, id: nat, reply: Option<Reply>, k: Key) returns (active': Option<nat>)
    requires SerialInvariant(s, k, Some(id)) && s.requests[id].phase == Forwarding
    ensures SerialInvariant(Next(s, ForwardStep(id, reply)), k, active')
  {
    OthersStay(s, ForwardStep(id, reply), k);
    assert InFlight(s, id, k);
    if reply.Some? {
      FinalsAppend(s.replies, (k, reply.value), k);
    }
    active' := if reply.Some? then Some(id) else None;
  }

  lemma OwnSettle(s: State, id: nat, store: Outcome, k: Key)
    requires SerialInvariant(s, k, Some(id)) && StepIsSerial(s, SettleStep(id, store), k)
    requires s.requests[id].phase.Settling?
    ensures SerialInvariant(Next(s, SettleStep(id, store)), k, None)
  {
    OthersStay(s, SettleStep(id, store), k);
    assert InFlight(s, id, k);
  }

  lemma OwnStep(s: State, step: Step, k: Key, active: Option<nat>) returns (active': Option<nat>)
    requires SerialInvariant(s, k, active) && StepIsSerial(s, step, k) && !Foreign(s, step, k)
    ensures SerialInvariant(Next(s, step), k, active')
  {
    match step
    case Arrive(_, _, _) =>
      active' := active;
    case ReserveStep(id, store) =>
      active' := OwnReserve(s, id, store, k, active);
    case ForwardStep(id, reply) =>
      assert InFlight(s, id, k);
      active' := OwnForward(s, id, reply, k);
    case SettleStep(id, store) =>
      assert InFlight(s, id, k);
      OwnSettle(s, id, store, k);
      active' := None;
  }

  lemma {:induction false} SerialRunsKeepInvariant(steps: seq<Step>, k: Key) returns (active: Option<nat>)
    requires RunIsSerial(steps, k)
    ensures SerialInvariant(Run(EMPTY, steps), k, active)
  {
    if steps == [] {
      return None;
    }
    var n := |steps| - 1;
    assert forall i :: 0 <= i < n ==> steps[..n][..i] == steps[..i];
    assert RunIsSerial(steps[..n], k);
    active := SerialRunsKeepInvariant(steps[..n], k);
    var s := Run(EMPTY, steps[..n]);
    if Foreign(s, steps[n], k) {
      ForeignStep(s, steps[n], k, active);
    } else {
      active := OwnStep(s, steps[n], k, active);
    }
  }

  /**
   When no request for a key is let through while another is in flight and final replies
   are settled, upstream gives at most one 2xx or 4xx reply for it, however reservations
   fail; once a 2xx reply has been settled every request with the stored hash is
   answered with exactly that body, and while there has been no final reply such a
   request is let through again.
   */
  lemma AtMostOneFinalReply(steps: seq<Step>, k: Key)
    requires RunIsSerial(steps, k)
    ensures var s := Run(EMPTY, steps); var finals := Finals(s.replies, k);
            && |finals| <= 1
            && (k in s.rows && Idle(s, k) && finals != [] && Is2xx(finals[0].status) ==>
                  AnswerOf(s.rows, k, s.rows[k].hash) == Replay(finals[0].body))
            && (k in s.rows && Idle(s, k) && finals != [] && Is4xx(finals[0].status) ==>
                  AnswerOf(s.rows, k, s.rows[k].hash) == Rejected("upstream status=" + Decimal(finals[0].status)))
            && (k in s.rows && Idle(s, k) && finals == [] ==> AnswerOf(s.rows, k, s.rows[k].hash) == New)
  {
    var active := SerialRunsKeepInvariant(steps, k);
  }
}
