/**
 The scanner's per-chain request gate, which hands out evenly spaced time slots
 (services/scan-account-service/internal/client/chain_gateway.go). Times are nanoseconds.
 */
module SlotGate {
  import opened Arithmetic
  import opened Wrappers

  /** The slot a caller gets and the earliest slot left for the next one. */
  function Reserve(interval: int, next: Option<int>, now: int): (int, int) {
    if next.None? || next.value <= now then (now, now + interval)
    else (next.value, next.value + interval)
  }

  class Gate {
    const interval: int
    var next: Option<int>

    constructor (interval: int)
      ensures this.interval == interval && next == None
    {
      this.interval := interval;
      next := None;
    }

    /**
     The slot the caller must wait for; None when the gate is switched off. A cancelled wait
     does not return its slot.
     */
    method WaitTurn(now: int) returns (slot: Option<int>)
      modifies this`next
      ensures interval <= 0 ==> slot == None && next == old(next)
      ensures interval > 0 ==>
                var (s, n) := Reserve(interval, old(next), now);
                slot == Some(s) && next == Some(n)
    {
      if interval <= 0 {
        return None;
      }
      if next.None? || next.value <= now {
        next := Some(now + interval);
        return Some(now);
      }
      slot := next;
      next := Some(next.value + interval);
    }
  }

  /** The slots handed out to callers whose clock readings, in lock order, are `readings`. */
  function Slots(interval: int, next: Option<int>, readings: seq<int>): (r: seq<int>)
    ensures |r| == |readings|
    decreases |readings|
  {
    if readings == [] then []
    else
      var (slot, next') := Reserve(interval, next, readings[0]);
      [slot] + Slots(interval, Some(next'), readings[1..])
  }

  /** Each slot is the earliest time that respects the caller's reading and one interval after the previous slot. */
  lemma {:induction false} SlotIsEarliest(interval: int, next: Option<int>, readings: seq<int>, i: nat)
    requires interval > 0 && i < |readings|
    ensures var s := Slots(interval, next, readings);
            s[i] == if i > 0 then Max(readings[i], s[i - 1] + interval)
                    else if next.None? then readings[0] else Max(readings[0], next.value)
    decreases |readings|
  {
    if i > 0 {
      SlotIsEarliest(interval, Some(Reserve(interval, next, readings[0]).1), readings[1..], i - 1);
    }
  }

  /** Slots that fall in the closed span [from, to]. */
  function CountIn(slots: seq<int>, from: int, to: int): nat {
    if slots == [] then 0
    else (if from <= slots[0] <= to then 1 else 0) + CountIn(slots[1..], from, to)
  }

  lemma {:induction false} CountFrom(interval: int, next: int, readings: seq<int>, from: int, to: int)
    requires interval > 0
    ensures CountIn(Slots(interval, Some(next), readings), from, to) <= Capacity(interval, to - Max(from, next))
    decreases |readings|
  {
    CapacityIsMonotone(interval, to - Max(from, next), to - Max(from, next));
    if readings != [] {
      var (slot, next') := Reserve(interval, Some(next), readings[0]);
      CountFrom(interval, next', readings[1..], from, to);
      CapacityIsMonotone(interval, to - Max(from, next'), to - Max(from, next));
      if from <= slot <= to {
        CapacityIsMonotone(interval, to - slot, to - Max(from, next));
      }
    }
  }

  /**
   Over every sequence of callers, with any clock readings, a span of length L holds at
   most floor(L / interval) + 1 slots.
   */
  lemma SpanBound(interval: int, readings: seq<int>, from: int, length: nat)
    requires interval > 0
    ensures CountIn(Slots(interval, None, readings), from, from + length) <= length / interval + 1
  {
    CapacityIsQuotient(interval, length);
    if readings != [] {
      assert Slots(interval, None, readings) == Slots(interval, Some(readings[0]), readings);
      CountFrom(interval, readings[0], readings, from, from + length);
      CapacityIsMonotone(interval, from + length - Max(from, readings[0]), length);
    } else {
      CapacityIsMonotone(interval, -1, length);
    }
  }

  /** Enough callers that arrive together fill a span completely. */
  lemma {:induction false} SpanBoundIsTight(interval: int, next: int, length: int, readings: seq<int>)
    requires interval > 0 && |readings| >= Capacity(interval, length)
    requires forall i :: 0 <= i < |readings| ==> readings[i] <= next
    ensures CountIn(Slots(interval, Some(next), readings), next, next + length) == Capacity(interval, length)
    decreases |readings|
  {
    CapacityIsMonotone(interval, length - interval, length);
    CountFrom(interval, next, readings, next, next + length);
    if readings != [] && length >= 0 {
      SpanBoundIsTight(interval, next + interval, length - interval, readings[1..]);
      CountFromLater(interval, next + interval, readings[1..], next, next + length);
    }
  }

  /** Slots start no earlier than the gate allows, so the span's start may move up to it. */
  lemma {:induction false} CountFromLater(interval: int, next: int, readings: seq<int>, from: int, to: int)
    requires interval > 0 && from <= next
    ensures CountIn(Slots(interval, Some(next), readings), from, to) ==
            CountIn(Slots(interval, Some(next), readings), next, to)
    decreases |readings|
  {
    if readings != [] {
      var next' := Reserve(interval, Some(next), readings[0]).1;
      CountFromLater(interval, next', readings[1..], from, to);
      CountFromLater(interval, next', readings[1..], next, to);
    }
  }
}
