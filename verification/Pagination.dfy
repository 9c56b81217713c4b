/**
 The scanner's pagination guard, which decides after each page whether to go on
 (services/scan-account-service/internal/worker/scanner_utils.go).
 */
module Pagination {
  import opened Text

  /** Both limits are off at zero; negative configuration counts as zero. */
  datatype Limits = Limits(maxEmptyPages: nat, cursorStallGuard: nat)

  function EffectiveLimits(maxEmptyPages: int, cursorStallGuard: int): (l: Limits)
    ensures maxEmptyPages >= 0 ==> l.maxEmptyPages == maxEmptyPages
    ensures cursorStallGuard >= 0 ==> l.cursorStallGuard == cursorStallGuard
    ensures (maxEmptyPages < 0 ==> l.maxEmptyPages == 0) && (cursorStallGuard < 0 ==> l.cursorStallGuard == 0)
  {
    Limits(if maxEmptyPages < 0 then 0 else maxEmptyPages, if cursorStallGuard < 0 then 0 else cursorStallGuard)
  }

  datatype Reason = CursorExhausted | CursorNotAdvanced | MaxEmptyPages | CursorStallGuard

  datatype Decision = Advance | Stop(reason: Reason)

  datatype Memory = Memory(emptyPages: nat, seenCursors: map<string, nat>)

  const FRESH := Memory(0, map[])

  function Count(m: map<string, nat>, k: string): nat {
    if k in m then m[k] else 0
  }

  /** One page as the guard sees it. */
  datatype Observation = Observation(current: string, next: string, items: nat)

  function Observed(l: Limits, m: Memory, o: Observation): (Memory, Decision) {
    var empty := if o.items == 0 then m.emptyPages + 1 else 0;
    var m' := m.(emptyPages := empty);
    if Trim(o.next) == "" then (m', Stop(CursorExhausted))
    else if o.next == o.current then (m', Stop(CursorNotAdvanced))
    else if l.maxEmptyPages > 0 && o.items == 0 && empty >= l.maxEmptyPages then (m', Stop(MaxEmptyPages))
    else if l.cursorStallGuard > 0 then
      var n := Count(m.seenCursors, o.next) + 1;
      (m'.(seenCursors := m.seenCursors[o.next := n]),
       if n > l.cursorStallGuard then Stop(CursorStallGuard) else Advance)
    else (m', Advance)
  }

  class Guard {
    const limits: Limits
    var emptyPages: nat
    var seenCursors: map<string, nat>

    function Current(): Memory
      reads this
    {
      Memory(emptyPages, seenCursors)
    }

    constructor (maxEmptyPages: int, cursorStallGuard: int)
      ensures limits == EffectiveLimits(maxEmptyPages, cursorStallGuard) && Current() == FRESH
    {
      limits := EffectiveLimits(maxEmptyPages, cursorStallGuard);
      emptyPages := 0;
      seenCursors := map[];
    }

    method Observe(current: string, next: string, items: nat) returns (d: Decision)
      modifies this
      ensures (Current(), d) == Observed(limits, old(Current()), Observation(current, next, items))
    {
      if items == 0 {
        emptyPages := emptyPages + 1;
      } else {
        emptyPages := 0;
      }
      if Trim(next) == "" {
        return Stop(CursorExhausted);
      }
      if next == current {
        return Stop(CursorNotAdvanced);
      }
      if limits.maxEmptyPages > 0 && items == 0 && emptyPages >= limits.maxEmptyPages {
        return Stop(MaxEmptyPages);
      }
      if limits.cursorStallGuard > 0 {
        seenCursors := seenCursors[next := Count(seenCursors, next) + 1];
        if seenCursors[next] > limits.cursorStallGuard {
          return Stop(CursorStallGuard);
        }
      }
      d := Advance;
    }
  }

  // ---------------------------------------------------------------- whole scans

  function MemoryAfter(l: Limits, os: seq<Observation>): Memory {
    if os == [] then FRESH else Observed(l, MemoryAfter(l, os[..|os| - 1]), os[|os| - 1]).0
  }

  function DecisionAt(l: Limits, os: seq<Observation>, i: int): Decision
    requires 0 <= i < |os|
  {
    Observed(l, MemoryAfter(l, os[..i]), os[i]).1
  }

  /** A scan that the guard let run: every page but perhaps the last was answered Advance. */
  predicate RunsOn(l: Limits, os: seq<Observation>) {
    forall i :: 0 <= i < |os| - 1 ==> DecisionAt(l, os, i) == Advance
  }

  lemma OneMorePage(l: Limits, os: seq<Observation>, o: Observation)
    ensures MemoryAfter(l, os + [o]) == Observed(l, MemoryAfter(l, os), o).0
    ensures DecisionAt(l, os + [o], |os|) == Observed(l, MemoryAfter(l, os), o).1
    ensures forall i :: 0 <= i < |os| ==> DecisionAt(l, os + [o], i) == DecisionAt(l, os, i)
  {
    assert (os + [o])[..|os|] == os;
    forall i | 0 <= i < |os| ensures DecisionAt(l, os + [o], i) == DecisionAt(l, os, i) {
      assert (os + [o])[..i] == os[..i];
    }
  }

  /** A scan told to advance may look at one more page. */
  lemma RunsOnExtends(l: Limits, os: seq<Observation>, o: Observation)
    requires RunsOn(l, os) && (os != [] ==> DecisionAt(l, os, |os| - 1) == Advance)
    ensures RunsOn(l, os + [o])
  {
    OneMorePage(l, os, o);
    forall i | 0 <= i < |os| ensures DecisionAt(l, os + [o], i) == Advance {
      assert DecisionAt(l, os + [o], i) == DecisionAt(l, os, i);
    }
  }

  predicate AllAdvance(l: Limits, os: seq<Observation>) {
    forall i :: 0 <= i < |os| ==> DecisionAt(l, os, i) == Advance
  }

  function Nexts(os: seq<Observation>): (r: multiset<string>)
    ensures |r| == |os|
  {
    if os == [] then multiset{} else Nexts(os[..|os| - 1]) + multiset{os[|os| - 1].next}
  }

  /** The guard counts exactly how often it advanced to each cursor. */
  lemma {:induction false} AdvancesAreCounted(l: Limits, os: seq<Observation>)
    requires l.cursorStallGuard > 0 && AllAdvance(l, os)
    ensures forall c :: Nexts(os)[c] == Count(MemoryAfter(l, os).seenCursors, c) <= l.cursorStallGuard
  {
    if os != [] {
      var n := |os| - 1;
      forall i | 0 <= i < n ensures DecisionAt(l, os[..n], i) == Advance {
        assert os[..n][..i] == os[..i];
        assert DecisionAt(l, os, i) == Advance;
      }
      assert AllAdvance(l, os[..n]);
      AdvancesAreCounted(l, os[..n]);
      assert DecisionAt(l, os, n) == Advance;
      forall c ensures Nexts(os)[c] == Count(MemoryAfter(l, os).seenCursors, c) <= l.cursorStallGuard {
        assert Nexts(os[..n])[c] == Count(MemoryAfter(l, os[..n]).seenCursors, c);
      }
    }
  }

  /** A multiset over N values with no more than g of each has at most N*g elements. */
  lemma {:induction false} PigeonHole(m: multiset<string>, values: set<string>, g: nat)
    requires forall c :: c in m ==> c in values
    requires forall c :: m[c] <= g
    ensures |m| <= |values| * g
    decreases values
  {
    if values == {} {
      assert m == multiset{};
    } else {
      var c :| c in values;
      var rest := m[c := 0];
      PigeonHole(rest, values - {c}, g);
      assert |m| == |rest| + m[c];
      assert |values| == |values - {c}| + 1;
      assert |values| * g == |values - {c}| * g + g;
    }
  }

  /** With the stall guard on, no scan advances to one cursor more often than the guard allows. */
  lemma NoCursorTwiceTooOften(l: Limits, os: seq<Observation>, c: string)
    requires l.cursorStallGuard > 0 && os != [] && RunsOn(l, os)
    ensures Nexts(os[..|os| - 1])[c] <= l.cursorStallGuard
  {
    AdvancingPart(l, os);
    AdvancesAreCounted(l, os[..|os| - 1]);
  }

  /** How many pages at the end of the scan were empty. */
  function TrailingEmpty(os: seq<Observation>): nat {
    if os == [] || os[|os| - 1].items > 0 then 0 else TrailingEmpty(os[..|os| - 1]) + 1
  }

  lemma {:induction false} EmptyPagesAreTrailing(l: Limits, os: seq<Observation>)
    ensures MemoryAfter(l, os).emptyPages == TrailingEmpty(os)
  {
    if os != [] {
      EmptyPagesAreTrailing(l, os[..|os| - 1]);
    }
  }

  /**
   The verdict on the last page of a scan, from the pages alone. The scan goes on exactly if
   the page leads to a new cursor that is not blank, the empty pages at the end are fewer
   than the limit, and the cursor was advanced to less often than the guard allows. Blank
   and standing cursors come first, then empty pages, then the guard.
   */
  lemma VerdictIsExact(l: Limits, os: seq<Observation>)
    requires os != [] && RunsOn(l, os)
    ensures var n := |os| - 1; var o := os[n];
            var tooEmpty := l.maxEmptyPages > 0 && TrailingEmpty(os) >= l.maxEmptyPages;
            var stalled := l.cursorStallGuard > 0 && Nexts(os[..n])[o.next] >= l.cursorStallGuard;
            DecisionAt(l, os, n) ==
            if Trim(o.next) == "" then Stop(CursorExhausted)
            else if o.next == o.current then Stop(CursorNotAdvanced)
            else if tooEmpty then Stop(MaxEmptyPages)
            else if stalled then Stop(CursorStallGuard)
            else Advance
  {
    var n := |os| - 1;
    EmptyPagesAreTrailing(l, os[..n]);
    AdvancingPart(l, os);
    if l.cursorStallGuard > 0 {
      AdvancesAreCounted(l, os[..n]);
      assert Nexts(os[..n])[os[n].next] == Count(MemoryAfter(l, os[..n]).seenCursors, os[n].next);
    }
  }

  lemma AdvancingPart(l: Limits, os: seq<Observation>)
    requires os != [] && RunsOn(l, os)
    ensures AllAdvance(l, os[..|os| - 1])
  {
    var front := os[..|os| - 1];
    forall i | 0 <= i < |front| ensures DecisionAt(l, front, i) == Advance {
      assert front[..i] == os[..i];
      assert DecisionAt(l, os, i) == Advance;
    }
  }

  /** So a gateway that draws its cursors from N values is asked for at most N*g + 1 pages, whatever it answers. */
  lemma PagesAreBounded(l: Limits, os: seq<Observation>, cursors: set<string>)
    requires l.cursorStallGuard > 0 && RunsOn(l, os)
    requires forall i :: 0 <= i < |os| ==> os[i].next in cursors
    ensures |os| <= |cursors| * l.cursorStallGuard + 1
  {
    if os != [] {
      var front := os[..|os| - 1];
      AdvancingPart(l, os);
      AdvancesAreCounted(l, front);
      NextsAreMembers(front, cursors);
      PigeonHole(Nexts(front), cursors, l.cursorStallGuard);
    }
  }

  lemma {:induction false} NextsAreMembers(os: seq<Observation>, cursors: set<string>)
    requires forall i :: 0 <= i < |os| ==> os[i].next in cursors
    ensures forall c :: c in Nexts(os) ==> c in cursors
  {
    if os != [] {
      NextsAreMembers(os[..|os| - 1], cursors);
    }
  }

  lemma {:induction false} EmptyPagesAreCounted(l: Limits, os: seq<Observation>, k: nat)
    requires k <= |os| && forall i :: |os| - k <= i < |os| ==> os[i].items == 0
    ensures MemoryAfter(l, os).emptyPages >= k
  {
    if k > 0 {
      EmptyPagesAreCounted(l, os[..|os| - 1], k - 1);
    }
  }

  /** With an empty limit e, any e consecutive empty pages end the scan. */
  lemma EmptyRunEndsScan(l: Limits, os: seq<Observation>, from: nat)
    requires l.maxEmptyPages > 0 && RunsOn(l, os)
    requires from + l.maxEmptyPages <= |os|
    requires forall i :: from <= i < from + l.maxEmptyPages ==> os[i].items == 0
    ensures from + l.maxEmptyPages == |os|
  {
    var last := from + l.maxEmptyPages - 1;
    EmptyPagesAreCounted(l, os[..last], l.maxEmptyPages - 1);
    assert DecisionAt(l, os, last) != Advance;
  }
}
