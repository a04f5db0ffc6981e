/** `SweepBoundariesCommand` as the program it is: read the window, publish each promotion in
    it, and only then advance the mark, with anything else in the system stepping in between
    and a throw possible at each statement. */
module SweepCommand {
  import opened ProductStore
  import opened BoundarySweep

  /** What others do before the `k`-th statement of this sweep, which statements throw, and
      the rows the query answers with, in whatever order. */
  datatype World = World(others: nat -> seq<Action>, faults: nat -> bool,
                         query: (map<nat, Row>, nat, nat) -> seq<nat>)

  predicate ByOthers(r: nat, acts: seq<Action>) {
    forall k :: 0 <= k < |acts| ==> ByOther(r, acts[k])
  }

  predicate ByOther(r: nat, a: Action) {
    a.SetClock? || a.Show? || a.Assign? || a.Cancel? || a.r != r
  }

  ghost predicate Fits(world: World, r: nat) {
    && (forall k: nat :: ByOthers(r, world.others(k)))
    && forall rows: map<nat, Row>, since: nat, end: nat :: IsSelection(rows, since, end, world.query(rows, since, end))
  }

  lemma StepLeavesSweep(s: State, r: nat, a: Action)
    requires ByOther(r, a)
    ensures r in Step(s, a).sweeps <==> r in s.sweeps
    ensures r in s.sweeps ==> Step(s, a).sweeps[r] == s.sweeps[r]
    ensures s.acked <= Step(s, a).acked
  {
  }

  lemma {:induction false} OthersLeaveSweep(s: State, r: nat, acts: seq<Action>)
    requires ByOthers(r, acts)
    ensures r in Run(s, acts).sweeps <==> r in s.sweeps
    ensures r in s.sweeps ==> Run(s, acts).sweeps[r] == s.sweeps[r]
    ensures s.acked <= Run(s, acts).acked
    decreases |acts|
  {
    if acts != [] {
      var init, last := acts[..|acts| - 1], acts[|acts| - 1];
      assert acts == init + [last];
      OthersLeaveSweep(s, r, init);
      StepLeavesSweep(Run(s, init), r, last);
    }
  }

  lemma {:induction false} RunConcat(s: State, left: seq<Action>, right: seq<Action>)
    ensures Run(s, left + right) == Run(Run(s, left), right)
    decreases |right|
  {
    if right == [] {
      assert left + right == left;
    } else {
      var init := right[..|right| - 1];
      RunConcat(s, left, init);
      assert (left + right)[..|left + right| - 1] == left + init;
    }
  }

  lemma RunSnoc(s: State, acts: seq<Action>, a: Action)
    ensures Run(s, acts + [a]) == Step(Run(s, acts), a)
  {
    assert (acts + [a])[..|acts|] == acts;
  }

  /** The mark, the promotions and the queue. `trace` is how they got here. */
  class Reconciler {
    ghost const start: State
    ghost var trace: seq<Action>
    var now: nat
    var first: nat
    var mark: nat
    var rows: map<nat, Row>
    var sweeps: map<nat, Sweep>
    var windows: seq<Window>
    var acked: set<(nat, Window)>

    function Snapshot(): State
      reads this
    {
      State(now, first, mark, rows, sweeps, windows, acked)
    }

    ghost predicate Valid()
      reads this
    {
      Fresh(start) && Snapshot() == Run(start, trace)
    }

    constructor (s: State)
      requires Fresh(s)
      ensures Valid() && start == s && trace == []
    {
      start, trace := s, [];
      now, first, mark, rows, sweeps, windows, acked := s.now, s.first, s.mark, s.rows, s.sweeps, s.windows, s.acked;
    }

    method Meanwhile(world: World, k: nat, ghost r: nat) returns (fault: bool)
      requires Valid() && Fits(world, r)
      modifies this
      ensures Valid() && fault == world.faults(k) && old(acked) <= acked
      ensures (r in sweeps <==> r in old(sweeps)) && (r in sweeps ==> sweeps[r] == old(sweeps[r]))
    {
      var acts := world.others(k);
      fault := world.faults(k);
      OthersLeaveSweep(Snapshot(), r, acts);
      RunConcat(start, trace, acts);
      var t := Run(Snapshot(), acts);
      now, first, mark, rows, sweeps, windows, acked := t.now, t.first, t.mark, t.rows, t.sweeps, t.windows, t.acked;
      trace := trace + acts;
    }

    /** Both ends of the window come from one statement. */
    method ReadBounds(r: nat) returns (since: nat, windowEnd: nat)
      requires Valid() && r !in sweeps
      modifies this`sweeps, this`trace
      ensures Valid() && r in sweeps && sweeps[r] == Begun(now, mark)
      ensures since == mark && windowEnd == WindowEnd(now, mark)
    {
      RunSnoc(start, trace, Bounds(r));
      trace := trace + [Bounds(r)];
      since, windowEnd := mark, WindowEnd(now, mark);
      sweeps := sweeps[r := Begun(now, mark)];
    }

    method SelectRows(r: nat, since: nat, windowEnd: nat, world: World) returns (ids: seq<nat>)
      requires Valid() && Fits(world, r) && In(Snapshot(), r, Bounded)
      requires sweeps[r].since == since && sweeps[r].end == windowEnd
      modifies this`sweeps, this`trace
      ensures Valid() && In(Snapshot(), r, Publishing) && sweeps[r].todo == ids
    {
      ids := world.query(rows, since, windowEnd);
      RunSnoc(start, trace, Select(r, ids));
      trace := trace + [Select(r, ids)];
      sweeps := sweeps[r := sweeps[r].(phase := Publishing, todo := ids)];
    }

    method CrossedSince(r: nat, world: World) returns (found: Option<seq<nat>>)
      requires Valid() && Fits(world, r) && r !in sweeps
      modifies this
      ensures Valid() && r in sweeps && (found.None? ==> world.faults(0))
      ensures found.Some? ==> sweeps[r].phase == Publishing && sweeps[r].todo == found.value
    {
      var since, windowEnd := ReadBounds(r);
      if windowEnd <= since { return Some([]); }
      var fault := Meanwhile(world, 0, r);
      if fault { return None; }
      var ids := SelectRows(r, since, windowEnd, world);
      found := Some(ids);
    }

    method PublishOne(r: nat, id: nat)
      requires Valid() && In(Snapshot(), r, Publishing) && sweeps[r].todo != [] && sweeps[r].todo[0] == id
      modifies this`sweeps, this`acked, this`trace
      ensures Valid() && Snapshot() == DoPublish(old(Snapshot()), r)
    {
      RunSnoc(start, trace, Publish(r));
      trace := trace + [Publish(r)];
      acked := acked + {(id, Window(sweeps[r].since, sweeps[r].end))};
      sweeps := sweeps[r := sweeps[r].(todo := sweeps[r].todo[1..])];
    }

    /** Compare-and-set: the mark moves only if it is still what this sweep read. */
    method AdvanceMark(r: nat) returns (moved: bool)
      requires Valid() && In(Snapshot(), r, Publishing) && sweeps[r].todo == []
      modifies this`mark, this`windows, this`sweeps, this`trace
      ensures Valid() && Snapshot() == DoAdvance(old(Snapshot()), r) && trace == old(trace) + [Advance(r)]
      ensures moved == (old(mark) == old(sweeps)[r].since)
    {
      RunSnoc(start, trace, Advance(r));
      trace := trace + [Advance(r)];
      var sweep := sweeps[r];
      moved := mark == sweep.since;
      if moved {
        mark, windows := sweep.end, windows + [Window(sweep.since, sweep.end)];
      }
      sweeps := sweeps[r := sweep.(phase := Ended)];
    }

    method Abandon(r: nat)
      requires Valid() && r in sweeps
      modifies this`sweeps, this`trace
      ensures Valid() && sweeps == old(sweeps)[r := old(sweeps)[r].(phase := Ended)]
    {
      RunSnoc(start, trace, Fail(r));
      trace := trace + [Fail(r)];
      sweeps := sweeps[r := sweeps[r].(phase := Ended)];
    }

    /** One sweep by reconciler `r`. Every path through it is a run of the machine; it returns
        only with everything it found acknowledged for its window, and how many that was. */
    method Execute(r: nat, world: World) returns (repaired: Option<nat>, ghost promotionIds: seq<nat>)
      requires Valid() && Fits(world, r) && r !in sweeps
      modifies this
      ensures Valid() && In(Snapshot(), r, Ended)
      ensures repaired.None? ==> exists k: nat :: world.faults(k)
      ensures repaired.Some? ==> trace != [] && trace[|trace| - 1] == Advance(r)
      ensures repaired.Some? ==>
                && repaired.value == |promotionIds| && sweeps[r].todo == []
                && forall k :: 0 <= k < |promotionIds| ==> (promotionIds[k], Window(sweeps[r].since, sweeps[r].end)) in acked
    {
      promotionIds := [];
      var found := CrossedSince(r, world);
      if found.None? { Abandon(r); return None, []; }
      var ids := found.value;
      promotionIds := ids;
      var fault := PublishAll(r, ids, world);
      if !fault { fault := Meanwhile(world, |ids| + 1, r); }
      if fault { Abandon(r); return None, ids; }
      var _ := AdvanceMark(r);
      repaired := Some(|ids|);
    }

    /** Everything found, one publish at a time, until one fails. */
    method PublishAll(r: nat, ids: seq<nat>, world: World) returns (fault: bool)
      requires Valid() && Fits(world, r) && In(Snapshot(), r, Publishing) && sweeps[r].todo == ids
      modifies this
      ensures Valid() && r in sweeps && (fault ==> exists k: nat :: world.faults(k))
      ensures !fault ==>
                && sweeps[r] == old(sweeps[r]).(todo := [])
                && forall j :: 0 <= j < |ids| ==> (ids[j], Window(sweeps[r].since, sweeps[r].end)) in acked
    {
      ghost var sweep := sweeps[r];
      ghost var w := Window(sweep.since, sweep.end);
      assert ids[0..] == ids;
      for k := 0 to |ids|
        invariant Valid() && r in sweeps && sweeps[r] == sweep.(todo := ids[k..])
        invariant forall j :: 0 <= j < k ==> (ids[j], w) in acked
      {
        fault := Meanwhile(world, k + 1, r);
        if fault { return; }
        assert ids[k..][1..] == ids[k + 1..];
        PublishOne(r, ids[k]);
      }
      fault := false;
    }
  }
}
