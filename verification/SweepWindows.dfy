/** What a sweep looks at and what it announces, in columns: the window it takes, what the
    writes beside it may do to a promotion, and that nothing is announced without cause. */
module SweepWindows {
  import opened BoundarySweep

  /** The window a sweep begins with: none if nothing has come 30 seconds to rest, and
      otherwise from the mark up to 30 seconds ago, to the millisecond, an hour at most. */
  lemma WindowIsLagged(s: State, r: nat)
    requires r !in s.sweeps
    ensures var t := Step(s, Bounds(r));
            && r in t.sweeps && t.sweeps[r].since == s.mark && t.mark == s.mark
            && var end := t.sweeps[r].end;
               && s.mark <= end <= s.mark + 3_600_000_000
               && (s.mark < end ==> end + 30_000_000 <= s.now && end % 1_000 == 0 && t.sweeps[r].phase == Bounded)
               && (s.mark < end ==> s.now < end + 1_000 + 30_000_000 || s.mark + 3_600_000_000 < end + 1_000)
               && (end == s.mark ==> t.sweeps[r].phase == Publishing && t.sweeps[r].todo == [])
               && (s.mark + 30_001_000 <= s.now ==> s.mark < end)
  {
    var end := WindowEnd(s.now, s.mark);
  }

  /** What a step may do to a promotion: it keeps its start, end and creation instants, shows
      from the step on that makes it other than a draft, and keeps its first cancellation. */
  lemma RowsLive(s: State, a: Action, id: nat)
    requires id in s.rows
    ensures var row, t := s.rows[id], Step(s, a);
            && id in t.rows
            && t.rows[id].startsAt == row.startsAt && t.rows[id].endsAt == row.endsAt && t.rows[id].createdAt == row.createdAt
            && (!row.draft ==> !t.rows[id].draft && t.rows[id].shownAt == row.shownAt)
            && (row.draft && !t.rows[id].draft ==> t.rows[id].shownAt == s.now)
            && (row.cancelledAt.Some? ==> t.rows[id].cancelledAt == row.cancelledAt && t.rows[id].cancelShownAt == row.cancelShownAt)
            && (row.cancelledAt.None? && t.rows[id].cancelledAt.Some? ==>
                  t.rows[id].cancelShownAt == s.now && !t.rows[id].draft && a == Cancel(id, t.rows[id].cancelledAt.value))
  {
  }

  /** The promotion has crossed one of its instants inside the window. */
  predicate Crossed(row: Row, w: Window) {
    && !row.draft
    && (w.since < row.startsAt <= w.end || w.since < row.endsAt <= w.end || w.since < row.createdAt <= w.end
        || (row.cancelledAt.Some? && w.since < row.cancelledAt.value <= w.end))
  }

  /** What is to be published, and what was, crossed its window. */
  ghost predicate OnlyCrossed(s: State) {
    && (forall r, k :: r in s.sweeps && 0 <= k < |s.sweeps[r].todo| ==>
          s.sweeps[r].todo[k] in s.rows && Crossed(s.rows[s.sweeps[r].todo[k]], Window(s.sweeps[r].since, s.sweeps[r].end)))
    && forall id, w :: (id, w) in s.acked ==> id in s.rows && Crossed(s.rows[id], w)
  }

  lemma RowsCrossed(s: State, a: Action)
    requires OnlyCrossed(s) && (a.SetClock? || a.Show? || a.Assign? || a.Cancel?)
    ensures OnlyCrossed(Step(s, a))
  {
    var t := Step(s, a);
    assert t.sweeps == s.sweeps && t.acked == s.acked;
    forall id, w | id in s.rows && Crossed(s.rows[id], w) ensures id in t.rows && Crossed(t.rows[id], w) { RowsLive(s, a, id); }
  }

  lemma SweepsCrossed(s: State, a: Action)
    requires OnlyCrossed(s) && !(a.SetClock? || a.Show? || a.Assign? || a.Cancel?)
    ensures OnlyCrossed(Step(s, a))
  {
  }

  /** No sweep announces a promotion that crossed nothing: whatever was acknowledged for a
      window has an instant in it. */
  lemma {:induction false} SweptOnlyCrossed(s: State, acts: seq<Action>)
    requires OnlyCrossed(s)
    ensures OnlyCrossed(Run(s, acts))
    decreases |acts|
  {
    if acts != [] {
      var init, a := acts[..|acts| - 1], acts[|acts| - 1];
      SweptOnlyCrossed(s, init);
      if a.SetClock? || a.Show? || a.Assign? || a.Cancel? { RowsCrossed(Run(s, init), a); } else { SweepsCrossed(Run(s, init), a); }
    }
  }
}
