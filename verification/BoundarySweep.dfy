/** The reconciler's sweep of promotion boundaries: a watermark moved by compare-and-set over
    half-open windows, by any number of reconcilers, while promotions come and go and some
    publishes fail. Instants are microseconds. */
module BoundarySweep {
  import opened ProductStore

  const COMMIT_LAG := 30_000_000
  const MAX_WINDOW := 3_600_000_000
  const MILLISECOND := 1_000

  /** A promotion as other sessions see it. `shownAt` and `cancelShownAt` are history: when it
      first showed as something other than a draft, and when it first showed as cancelled. */
  datatype Row = Row(startsAt: nat, endsAt: nat, createdAt: nat, draft: bool, shownAt: nat,
                     cancelledAt: Option<nat>, cancelShownAt: nat)

  /** `at` is an instant the sweep looks for, and it has shown since `shown`. */
  predicate IsBoundary(row: Row, at: nat, shown: nat) {
    !row.draft &&
    ((shown == row.shownAt && (at == row.startsAt || at == row.endsAt || at == row.createdAt))
     || (shown == row.cancelShownAt && row.cancelledAt == Some(at)))
  }

  predicate Within(at: nat, since: nat, end: nat) { since < at <= end }

  /** The query's filter. */
  predicate Matches(row: Row, since: nat, end: nat) {
    && !row.draft
    && (Within(row.startsAt, since, end) || Within(row.endsAt, since, end)
        || (row.cancelledAt.Some? && Within(row.cancelledAt.value, since, end)) || Within(row.createdAt, since, end))
  }

  datatype Phase = Bounded | Publishing | Ended

  /** One sweep: the window it read, when it read it, and what it has still to publish. */
  datatype Sweep = Sweep(phase: Phase, since: nat, end: nat, begunAt: nat, todo: seq<nat>)

  datatype Window = Window(since: nat, end: nat)

  /** `windows` and `acked` are history: the windows whose advance won, and every publish
      that was acknowledged, with the window it was made for. */
  datatype State = State(now: nat, first: nat, mark: nat, rows: map<nat, Row>, sweeps: map<nat, Sweep>,
                         windows: seq<Window>, acked: set<(nat, Window)>)

  datatype Action =
    | SetClock(now: nat)
    | Show(id: nat, startsAt: nat, endsAt: nat, createdAt: nat, draft: bool)
    | Assign(id: nat)
    | Cancel(id: nat, at: nat)
    | Bounds(r: nat)
    | Select(r: nat, ids: seq<nat>)
    | Publish(r: nat)
    | Fail(r: nat)
    | Advance(r: nat)

  /** A JavaScript date keeps milliseconds, so the end is truncated; the mark already is. */
  function WindowEnd(now: nat, since: nat): (end: nat)
    ensures end % MILLISECOND == 0 && (end == 0 || end + COMMIT_LAG <= now) && end <= since + MAX_WINDOW
    ensures now < end + MILLISECOND + COMMIT_LAG || since + MAX_WINDOW < end + MILLISECOND
  {
    var lagged := if now < COMMIT_LAG then 0 else now - COMMIT_LAG;
    var end := if lagged < since + MAX_WINDOW then lagged else since + MAX_WINDOW;
    end / MILLISECOND * MILLISECOND
  }

  /** A window that would end before it starts is empty, so the mark is never moved back. */
  function Begun(now: nat, mark: nat): Sweep {
    var end := WindowEnd(now, mark);
    if end <= mark then Sweep(Publishing, mark, mark, now, []) else Sweep(Bounded, mark, end, now, [])
  }

  predicate In(s: State, r: nat, phase: Phase) { r in s.sweeps && s.sweeps[r].phase == phase }

  predicate IsSelection(rows: map<nat, Row>, since: nat, end: nat, ids: seq<nat>) {
    && (forall k :: 0 <= k < |ids| ==> ids[k] in rows && Matches(rows[ids[k]], since, end))
    && (forall id :: id in rows && Matches(rows[id], since, end) ==> id in ids)
  }

  function WithSweep(s: State, r: nat, sweep: Sweep): State {
    s.(sweeps := s.sweeps[r := sweep])
  }

  function DoPublish(s: State, r: nat): State {
    if !In(s, r, Publishing) || s.sweeps[r].todo == [] then s
    else
      var sweep := s.sweeps[r];
      WithSweep(s, r, sweep.(todo := sweep.todo[1..])).(acked := s.acked + {(sweep.todo[0], Window(sweep.since, sweep.end))})
  }

  /** Compare-and-set: a sweep that lost the mark leaves it, and its window is read again. */
  function DoAdvance(s: State, r: nat): State {
    if !In(s, r, Publishing) || s.sweeps[r].todo != [] then s
    else
      var sweep := s.sweeps[r];
      var t := WithSweep(s, r, sweep.(phase := Ended));
      if s.mark != sweep.since then t
      else t.(mark := sweep.end, windows := s.windows + [Window(sweep.since, sweep.end)])
  }

  function Step(s: State, a: Action): State {
    match a
    case SetClock(now) => s.(now := now)
    case Show(id, startsAt, endsAt, createdAt, draft) =>
      if id in s.rows then s else s.(rows := s.rows[id := Row(startsAt, endsAt, createdAt, draft, s.now, None, 0)])
    case Assign(id) =>
      if id in s.rows && s.rows[id].draft then s.(rows := s.rows[id := s.rows[id].(draft := false, shownAt := s.now)]) else s
    case Cancel(id, at) =>
      if id !in s.rows || s.rows[id].cancelledAt.Some? then s
      else
        var row := s.rows[id];
        s.(rows := s.rows[id := row.(draft := false, shownAt := if row.draft then s.now else row.shownAt,
                                     cancelledAt := Some(at), cancelShownAt := s.now)])
    case Bounds(r) => if r in s.sweeps then s else WithSweep(s, r, Begun(s.now, s.mark))
    case Select(r, ids) =>
      if In(s, r, Bounded) && IsSelection(s.rows, s.sweeps[r].since, s.sweeps[r].end, ids)
      then WithSweep(s, r, s.sweeps[r].(phase := Publishing, todo := ids)) else s
    case Publish(r) => DoPublish(s, r)
    case Fail(r) => if r in s.sweeps then WithSweep(s, r, s.sweeps[r].(phase := Ended)) else s
    case Advance(r) => DoAdvance(s, r)
  }

  function Run(s: State, acts: seq<Action>): State {
    if acts == [] then s else Step(Run(s, acts[..|acts| - 1]), acts[|acts| - 1])
  }

  predicate Fresh(s: State) {
    s.mark == s.first && s.rows == map[] && s.sweeps == map[] && s.windows == [] && s.acked == {}
  }

  /** Each window starts where the one before it ended, and reaches an hour at most. */
  predicate Contiguous(from: nat, upTo: nat, windows: seq<Window>)
    decreases |windows|
  {
    if windows == [] then from == upTo
    else
      var last := windows[|windows| - 1];
      && last.end == upTo && last.since <= last.end <= last.since + MAX_WINDOW
      && Contiguous(from, last.since, windows[..|windows| - 1])
  }

  predicate MarkOk(s: State) {
    && Contiguous(s.first, s.mark, s.windows)
    && forall r :: r in s.sweeps ==> s.sweeps[r].since <= s.sweeps[r].end <= s.sweeps[r].since + MAX_WINDOW
  }

  lemma AdvanceMarks(s: State, r: nat)
    requires MarkOk(s)
    ensures MarkOk(DoAdvance(s, r)) && s.mark <= DoAdvance(s, r).mark && s.windows <= DoAdvance(s, r).windows
  {
    if In(s, r, Publishing) {
      var w := Window(s.sweeps[r].since, s.sweeps[r].end);
      assert (s.windows + [w])[..|s.windows|] == s.windows;
    }
  }

  lemma SweepsMark(s: State, r: nat, sweep: Sweep)
    requires MarkOk(s) && sweep.since <= sweep.end <= sweep.since + MAX_WINDOW
    ensures MarkOk(WithSweep(s, r, sweep))
  {
  }

  lemma StepMarks(s: State, a: Action)
    requires MarkOk(s)
    ensures MarkOk(Step(s, a)) && Step(s, a).first == s.first
    ensures s.mark <= Step(s, a).mark && s.windows <= Step(s, a).windows
  {
    match a
    case Advance(r) => AdvanceMarks(s, r);
    case Bounds(r) => BegunOk(s); SweepsMark(s, r, Begun(s.now, s.mark));
    case Select(r, ids) => if r in s.sweeps { SweepsMark(s, r, s.sweeps[r].(phase := Publishing, todo := ids)); }
    case Publish(r) => PublishMarks(s, r);
    case Fail(r) => if r in s.sweeps { SweepsMark(s, r, s.sweeps[r].(phase := Ended)); }
    case SetClock(_) =>
    case Show(_, _, _, _, _) =>
    case Assign(_) =>
    case Cancel(_, _) =>
  }

  lemma PublishMarks(s: State, r: nat)
    requires MarkOk(s)
    ensures MarkOk(DoPublish(s, r)) && DoPublish(s, r).mark == s.mark && DoPublish(s, r).windows == s.windows
    ensures DoPublish(s, r).first == s.first
  {
  }

  /** Whatever the clock does, whoever loses the compare-and-set and whatever fails, the
      windows swept run on from the first mark without a gap or an overlap, and the mark
      never goes back. */
  lemma {:induction false} MarkNeverGoesBack(s: State, acts: seq<Action>)
    requires MarkOk(s)
    ensures MarkOk(Run(s, acts)) && Run(s, acts).first == s.first
    ensures s.mark <= Run(s, acts).mark && s.windows <= Run(s, acts).windows
    decreases |acts|
  {
    if acts != [] {
      MarkNeverGoesBack(s, acts[..|acts| - 1]);
      StepMarks(Run(s, acts[..|acts| - 1]), acts[|acts| - 1]);
    }
  }

  /** The clock never steps back in this run. */
  predicate Forward(s: State, acts: seq<Action>)
    decreases |acts|
  {
    acts == [] ||
    (var init, last := acts[..|acts| - 1], acts[|acts| - 1];
     Forward(s, init) && (last.SetClock? ==> Run(s, init).now <= last.now))
  }

  /** The boundary showed within the lag a writer can hold it uncommitted. */
  predicate Prompt(at: nat, shown: nat) { shown < at + COMMIT_LAG }

  ghost predicate RowsOk(now: nat, rows: map<nat, Row>) {
    forall id :: id in rows ==>
      rows[id].shownAt <= now && rows[id].cancelShownAt <= now && (rows[id].draft ==> rows[id].cancelledAt.None?)
  }

  /** Whatever this sweep has to publish before it may advance, among what showed before it
      read its bounds. */
  ghost predicate SweepOk(now: nat, rows: map<nat, Row>, acked: set<(nat, Window)>, sweep: Sweep) {
    && sweep.begunAt <= now && (sweep.since < sweep.end ==> sweep.end + COMMIT_LAG <= sweep.begunAt)
    && (sweep.phase == Publishing ==>
          forall id: nat, at: nat, shown: nat ::
            id in rows && IsBoundary(rows[id], at, shown) && Within(at, sweep.since, sweep.end) && shown < sweep.begunAt ==>
            id in sweep.todo || (id, Window(sweep.since, sweep.end)) in acked)
  }

  /** Every prompt boundary in the window was acknowledged for it. */
  ghost predicate Swept(rows: map<nat, Row>, acked: set<(nat, Window)>, w: Window) {
    forall id: nat, at: nat, shown: nat ::
      id in rows && IsBoundary(rows[id], at, shown) && Within(at, w.since, w.end) && Prompt(at, shown) ==>
      (id, w) in acked
  }

  ghost predicate WindowOk(now: nat, rows: map<nat, Row>, acked: set<(nat, Window)>, w: Window) {
    (w.since < w.end ==> w.end + COMMIT_LAG <= now) && Swept(rows, acked, w)
  }

  ghost predicate Inv(s: State) {
    && RowsOk(s.now, s.rows)
    && (forall r :: r in s.sweeps ==> SweepOk(s.now, s.rows, s.acked, s.sweeps[r]))
    && (forall k :: 0 <= k < |s.windows| ==> WindowOk(s.now, s.rows, s.acked, s.windows[k]))
  }

  /** Rows that differ only in boundaries that show from now on. */
  ghost predicate OnlyNew(now: nat, before: map<nat, Row>, after: map<nat, Row>) {
    forall id: nat, at: nat, shown: nat :: id in after && IsBoundary(after[id], at, shown) ==>
      shown == now || (id in before && IsBoundary(before[id], at, shown))
  }

  lemma NewRowsKeep(s: State, rows: map<nat, Row>)
    requires Inv(s) && RowsOk(s.now, rows) && OnlyNew(s.now, s.rows, rows)
    ensures Inv(s.(rows := rows))
  {
    forall r | r in s.sweeps ensures SweepOk(s.now, rows, s.acked, s.sweeps[r]) {
      assert SweepOk(s.now, s.rows, s.acked, s.sweeps[r]);
    }
    forall k | 0 <= k < |s.windows| ensures WindowOk(s.now, rows, s.acked, s.windows[k]) {
      assert WindowOk(s.now, s.rows, s.acked, s.windows[k]);
    }
  }

  lemma SweepMoves(s: State, r: nat, sweep: Sweep, acked: set<(nat, Window)>)
    requires Inv(s) && s.acked <= acked && SweepOk(s.now, s.rows, acked, sweep)
    ensures Inv(WithSweep(s, r, sweep).(acked := acked))
  {
    forall q | q in s.sweeps ensures SweepOk(s.now, s.rows, acked, s.sweeps[q]) {
      assert SweepOk(s.now, s.rows, s.acked, s.sweeps[q]);
    }
    forall k | 0 <= k < |s.windows| ensures WindowOk(s.now, s.rows, acked, s.windows[k]) {
      assert WindowOk(s.now, s.rows, s.acked, s.windows[k]);
    }
  }

  lemma SelectionCovers(s: State, sweep: Sweep, ids: seq<nat>)
    requires SweepOk(s.now, s.rows, s.acked, sweep) && IsSelection(s.rows, sweep.since, sweep.end, ids)
    ensures SweepOk(s.now, s.rows, s.acked, sweep.(phase := Publishing, todo := ids))
  {
    forall id: nat, at: nat, shown: nat | id in s.rows && IsBoundary(s.rows[id], at, shown) && Within(at, sweep.since, sweep.end)
      ensures id in ids
    {
      assert Matches(s.rows[id], sweep.since, sweep.end);
    }
  }

  lemma PublishKeeps(s: State, r: nat)
    requires Inv(s)
    ensures Inv(DoPublish(s, r))
  {
    if In(s, r, Publishing) && s.sweeps[r].todo != [] {
      var sweep := s.sweeps[r];
      var head := (sweep.todo[0], Window(sweep.since, sweep.end));
      var acked := s.acked + {head};
      assert SweepOk(s.now, s.rows, s.acked, sweep);
      assert forall id :: id in sweep.todo ==> id == sweep.todo[0] || id in sweep.todo[1..];
      SweepMoves(s, r, sweep.(todo := sweep.todo[1..]), acked);
    }
  }

  lemma AdvanceKeeps(s: State, r: nat)
    requires Inv(s)
    ensures Inv(DoAdvance(s, r))
  {
    if In(s, r, Publishing) && s.sweeps[r].todo == [] {
      var sweep := s.sweeps[r];
      assert SweepOk(s.now, s.rows, s.acked, sweep);
      SweepMoves(s, r, sweep.(phase := Ended), s.acked);
      var w := Window(sweep.since, sweep.end);
      assert Swept(s.rows, s.acked, w);
      forall k | 0 <= k < |s.windows + [w]| ensures WindowOk(s.now, s.rows, s.acked, (s.windows + [w])[k]) {
        if k < |s.windows| { assert WindowOk(s.now, s.rows, s.acked, s.windows[k]); }
      }
    }
  }

  lemma StepKeeps(s: State, a: Action)
    requires Inv(s) && (a.SetClock? ==> s.now <= a.now)
    ensures Inv(Step(s, a))
  {
    match a
    case SetClock(now) => ClockKeeps(s, now);
    case Show(_, _, _, _, _) => NewRowsKeep(s, Step(s, a).rows);
    case Assign(_) => NewRowsKeep(s, Step(s, a).rows);
    case Cancel(_, _) => NewRowsKeep(s, Step(s, a).rows);
    case Bounds(r) => if r !in s.sweeps { BegunOk(s); SweepMoves(s, r, Begun(s.now, s.mark), s.acked); }
    case Select(r, ids) =>
      if In(s, r, Bounded) && IsSelection(s.rows, s.sweeps[r].since, s.sweeps[r].end, ids) {
        SelectionCovers(s, s.sweeps[r], ids);
        SweepMoves(s, r, s.sweeps[r].(phase := Publishing, todo := ids), s.acked);
      }
    case Publish(r) => PublishKeeps(s, r);
    case Fail(r) => if r in s.sweeps { SweepMoves(s, r, s.sweeps[r].(phase := Ended), s.acked); }
    case Advance(r) => AdvanceKeeps(s, r);
  }

  lemma ClockKeeps(s: State, now: nat)
    requires Inv(s) && s.now <= now
    ensures Inv(s.(now := now))
  {
    forall r | r in s.sweeps ensures SweepOk(now, s.rows, s.acked, s.sweeps[r]) {
      assert SweepOk(s.now, s.rows, s.acked, s.sweeps[r]);
    }
    forall k | 0 <= k < |s.windows| ensures WindowOk(now, s.rows, s.acked, s.windows[k]) {
      assert WindowOk(s.now, s.rows, s.acked, s.windows[k]);
    }
  }

  lemma BegunOk(s: State)
    ensures var sweep := Begun(s.now, s.mark);
            SweepOk(s.now, s.rows, s.acked, sweep) && sweep.since <= sweep.end <= sweep.since + MAX_WINDOW
  {
    var end := WindowEnd(s.now, s.mark);
    assert end <= if s.now < COMMIT_LAG then 0 else s.now - COMMIT_LAG;
  }

  lemma {:induction false} RunKeeps(s: State, acts: seq<Action>)
    requires Inv(s) && Forward(s, acts)
    ensures Inv(Run(s, acts))
    decreases |acts|
  {
    if acts != [] {
      RunKeeps(s, acts[..|acts| - 1]);
      StepKeeps(Run(s, acts[..|acts| - 1]), acts[|acts| - 1]);
    }
  }

  /** Contiguous windows leave no instant out. */
  lemma {:induction false} WindowHolding(from: nat, upTo: nat, windows: seq<Window>, at: nat) returns (k: nat)
    requires Contiguous(from, upTo, windows) && from < at <= upTo
    ensures k < |windows| && Within(at, windows[k].since, windows[k].end)
    decreases |windows|
  {
    var last := windows[|windows| - 1];
    if last.since < at {
      k := |windows| - 1;
    } else {
      k := WindowHolding(from, last.since, windows[..|windows| - 1], at);
    }
  }

  /** A promotion's instant, and since when it has shown: its start, its end and its creation
      from when it first showed as other than a draft, a cancellation from when that showed. */
  predicate ShownPromptly(row: Row, at: nat) {
    && !row.draft
    && ((at in [row.startsAt, row.endsAt, row.createdAt] && row.shownAt < at + 30_000_000)
        || (row.cancelledAt == Some(at) && row.cancelShownAt < at + 30_000_000))
  }

  /** Every instant the mark has passed, of a promotion that showed it within 30 seconds, had
      that promotion's publish acknowledged for the window that passed it; in every reachable
      state, so before the mark moved past. */
  lemma {:induction false} SweepCovers(s0: State, acts: seq<Action>, id: nat, at: nat)
    requires Fresh(s0) && Forward(s0, acts)
    requires var s := Run(s0, acts);
             id in s.rows && ShownPromptly(s.rows[id], at) && s0.first < at <= s.mark
    ensures var s := Run(s0, acts);
            exists w :: w in s.windows && w.since < at <= w.end && (id, w) in s.acked
  {
    RunKeeps(s0, acts);
    MarkNeverGoesBack(s0, acts);
    var s := Run(s0, acts);
    var row := s.rows[id];
    var shown := if at in [row.startsAt, row.endsAt, row.createdAt] && row.shownAt < at + 30_000_000
                 then row.shownAt else row.cancelShownAt;
    assert IsBoundary(row, at, shown) && Prompt(at, shown);
    var k := WindowHolding(s.first, s.mark, s.windows, at);
    assert WindowOk(s.now, s.rows, s.acked, s.windows[k]);
    assert s.windows[k] in s.windows;
  }

  lemma {:induction false} WindowsAscend(from: nat, mark: nat, windows: seq<Window>, upTo: nat, later: seq<Window>)
    requires Contiguous(from, mark, windows) && Contiguous(from, upTo, later) && windows <= later
    ensures forall k :: |windows| <= k < |later| ==> mark <= later[k].since
    ensures mark <= upTo
    decreases |later|
  {
    if |windows| < |later| {
      var init := later[..|later| - 1];
      assert windows <= init;
      WindowsAscend(from, mark, windows, later[|later| - 1].since, init);
    } else {
      assert later == windows;
    }
  }

  /** An instant the mark has passed is in no later window: a promotion assigned after the
      sweep went by its start has that start announced by no sweep, whatever happens. */
  lemma LateAssignIsNotSwept(s0: State, before: seq<Action>, id: nat, after: seq<Action>)
    requires Fresh(s0)
    requires var s := Run(s0, before); id in s.rows && s.rows[id].draft && s.rows[id].startsAt <= s.mark
    ensures var s := Run(s0, before);
            var t := Step(s, Assign(id));
            var u := Run(t, after);
            && IsBoundary(t.rows[id], s.rows[id].startsAt, s.now)
            && s.windows <= u.windows
            && forall k :: |s.windows| <= k < |u.windows| ==> !Within(s.rows[id].startsAt, u.windows[k].since, u.windows[k].end)
  {
    var s := Run(s0, before);
    MarkNeverGoesBack(s0, before);
    MarkNeverGoesBack(Step(s, Assign(id)), after);
    var u := Run(Step(s, Assign(id)), after);
    WindowsAscend(s.first, s.mark, s.windows, u.mark, u.windows);
  }

  /** The sweep that holds the mark has already selected, and its window reaches past `at`:
      it is about to move the mark past an instant it did not see. */
  predicate Passing(s: State, at: nat) {
    exists r :: r in s.sweeps && Blind(s.mark, s.sweeps[r], at)
  }

  predicate Blind(mark: nat, sweep: Sweep, at: nat) {
    sweep.phase == Publishing && sweep.since == mark && Within(at, sweep.since, sweep.end)
  }

  /** The instant was acknowledged for the window that passed it. */
  ghost predicate Covered(s: State, id: nat, at: nat) {
    exists w :: w in s.windows && Within(at, w.since, w.end) && (id, w) in s.acked
  }

  /** An instant of a promotion that shows now, and how the sweep stands to it: once passed
      it was acknowledged, and until then the sweep holding the mark will not miss it. */
  ghost predicate InSight(s: State, id: nat, at: nat) {
    && id in s.rows && !s.rows[id].draft && at in [s.rows[id].startsAt, s.rows[id].endsAt, s.rows[id].createdAt]
    && (forall r :: r in s.sweeps ==> s.sweeps[r].since <= s.mark)
    && (at <= s.mark ==> Covered(s, id, at))
    && (s.mark < at ==> forall r :: r in s.sweeps && Blind(s.mark, s.sweeps[r], at) ==> Promised(s, s.sweeps[r], id))
  }

  ghost predicate Promised(s: State, sweep: Sweep, id: nat) {
    id in sweep.todo || (id, Window(sweep.since, sweep.end)) in s.acked
  }

  lemma AdvanceKeepsSight(s: State, r: nat, id: nat, at: nat)
    requires MarkOk(s) && InSight(s, id, at)
    ensures InSight(DoAdvance(s, r), id, at)
  {
    var t := DoAdvance(s, r);
    if In(s, r, Publishing) && s.sweeps[r].todo == [] && s.mark == s.sweeps[r].since {
      var sweep := s.sweeps[r];
      var w := Window(sweep.since, sweep.end);
      if at <= s.mark {
        var v :| v in s.windows && Within(at, v.since, v.end) && (id, v) in s.acked;
        assert v in t.windows;
      } else if at <= t.mark {
        assert Blind(s.mark, sweep, at);
        assert w in t.windows;
      }
    }
  }

  lemma SightMoves(s: State, r: nat, sweep: Sweep, acked: set<(nat, Window)>, id: nat, at: nat)
    requires InSight(s, id, at) && s.acked <= acked && sweep.since <= s.mark
    requires s.mark < at && Blind(s.mark, sweep, at) ==> id in sweep.todo || (id, Window(sweep.since, sweep.end)) in acked
    ensures InSight(WithSweep(s, r, sweep).(acked := acked), id, at)
  {
    var t := WithSweep(s, r, sweep).(acked := acked);
    if at <= s.mark {
      var w :| w in s.windows && Within(at, w.since, w.end) && (id, w) in s.acked;
      assert w in t.windows && (id, w) in t.acked;
    }
  }

  lemma PublishKeepsSight(s: State, r: nat, id: nat, at: nat)
    requires InSight(s, id, at)
    ensures InSight(DoPublish(s, r), id, at)
  {
    if In(s, r, Publishing) && s.sweeps[r].todo != [] {
      var sweep := s.sweeps[r];
      var acked := s.acked + {(sweep.todo[0], Window(sweep.since, sweep.end))};
      assert forall x :: x in sweep.todo ==> x == sweep.todo[0] || x in sweep.todo[1..];
      SightMoves(s, r, sweep.(todo := sweep.todo[1..]), acked, id, at);
    }
  }

  lemma SelectKeepsSight(s: State, r: nat, ids: seq<nat>, id: nat, at: nat)
    requires InSight(s, id, at)
    ensures InSight(Step(s, Select(r, ids)), id, at)
  {
    if In(s, r, Bounded) && IsSelection(s.rows, s.sweeps[r].since, s.sweeps[r].end, ids) {
      assert Within(at, s.sweeps[r].since, s.sweeps[r].end) ==> Matches(s.rows[id], s.sweeps[r].since, s.sweeps[r].end);
      SightMoves(s, r, s.sweeps[r].(phase := Publishing, todo := ids), s.acked, id, at);
    }
  }

  lemma RowsKeepSight(s: State, rows: map<nat, Row>, id: nat, at: nat)
    requires InSight(s, id, at) && id in rows && !rows[id].draft
    requires rows[id].startsAt == s.rows[id].startsAt && rows[id].endsAt == s.rows[id].endsAt && rows[id].createdAt == s.rows[id].createdAt
    ensures InSight(s.(rows := rows), id, at)
  {
    var t := s.(rows := rows);
    if at <= s.mark {
      var w :| w in s.windows && Within(at, w.since, w.end) && (id, w) in s.acked;
      assert w in t.windows;
    }
    forall r | r in t.sweeps && s.mark < at && Blind(t.mark, t.sweeps[r], at) ensures Promised(t, t.sweeps[r], id) {
      assert Promised(s, s.sweeps[r], id);
    }
  }

  lemma ClockKeepsSight(s: State, now: nat, id: nat, at: nat)
    requires InSight(s, id, at)
    ensures InSight(s.(now := now), id, at)
  {
    var t := s.(now := now);
    if at <= s.mark {
      var w :| w in s.windows && Within(at, w.since, w.end) && (id, w) in s.acked;
      assert w in t.windows;
    }
    forall r | r in t.sweeps && s.mark < at && Blind(t.mark, t.sweeps[r], at) ensures Promised(t, t.sweeps[r], id) {
      assert Promised(s, s.sweeps[r], id);
    }
  }

  lemma StepKeepsSight(s: State, a: Action, id: nat, at: nat)
    requires MarkOk(s) && InSight(s, id, at)
    ensures InSight(Step(s, a), id, at)
  {
    match a
    case Advance(r) => AdvanceKeepsSight(s, r, id, at);
    case Select(r, ids) => SelectKeepsSight(s, r, ids, id, at);
    case Publish(r) => PublishKeepsSight(s, r, id, at);
    case Bounds(r) => if r !in s.sweeps { SightMoves(s, r, Begun(s.now, s.mark), s.acked, id, at); }
    case Fail(r) => if r in s.sweeps { SightMoves(s, r, s.sweeps[r].(phase := Ended), s.acked, id, at); }
    case SetClock(now) => ClockKeepsSight(s, now, id, at);
    case Show(_, _, _, _, _) => RowsKeepSight(s, Step(s, a).rows, id, at);
    case Assign(_) => RowsKeepSight(s, Step(s, a).rows, id, at);
    case Cancel(_, _) => RowsKeepSight(s, Step(s, a).rows, id, at);
  }

  lemma {:induction false} RunKeepsSight(s: State, acts: seq<Action>, id: nat, at: nat)
    requires MarkOk(s) && InSight(s, id, at)
    ensures InSight(Run(s, acts), id, at)
    decreases |acts|
  {
    if acts != [] {
      var init := acts[..|acts| - 1];
      RunKeepsSight(s, init, id, at);
      MarkNeverGoesBack(s, init);
      StepKeepsSight(Run(s, init), acts[|acts| - 1], id, at);
    }
  }

  ghost predicate Shows(rows: map<nat, Row>, id: nat) { id in rows && !rows[id].draft }

  /** Sweeps read the mark before it moved on, and what they select or publish is no draft. */
  ghost predicate Bookkept(s: State) {
    && (forall r :: r in s.sweeps ==> s.sweeps[r].since <= s.mark)
    && (forall r, k :: r in s.sweeps && 0 <= k < |s.sweeps[r].todo| ==> Shows(s.rows, s.sweeps[r].todo[k]))
    && forall id, w :: (id, w) in s.acked ==> Shows(s.rows, id)
  }

  lemma SelectBookkeeps(s: State, a: Action)
    requires Bookkept(s) && (a.Select? || a.Publish? || a.Bounds? || a.Fail?)
    ensures Bookkept(Step(s, a))
  {
  }

  lemma AdvanceBookkeeps(s: State, r: nat)
    requires MarkOk(s) && Bookkept(s)
    ensures Bookkept(Step(s, Advance(r)))
  {
    StepMarks(s, Advance(r));
  }

  /** What shows goes on showing, and nothing else a sweep knows changes. */
  lemma RowsBookkeep(s: State, a: Action)
    requires Bookkept(s) && (a.SetClock? || a.Show? || a.Assign? || a.Cancel?)
    ensures Bookkept(Step(s, a))
  {
    var t := Step(s, a);
    assert t.sweeps == s.sweeps && t.mark == s.mark && t.acked == s.acked;
    forall id | Shows(s.rows, id) ensures Shows(t.rows, id) {}
  }

  lemma StepBookkeeps(s: State, a: Action)
    requires MarkOk(s) && Bookkept(s)
    ensures Bookkept(Step(s, a))
  {
    if a.Select? || a.Publish? || a.Bounds? || a.Fail? {
      SelectBookkeeps(s, a);
    } else if a.Advance? {
      AdvanceBookkeeps(s, a.r);
    } else {
      RowsBookkeep(s, a);
    }
  }

  lemma {:induction false} RunBookkeeps(s: State, acts: seq<Action>)
    requires MarkOk(s) && Bookkept(s)
    ensures Bookkept(Run(s, acts))
    decreases |acts|
  {
    if acts != [] {
      var init := acts[..|acts| - 1];
      RunBookkeeps(s, init);
      MarkNeverGoesBack(s, init);
      StepBookkeeps(Run(s, init), acts[|acts| - 1]);
    }
  }

  function Publishes(r: nat, n: nat): (acts: seq<Action>)
    ensures |acts| == n
  {
    if n == 0 then [] else Publishes(r, n - 1) + [Publish(r)]
  }

  lemma RunOne(s: State, acts: seq<Action>, a: Action)
    ensures Run(s, acts + [a]) == Step(Run(s, acts), a)
  {
    assert (acts + [a])[..|acts|] == acts;
  }

  /** From `s` to `t`, sweep `r` has published down to `left`, and nothing of `id`. */
  ghost predicate Drained(s: State, t: State, r: nat, left: seq<nat>, id: nat)
    requires r in s.sweeps
  {
    && r in t.sweeps && t.sweeps[r] == s.sweeps[r].(todo := left)
    && t.mark == s.mark && t.windows == s.windows && forall w :: (id, w) in t.acked ==> (id, w) in s.acked
  }

  lemma DrainsOne(s: State, t: State, r: nat, left: seq<nat>, id: nat)
    requires In(s, r, Publishing) && Drained(s, t, r, left, id) && left != [] && left[0] != id
    ensures Drained(s, Step(t, Publish(r)), r, left[1..], id)
  {
  }

  /** A sweep left to itself publishes what it has to, and nothing else. */
  lemma {:induction false} Drains(s: State, r: nat, n: nat, id: nat)
    requires In(s, r, Publishing) && n <= |s.sweeps[r].todo| && id !in s.sweeps[r].todo
    ensures Drained(s, Run(s, Publishes(r, n)), r, s.sweeps[r].todo[n..], id)
    decreases n
  {
    var todo := s.sweeps[r].todo;
    if n == 0 {
      assert todo[0..] == todo;
    } else {
      Drains(s, r, n - 1, id);
      RunOne(s, Publishes(r, n - 1), Publish(r));
      assert todo[n - 1..][0] == todo[n - 1] && todo[n - 1..][1..] == todo[n..];
      DrainsOne(s, Run(s, Publishes(r, n - 1)), r, todo[n - 1..], id);
    }
  }

  /** ... and then moves the mark, past an instant of `id` it never published. */
  lemma BlindSweepPasses(s: State, r: nat, id: nat, at: nat) returns (acts: seq<Action>)
    requires r in s.sweeps && Blind(s.mark, s.sweeps[r], at) && id !in s.sweeps[r].todo
    requires forall w :: (id, w) !in s.acked
    ensures at <= Run(s, acts).mark && !Covered(Run(s, acts), id, at)
  {
    var n := |s.sweeps[r].todo|;
    Drains(s, r, n, id);
    RunOne(s, Publishes(r, n), Advance(r));
    acts := Publishes(r, n) + [Advance(r)];
  }

  /** Once passed, the instant was acknowledged: in every run from here. */
  ghost predicate SweptAlways(t: State, id: nat, at: nat) {
    forall after :: at <= Run(t, after).mark ==> Covered(Run(t, after), id, at)
  }

  lemma Missed(t: State, after: seq<Action>, id: nat, at: nat)
    requires at <= Run(t, after).mark && !Covered(Run(t, after), id, at)
    ensures !SweptAlways(t, id, at)
  {
  }

  lemma InSightIsSwept(t: State, id: nat, at: nat)
    requires MarkOk(t) && InSight(t, id, at)
    ensures SweptAlways(t, id, at)
  {
    forall after | at <= Run(t, after).mark ensures Covered(Run(t, after), id, at) { RunKeepsSight(t, after, id, at); }
  }

  /** A draft assigned at any time: each of its instants is announced by the sweep that
      passes it, in every run that follows, if and only if the mark is still behind the
      instant and the sweep that holds the mark has not already selected past it. */
  lemma AssignIsSweptIff(s0: State, before: seq<Action>, id: nat, at: nat)
    requires Fresh(s0)
    requires var s := Run(s0, before);
             id in s.rows && s.rows[id].draft && at in [s.rows[id].startsAt, s.rows[id].endsAt, s.rows[id].createdAt]
    ensures var s := Run(s0, before);
            SweptAlways(Step(s, Assign(id)), id, at) <==> s.mark < at && !Passing(s, at)
  {
    var s := Run(s0, before);
    var t := Step(s, Assign(id));
    MarkNeverGoesBack(s0, before);
    RunBookkeeps(s0, before);
    StepMarks(s, Assign(id));
    if s.mark < at && !Passing(s, at) {
      InSightIsSwept(t, id, at);
    } else if at <= s.mark {
      assert Run(t, []) == t;
      Missed(t, [], id, at);
    } else {
      var r :| r in s.sweeps && Blind(s.mark, s.sweeps[r], at);
      var after := BlindSweepPasses(t, r, id, at);
      Missed(t, after, id, at);
    }
  }
}
