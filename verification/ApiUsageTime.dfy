/** When the windows of a usage sink have a length that is not negative. A taker reads the clock
    in one step and takes the open window in a later one, so another taker may come between. */
module ApiUsageTime {
  import opened Wrappers
  import opened ApiUsage

  function Length(t: Taken): int {
    t.endedAt - t.window.startedAt
  }

  ghost predicate LengthsNotNegative(taken: seq<Taken>) {
    forall i | 0 <= i < |taken| :: Length(taken[i]) >= 0
  }

  /** Who takes windows: the timer, or a record when it is done. */
  datatype Taker = Timer | Of(record: nat)

  /** The clock reading a taker holds. */
  function Reading(s: Sink, x: Taker): Option<int> {
    match x
    case Timer => s.timer
    case Of(r) => if r < |s.records| && s.records[r].stage.Closing? then Some(s.records[r].stage.readAt) else None
  }

  function ReadBy(step: Step): Option<Taker> {
    match step
    case TimerReadsClock => Some(Timer)
    case ReadClock(r) => Some(Of(r))
    case _ => None
  }

  function TakenBy(step: Step): Option<Taker> {
    match step
    case TimerTakes => Some(Timer)
    case Take(r) => Some(Of(r))
    case _ => None
  }

  /** The step takes the open window with a reading older than the window's own start. */
  predicate StaleTake(s: Sink, step: Step) {
    TakenBy(step).Some? && Enabled(s, step) && Reading(s, TakenBy(step).value).value < s.refs.window.startedAt
  }

  /** No step of the run is such a take. */
  ghost predicate TakesInOrder(start: Sink, steps: seq<Step>)
    decreases |steps|
  {
    steps == [] ||
    var init := steps[..|steps| - 1];
    TakesInOrder(start, init) && !StaleTake(After(start, init), steps[|steps| - 1])
  }

  /** Every emitted window of a run has a length that is not negative if and only if no take of
      the run fires with a reading older than the start of the window it takes. */
  lemma {:induction false} LengthsNotNegativeIff(start: Sink, steps: seq<Step>)
    requires start.taken == []
    ensures LengthsNotNegative(After(start, steps).taken) <==> TakesInOrder(start, steps)
    decreases |steps|
  {
    if steps != [] {
      var init, last := steps[..|steps| - 1], steps[|steps| - 1];
      LengthsNotNegativeIff(start, init);
      OneMoreLength(After(start, init), last);
    }
  }

  lemma OneMoreLength(s: Sink, step: Step)
    ensures var t := if Enabled(s, step) then Apply(s, step) else s;
      LengthsNotNegative(t.taken) <==> LengthsNotNegative(s.taken) && !StaleTake(s, step)
  {
    if Enabled(s, step) {
      var t := Apply(s, step);
      if TakenBy(step).Some? {
        assert t.taken == s.taken + [t.taken[|s.taken|]];
        assert Length(t.taken[|s.taken|]) >= 0 <==> !StaleTake(s, step);
        AppendLength(s.taken, t.taken[|s.taken|]);
      } else {
        assert t.taken == s.taken;
      }
    }
  }

  lemma AppendLength(taken: seq<Taken>, t: Taken)
    ensures LengthsNotNegative(taken + [t]) <==> LengthsNotNegative(taken) && Length(t) >= 0
  {
    assert (taken + [t])[|taken|] == t;
    assert forall i | 0 <= i < |taken| :: (taken + [t])[i] == taken[i];
  }

  // ---- the guard a caller controls ----

  /** Step `k` of the run takes effect. */
  predicate Fires(start: Sink, steps: seq<Step>, k: nat) {
    k < |steps| && Enabled(After(start, steps[..k]), steps[k])
  }

  /** At step `i` taker `x` reads the clock, for the last time before step `n`. */
  ghost predicate LastRead(start: Sink, steps: seq<Step>, x: Taker, i: nat, n: nat) {
    && i < n <= |steps|
    && Fires(start, steps, i) && ReadBy(steps[i]) == Some(x)
    && forall m | i < m < n :: !(Fires(start, steps, m) && ReadBy(steps[m]) == Some(x))
  }

  /** A take falls strictly between two steps. */
  ghost predicate TakeBetween(start: Sink, steps: seq<Step>, i: nat, n: nat)
    requires n <= |steps|
  {
    exists k | i < k < n :: Fires(start, steps, k) && TakenBy(steps[k]).Some?
  }

  /** No take of the run falls between a taker's reading of the clock and its own take. */
  ghost predicate Undisturbed(start: Sink, steps: seq<Step>) {
    forall i, j, x | 0 <= i < j < |steps| && Fires(start, steps, j) && TakenBy(steps[j]) == Some(x) &&
                     LastRead(start, steps, x, i, j) :: !TakeBetween(start, steps, i, j)
  }

  /** No window starts in the future. */
  ghost predicate StartedByNow(s: Sink) {
    s.refs.window.startedAt <= s.now &&
    (forall x | Reading(s, x).Some? :: Reading(s, x).value <= s.now)
  }

  lemma StepKeepsStarted(s: Sink, step: Step)
    requires StartedByNow(s) && Enabled(s, step)
    ensures StartedByNow(Apply(s, step))
  {
    var t := Apply(s, step);
    assert Reading(s, Timer) == s.timer;
    if step.Take? {
      assert Reading(s, Of(step.record)).Some?;
    }
    forall x | Reading(t, x).Some?
      ensures Reading(t, x).value <= t.now
    {
      assert Reading(t, x) == Reading(s, x) || Reading(t, x) == Some(s.now);
    }
  }

  lemma {:induction false} RunKeepsStarted(now: int, steps: seq<Step>)
    ensures StartedByNow(After(Initial(now), steps))
    decreases |steps|
  {
    if steps != [] {
      var init := steps[..|steps| - 1];
      RunKeepsStarted(now, init);
      if Enabled(After(Initial(now), init), steps[|steps| - 1]) {
        StepKeepsStarted(After(Initial(now), init), steps[|steps| - 1]);
      }
    }
  }

  /** Every reading in hand was made at some step, and it is not older than the open window
      unless a take came after it. */
  lemma {:induction false} ReadingOrigin(now: int, steps: seq<Step>, n: nat, x: Taker) returns (i: nat)
    requires n <= |steps| && Reading(After(Initial(now), steps[..n]), x).Some?
    ensures LastRead(Initial(now), steps, x, i, n)
    ensures TakeBetween(Initial(now), steps, i, n) ||
            Reading(After(Initial(now), steps[..n]), x).value >= After(Initial(now), steps[..n]).refs.window.startedAt
    decreases n
  {
    assert n > 0;
    var before, step := After(Initial(now), steps[..n - 1]), steps[n - 1];
    assert steps[..n][..n - 1] == steps[..n - 1] && steps[..n][n - 1] == step;
    if Enabled(before, step) && ReadBy(step) == Some(x) {
      i := n - 1;
      RunKeepsStarted(now, steps[..n - 1]);
      assert Fires(Initial(now), steps, i);
    } else {
      KeptReading(before, step, x);
      i := ReadingOrigin(now, steps, n - 1, x);
      if Enabled(before, step) && TakenBy(step).Some? {
        assert Fires(Initial(now), steps, n - 1);
      }
    }
  }

  /** A reading that was not made by this step was in hand before, and only a take moves the
      start of the open window. */
  lemma KeptReading(s: Sink, step: Step, x: Taker)
    requires !(Enabled(s, step) && ReadBy(step) == Some(x))
    requires var t := if Enabled(s, step) then Apply(s, step) else s; Reading(t, x).Some?
    ensures var t := if Enabled(s, step) then Apply(s, step) else s; Reading(s, x) == Reading(t, x)
    ensures Enabled(s, step) && TakenBy(step).None? ==>
              Apply(s, step).refs.window.startedAt == s.refs.window.startedAt
  {
  }

  /** A run in which no other take comes between a taker's reading and its own take emits no
      window of negative length. */
  lemma UndisturbedLengths(now: int, steps: seq<Step>)
    requires Undisturbed(Initial(now), steps)
    ensures LengthsNotNegative(After(Initial(now), steps).taken)
  {
    UndisturbedPrefix(now, steps, |steps|);
    assert steps[..|steps|] == steps;
    LengthsNotNegativeIff(Initial(now), steps);
  }

  lemma {:induction false} UndisturbedPrefix(now: int, steps: seq<Step>, n: nat)
    requires n <= |steps| && Undisturbed(Initial(now), steps)
    ensures TakesInOrder(Initial(now), steps[..n])
  {
    if n > 0 {
      UndisturbedPrefix(now, steps, n - 1);
      assert steps[..n][..n - 1] == steps[..n - 1];
      var before, step := After(Initial(now), steps[..n - 1]), steps[n - 1];
      if StaleTake(before, step) {
        var x := TakenBy(step).value;
        var i := ReadingOrigin(now, steps, n - 1, x);
        assert Fires(Initial(now), steps, n - 1);
      }
    }
  }
}
