/** What a step of the supervisor does to its window, written out on the states before and after
    it. The invariants and theorems bound what a run may do; these laws say what it must do. */
module SupervisorSteps {
  import opened Wrappers
  import opened Windows
  import opened Supervisor
  import opened SupervisorInvariant
  import opened SupervisorTheorems

  /** A fresh instance of the key is live, and nothing else about windows has changed. */
  ghost predicate StartedNow(s: State, t: State, key: Key, entry: Entry) {
    && t.runningByEntry == s.runningByEntry[key := s.nextFiber]
    && t.instances == s.instances[s.nextFiber := Instance(key, entry, Checking)]
    && t.starts == s.starts + [key] && t.activeInstances == s.activeInstances + 1
    && t.completedEntries == s.completedEntries && t.executions == s.executions
  }

  ghost predicate NothingStarted(s: State, t: State) {
    && t.runningByEntry == s.runningByEntry && t.instances == s.instances
    && t.starts == s.starts && t.activeInstances == s.activeInstances
    && t.completedEntries == s.completedEntries && t.executions == s.executions
  }

  predicate OfAnInstance(step: Step) {
    step.CheckWindow? || step.Wake? || step.StoreAnswers? || step.UserEffectDone? || step.InstanceDies?
  }

  // ---- sleepers ----

  /** A sleeper that fires starts its window, with the whole entry it was forked for, unless the
      window is running; either way it is gone and no longer pending, and no other sleeper is
      touched. */
  lemma FireStartsTheWindow(cfg: Config, s: State, f: Fiber)
    requires Enabled(s, Fire(f))
    ensures var t, key, entry := Apply(cfg, s, Fire(f)), s.sleepers[f].key, s.sleepers[f].entry;
      && key in t.runningByEntry
      && t.sleepers == s.sleepers - {f} && t.pendingStarts == s.pendingStarts - {key}
      && (if key in s.runningByEntry then NothingStarted(s, t) else StartedNow(s, t, key, entry))
  {
  }

  lemma FireCounts(cfg: Config, s: State, f: Fiber)
    requires Enabled(s, Fire(f))
    ensures var t, key := Apply(cfg, s, Fire(f)), s.sleepers[f].key;
      Starts(t, key) == Starts(s, key) + if key in s.runningByEntry then 0 else 1
  {
    FireStartsTheWindow(cfg, s, f);
    SpawnCounts(s, s.sleepers[f].key, s.sleepers[f].entry, s.sleepers[f].key);
  }

  /** Neither its timer nor an interruption of its key ends the sleeper. */
  predicate LeavesAlone(step: Step, f: Fiber, key: Key) {
    step != Fire(f) && step != InterruptStale(key)
  }

  ghost predicate SleepsOn(s: State, t: State, f: Fiber) {
    f in s.sleepers && f in t.sleepers && t.sleepers[f] == s.sleepers[f] && t.now >= s.now
  }

  lemma StepKeepsSleeper(cfg: Config, s: State, step: Step, f: Fiber)
    requires f in s.sleepers && Inv(cfg, s) && Enabled(s, step) && LeavesAlone(step, f, s.sleepers[f].key)
    ensures SleepsOn(s, Apply(cfg, s, step), f)
  {
    match step {
      case SetSchedule(_) =>
      case Advance(_) =>
      case Reconcile =>
      case StartPlacing =>
      case EndReconcile =>
      case InterruptStale(key) => InterruptKeepsSleeper(cfg, s, key, f);
      case PlaceNext => PlaceKeepsSleeper(s, s.driver.items[s.driver.next], s.driver.nowMillis, f);
      case Fire(g) => FireKeepsSleeper(s, g, f);
      case _ => InstanceStepKeepsSleeper(cfg, s, step, f);
    }
  }

  lemma InterruptKeepsSleeper(cfg: Config, s: State, key: Key, f: Fiber)
    requires Enabled(s, InterruptStale(key)) && StaleOk(s, s.driver.items, s.driver.stale)
    requires f in s.sleepers && s.sleepers[f].key != key
    ensures SleepsOn(s, Apply(cfg, s, InterruptStale(key)), f)
  {
    assert s.driver.stale[key] != f;
  }

  lemma FireKeepsSleeper(s: State, g: Fiber, f: Fiber)
    requires f in s.sleepers && g in s.sleepers && f != g
    ensures SleepsOn(s, SleeperFires(s, g), f)
  {
  }

  lemma InstanceStepKeepsSleeper(cfg: Config, s: State, step: Step, f: Fiber)
    requires f in s.sleepers && Enabled(s, step) && OfAnInstance(step)
    ensures SleepsOn(s, Apply(cfg, s, step), f)
  {
  }

  lemma PlaceKeepsSleeper(s: State, item: Item, nowMillis: int, f: Fiber)
    requires f in s.sleepers && SleepersMatch(s)
    ensures SleepsOn(s, Place(s, item, nowMillis), f)
  {
    assert f < s.nextFiber;
    FreshKeepsSleeper(s, item, nowMillis, f);
  }

  lemma FreshKeepsSleeper(s: State, item: Item, nowMillis: int, f: Fiber)
    requires f in s.sleepers && f < s.nextFiber
    ensures SleepsOn(s, Place(s, item, nowMillis), f)
  {
  }

  lemma {:induction false} SleeperWaits(cfg: Config, s: State, steps: seq<Step>, f: Fiber)
    requires f in s.sleepers && Inv(cfg, s)
    requires forall step | step in steps :: LeavesAlone(step, f, s.sleepers[f].key)
    ensures Inv(cfg, After(cfg, s, steps))
    ensures f in After(cfg, s, steps).sleepers && After(cfg, s, steps).sleepers[f] == s.sleepers[f]
    decreases |steps|
  {
    if steps != [] {
      var init, last := steps[..|steps| - 1], steps[|steps| - 1];
      assert last in steps && forall step | step in init :: step in steps;
      SleeperWaits(cfg, s, init, f);
      if Enabled(After(cfg, s, init), last) {
        StepKeeps(cfg, After(cfg, s, init), last);
        StepKeepsSleeper(cfg, After(cfg, s, init), last, f);
      }
    }
  }

  /** A pending window is started by its own timer: whatever else happens in the meantime, with
      or without another reconcile, its sleeper is there once the start has come, and firing it
      makes the window run. */
  lemma {:induction false} PendingIsStartedByItsTimer(cfg: Config, s: State, steps: seq<Step>, key: Key)
    requires Inv(cfg, s) && key in s.pendingStarts
    requires forall step | step in steps :: LeavesAlone(step, s.pendingStarts[key].fiber, key)
    requires After(cfg, s, steps).now >= s.pendingStarts[key].startAt
    ensures var t, f := After(cfg, s, steps), s.pendingStarts[key].fiber;
      && Enabled(t, Fire(f))
      && key in Apply(cfg, t, Fire(f)).runningByEntry && key !in Apply(cfg, t, Fire(f)).pendingStarts
      && Starts(Apply(cfg, t, Fire(f)), key) == Starts(t, key) + if key in t.runningByEntry then 0 else 1
  {
    var f := s.pendingStarts[key].fiber;
    SleeperWaits(cfg, s, steps, f);
    FireStartsTheWindow(cfg, After(cfg, s, steps), f);
    FireCounts(cfg, After(cfg, s, steps), f);
  }

  /** An interrupted stale sleeper is gone with its pending entry and starts nothing. */
  lemma InterruptStartsNothing(cfg: Config, s: State, key: Key)
    requires Inv(cfg, s) && Enabled(s, InterruptStale(key))
    ensures var t, f := Apply(cfg, s, InterruptStale(key)), s.driver.stale[key];
      && NothingStarted(s, t)
      && (if f in s.sleepers then t.sleepers == s.sleepers - {f} && t.pendingStarts == s.pendingStarts - {key}
          else t.sleepers == s.sleepers && t.pendingStarts == s.pendingStarts)
  {
    CapturedInterrupt(cfg, s, key);
  }

  lemma CapturedInterrupt(cfg: Config, s: State, key: Key)
    requires Enabled(s, InterruptStale(key)) && StaleOk(s, s.driver.items, s.driver.stale)
    ensures var t, f := Apply(cfg, s, InterruptStale(key)), s.driver.stale[key];
      && NothingStarted(s, t)
      && (if f in s.sleepers then t.sleepers == s.sleepers - {f} && t.pendingStarts == s.pendingStarts - {key}
          else t.sleepers == s.sleepers && t.pendingStarts == s.pendingStarts)
  {
    var f := s.driver.stale[key];
    assert f in s.sleepers ==> s.sleepers[f].key == key;
  }

  // ---- placing ----

  /** What placing one item does: nothing for a window that is completed, running or already
      pending; an open one starts; a closed one is completed without a start; a future one is
      given a sleeper that wakes at its start, or starts if that came while it was placed. */
  lemma PlaceOutcome(cfg: Config, s: State)
    requires Enabled(s, PlaceNext)
    ensures var t := Apply(cfg, s, PlaceNext); var item := s.driver.items[s.driver.next];
      && t.driver == s.driver.(next := s.driver.next + 1)
      && var key, entry, open := item.key, item.entry, s.driver.nowMillis;
         if key in s.completedEntries || key in s.runningByEntry then
           NothingStarted(s, t) && t.pendingStarts == s.pendingStarts && t.sleepers == s.sleepers
         else if entry.startAt <= open then
           && t.pendingStarts == s.pendingStarts && t.sleepers == s.sleepers
           && (entry.stopAt.None? || open < entry.stopAt.value ==> StartedNow(s, t, key, entry))
           && (entry.stopAt.Some? && entry.stopAt.value <= open ==>
                 t.completedEntries == s.completedEntries + {key} && t.runningByEntry == s.runningByEntry
                 && t.instances == s.instances && t.starts == s.starts)
         else if key in s.pendingStarts then
           NothingStarted(s, t) && t.pendingStarts == s.pendingStarts && t.sleepers == s.sleepers
         else if entry.startAt <= s.now then StartedNow(s, t, key, entry)
         else
           && NothingStarted(s, t)
           && t.sleepers == s.sleepers[s.nextFiber := Sleeper(key, entry, entry.startAt)]
           && t.pendingStarts == s.pendingStarts[key := PendingStart(entry.startAt, s.nextFiber)]
  {
  }

  /** A reconcile begins by keeping the completed keys that are scheduled, and captures the
      sleepers of the keys that are not. */
  lemma BeginOutcome(cfg: Config, s: State)
    requires Inv(cfg, s) && Enabled(s, Reconcile)
    ensures var t, keys := Apply(cfg, s, Reconcile), Keys(Materialize(s.schedule));
      && (forall k :: k in t.completedEntries <==> k in s.completedEntries && k in keys)
      && t.runningByEntry == s.runningByEntry && t.instances == s.instances && t.starts == s.starts
      && t.pendingStarts == s.pendingStarts && t.sleepers == s.sleepers
      && t.driver == Interrupting(Materialize(s.schedule),
                                  map k | k in s.pendingStarts && k !in keys :: s.pendingStarts[k].fiber)
  {
    StaleAreUnscheduled(s, Materialize(s.schedule));
  }

  lemma StaleAreUnscheduled(s: State, items: seq<Item>)
    requires SleepersMatch(s) && Keyed(items)
    ensures StaleStarts(items, s.pendingStarts) ==
              map k | k in s.pendingStarts && k !in Keys(items) :: s.pendingStarts[k].fiber
  {
    forall k | k in s.pendingStarts
      ensures IsStale(items, k, s.pendingStarts[k]) <==> k !in Keys(items)
    {
      StaleMeansUnscheduled(s, items, k);
    }
  }

  // ---- instances ----

  /** The step at which an instance enters its tracked run: the first check without polling,
      the arrival of a tick with it. */
  function RunStep(cfg: Config, f: Fiber): Step {
    if cfg.polling then Wake(f) else CheckWindow(f)
  }

  /** An instance whose window has not closed enters its run: without an execution store the
      user effect begins at once, with one the store is read first. */
  lemma OpenWindowRuns(cfg: Config, s: State, f: Fiber)
    requires Enabled(s, RunStep(cfg, f))
    requires s.instances[f].entry.stopAt.None? || s.now < s.instances[f].entry.stopAt.value
    ensures var t, i := Apply(cfg, s, RunStep(cfg, f)), s.instances[f];
      if cfg.executionStore then
        t.executions == s.executions && t.instances == s.instances[f := Instance(i.key, i.entry, ReadingStore(s.now))]
      else
        && t.executions == s.executions + [Execution(i.key, i.entry, s.now, s.now)]
        && t.instances == s.instances[f := Instance(i.key, i.entry, InUserEffect)]
  {
  }

  /** When the store answers, the user effect begins, whatever time it is by then. */
  lemma StoreAnswersRuns(cfg: Config, s: State, f: Fiber)
    requires Enabled(s, StoreAnswers(f))
    ensures var t, i := Apply(cfg, s, StoreAnswers(f)), s.instances[f];
      && t.executions == s.executions + [Execution(i.key, i.entry, i.phase.executedAt, s.now)]
      && t.instances == s.instances[f := Instance(i.key, i.entry, InUserEffect)]
  {
  }

  /** With polling an instance goes round: an open window leads from the check to the wait, and
      the end of the user effect back to the check. */
  lemma PollingGoesRound(cfg: Config, s: State, f: Fiber)
    requires cfg.polling
    ensures Enabled(s, CheckWindow(f)) && CanContinue(s.instances[f].entry, s.now) ==>
              Apply(cfg, s, CheckWindow(f)).instances == s.instances[f := s.instances[f].(phase := AwaitingTick)]
    ensures Enabled(s, UserEffectDone(f)) ==>
              Apply(cfg, s, UserEffectDone(f)).instances == s.instances[f := s.instances[f].(phase := Checking)]
  {
  }

  /** The step ends the instance: its window has closed at a check, it dies, or its one effect
      without polling is over. */
  predicate Ends(cfg: Config, s: State, step: Step, f: Fiber)
    requires f in s.instances
  {
    || ((step == CheckWindow(f) || step == Wake(f)) && s.instances[f].entry.stopAt.Some?
        && s.instances[f].entry.stopAt.value <= s.now)
    || step == InstanceDies(f)
    || (step == UserEffectDone(f) && !cfg.polling)
  }

  /** The instance is gone, and its key is completed and no longer running. */
  ghost predicate Left(s: State, t: State, f: Fiber)
    requires f in s.instances
  {
    f !in t.instances && s.instances[f].key in t.completedEntries && s.instances[f].key !in t.runningByEntry
  }

  ghost predicate Stayed(s: State, t: State, f: Fiber)
    requires f in s.instances
  {
    && f in t.instances
    && t.instances[f].key == s.instances[f].key && t.instances[f].entry == s.instances[f].entry
  }

  /** An instance leaves exactly at such a step; at every other step it keeps its key and entry. */
  lemma LeavesIffEnds(cfg: Config, s: State, step: Step, f: Fiber)
    requires InstancesMatch(s) && Enabled(s, step) && f in s.instances
    ensures if Ends(cfg, s, step, f) then Left(s, Apply(cfg, s, step), f) else Stayed(s, Apply(cfg, s, step), f)
  {
    if OfAnInstance(step) {
      InstanceStepLeaves(cfg, s, step, f);
    } else {
      OtherStepStays(cfg, s, step, f);
    }
  }

  lemma OtherStepStays(cfg: Config, s: State, step: Step, f: Fiber)
    requires f in s.instances && f < s.nextFiber && Enabled(s, step) && !OfAnInstance(step)
    ensures Stayed(s, Apply(cfg, s, step), f)
  {
    match step {
      case InterruptStale(_) =>
      case PlaceNext => PlaceKeepsInstance(s, s.driver.items[s.driver.next], s.driver.nowMillis, f);
      case Fire(g) => FireKeepsInstance(s, g, f);
      case _ =>
    }
  }

  lemma InstanceStepLeaves(cfg: Config, s: State, step: Step, f: Fiber)
    requires InstancesMatch(s) && Enabled(s, step) && f in s.instances && OfAnInstance(step)
    ensures if Ends(cfg, s, step, f) then Left(s, Apply(cfg, s, step), f) else Stayed(s, Apply(cfg, s, step), f)
  {
    match step {
      case CheckWindow(g) => CheckLeaves(cfg, s, g, f);
      case Wake(g) => WakeLeaves(cfg, s, g, f);
      case StoreAnswers(g) => PhaseStays(s, g, InUserEffect, f);
      case UserEffectDone(g) => EndLeaves(s, g, f); PhaseStays(s, g, Checking, f);
      case InstanceDies(g) => EndLeaves(s, g, f);
    }
  }

  lemma PlaceKeepsInstance(s: State, item: Item, nowMillis: int, f: Fiber)
    requires f in s.instances && f < s.nextFiber
    ensures Stayed(s, Place(s, item, nowMillis), f)
  {
  }

  lemma FireKeepsInstance(s: State, g: Fiber, f: Fiber)
    requires f in s.instances && f < s.nextFiber && g in s.sleepers
    ensures Stayed(s, SleeperFires(s, g), f)
  {
  }

  lemma EndLeaves(s: State, g: Fiber, f: Fiber)
    requires InstancesMatch(s) && f in s.instances && g in s.instances
    ensures if g == f then Left(s, InstanceEnds(s, g), f) else Stayed(s, InstanceEnds(s, g), f)
  {
  }

  lemma PhaseStays(s: State, g: Fiber, phase: Phase, f: Fiber)
    requires f in s.instances && g in s.instances
    ensures Stayed(s, SetPhase(s, g, phase), f)
  {
  }

  lemma RunStays(cfg: Config, s: State, g: Fiber, f: Fiber)
    requires f in s.instances && g in s.instances
    ensures Stayed(s, StartRun(cfg, s, g), f)
  {
    PhaseStays(s, g, ReadingStore(s.now), f);
    PhaseStays(s, g, InUserEffect, f);
  }

  lemma CheckLeaves(cfg: Config, s: State, g: Fiber, f: Fiber)
    requires InstancesMatch(s) && Enabled(s, CheckWindow(g)) && f in s.instances
    ensures var t := Apply(cfg, s, CheckWindow(g));
      if Ends(cfg, s, CheckWindow(g), f) then Left(s, t, f) else Stayed(s, t, f)
  {
    EndLeaves(s, g, f);
    PhaseStays(s, g, AwaitingTick, f);
    RunStays(cfg, s, g, f);
  }

  lemma WakeLeaves(cfg: Config, s: State, g: Fiber, f: Fiber)
    requires InstancesMatch(s) && Enabled(s, Wake(g)) && f in s.instances
    ensures var t := Apply(cfg, s, Wake(g));
      if Ends(cfg, s, Wake(g), f) then Left(s, t, f) else Stayed(s, t, f)
  {
    EndLeaves(s, g, f);
    RunStays(cfg, s, g, f);
  }

  /** From its check to its effect: an instance that finds its window open runs its user effect
      once, whichever services it runs with. */
  function ToEffect(cfg: Config, f: Fiber): seq<Step> {
    [CheckWindow(f)] + (if cfg.polling then [Wake(f)] else []) + if cfg.executionStore then [StoreAnswers(f)] else []
  }

  lemma CheckedInstanceRuns(cfg: Config, s: State, f: Fiber)
    requires Enabled(s, CheckWindow(f)) && CanContinue(s.instances[f].entry, s.now)
    ensures var t, i := After(cfg, s, ToEffect(cfg, f)), s.instances[f];
      && t.executions == s.executions + [Execution(i.key, i.entry, s.now, s.now)]
      && f in t.instances && t.instances[f] == Instance(i.key, i.entry, InUserEffect)
  {
    var checked := [CheckWindow(f)];
    AfterOne(cfg, s, [], CheckWindow(f));
    assert [] + [CheckWindow(f)] == checked;
    var awaited := checked + if cfg.polling then [Wake(f)] else [];
    if cfg.polling {
      PollingGoesRound(cfg, s, f);
      AfterOne(cfg, s, checked, Wake(f));
      OpenWindowRuns(cfg, After(cfg, s, checked), f);
    } else {
      OpenWindowRuns(cfg, s, f);
      assert awaited == checked;
    }
    if cfg.executionStore {
      AfterOne(cfg, s, awaited, StoreAnswers(f));
      StoreAnswersRuns(cfg, After(cfg, s, awaited), f);
    } else {
      assert awaited + [] == awaited;
    }
  }

  /** Executions are only ever appended, one at a time, by the instance that runs. */
  lemma OnlyRunsExecute(cfg: Config, s: State, step: Step)
    requires Enabled(s, step)
    ensures var t := Apply(cfg, s, step);
      t.executions != s.executions ==>
        && (step.StoreAnswers? || (!cfg.executionStore && (step.Wake? || (step.CheckWindow? && !cfg.polling))))
        && step.fiber in s.instances
        && |t.executions| == |s.executions| + 1 && s.executions <= t.executions
        && t.executions[|s.executions|].key == s.instances[step.fiber].key
        && t.executions[|s.executions|].entry == s.instances[step.fiber].entry
        && t.executions[|s.executions|].beganAt == s.now
  {
  }
}
