/** What holds in every run of the supervisor: runs begin inside their windows, no window has
    two live instances, a reconcile forgets nothing, and a window that stays scheduled starts
    once exactly as long as its sleeper is not late. */
module SupervisorTheorems {
  import opened Wrappers
  import opened Windows
  import opened Supervisor
  import opened SupervisorInvariant

  lemma AfterOne(cfg: Config, s: State, steps: seq<Step>, step: Step)
    requires Enabled(After(cfg, s, steps), step)
    ensures After(cfg, s, steps + [step]) == Apply(cfg, After(cfg, s, steps), step)
  {
    assert (steps + [step])[..|steps|] == steps;
  }

  // ---- windows ----

  /** Every run is recorded as started inside its window, whichever way it was reached, and
      its user effect never begins before the window opens. */
  lemma {:induction false} RunsStartInTheirWindow(cfg: Config, now: int, steps: seq<Step>)
    ensures forall e | e in After(cfg, Initial(now), steps).executions ::
      Open(e.entry, e.executedAt) && e.executedAt <= e.beganAt && KeyOf(e.key, e.entry)
  {
    RunKeeps(cfg, now, steps);
  }

  ghost predicate EffectsBeginInWindow(s: State) {
    forall e | e in s.executions :: Open(e.entry, e.beganAt)
  }

  /** The user effect itself begins inside its window in every run exactly when the process
      runs without an execution store: with one, the store is asked for prior executions
      between the window check and the effect, and that read may outlast the window. */
  lemma {:induction false} EffectsBeginInWindowIffNoStoreRead(cfg: Config)
    ensures (forall now, steps :: EffectsBeginInWindow(After(cfg, Initial(now), steps))) <==> !cfg.executionStore
  {
    if cfg.executionStore {
      var steps := EffectAfterClose(cfg);
      assert !EffectsBeginInWindow(After(cfg, Initial(0), steps));
    } else {
      forall now, steps
        ensures EffectsBeginInWindow(After(cfg, Initial(now), steps))
      {
        RunKeeps(cfg, now, steps);
      }
    }
  }

  /** A window [0, 1) whose run starts at 0 and whose store answers at 1. */
  lemma EffectAfterClose(cfg: Config) returns (steps: seq<Step>)
    requires cfg.executionStore
    ensures !EffectsBeginInWindow(After(cfg, Initial(0), steps))
  {
    var entry := Entry(None, 0, Some(1));
    var reading := ReadingRun(cfg, entry);
    AfterOne(cfg, Initial(0), reading, Advance(1));
    AfterOne(cfg, Initial(0), reading + [Advance(1)], StoreAnswers(0));
    steps := reading + [Advance(1)] + [StoreAnswers(0)];
    var end := After(cfg, Initial(0), steps);
    assert Execution(EntryKey(entry, 0), entry, 0, 1) == end.executions[|end.executions| - 1];
    assert Execution(EntryKey(entry, 0), entry, 0, 1) in end.executions;
  }

  /** The first instance of an open window comes to read the store at once. */
  lemma ReadingRun(cfg: Config, entry: Entry) returns (steps: seq<Step>)
    requires cfg.executionStore && entry.startAt <= 0 && CanContinue(entry, 0)
    ensures var s := After(cfg, Initial(0), steps);
      s.now == 0 && 0 in s.instances && s.instances[0] == Instance(EntryKey(entry, 0), entry, ReadingStore(0))
  {
    steps := PlacedRun(cfg, entry);
    AfterOne(cfg, Initial(0), steps, CheckWindow(0));
    steps := steps + [CheckWindow(0)];
    if cfg.polling {
      AfterOne(cfg, Initial(0), steps, Wake(0));
      steps := steps + [Wake(0)];
    }
  }

  /** The first reconcile of a schedule with one open window spawns its instance as fiber 0. */
  lemma PlacedRun(cfg: Config, entry: Entry) returns (steps: seq<Step>)
    requires entry.startAt <= 0 && CanContinue(entry, 0)
    ensures var s := After(cfg, Initial(0), steps);
      s.now == 0 && 0 in s.instances && s.instances[0] == Instance(EntryKey(entry, 0), entry, Checking)
    ensures Enabled(After(cfg, Initial(0), steps), EndReconcile)
  {
    var s := Initial(0);
    var items := Materialize([entry]);
    AfterOne(cfg, s, [], SetSchedule([entry]));
    steps := [] + [SetSchedule([entry])];
    AfterOne(cfg, s, steps, Reconcile);
    steps := steps + [Reconcile];
    assert After(cfg, s, steps).driver == Interrupting(items, map[]);
    AfterOne(cfg, s, steps, StartPlacing);
    steps := steps + [StartPlacing];
    AfterOne(cfg, s, steps, PlaceNext);
    steps := steps + [PlaceNext];
  }

  // ---- live instances ----

  /** No window ever has two live instances, and the published count is exactly the number of
      windows with one; the `Math.max(0, …)` clamp of an ending instance never acts. */
  lemma {:induction false} OneLiveInstancePerWindow(cfg: Config, now: int, steps: seq<Step>)
    ensures var s := After(cfg, Initial(now), steps);
      && (forall f, g | f in s.instances && g in s.instances && s.instances[f].key == s.instances[g].key :: f == g)
      && s.activeInstances == |s.runningByEntry|
      && s.runningByEntry.Keys == (set f | f in s.instances :: s.instances[f].key)
      && (s.instances != map[] ==> s.activeInstances >= 1)
  {
    RunKeeps(cfg, now, steps);
    var s := After(cfg, Initial(now), steps);
    if s.instances != map[] {
      var f :| f in s.instances;
      assert s.instances[f].key in s.runningByEntry.Keys;
    }
  }

  // ---- reconcile ----

  /** When a reconcile finishes, every scheduled window is running, completed or pending, and
      every pending sleeper belongs to the schedule that was reconciled. A completed key that
      is not scheduled belongs to an instance that ended since the reconcile began. Which
      reconciles can leave such a key is decided as they begin: `SupervisorLeftovers`. */
  lemma {:induction false} ReconcileForgetsNothing(cfg: Config, now: int, steps: seq<Step>)
    requires Enabled(After(cfg, Initial(now), steps), EndReconcile)
    ensures var s := After(cfg, Initial(now), steps); var keys := Keys(s.driver.items);
      && (forall item | item in s.driver.items :: Accounted(s, item.key))
      && s.pendingStarts.Keys <= keys
      && s.completedEntries <= keys + s.endedSince
      && (s.completedEntries <= keys <==> s.endedSince <= keys)
  {
    RunKeeps(cfg, now, steps);
  }

  // ---- starts ----

  function Starts(s: State, key: Key): nat {
    multiset(s.starts)[key]
  }

  /** Every reconcile of the run finds the key scheduled. */
  ghost predicate StaysScheduled(cfg: Config, s: State, steps: seq<Step>, key: Key)
    decreases |steps|
  {
    steps == [] ||
    var before := After(cfg, s, steps[..|steps| - 1]);
    && StaysScheduled(cfg, s, steps[..|steps| - 1], key)
    && (steps[|steps| - 1].Reconcile? && Enabled(before, Reconcile) ==>
          key in Keys(Materialize(before.schedule)))
  }

  /** The item would be spawned although its sleeper is still pending. */
  predicate Overtaken(s: State, item: Item, nowMillis: int) {
    && item.entry.startAt <= nowMillis && CanContinue(item.entry, nowMillis)
    && item.key in s.pendingStarts
    && item.key !in s.completedEntries && item.key !in s.runningByEntry
  }

  /** The driver is about to start an open window whose sleeper is still pending. */
  predicate LateFor(s: State, key: Key) {
    && Enabled(s, PlaceNext)
    && s.driver.items[s.driver.next].key == key
    && Overtaken(s, s.driver.items[s.driver.next], s.driver.nowMillis)
  }

  /** No reconcile of the run starts the window while its sleeper is pending. */
  ghost predicate Punctual(cfg: Config, s: State, steps: seq<Step>, key: Key)
    decreases |steps|
  {
    steps == [] ||
    var before := After(cfg, s, steps[..|steps| - 1]);
    Punctual(cfg, s, steps[..|steps| - 1], key) && !(steps[|steps| - 1].PlaceNext? && LateFor(before, key))
  }

  /** Not started yet, or started once and settled. */
  ghost predicate StartedOnce(s: State, key: Key) {
    || (Starts(s, key) == 0 && key !in s.runningByEntry)
    || (Starts(s, key) == 1 && key !in s.pendingStarts && (key in s.runningByEntry || key in s.completedEntries))
  }

  lemma SpawnCounts(s: State, key: Key, entry: Entry, other: Key)
    ensures Starts(Spawn(s, key, entry), other) ==
            Starts(s, other) + if key == other && key !in s.runningByEntry then 1 else 0
  {
  }

  lemma PlaceKeepsStartedOnce(s: State, item: Item, nowMillis: int, key: Key)
    requires StartedOnce(s, key)
    requires item.key == key ==> !Overtaken(s, item, nowMillis)
    ensures StartedOnce(Place(s, item, nowMillis), key)
  {
    if item.key in s.completedEntries || item.key in s.runningByEntry {
    } else if item.entry.startAt <= nowMillis && !CanContinue(item.entry, nowMillis) {
      ExpireKeepsStartedOnce(s, item.key, key);
    } else if item.entry.startAt <= nowMillis {
      SpawnKeepsStartedOnce(s, item.key, item.entry, key);
    } else if item.key !in s.pendingStarts {
      ScheduleKeepsStartedOnce(s, item.key, item.entry, key);
    }
  }

  lemma ExpireKeepsStartedOnce(s: State, expired: Key, key: Key)
    requires StartedOnce(s, key)
    ensures StartedOnce(s.(completedEntries := s.completedEntries + {expired}), key)
  {
  }

  lemma SpawnKeepsStartedOnce(s: State, spawned: Key, entry: Entry, key: Key)
    requires StartedOnce(s, key)
    requires spawned !in s.completedEntries && spawned !in s.runningByEntry
    requires spawned == key ==> key !in s.pendingStarts
    ensures StartedOnce(Spawn(s, spawned, entry), key)
  {
    SpawnCounts(s, spawned, entry, key);
  }

  lemma ScheduleKeepsStartedOnce(s: State, scheduled: Key, entry: Entry, key: Key)
    requires StartedOnce(s, key) && scheduled !in s.pendingStarts
    requires scheduled !in s.completedEntries && scheduled !in s.runningByEntry
    ensures StartedOnce(ScheduleFuture(s, scheduled, entry), key)
  {
    if entry.startAt <= s.now {
      SpawnKeepsStartedOnce(s, scheduled, entry, key);
    }
  }

  lemma FireKeepsStartedOnce(s: State, f: Fiber, key: Key)
    requires SleepersMatch(s) && StartedOnce(s, key) && f in s.sleepers
    ensures StartedOnce(SleeperFires(s, f), key)
  {
    SpawnCounts(s, s.sleepers[f].key, s.sleepers[f].entry, key);
  }

  lemma InstanceEndsKeepsStartedOnce(s: State, f: Fiber, key: Key)
    requires InstancesMatch(s) && StartedOnce(s, key) && f in s.instances
    ensures StartedOnce(InstanceEnds(s, f), key)
  {
  }

  lemma InstanceStepKeepsStartedOnce(cfg: Config, s: State, step: Step, key: Key)
    requires InstancesMatch(s) && StartedOnce(s, key) && Enabled(s, step)
    requires step.CheckWindow? || step.Wake? || step.StoreAnswers? || step.UserEffectDone? || step.InstanceDies?
    ensures StartedOnce(Apply(cfg, s, step), key)
  {
    InstanceEndsKeepsStartedOnce(s, step.fiber, key);
  }

  lemma BeginKeepsStartedOnce(s: State, key: Key)
    requires StartedOnce(s, key) && key in Keys(Materialize(s.schedule))
    ensures StartedOnce(BeginReconcile(s), key)
  {
  }

  lemma InterruptKeepsStartedOnce(s: State, f: Fiber, key: Key)
    requires StartedOnce(s, key)
    ensures StartedOnce(InterruptSleeper(s, f), key)
  {
  }

  lemma StepKeepsStartedOnce(cfg: Config, s: State, step: Step, key: Key)
    requires Inv(cfg, s) && StartedOnce(s, key) && Enabled(s, step)
    requires step.Reconcile? ==> key in Keys(Materialize(s.schedule))
    requires step.PlaceNext? ==> !LateFor(s, key)
    ensures StartedOnce(Apply(cfg, s, step), key)
  {
    match step {
      case SetSchedule(_) =>
      case Advance(_) =>
      case Reconcile => BeginKeepsStartedOnce(s, key);
      case InterruptStale(stale) => InterruptKeepsStartedOnce(s, s.driver.stale[stale], key);
      case StartPlacing =>
      case PlaceNext => PlaceKeepsStartedOnce(s, s.driver.items[s.driver.next], s.driver.nowMillis, key);
      case EndReconcile =>
      case Fire(f) => FireKeepsStartedOnce(s, f, key);
      case _ => InstanceStepKeepsStartedOnce(cfg, s, step, key);
    }
  }

  /** A window that stays scheduled and is never started while its sleeper is pending is
      started at most once over the whole run. A reconcile that only finds the window closed,
      running or completed while its sleeper is pending does no harm. */
  lemma {:induction false} StartedAtMostOnce(cfg: Config, now: int, steps: seq<Step>, key: Key)
    requires StaysScheduled(cfg, Initial(now), steps, key)
    requires Punctual(cfg, Initial(now), steps, key)
    ensures StartedOnce(After(cfg, Initial(now), steps), key)
    ensures Starts(After(cfg, Initial(now), steps), key) <= 1
    decreases |steps|
  {
    if steps != [] {
      var init := steps[..|steps| - 1];
      StartedAtMostOnce(cfg, now, init, key);
      RunKeeps(cfg, now, init);
      var before := After(cfg, Initial(now), init);
      if Enabled(before, steps[|steps| - 1]) {
        StepKeepsStartedOnce(cfg, before, steps[|steps| - 1], key);
      }
    }
  }

  /** A sleeper fires for a window that has been started before and is not running. */
  predicate Restarts(s: State, step: Step, key: Key) {
    step.Fire? && Enabled(s, step) && s.sleepers[step.fiber].key == key && key !in s.runningByEntry && Starts(s, key) >= 1
  }

  ghost predicate NeverRestarts(cfg: Config, s: State, steps: seq<Step>, key: Key)
    decreases |steps|
  {
    steps == [] ||
    var init := steps[..|steps| - 1];
    NeverRestarts(cfg, s, init, key) && !Restarts(After(cfg, s, init), steps[|steps| - 1], key)
  }

  /** A window that has been started is running or completed. */
  ghost predicate Settled(s: State, key: Key) {
    Starts(s, key) >= 1 ==> key in s.runningByEntry || key in s.completedEntries
  }

  /** How one step may move the number of starts. */
  ghost predicate StartsMove(s: State, t: State, step: Step, key: Key) {
    && Settled(t, key)
    && Starts(s, key) <= Starts(t, key) <= Starts(s, key) + 1
    && (Starts(s, key) >= 1 ==> (Starts(t, key) > Starts(s, key) <==> Restarts(s, step, key)))
  }

  lemma SpawnMovesStarts(s: State, spawned: Key, entry: Entry, step: Step, key: Key)
    requires Settled(s, key) && !step.Fire? && spawned !in s.completedEntries && spawned !in s.runningByEntry
    ensures StartsMove(s, Spawn(s, spawned, entry), step, key)
  {
    SpawnCounts(s, spawned, entry, key);
  }

  lemma PlaceMovesStarts(s: State, item: Item, nowMillis: int, step: Step, key: Key)
    requires Settled(s, key) && !step.Fire?
    ensures StartsMove(s, Place(s, item, nowMillis), step, key)
  {
    if item.key in s.completedEntries || item.key in s.runningByEntry {
    } else if item.entry.startAt <= nowMillis && !CanContinue(item.entry, nowMillis) {
    } else if item.entry.startAt <= nowMillis || (item.key !in s.pendingStarts && item.entry.startAt <= s.now) {
      SpawnMovesStarts(s, item.key, item.entry, step, key);
    }
  }

  lemma FireMovesStarts(s: State, f: Fiber, key: Key)
    requires Settled(s, key) && Enabled(s, Fire(f))
    ensures StartsMove(s, SleeperFires(s, f), Fire(f), key)
  {
    SpawnCounts(s, s.sleepers[f].key, s.sleepers[f].entry, key);
  }

  lemma InstanceMovesStarts(cfg: Config, s: State, step: Step, key: Key)
    requires InstancesMatch(s) && Settled(s, key) && Enabled(s, step)
    requires step.CheckWindow? || step.Wake? || step.StoreAnswers? || step.UserEffectDone? || step.InstanceDies?
    ensures StartsMove(s, Apply(cfg, s, step), step, key)
  {
    InstanceEndsKeepsSettled(s, step.fiber, key);
  }

  lemma InstanceEndsKeepsSettled(s: State, f: Fiber, key: Key)
    requires InstancesMatch(s) && Settled(s, key) && f in s.instances
    ensures Settled(InstanceEnds(s, f), key)
  {
  }

  lemma BeginMovesStarts(s: State, step: Step, key: Key)
    requires Settled(s, key) && !step.Fire? && key in Keys(Materialize(s.schedule))
    ensures StartsMove(s, BeginReconcile(s), step, key)
  {
  }

  lemma InterruptMovesStarts(cfg: Config, s: State, stale: Key, key: Key)
    requires Settled(s, key) && Enabled(s, InterruptStale(stale))
    ensures StartsMove(s, Apply(cfg, s, InterruptStale(stale)), InterruptStale(stale), key)
  {
  }

  lemma StepMovesStarts(cfg: Config, s: State, step: Step, key: Key)
    requires Inv(cfg, s) && Settled(s, key) && Enabled(s, step)
    requires step.Reconcile? ==> key in Keys(Materialize(s.schedule))
    ensures StartsMove(s, Apply(cfg, s, step), step, key)
  {
    match step {
      case SetSchedule(_) =>
      case Advance(_) =>
      case Reconcile => BeginMovesStarts(s, step, key);
      case InterruptStale(stale) => InterruptMovesStarts(cfg, s, stale, key);
      case StartPlacing =>
      case PlaceNext => PlaceMovesStarts(s, s.driver.items[s.driver.next], s.driver.nowMillis, step, key);
      case EndReconcile =>
      case Fire(f) => FireMovesStarts(s, f, key);
      case _ => InstanceMovesStarts(cfg, s, step, key);
    }
  }

  /** A window that stays scheduled is started at most once in a run if and only if no sleeper
      of the run fires for it after it was started and is no longer running. */
  lemma {:induction false} StartedOnceIffNoRestart(cfg: Config, now: int, steps: seq<Step>, key: Key)
    requires StaysScheduled(cfg, Initial(now), steps, key)
    ensures Settled(After(cfg, Initial(now), steps), key)
    ensures Starts(After(cfg, Initial(now), steps), key) <= 1 <==> NeverRestarts(cfg, Initial(now), steps, key)
    decreases |steps|
  {
    if steps != [] {
      var init, last := steps[..|steps| - 1], steps[|steps| - 1];
      StartedOnceIffNoRestart(cfg, now, init, key);
      RunKeeps(cfg, now, init);
      if Enabled(After(cfg, Initial(now), init), last) {
        StepMovesStarts(cfg, After(cfg, Initial(now), init), last, key);
      }
    }
  }

  /** The timing assumption is needed wherever it could fail: whenever a reconcile overtakes
      the pending sleeper of an open window, the run can go on to start that window twice.
      The sleeper only asks whether the window is running, not whether it already ran. */
  lemma {:induction false} LateSleeperStartsTwice(cfg: Config, s: State, key: Key)
    requires Inv(cfg, s) && LateFor(s, key)
    ensures var steps := [PlaceNext, InstanceDies(s.nextFiber), Fire(s.pendingStarts[key].fiber)];
      Starts(After(cfg, s, steps), key) == Starts(s, key) + 2
  {
    var first, sleeper := s.nextFiber, s.pendingStarts[key].fiber;
    LateSleeperIsDue(cfg, s, key);
    OvertakingSpawns(cfg, s, key);
    DeadInstanceStartsAgain(cfg, Apply(cfg, s, PlaceNext), first, sleeper);
    AfterThree(cfg, s, PlaceNext, InstanceDies(first), Fire(sleeper));
  }

  lemma AfterThree(cfg: Config, s: State, a: Step, b: Step, c: Step)
    requires Enabled(s, a) && Enabled(Apply(cfg, s, a), b)
    requires Enabled(Apply(cfg, Apply(cfg, s, a), b), c)
    ensures After(cfg, s, [a, b, c]) == Apply(cfg, Apply(cfg, Apply(cfg, s, a), b), c)
  {
    assert [] + [a] == [a] && [a] + [b] == [a, b] && [a, b] + [c] == [a, b, c];
    AfterOne(cfg, s, [], a);
    AfterOne(cfg, s, [a], b);
    AfterOne(cfg, s, [a, b], c);
  }

  lemma DeadInstanceStartsAgain(cfg: Config, s: State, f: Fiber, sleeper: Fiber)
    requires f in s.instances && sleeper in s.sleepers && s.sleepers[sleeper].wakeAt <= s.now
    requires s.instances[f].key == s.sleepers[sleeper].key
    ensures var t := Apply(cfg, s, InstanceDies(f)); var key := s.sleepers[sleeper].key;
      Enabled(t, Fire(sleeper)) && Starts(Apply(cfg, t, Fire(sleeper)), key) == Starts(s, key) + 1
  {
    var t := InstanceEnds(s, f);
    SpawnCounts(t, s.sleepers[sleeper].key, s.sleepers[sleeper].entry, s.sleepers[sleeper].key);
  }

  lemma OvertakingSpawns(cfg: Config, s: State, key: Key)
    requires LateFor(s, key)
    ensures var s1, f := Apply(cfg, s, PlaceNext), s.nextFiber;
      && f in s1.instances && s1.instances[f].key == key
      && s1.sleepers == s.sleepers && s1.now == s.now && s1.pendingStarts == s.pendingStarts
      && Starts(s1, key) == Starts(s, key) + 1
  {
    SpawnCounts(s, key, s.driver.items[s.driver.next].entry, key);
  }

  lemma LateSleeperIsDue(cfg: Config, s: State, key: Key)
    requires Inv(cfg, s) && LateFor(s, key)
    ensures s.pendingStarts[key].fiber in s.sleepers
    ensures Enabled(s, Fire(s.pendingStarts[key].fiber))
    ensures s.sleepers[s.pendingStarts[key].fiber].key == key
  {
    var item, sleeper := s.driver.items[s.driver.next], s.sleepers[s.pendingStarts[key].fiber];
    var j: nat :| key == EntryKey(sleeper.entry, j);
    EntryKeyInjective(item.entry, s.driver.next, sleeper.entry, j);
  }

  /** The first reconcile of a schedule, when it starts to place. */
  function FirstPlacing(entries: seq<Entry>): State {
    Initial(0).(schedule := entries, driver := Placing(Materialize(entries), 0, 0))
  }

  lemma FirstPlacingRun(cfg: Config, entries: seq<Entry>, key: Key) returns (steps: seq<Step>)
    requires key in Keys(Materialize(entries))
    ensures After(cfg, Initial(0), steps) == FirstPlacing(entries)
    ensures StaysScheduled(cfg, Initial(0), steps, key)
  {
    var s := Initial(0);
    steps := [];
    steps := Extend(cfg, s, steps, SetSchedule(entries), key);
    assert After(cfg, s, steps) == s.(schedule := entries);
    steps := Extend(cfg, s, steps, Reconcile, key);
    BeganFirst(entries);
    steps := Extend(cfg, s, steps, StartPlacing, key);
  }

  lemma BeganFirst(entries: seq<Entry>)
    ensures BeginReconcile(Initial(0).(schedule := entries)) ==
            Initial(0).(schedule := entries, driver := Interrupting(Materialize(entries), map[]))
  {
    assert StaleStarts(Materialize(entries), map[]) == map[];
    assert {} * Keys(Materialize(entries)) == {};
  }

  /** The first reconcile of a schedule with one future window leaves its sleeper pending. */
  lemma FutureRun(cfg: Config, entry: Entry, key: Key) returns (steps: seq<Step>)
    requires entry.startAt > 0 && key == EntryKey(entry, 0)
    ensures var s := After(cfg, Initial(0), steps);
      && s.now == 0 && s.driver.Idle? && s.schedule == [entry]
      && s.pendingStarts == map[key := PendingStart(entry.startAt, 0)]
      && s.runningByEntry == map[] && s.completedEntries == {}
    ensures StaysScheduled(cfg, Initial(0), steps, key)
  {
    OneItem(entry);
    steps := FirstPlacingRun(cfg, [entry], key);
    PlacesFuture(cfg, entry, key);
    steps := Extend(cfg, Initial(0), steps, PlaceNext, key);
    steps := Extend(cfg, Initial(0), steps, EndReconcile, key);
  }

  lemma PlacesFuture(cfg: Config, entry: Entry, key: Key)
    requires entry.startAt > 0 && key == EntryKey(entry, 0)
    ensures Enabled(FirstPlacing([entry]), PlaceNext)
    ensures var s := Apply(cfg, FirstPlacing([entry]), PlaceNext);
      && s.now == 0 && s.schedule == [entry] && s.driver == Placing(Materialize([entry]), 1, 0)
      && s.pendingStarts == map[key := PendingStart(entry.startAt, 0)]
      && s.runningByEntry == map[] && s.completedEntries == {}
  {
    OneItem(entry);
  }

  lemma OneItem(entry: Entry)
    ensures Materialize([entry]) == [Item(EntryKey(entry, 0), entry)]
    ensures Keys(Materialize([entry])) == {EntryKey(entry, 0)}
  {
    assert Materialize([entry])[0] in Materialize([entry]);
  }

  /** Such a state is reached: a window opening at 5, reconciled at 0 and again at 5 before
      the timer of its sleeper is served. */
  lemma {:induction false} OvertakenSleeperIsReachable(cfg: Config) returns (steps: seq<Step>, key: Key)
    ensures var s := After(cfg, Initial(0), steps);
      LateFor(s, key) && StaysScheduled(cfg, Initial(0), steps, key)
  {
    var entry := Entry(None, 5, None);
    var s, items := Initial(0), Materialize([entry]);
    key := EntryKey(entry, 0);
    OneItem(entry);
    steps := FutureRun(cfg, entry, key);
    steps := Extend(cfg, s, steps, Advance(5), key);
    steps := Extend(cfg, s, steps, Reconcile, key);
    assert !IsStale(items, key, PendingStart(5, 0));
    assert After(cfg, s, steps).driver == Interrupting(items, map[]);
    steps := Extend(cfg, s, steps, StartPlacing, key);
  }

  lemma Extend(cfg: Config, s: State, steps: seq<Step>, step: Step, key: Key) returns (longer: seq<Step>)
    requires Enabled(After(cfg, s, steps), step) && StaysScheduled(cfg, s, steps, key)
    requires step.Reconcile? ==> key in Keys(Materialize(After(cfg, s, steps).schedule))
    ensures longer == steps + [step]
    ensures After(cfg, s, longer) == Apply(cfg, After(cfg, s, steps), step)
    ensures StaysScheduled(cfg, s, longer, key)
  {
    longer := steps + [step];
    AfterOne(cfg, s, steps, step);
    assert longer[..|longer| - 1] == steps;
  }
}
