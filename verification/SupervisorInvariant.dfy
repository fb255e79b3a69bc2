/** What every step of the supervisor keeps, whatever the interleaving. */
module SupervisorInvariant {
  import opened Wrappers
  import opened Windows
  import opened Supervisor

  /** The key was computed from this very entry. */
  ghost predicate KeyOf(key: Key, entry: Entry) {
    exists index: nat :: key == EntryKey(entry, index)
  }

  /** Running keys and live instances are two views of one bijection. */
  ghost predicate Paired(running: map<Key, Fiber>, instances: map<Fiber, Instance>, next: Fiber) {
    && (forall k | k in running :: running[k] in instances && instances[running[k]].key == k)
    && (forall f | f in instances ::
          f < next && instances[f].key in running && running[instances[f].key] == f)
  }

  ghost predicate InstancesMatch(s: State) {
    && Paired(s.runningByEntry, s.instances, s.nextFiber)
    && s.activeInstances == |s.runningByEntry|
  }

  /** Pending keys and live sleepers are two views of one bijection. */
  ghost predicate SleepersMatch(s: State) {
    && (forall k | k in s.pendingStarts ::
          s.pendingStarts[k].fiber in s.sleepers && s.sleepers[s.pendingStarts[k].fiber].key == k)
    && (forall f | f in s.sleepers ::
          f < s.nextFiber && s.sleepers[f].key in s.pendingStarts &&
          s.pendingStarts[s.sleepers[f].key] == PendingStart(s.sleepers[f].entry.startAt, f) &&
          s.sleepers[f].wakeAt == s.sleepers[f].entry.startAt &&
          KeyOf(s.sleepers[f].key, s.sleepers[f].entry))
  }

  ghost predicate InstanceOk(cfg: Config, i: Instance, now: int) {
    && i.entry.startAt <= now
    && KeyOf(i.key, i.entry)
    && (i.phase.ReadingStore? ==>
          cfg.executionStore && i.phase.executedAt <= now && Open(i.entry, i.phase.executedAt))
  }

  ghost predicate ExecutionOk(cfg: Config, e: Execution) {
    && KeyOf(e.key, e.entry)
    && Open(e.entry, e.executedAt)
    && e.executedAt <= e.beganAt
    && (!cfg.executionStore ==> e.beganAt == e.executedAt)
  }

  ghost predicate TimesOk(cfg: Config, s: State) {
    && (forall f | f in s.instances :: InstanceOk(cfg, s.instances[f], s.now))
    && (forall e | e in s.executions :: ExecutionOk(cfg, e))
  }

  ghost predicate Accounted(s: State, key: Key) {
    key in s.runningByEntry || key in s.completedEntries || key in s.pendingStarts
  }

  /** Every item carries the key of its entry at its own position. */
  ghost predicate Keyed(items: seq<Item>) {
    forall i | 0 <= i < |items| :: items[i].key == EntryKey(items[i].entry, i)
  }

  /** Only instances that ended since the reconcile began are completed but not scheduled. */
  ghost predicate CompletedOk(s: State, items: seq<Item>) {
    s.endedSince <= s.completedEntries <= Keys(items) + s.endedSince
  }

  /** The captured stale sleepers are the pending ones that are not scheduled. */
  ghost predicate StaleOk(s: State, items: seq<Item>, stale: map<Key, Fiber>) {
    && (forall k | k in stale :: k !in Keys(items))
    && (forall k | k in s.pendingStarts :: k in Keys(items) || (k in stale && stale[k] == s.pendingStarts[k].fiber))
    && (forall k, g | k in stale && g in s.sleepers && stale[k] == g :: s.sleepers[g].key == k)
    && (forall k | k in stale :: stale[k] < s.nextFiber)
  }

  ghost predicate PlacedOk(s: State, items: seq<Item>, next: nat)
    requires next <= |items|
  {
    forall i | 0 <= i < next :: Accounted(s, items[i].key)
  }

  /** What a reconcile in progress has already established. */
  ghost predicate DriverOk(s: State) {
    match s.driver
    case Idle => true
    case Interrupting(items, stale) =>
      && Keyed(items)
      && CompletedOk(s, items)
      && StaleOk(s, items, stale)
    case Placing(items, next, nowMillis) => PlacingOk(s, items, next, nowMillis)
  }

  ghost predicate PlacingOk(s: State, items: seq<Item>, next: nat, nowMillis: int) {
    && Keyed(items)
    && CompletedOk(s, items)
    && (forall k | k in s.pendingStarts :: k in Keys(items))
    && next <= |items|
    && nowMillis <= s.now
    && PlacedOk(s, items, next)
  }

  ghost predicate Inv(cfg: Config, s: State) {
    InstancesMatch(s) && SleepersMatch(s) && TimesOk(cfg, s) && DriverOk(s)
  }

  // ---- the building blocks keep it ----

  lemma PairedAdd(running: map<Key, Fiber>, instances: map<Fiber, Instance>, next: Fiber, i: Instance)
    requires Paired(running, instances, next) && i.key !in running
    ensures Paired(running[i.key := next], instances[next := i], next + 1)
  {
  }

  lemma MapSizes(m: map<Key, Fiber>, k: Key, f: Fiber)
    ensures k !in m ==> |m[k := f]| == |m| + 1
    ensures k in m ==> |m - {k}| == |m| - 1
  {
    assert m[k := f].Keys == m.Keys + {k};
    assert (m - {k}).Keys == m.Keys - {k};
  }

  lemma SpawnKeepsInstances(s: State, key: Key, entry: Entry)
    requires InstancesMatch(s)
    ensures InstancesMatch(Spawn(s, key, entry))
    ensures key in Spawn(s, key, entry).runningByEntry
  {
    if key !in s.runningByEntry {
      PairedAdd(s.runningByEntry, s.instances, s.nextFiber, Instance(key, entry, Checking));
      MapSizes(s.runningByEntry, key, s.nextFiber);
    }
  }

  lemma SpawnKeepsTimes(cfg: Config, s: State, key: Key, entry: Entry)
    requires TimesOk(cfg, s) && entry.startAt <= s.now && KeyOf(key, entry)
    ensures TimesOk(cfg, Spawn(s, key, entry))
  {
  }

  lemma SpawnKeepsSleepers(s: State, key: Key, entry: Entry)
    requires SleepersMatch(s)
    ensures SleepersMatch(Spawn(s, key, entry))
  {
  }

  lemma SpawnKeepsDriver(s: State, key: Key, entry: Entry)
    requires DriverOk(s)
    ensures DriverOk(Spawn(s, key, entry))
  {
  }

  lemma SpawnKeeps(cfg: Config, s: State, key: Key, entry: Entry)
    requires Inv(cfg, s) && entry.startAt <= s.now && KeyOf(key, entry)
    ensures Inv(cfg, Spawn(s, key, entry))
    ensures key in Spawn(s, key, entry).runningByEntry
  {
    SpawnKeepsInstances(s, key, entry);
    SpawnKeepsTimes(cfg, s, key, entry);
    SpawnKeepsSleepers(s, key, entry);
    SpawnKeepsDriver(s, key, entry);
  }

  lemma InstanceEndsKeepsInstances(s: State, f: Fiber)
    requires InstancesMatch(s) && f in s.instances
    ensures InstancesMatch(InstanceEnds(s, f))
  {
    MapSizes(s.runningByEntry, s.instances[f].key, f);
  }

  lemma InstanceEndsKeepsDriver(s: State, f: Fiber)
    requires DriverOk(s) && f in s.instances
    ensures DriverOk(InstanceEnds(s, f))
  {
  }

  lemma InstanceEndsKeeps(cfg: Config, s: State, f: Fiber)
    requires Inv(cfg, s) && f in s.instances
    ensures Inv(cfg, InstanceEnds(s, f))
  {
    InstanceEndsKeepsInstances(s, f);
    InstanceEndsKeepsDriver(s, f);
  }

  lemma SleeperEndsKeepsDriver(s: State, f: Fiber)
    requires DriverOk(s) && f in s.sleepers
    requires s.driver.Placing? ==> Accounted(SleeperEnds(s, f), s.sleepers[f].key)
    ensures DriverOk(SleeperEnds(s, f))
  {
  }

  lemma SleeperEndsKeepsSleepers(s: State, f: Fiber)
    requires SleepersMatch(s) && f in s.sleepers
    ensures SleepersMatch(SleeperEnds(s, f))
  {
  }

  lemma SleeperEndsKeeps(cfg: Config, s: State, f: Fiber)
    requires Inv(cfg, s) && f in s.sleepers
    requires s.driver.Placing? ==> Accounted(SleeperEnds(s, f), s.sleepers[f].key)
    ensures Inv(cfg, SleeperEnds(s, f))
  {
    SleeperEndsKeepsDriver(s, f);
    SleeperEndsKeepsSleepers(s, f);
  }

  /** A forked sleeper: only the sleeper tables and the fiber counter change. */
  function Sleep(s: State, key: Key, entry: Entry): State {
    s.(
      sleepers := s.sleepers[s.nextFiber := Sleeper(key, entry, entry.startAt)],
      pendingStarts := s.pendingStarts[key := PendingStart(entry.startAt, s.nextFiber)],
      nextFiber := s.nextFiber + 1)
  }

  lemma SleepKeepsSleepers(s: State, key: Key, entry: Entry)
    requires SleepersMatch(s) && KeyOf(key, entry) && key !in s.pendingStarts
    ensures SleepersMatch(Sleep(s, key, entry))
  {
  }

  lemma SleepKeepsDriver(s: State, key: Key, entry: Entry)
    requires DriverOk(s) && s.driver.Placing? && key in Keys(s.driver.items)
    ensures DriverOk(Sleep(s, key, entry))
  {
  }

  lemma ScheduleFutureKeeps(cfg: Config, s: State, key: Key, entry: Entry)
    requires Inv(cfg, s) && KeyOf(key, entry) && key !in s.pendingStarts
    requires s.driver.Placing? && key in Keys(s.driver.items)
    ensures Inv(cfg, ScheduleFuture(s, key, entry))
    ensures Accounted(ScheduleFuture(s, key, entry), key)
  {
    if entry.startAt <= s.now {
      SpawnKeeps(cfg, s, key, entry);
    } else {
      assert ScheduleFuture(s, key, entry) == Sleep(s, key, entry);
      SleepKeepsSleepers(s, key, entry);
      SleepKeepsDriver(s, key, entry);
    }
  }

  lemma ExpireKeeps(cfg: Config, s: State, key: Key)
    requires Inv(cfg, s) && s.driver.Placing? && key in Keys(s.driver.items)
    ensures Inv(cfg, s.(completedEntries := s.completedEntries + {key}))
  {
    var t := s.(completedEntries := s.completedEntries + {key});
    assert DriverOk(t);
  }

  lemma PlaceKeeps(cfg: Config, s: State, item: Item, nowMillis: int)
    requires Inv(cfg, s) && s.driver.Placing? && nowMillis == s.driver.nowMillis
    requires KeyOf(item.key, item.entry) && item.key in Keys(s.driver.items)
    ensures Inv(cfg, Place(s, item, nowMillis))
    ensures Accounted(Place(s, item, nowMillis), item.key)
    ensures Place(s, item, nowMillis).driver == s.driver
  {
    if item.key in s.completedEntries || item.key in s.runningByEntry {
    } else if item.entry.startAt <= nowMillis {
      if CanContinue(item.entry, nowMillis) {
        SpawnKeeps(cfg, s, item.key, item.entry);
      } else {
        ExpireKeeps(cfg, s, item.key);
      }
    } else if item.key !in s.pendingStarts {
      ScheduleFutureKeeps(cfg, s, item.key, item.entry);
    }
  }

  lemma PlaceItemKeeps(cfg: Config, s: State, item: Item)
    requires Inv(cfg, s) && Enabled(s, PlaceNext) && item == s.driver.items[s.driver.next]
    ensures var t := Place(s, item, s.driver.nowMillis);
      Inv(cfg, t) && Accounted(t, item.key) && t.driver == s.driver
  {
    ItemIsKeyed(s.driver.items, s.driver.next);
    PlaceKeeps(cfg, s, item, s.driver.nowMillis);
  }

  /** The state between placing an item and moving the cursor. */
  lemma Placed(cfg: Config, s: State) returns (t: State)
    requires Enabled(s, PlaceNext) && Inv(cfg, s)
    ensures Inv(cfg, t) && t == Place(s, s.driver.items[s.driver.next], s.driver.nowMillis)
    ensures t.driver == s.driver && Accounted(t, s.driver.items[s.driver.next].key)
  {
    t := Place(s, s.driver.items[s.driver.next], s.driver.nowMillis);
    PlaceItemKeeps(cfg, s, s.driver.items[s.driver.next]);
  }

  lemma PlaceThenAdvance(cfg: Config, s: State, t: State)
    requires Enabled(s, PlaceNext)
    requires t == Place(s, s.driver.items[s.driver.next], s.driver.nowMillis) && t.driver == s.driver
    ensures Apply(cfg, s, PlaceNext) == t.(driver := t.driver.(next := t.driver.next + 1))
  {
  }

  /** Placing one item is placing it, then moving the cursor. */
  lemma PlaceNextSplits(cfg: Config, s: State) returns (t: State)
    requires Enabled(s, PlaceNext) && Inv(cfg, s)
    ensures Inv(cfg, t) && t.driver == s.driver && Accounted(t, s.driver.items[s.driver.next].key)
    ensures Apply(cfg, s, PlaceNext) == t.(driver := t.driver.(next := t.driver.next + 1))
  {
    t := Placed(cfg, s);
    PlaceThenAdvance(cfg, s, t);
  }

  lemma PlaceNextKeeps(cfg: Config, s: State)
    requires Enabled(s, PlaceNext) && Inv(cfg, s)
    ensures Inv(cfg, Apply(cfg, s, PlaceNext))
  {
    var t := PlaceNextSplits(cfg, s);
    var u := Advanced(cfg, t);
  }

  lemma ItemIsKeyed(items: seq<Item>, i: nat)
    requires Keyed(items) && i < |items|
    ensures KeyOf(items[i].key, items[i].entry) && items[i].key in Keys(items)
  {
    assert items[i].key == EntryKey(items[i].entry, i);
  }

  lemma Advanced(cfg: Config, s: State) returns (t: State)
    requires Inv(cfg, s) && s.driver.Placing? && s.driver.next < |s.driver.items|
    requires Accounted(s, s.driver.items[s.driver.next].key)
    ensures Inv(cfg, t) && t == s.(driver := s.driver.(next := s.driver.next + 1))
  {
    t := s.(driver := s.driver.(next := s.driver.next + 1));
    OneMorePlaced(s, s.driver.items, s.driver.next, t.driver);
    DriverAside(cfg, s, t.driver);
  }

  lemma OneMorePlaced(s: State, items: seq<Item>, next: nat, driver: Driver)
    requires next < |items| && PlacedOk(s, items, next) && Accounted(s, items[next].key)
    ensures PlacedOk(s.(driver := driver), items, next + 1)
  {
  }

  /** Only the driver's own invariant reads the driver. */
  lemma DriverAside(cfg: Config, s: State, driver: Driver)
    requires InstancesMatch(s) && SleepersMatch(s) && TimesOk(cfg, s)
    ensures var t := s.(driver := driver); InstancesMatch(t) && SleepersMatch(t) && TimesOk(cfg, t)
  {
  }

  /** The second half of the staleness test never decides anything: a key fixes its start. */
  lemma {:induction false} StaleMeansUnscheduled(s: State, items: seq<Item>, key: Key)
    requires SleepersMatch(s) && key in s.pendingStarts && Keyed(items)
    ensures IsStale(items, key, s.pendingStarts[key]) <==> key !in Keys(items)
  {
    var sleeper := s.sleepers[s.pendingStarts[key].fiber];
    match Find(items, key)
    case None =>
    case Some(current) =>
      var i :| 0 <= i < |items| && items[i] == Item(key, current);
      var j: nat :| key == EntryKey(sleeper.entry, j);
      EntryKeyInjective(current, i, sleeper.entry, j);
  }

  lemma BeginReconcileKeeps(cfg: Config, s: State)
    requires Inv(cfg, s) && s.driver.Idle?
    ensures Inv(cfg, BeginReconcile(s))
  {
    var items := Materialize(s.schedule);
    forall k | k in s.pendingStarts
      ensures IsStale(items, k, s.pendingStarts[k]) <==> k !in Keys(items)
    {
      StaleMeansUnscheduled(s, items, k);
    }
  }

  lemma InterruptStaleKeeps(cfg: Config, s: State, key: Key)
    requires Inv(cfg, s) && Enabled(s, InterruptStale(key))
    ensures Inv(cfg, Apply(cfg, s, InterruptStale(key)))
  {
    var f := s.driver.stale[key];
    var t := InterruptSleeper(s, f);
    if f in s.sleepers {
      SleeperEndsKeeps(cfg, s, f);
    }
    OneLessStale(s, key);
    DriverAside(cfg, t, Interrupting(s.driver.items, s.driver.stale - {key}));
  }

  lemma OneLessStale(s: State, key: Key)
    requires SleepersMatch(s) && Enabled(s, InterruptStale(key)) && DriverOk(s)
    ensures DriverOk(InterruptSleeper(s, s.driver.stale[key]).(
                       driver := Interrupting(s.driver.items, s.driver.stale - {key})))
  {
    var stale := s.driver.stale - {key};
    var t := InterruptSleeper(s, s.driver.stale[key]).(driver := Interrupting(s.driver.items, stale));
    OneLessCaptured(s, key, t);
  }

  lemma OneLessCaptured(s: State, key: Key, t: State)
    requires SleepersMatch(s) && s.driver.Interrupting? && key in s.driver.stale
    requires StaleOk(s, s.driver.items, s.driver.stale)
    requires var u := InterruptSleeper(s, s.driver.stale[key]);
      t.pendingStarts == u.pendingStarts && t.sleepers == u.sleepers && t.nextFiber == s.nextFiber
    ensures StaleOk(t, s.driver.items, s.driver.stale - {key})
  {
  }

  lemma SetPhaseKeepsInstances(s: State, f: Fiber, phase: Phase)
    requires InstancesMatch(s) && f in s.instances
    ensures InstancesMatch(SetPhase(s, f, phase))
  {
  }

  lemma SetPhaseKeepsTimes(cfg: Config, s: State, f: Fiber, phase: Phase)
    requires TimesOk(cfg, s) && f in s.instances
    requires phase.ReadingStore? ==>
      cfg.executionStore && phase.executedAt <= s.now && Open(s.instances[f].entry, phase.executedAt)
    ensures TimesOk(cfg, SetPhase(s, f, phase))
  {
  }

  lemma SetPhaseKeeps(cfg: Config, s: State, f: Fiber, phase: Phase)
    requires Inv(cfg, s) && f in s.instances
    requires phase.ReadingStore? ==>
      cfg.executionStore && phase.executedAt <= s.now && Open(s.instances[f].entry, phase.executedAt)
    ensures Inv(cfg, SetPhase(s, f, phase))
  {
    SetPhaseKeepsInstances(s, f, phase);
    SetPhaseKeepsTimes(cfg, s, f, phase);
    SetPhaseKeepsRest(s, f, phase);
  }

  lemma SetPhaseKeepsRest(s: State, f: Fiber, phase: Phase)
    requires SleepersMatch(s) && DriverOk(s) && f in s.instances
    ensures SleepersMatch(SetPhase(s, f, phase)) && DriverOk(SetPhase(s, f, phase))
  {
  }

  lemma LogKeeps(cfg: Config, s: State, e: Execution)
    requires Inv(cfg, s) && ExecutionOk(cfg, e)
    ensures Inv(cfg, s.(executions := s.executions + [e]))
  {
    assert TimesOk(cfg, s.(executions := s.executions + [e]));
  }

  lemma EnterUserEffectKeeps(cfg: Config, s: State, f: Fiber, executedAt: int)
    requires Inv(cfg, s) && f in s.instances
    requires executedAt <= s.now && Open(s.instances[f].entry, executedAt)
    requires !cfg.executionStore ==> executedAt == s.now
    ensures Inv(cfg, EnterUserEffect(s, f, executedAt))
  {
    var i := s.instances[f];
    SetPhaseKeeps(cfg, s, f, InUserEffect);
    LogKeeps(cfg, SetPhase(s, f, InUserEffect), Execution(i.key, i.entry, executedAt, s.now));
  }

  lemma StartRunKeeps(cfg: Config, s: State, f: Fiber)
    requires Inv(cfg, s) && f in s.instances && CanContinue(s.instances[f].entry, s.now)
    ensures Inv(cfg, StartRun(cfg, s, f))
  {
    if cfg.executionStore {
      SetPhaseKeeps(cfg, s, f, ReadingStore(s.now));
    } else {
      EnterUserEffectKeeps(cfg, s, f, s.now);
    }
  }

  lemma InstanceStepKeeps(cfg: Config, s: State, step: Step)
    requires Inv(cfg, s) && Enabled(s, step)
    requires step.CheckWindow? || step.Wake? || step.UserEffectDone? || step.InstanceDies?
    ensures Inv(cfg, Apply(cfg, s, step))
  {
    var f := step.fiber;
    match step {
      case CheckWindow(_) => CheckWindowKeeps(cfg, s, f);
      case Wake(_) =>
        if CanContinue(s.instances[f].entry, s.now) {
          StartRunKeeps(cfg, s, f);
        } else {
          InstanceEndsKeeps(cfg, s, f);
        }
      case UserEffectDone(_) =>
        SetPhaseKeeps(cfg, s, f, Checking);
        InstanceEndsKeeps(cfg, s, f);
      case InstanceDies(_) => InstanceEndsKeeps(cfg, s, f);
    }
  }

  lemma CheckWindowKeeps(cfg: Config, s: State, f: Fiber)
    requires Inv(cfg, s) && Enabled(s, CheckWindow(f))
    ensures Inv(cfg, Apply(cfg, s, CheckWindow(f)))
  {
    if !CanContinue(s.instances[f].entry, s.now) {
      InstanceEndsKeeps(cfg, s, f);
    } else if cfg.polling {
      SetPhaseKeeps(cfg, s, f, AwaitingTick);
    } else {
      StartRunKeeps(cfg, s, f);
    }
  }

  lemma StoreAnswersKeeps(cfg: Config, s: State, f: Fiber)
    requires Inv(cfg, s) && Enabled(s, StoreAnswers(f))
    ensures Inv(cfg, Apply(cfg, s, StoreAnswers(f)))
  {
    EnterUserEffectKeeps(cfg, s, f, s.instances[f].phase.executedAt);
  }

  lemma FireKeeps(cfg: Config, s: State, f: Fiber)
    requires f in s.sleepers && Inv(cfg, s) && Enabled(s, Fire(f))
    ensures Inv(cfg, SleeperFires(s, f))
  {
    SpawnKeeps(cfg, s, s.sleepers[f].key, s.sleepers[f].entry);
    SleeperEndsKeeps(cfg, Spawn(s, s.sleepers[f].key, s.sleepers[f].entry), f);
  }

  lemma AdvanceKeeps(cfg: Config, s: State, ms: nat)
    requires Inv(cfg, s)
    ensures Inv(cfg, Apply(cfg, s, Advance(ms)))
  {
    var t := Apply(cfg, s, Advance(ms));
    assert TimesOk(cfg, t);
    assert DriverOk(t);
  }

  lemma StartPlacingKeeps(cfg: Config, s: State)
    requires Inv(cfg, s) && Enabled(s, StartPlacing)
    ensures Inv(cfg, Apply(cfg, s, StartPlacing))
  {
    assert DriverOk(Apply(cfg, s, StartPlacing));
  }

  lemma {:induction false} StepKeeps(cfg: Config, s: State, step: Step)
    requires Inv(cfg, s) && Enabled(s, step)
    ensures Inv(cfg, Apply(cfg, s, step))
  {
    match step {
      case Reconcile => BeginReconcileKeeps(cfg, s);
      case InterruptStale(key) => InterruptStaleKeeps(cfg, s, key);
      case PlaceNext => PlaceNextKeeps(cfg, s);
      case Fire(f) => FireKeeps(cfg, s, f);
      case StoreAnswers(f) => StoreAnswersKeeps(cfg, s, f);
      case SetSchedule(_) =>
      case Advance(ms) => AdvanceKeeps(cfg, s, ms);
      case StartPlacing => StartPlacingKeeps(cfg, s);
      case EndReconcile =>
      case _ => InstanceStepKeeps(cfg, s, step);
    }
  }

  lemma {:induction false} RunKeeps(cfg: Config, now: int, steps: seq<Step>)
    ensures Inv(cfg, After(cfg, Initial(now), steps))
    decreases |steps|
  {
    if steps != [] {
      var before := After(cfg, Initial(now), steps[..|steps| - 1]);
      RunKeeps(cfg, now, steps[..|steps| - 1]);
      if Enabled(before, steps[|steps| - 1]) {
        StepKeeps(cfg, before, steps[|steps| - 1]);
      }
    }
  }
}
