/** Which completed keys outlive their schedule. A reconcile drops the completed keys that are
    not scheduled, but an instance that ends while the reconcile is under way adds its own. */
module SupervisorLeftovers {
  import opened Integers
  import opened Wrappers
  import opened Windows
  import opened Supervisor
  import opened SupervisorInvariant
  import opened SupervisorTheorems
  import opened SupervisorDriver

  /** The steps stay within one reconcile. */
  predicate SameReconcile(steps: seq<Step>) {
    forall step | step in steps :: !step.EndReconcile?
  }

  /** Nothing live and nothing completed is outside the schedule being reconciled. */
  ghost predicate Tidy(s: State, keys: set<Key>) {
    && !s.driver.Idle? && Keys(s.driver.items) == keys
    && s.runningByEntry.Keys <= keys && s.pendingStarts.Keys <= keys && s.completedEntries <= keys
  }

  lemma SpawnKeepsTidy(s: State, key: Key, entry: Entry, keys: set<Key>)
    requires Tidy(s, keys) && key in keys
    ensures Tidy(Spawn(s, key, entry), keys)
  {
  }

  lemma PlaceKeepsTidy(s: State, item: Item, nowMillis: int, keys: set<Key>)
    requires Tidy(s, keys) && item.key in keys
    ensures Tidy(Place(s, item, nowMillis), keys)
  {
    SpawnKeepsTidy(s, item.key, item.entry, keys);
  }

  lemma PlaceNextKeepsTidy(cfg: Config, s: State, keys: set<Key>)
    requires Inv(cfg, s) && Tidy(s, keys) && Enabled(s, PlaceNext)
    ensures Tidy(Apply(cfg, s, PlaceNext), keys)
  {
    ItemIsKeyed(s.driver.items, s.driver.next);
    PlaceKeepsTidy(s, s.driver.items[s.driver.next], s.driver.nowMillis, keys);
    PlaceItemKeeps(cfg, s, s.driver.items[s.driver.next]);
  }

  lemma FireKeepsTidy(s: State, f: Fiber, keys: set<Key>)
    requires SleepersMatch(s) && Tidy(s, keys) && f in s.sleepers
    ensures Tidy(SleeperFires(s, f), keys)
  {
    assert s.sleepers[f].key in s.pendingStarts.Keys;
    SpawnKeepsTidy(s, s.sleepers[f].key, s.sleepers[f].entry, keys);
  }

  lemma QuietStepKeepsTidy(cfg: Config, s: State, step: Step, keys: set<Key>)
    requires Tidy(s, keys) && Enabled(s, step)
    requires step.SetSchedule? || step.Advance? || step.Reconcile? || step.InterruptStale? || step.StartPlacing?
          || step.StoreAnswers?
    ensures Tidy(Apply(cfg, s, step), keys)
  {
  }

  lemma StepKeepsTidy(cfg: Config, s: State, step: Step, keys: set<Key>)
    requires Inv(cfg, s) && Tidy(s, keys) && Enabled(s, step) && !step.EndReconcile?
    ensures Tidy(Apply(cfg, s, step), keys)
  {
    match step {
      case PlaceNext => PlaceNextKeepsTidy(cfg, s, keys);
      case Fire(f) => FireKeepsTidy(s, f, keys);
      case CheckWindow(f) => InstanceStepKeepsTidy(cfg, s, step, keys);
      case Wake(f) => InstanceStepKeepsTidy(cfg, s, step, keys);
      case UserEffectDone(f) => InstanceStepKeepsTidy(cfg, s, step, keys);
      case InstanceDies(f) => InstanceStepKeepsTidy(cfg, s, step, keys);
      case _ => QuietStepKeepsTidy(cfg, s, step, keys);
    }
  }

  lemma InstanceStepKeepsTidy(cfg: Config, s: State, step: Step, keys: set<Key>)
    requires InstancesMatch(s) && Tidy(s, keys) && Enabled(s, step)
    requires step.CheckWindow? || step.Wake? || step.UserEffectDone? || step.InstanceDies?
    ensures Tidy(Apply(cfg, s, step), keys)
  {
    assert s.instances[step.fiber].key in s.runningByEntry.Keys;
  }

  lemma {:induction false} RunKeepsTidy(cfg: Config, s: State, steps: seq<Step>, keys: set<Key>)
    requires Inv(cfg, s) && Tidy(s, keys) && SameReconcile(steps)
    ensures Inv(cfg, After(cfg, s, steps)) && Tidy(After(cfg, s, steps), keys)
    decreases |steps|
  {
    if steps != [] {
      var init, last := steps[..|steps| - 1], steps[|steps| - 1];
      assert last in steps && forall step | step in init :: step in steps;
      RunKeepsTidy(cfg, s, init, keys);
      if Enabled(After(cfg, s, init), last) {
        StepKeeps(cfg, After(cfg, s, init), last);
        StepKeepsTidy(cfg, After(cfg, s, init), last, keys);
      }
    }
  }

  // ---- finishing a reconcile ----

  lemma {:induction false} PlacingCompletesMore(s: State, items: seq<Item>, n: nat, nowMillis: int)
    requires n <= |items|
    ensures s.completedEntries <= PlaceAll(s, items, n, nowMillis).completedEntries
  {
    if n > 0 {
      PlacingCompletesMore(s, items, n - 1, nowMillis);
    }
  }

  /** A reconcile whose captured sleepers are all pending can always run to its end, and loses
      no completed key on the way. */
  lemma Finish(cfg: Config, s: State) returns (steps: seq<Step>)
    requires StaleIsPending(s)
    ensures SameReconcile(steps) && Enabled(After(cfg, s, steps), EndReconcile)
    ensures s.completedEntries <= After(cfg, s, steps).completedEntries
    ensures After(cfg, s, steps).driver.items == s.driver.items
  {
    var items := s.driver.items;
    var interrupts := InterruptAll(cfg, s);
    AfterOne(cfg, s, interrupts, StartPlacing);
    var started := interrupts + [StartPlacing];
    var u := After(cfg, s, started);
    var places := PlaceSteps(cfg, u, |items|);
    AfterConcat(cfg, s, started, places);
    PlacingCompletesMore(u, items, |items|, u.driver.nowMillis);
    steps := started + places;
  }

  /** The captured sleepers of a reconcile that just began are pending. */
  lemma BeginsStaleIsPending(cfg: Config, s: State)
    requires Inv(cfg, s)
    ensures StaleIsPending(BeginReconcile(s))
  {
  }

  /** Steps with the first one taken apart. */
  lemma FirstStep(cfg: Config, s: State, step: Step, rest: seq<Step>)
    requires Enabled(s, step)
    ensures After(cfg, s, [step] + rest) == After(cfg, Apply(cfg, s, step), rest)
  {
    AfterConcat(cfg, s, [step], rest);
    AfterOne(cfg, s, [], step);
    assert [] + [step] == [step];
  }

  /** The steps lead to the end of the reconcile of `items`, with `k` completed. */
  ghost predicate EndsWith(cfg: Config, s: State, steps: seq<Step>, items: seq<Item>, k: Key) {
    && SameReconcile(steps)
    && Enabled(After(cfg, s, steps), EndReconcile)
    && After(cfg, s, steps).driver.items == items
    && k in After(cfg, s, steps).completedEntries
  }

  lemma Prepend(cfg: Config, s: State, step: Step, t: State, rest: seq<Step>, items: seq<Item>, k: Key)
    requires Enabled(s, step) && !step.EndReconcile? && t == Apply(cfg, s, step)
    requires EndsWith(cfg, t, rest, items, k)
    ensures EndsWith(cfg, s, [step] + rest, items, k)
  {
    FirstStep(cfg, s, step, rest);
  }

  /** An instance outside the schedule that dies during the reconcile leaves its key completed. */
  lemma StrayInstanceStays(cfg: Config, s: State, f: Fiber) returns (steps: seq<Step>)
    requires StaleIsPending(s) && f in s.instances
    ensures EndsWith(cfg, s, steps, s.driver.items, s.instances[f].key)
    ensures steps != [] && steps[0] == InstanceDies(f)
  {
    var t := InstanceEnds(s, f);
    var rest := Finish(cfg, t);
    Prepend(cfg, s, InstanceDies(f), t, rest, s.driver.items, s.instances[f].key);
    steps := [InstanceDies(f)] + rest;
  }

  /** So does a sleeper outside the schedule whose timer fires before it is interrupted. */
  lemma StraySleeperStays(cfg: Config, s: State, k: Key) returns (steps: seq<Step>)
    requires SleepersMatch(s) && InstancesMatch(s) && StaleIsPending(s) && k in s.driver.stale && k !in s.runningByEntry
    ensures EndsWith(cfg, s, steps, s.driver.items, k)
  {
    var f, items := s.driver.stale[k], s.driver.items;
    var ms: nat := Max(0, s.sleepers[f].wakeAt - s.now);
    var s1 := s.(now := s.now + ms);
    var s2 := SleeperFires(s1, f);
    var s3 := InstanceEnds(s2, s.nextFiber);
    var s4 := s3.(driver := Interrupting(items, s.driver.stale - {k}));
    FiredAndDead(cfg, s, s1, s2, s3, k, f);
    steps := Finish(cfg, s4);
    Prepend(cfg, s3, InterruptStale(k), s4, steps, items, k);
    steps := [InterruptStale(k)] + steps;
    Prepend(cfg, s2, InstanceDies(s.nextFiber), s3, steps, items, k);
    steps := [InstanceDies(s.nextFiber)] + steps;
    Prepend(cfg, s1, Fire(f), s2, steps, items, k);
    steps := [Fire(f)] + steps;
    Prepend(cfg, s, Advance(ms), s1, steps, items, k);
    steps := [Advance(ms)] + steps;
  }

  lemma FiredAndDead(cfg: Config, s: State, s1: State, s2: State, s3: State, k: Key, f: Fiber)
    requires SleepersMatch(s) && InstancesMatch(s) && StaleIsPending(s)
    requires k in s.driver.stale && k !in s.runningByEntry && f == s.driver.stale[k]
    requires s1 == s.(now := s1.now) && s.sleepers[f].wakeAt <= s1.now
    requires s2 == SleeperFires(s1, f)
    requires s.nextFiber in s2.instances && s3 == InstanceEnds(s2, s.nextFiber)
    ensures Enabled(s3, InterruptStale(k)) && k in s3.completedEntries
    ensures var s4 := s3.(driver := Interrupting(s.driver.items, s.driver.stale - {k}));
      StaleIsPending(s4) && Apply(cfg, s3, InterruptStale(k)) == s4
  {
    OthersStayPending(s, s3, k, f);
  }

  /** Of the captured sleepers only the one that fired is gone. */
  lemma OthersStayPending(s: State, s3: State, k: Key, f: Fiber)
    requires StaleIsPending(s) && k in s.driver.stale && f == s.driver.stale[k]
    requires s3.pendingStarts == s.pendingStarts - {k} && s3.sleepers == s.sleepers - {f}
    ensures StaleIsPending(s3.(driver := Interrupting(s.driver.items, s.driver.stale - {k})))
  {
  }

  // ---- which reconciles leave something behind ----

  ghost predicate AllScheduled(s: State) {
    !s.driver.Idle? && s.completedEntries <= Keys(s.driver.items)
  }

  /** Every completion of a reconcile that begins in `s` ends with scheduled completed keys
      only, whatever interleaves with it, if and only if no instance and no sleeper is outside
      the schedule when it begins. */
  lemma {:induction false} NoLeftoversIff(cfg: Config, s: State)
    requires Inv(cfg, s) && s.driver.Idle?
    ensures
      (forall steps | SameReconcile(steps) && Enabled(After(cfg, BeginReconcile(s), steps), EndReconcile) ::
         AllScheduled(After(cfg, BeginReconcile(s), steps)))
      <==>
      (var keys := Keys(Materialize(s.schedule)); s.runningByEntry.Keys <= keys && s.pendingStarts.Keys <= keys)
  {
    var keys := Keys(Materialize(s.schedule));
    if s.runningByEntry.Keys <= keys && s.pendingStarts.Keys <= keys {
      TidyReconcile(cfg, s);
    } else {
      var steps := Leftover(cfg, s);
      assert !AllScheduled(After(cfg, BeginReconcile(s), steps));
    }
  }

  lemma {:induction false} TidyReconcile(cfg: Config, s: State)
    requires Inv(cfg, s) && s.driver.Idle?
    requires var keys := Keys(Materialize(s.schedule)); s.runningByEntry.Keys <= keys && s.pendingStarts.Keys <= keys
    ensures forall steps | SameReconcile(steps) :: AllScheduled(After(cfg, BeginReconcile(s), steps))
  {
    BeginReconcileKeeps(cfg, s);
    forall steps | SameReconcile(steps)
      ensures AllScheduled(After(cfg, BeginReconcile(s), steps))
    {
      RunKeepsTidy(cfg, BeginReconcile(s), steps, Keys(Materialize(s.schedule)));
    }
  }

  lemma Leftover(cfg: Config, s: State) returns (steps: seq<Step>)
    requires Inv(cfg, s) && s.driver.Idle?
    requires var keys := Keys(Materialize(s.schedule)); !(s.runningByEntry.Keys <= keys && s.pendingStarts.Keys <= keys)
    ensures SameReconcile(steps) && Enabled(After(cfg, BeginReconcile(s), steps), EndReconcile)
    ensures !AllScheduled(After(cfg, BeginReconcile(s), steps))
  {
    var keys, t := Keys(Materialize(s.schedule)), BeginReconcile(s);
    BeginsStaleIsPending(cfg, s);
    if k :| k in s.runningByEntry && k !in keys {
      steps := StrayInstanceStays(cfg, t, s.runningByEntry[k]);
    } else {
      var k :| k in s.pendingStarts && k !in keys;
      assert k !in s.runningByEntry;
      StaleMeansUnscheduled(s, Materialize(s.schedule), k);
      steps := StraySleeperStays(cfg, t, k);
    }
  }

  /** Two windows placed by the first reconcile, one open and one in the future. */
  lemma PlacesTwo(cfg: Config, entries: seq<Entry>) returns (s: State)
    requires entries == [Entry(None, 0, None), Entry(None, 5, None)]
    ensures var first := FirstPlacing(entries);
      Enabled(first, PlaceNext) && Enabled(Apply(cfg, first, PlaceNext), PlaceNext) &&
      s == Apply(cfg, Apply(cfg, first, PlaceNext), PlaceNext)
    ensures Enabled(s, EndReconcile) && 0 in s.instances && EntryKey(entries[1], 1) in s.pendingStarts
  {
    var items := Materialize(entries);
    if items[0].key == items[1].key {
      MaterializeKeysDistinct(entries, 0, 1);
    }
    var t := Apply(cfg, FirstPlacing(entries), PlaceNext);
    assert t.runningByEntry == map[items[0].key := 0] && t.completedEntries == {} && t.pendingStarts == map[];
    s := Apply(cfg, t, PlaceNext);
  }

  /** Both of them removed from the schedule, the instance still live and the sleeper pending. */
  lemma BothRemoved(cfg: Config) returns (steps: seq<Step>, stale: Key)
    ensures var s := After(cfg, Initial(0), steps);
      s.driver.Idle? && s.schedule == [] && 0 in s.instances && stale in s.pendingStarts
  {
    var entries, s0 := [Entry(None, 0, None), Entry(None, 5, None)], Initial(0);
    stale := EntryKey(entries[1], 1);
    assert Materialize(entries)[1] in Materialize(entries);
    var placing := FirstPlacingRun(cfg, entries, stale);
    var s := PlacesTwo(cfg, entries);
    AfterOne(cfg, s0, placing, PlaceNext);
    AfterOne(cfg, s0, placing + [PlaceNext], PlaceNext);
    steps := placing + [PlaceNext] + [PlaceNext];
    AfterOne(cfg, s0, steps, EndReconcile);
    AfterOne(cfg, s0, steps + [EndReconcile], SetSchedule([]));
    steps := steps + [EndReconcile] + [SetSchedule([])];
  }

  /** Such a run from the start: an open and a future window are removed from the schedule, and
      the instance of the first one dies while the reconcile waits for the sleeper of the second
      one to be interrupted. */
  lemma LeftoverIsReachable(cfg: Config) returns (steps: seq<Step>, n: nat)
    ensures Enabled(After(cfg, Initial(0), steps), EndReconcile)
    ensures !AllScheduled(After(cfg, Initial(0), steps))
    ensures n < |steps| && steps[n] == InstanceDies(0)
    ensures var s := After(cfg, Initial(0), steps[..n]);
      Enabled(s, InstanceDies(0)) && s.driver.Interrupting? && s.driver.stale != map[] && StaleIsPending(s)
  {
    var removed, stale := BothRemoved(cfg);
    var s := After(cfg, Initial(0), removed);
    RunKeeps(cfg, 0, removed);
    assert Keys(Materialize(s.schedule)) == {};
    StaleMeansUnscheduled(s, Materialize(s.schedule), stale);
    BeginsStaleIsPending(cfg, s);
    var t := BeginReconcile(s);
    assert stale in t.driver.stale;
    var rest := StrayInstanceStays(cfg, t, 0);
    var began := removed + [Reconcile];
    AfterOne(cfg, Initial(0), removed, Reconcile);
    AfterConcat(cfg, Initial(0), began, rest);
    steps, n := began + rest, |began|;
    assert steps[..n] == began;
    assert t.instances[0].key !in Keys(t.driver.items);
  }
}
