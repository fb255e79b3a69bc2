/** The supervisor's mutable maps, sets and counters, and the loops that update them
    (src/Process.ts, `spawnEntryInstance`, `scheduleFutureEntry`, `reconcileSchedules`).
    Each method is one synchronous section, proved against the step machine; a reconcile that
    is never suspended is proved to be one of its runs. */
module SupervisorDriver {
  import opened Integers
  import opened Windows
  import opened Supervisor
  import opened SupervisorInvariant
  import opened SupervisorTheorems

  /** All stale sleepers interrupted. */
  function DropStale(s: State, stale: map<Key, Fiber>): State {
    s.(pendingStarts := s.pendingStarts - stale.Keys, sleepers := s.sleepers - stale.Values)
  }

  /** The first `n` items placed. */
  function PlaceAll(s: State, items: seq<Item>, n: nat, nowMillis: int): State
    requires n <= |items|
  {
    if n == 0 then s else Place(PlaceAll(s, items, n - 1, nowMillis), items[n - 1], nowMillis)
  }

  /** A reconcile that nothing interleaves with. */
  function ReconcileAtOnce(s: State): State {
    var items := Materialize(s.schedule);
    PlaceAll(DropStale(BeginReconcile(s), StaleStarts(items, s.pendingStarts)), items, |items|, s.now)
      .(driver := Idle)
  }

  class Process {
    var now: int
    var schedule: seq<Entry>
    var pendingStarts: map<Key, PendingStart>
    var runningByEntry: map<Key, Fiber>
    var completedEntries: set<Key>
    var activeInstances: int
    var sleepers: map<Fiber, Sleeper>
    var instances: map<Fiber, Instance>
    var nextFiber: Fiber
    ghost var driver: Driver
    ghost var starts: seq<Key>
    ghost var executions: seq<Execution>
    ghost var endedSince: set<Key>

    ghost function View(): State
      reads this
    {
      State(now, schedule, driver, pendingStarts, runningByEntry, completedEntries, activeInstances,
            sleepers, instances, nextFiber, starts, executions, endedSince)
    }

    constructor (now: int)
      ensures View() == Initial(now)
    {
      this.now, schedule, driver := now, [], Idle;
      pendingStarts, runningByEntry, completedEntries, activeInstances := map[], map[], {}, 0;
      sleepers, instances, nextFiber := map[], map[], 0;
      starts, executions, endedSince := [], [], {};
    }

    method SpawnEntryInstance(key: Key, entry: Entry)
      modifies this
      ensures View() == Spawn(old(View()), key, entry)
    {
      if key in runningByEntry {
        return;
      }
      activeInstances := activeInstances + 1;
      var instanceFiber := nextFiber;
      instances := instances[instanceFiber := Instance(key, entry, Checking)];
      nextFiber := nextFiber + 1;
      runningByEntry := runningByEntry[key := instanceFiber];
      starts := starts + [key];
    }

    /** The finalizer attached to every instance. */
    method FinishInstance(f: Fiber)
      requires f in instances
      modifies this
      ensures View() == InstanceEnds(old(View()), f)
    {
      var key := instances[f].key;
      activeInstances := Max(0, activeInstances - 1);
      runningByEntry := runningByEntry - {key};
      completedEntries := completedEntries + {key};
      instances := instances - {f};
      endedSince := endedSince + {key};
    }

    method ScheduleFutureEntry(key: Key, entry: Entry)
      modifies this
      ensures View() == ScheduleFuture(old(View()), key, entry)
    {
      var delayMs := entry.startAt - now;
      if delayMs <= 0 {
        SpawnEntryInstance(key, entry);
        return;
      }
      var sleeper := nextFiber;
      sleepers := sleepers[sleeper := Sleeper(key, entry, now + delayMs)];
      nextFiber := nextFiber + 1;
      pendingStarts := pendingStarts[key := PendingStart(entry.startAt, sleeper)];
    }

    /** A sleeper whose timer fired: spawn, then run its own finalizer. */
    method WakeSleeper(f: Fiber)
      requires f in sleepers
      modifies this
      ensures View() == SleeperFires(old(View()), f)
      ensures pendingStarts == old(pendingStarts) - {old(sleepers)[f].key} && sleepers == old(sleepers) - {f}
      ensures var key, entry := old(sleepers)[f].key, old(sleepers)[f].entry;
        if key in old(runningByEntry) then
          runningByEntry == old(runningByEntry) && instances == old(instances)
        else
          runningByEntry == old(runningByEntry)[key := old(nextFiber)] &&
          instances == old(instances)[old(nextFiber) := Instance(key, entry, Checking)]
    {
      var sleeper := sleepers[f];
      SpawnEntryInstance(sleeper.key, sleeper.entry);
      pendingStarts := pendingStarts - {sleeper.key};
      sleepers := sleepers - {f};
    }

    method PruneCompleted(entryIds: set<Key>)
      modifies this`completedEntries
      ensures completedEntries == old(completedEntries) * entryIds
    {
      var next, todo := {}, completedEntries;
      while todo != {}
        invariant todo <= completedEntries == old(completedEntries)
        invariant next == (completedEntries - todo) * entryIds
        decreases todo
      {
        var id :| id in todo;
        if id in entryIds {
          next := next + {id};
        }
        todo := todo - {id};
      }
      completedEntries := next;
    }

    method InterruptStaleStarts(items: seq<Item>)
      modifies this`pendingStarts, this`sleepers
      ensures var stale := StaleStarts(items, old(pendingStarts));
        pendingStarts == old(pendingStarts) - stale.Keys && sleepers == old(sleepers) - stale.Values
    {
      var pending, todo := pendingStarts, pendingStarts.Keys;
      ghost var dropped: map<Key, Fiber> := map[];
      while todo != {}
        invariant todo <= pending.Keys
        invariant dropped.Keys <= pending.Keys - todo
        invariant forall k | k in pending && k !in todo :: k in dropped <==> IsStale(items, k, pending[k])
        invariant forall k | k in dropped :: dropped[k] == pending[k].fiber
        invariant pendingStarts == pending - dropped.Keys
        invariant sleepers == old(sleepers) - dropped.Values
        decreases todo
      {
        var id :| id in todo;
        if IsStale(items, id, pending[id]) {
          var fiber := pending[id].fiber;
          pendingStarts := pendingStarts - {id};
          sleepers := sleepers - {fiber};
          ValuesGrow(dropped, id, fiber);
          dropped := dropped[id := fiber];
        }
        todo := todo - {id};
      }
      assert dropped == StaleStarts(items, pending);
    }

    /** One iteration of the placing loop. */
    method PlaceEntry(key: Key, entry: Entry, nowMillis: int)
      modifies this
      ensures View() == Place(old(View()), Item(key, entry), nowMillis)
    {
      if key in completedEntries {
        return;
      }
      if key in runningByEntry {
        return;
      }
      if entry.startAt <= nowMillis {
        if CanContinue(entry, nowMillis) {
          SpawnEntryInstance(key, entry);
        } else {
          completedEntries := completedEntries + {key};
        }
        return;
      }
      if key !in pendingStarts {
        ScheduleFutureEntry(key, entry);
      }
    }

    /** The part of a reconcile before the placing loop. */
    method PruneAndInterrupt(materialized: seq<Item>)
      requires materialized == Materialize(schedule)
      modifies this
      ensures View() == DropStale(BeginReconcile(old(View())), StaleStarts(materialized, old(pendingStarts)))
    {
      driver := Interrupting(materialized, StaleStarts(materialized, pendingStarts));
      endedSince := {};
      PruneCompleted(Keys(materialized));
      InterruptStaleStarts(materialized);
    }

    method PlaceEntries(materialized: seq<Item>, nowMillis: int)
      modifies this
      ensures View() == PlaceAll(old(View()), materialized, |materialized|, nowMillis)
    {
      for i := 0 to |materialized|
        invariant View() == PlaceAll(old(View()), materialized, i, nowMillis)
      {
        PlaceEntry(materialized[i].key, materialized[i].entry, nowMillis);
      }
    }

    /** One reconcile that nothing interleaves with: prune, interrupt what is stale, then
        place every item in order. */
    method ReconcileSchedules()
      modifies this
      ensures View() == ReconcileAtOnce(old(View()))
    {
      var materialized := Materialize(schedule);
      PruneAndInterrupt(materialized);
      PlaceEntries(materialized, now);
      driver := Idle;
    }
  }

  lemma ValuesGrow(m: map<Key, Fiber>, key: Key, f: Fiber)
    requires key !in m
    ensures m[key := f].Values == m.Values + {f}
  {
    var n := m[key := f];
    forall v | v in m.Values
      ensures v in n.Values
    {
      var k :| k in m && m[k] == v;
      assert n[k] == v;
    }
    assert n[key] == f;
  }

  // ---- a reconcile at once is a run of the step machine ----

  lemma SpawnFrame(s: State, key: Key, entry: Entry, driver: Driver)
    ensures Spawn(s.(driver := driver), key, entry) == Spawn(s, key, entry).(driver := driver)
    ensures Spawn(s, key, entry).endedSince == s.endedSince
  {
  }

  lemma ScheduleFutureFrame(s: State, key: Key, entry: Entry, driver: Driver)
    ensures ScheduleFuture(s.(driver := driver), key, entry) == ScheduleFuture(s, key, entry).(driver := driver)
    ensures ScheduleFuture(s, key, entry).endedSince == s.endedSince
  {
    SpawnFrame(s, key, entry, driver);
  }

  lemma PlaceFrame(s: State, item: Item, nowMillis: int, driver: Driver)
    ensures Place(s.(driver := driver), item, nowMillis) == Place(s, item, nowMillis).(driver := driver)
    ensures Place(s, item, nowMillis).endedSince == s.endedSince
  {
    if item.key in s.completedEntries || item.key in s.runningByEntry {
    } else if item.entry.startAt <= nowMillis {
      if CanContinue(item.entry, nowMillis) {
        SpawnFrame(s, item.key, item.entry, driver);
      }
    } else if item.key !in s.pendingStarts {
      ScheduleFutureFrame(s, item.key, item.entry, driver);
    }
  }

  /** The captured sleepers are exactly the pending ones still to be interrupted. */
  ghost predicate StaleIsPending(s: State) {
    s.driver.Interrupting? &&
    forall k | k in s.driver.stale ::
      k in s.pendingStarts && s.pendingStarts[k].fiber == s.driver.stale[k] &&
      s.driver.stale[k] in s.sleepers && s.sleepers[s.driver.stale[k]].key == k
  }

  lemma InterruptOne(cfg: Config, s: State, k: Key) returns (t: State)
    requires StaleIsPending(s) && k in s.driver.stale
    ensures StaleIsPending(t)
    ensures t.driver == Interrupting(s.driver.items, s.driver.stale - {k})
    ensures |t.driver.stale| < |s.driver.stale|
    ensures DropStale(t, t.driver.stale).(driver := Idle) == DropStale(s, s.driver.stale).(driver := Idle)
    ensures forall rest :: After(cfg, s, [InterruptStale(k)] + rest) == After(cfg, t, rest)
  {
    t := Apply(cfg, s, InterruptStale(k));
    DropOneFirst(s, k);
    StaleShrinks(s.driver.stale, k);
    forall rest
      ensures After(cfg, s, [InterruptStale(k)] + rest) == After(cfg, t, rest)
    {
      AfterConcat(cfg, s, [InterruptStale(k)], rest);
      AfterOne(cfg, s, [], InterruptStale(k));
      assert [] + [InterruptStale(k)] == [InterruptStale(k)];
    }
  }

  /** Interrupting the stale sleepers one by one, in any order, drops them all. */
  lemma {:induction false} InterruptAll(cfg: Config, s: State) returns (steps: seq<Step>)
    requires StaleIsPending(s)
    ensures After(cfg, s, steps) ==
            DropStale(s, s.driver.stale).(driver := Interrupting(s.driver.items, map[]))
    ensures forall step | step in steps :: step.InterruptStale?
    decreases |s.driver.stale|
  {
    if s.driver.stale == map[] {
      steps := [];
      NothingStale(s);
    } else {
      var k :| k in s.driver.stale;
      var t := InterruptOne(cfg, s, k);
      var rest := InterruptAll(cfg, t);
      steps := [InterruptStale(k)] + rest;
    }
  }

  lemma NothingStale(s: State)
    requires s.driver.Interrupting? && s.driver.stale == map[]
    ensures DropStale(s, s.driver.stale).(driver := Interrupting(s.driver.items, map[])) == s
  {
    assert s.pendingStarts - s.driver.stale.Keys == s.pendingStarts;
    assert s.sleepers - s.driver.stale.Values == s.sleepers;
  }

  lemma StaleShrinks(stale: map<Key, Fiber>, k: Key)
    requires k in stale
    ensures |stale - {k}| < |stale|
  {
    assert (stale - {k}).Keys == stale.Keys - {k};
    assert |stale - {k}| == |(stale - {k}).Keys| && |stale| == |stale.Keys|;
  }

  lemma DropOneFirst(s: State, k: Key)
    requires s.driver.Interrupting? && k in s.driver.stale && k in s.pendingStarts
    requires s.driver.stale[k] in s.sleepers && s.sleepers[s.driver.stale[k]].key == k
    ensures var stale, t := s.driver.stale, SleeperEnds(s, s.driver.stale[k]);
      DropStale(t, stale - {k}) == DropStale(s, stale)
  {
    var stale := s.driver.stale;
    var t := SleeperEnds(s, stale[k]);
    assert (stale - {k}).Keys == stale.Keys - {k};
    assert t.pendingStarts - (stale - {k}).Keys == s.pendingStarts - stale.Keys;
    assert stale.Values == (stale - {k}).Values + {stale[k]} by {
      ValuesGrow(stale - {k}, k, stale[k]);
      assert (stale - {k})[k := stale[k]] == stale;
    }
    assert t.sleepers - (stale - {k}).Values == s.sleepers - stale.Values;
  }

  lemma {:induction false} AfterConcat(cfg: Config, s: State, a: seq<Step>, b: seq<Step>)
    ensures After(cfg, s, a + b) == After(cfg, After(cfg, s, a), b)
    decreases |b|
  {
    if b == [] {
      assert a + b == a;
    } else {
      AfterConcat(cfg, s, a, b[..|b| - 1]);
      assert (a + b)[..|a + b| - 1] == a + b[..|b| - 1];
    }
  }

  /** Placing the items one step at a time is the placing loop. */
  lemma {:induction false} PlaceSteps(cfg: Config, s: State, n: nat) returns (steps: seq<Step>)
    requires s.driver.Placing? && s.driver.next == 0 && n <= |s.driver.items|
    ensures After(cfg, s, steps) ==
            PlaceAll(s, s.driver.items, n, s.driver.nowMillis).(driver := s.driver.(next := n))
    ensures forall step | step in steps :: step.PlaceNext?
  {
    if n == 0 {
      steps := [];
    } else {
      var before := PlaceSteps(cfg, s, n - 1);
      steps := before + [PlaceNext];
      PlaceOneMore(cfg, PlaceAll(s, s.driver.items, n - 1, s.driver.nowMillis), s.driver, n - 1);
      AfterOne(cfg, s, before, PlaceNext);
    }
  }

  lemma PlaceOneMore(cfg: Config, s: State, driver: Driver, next: nat)
    requires driver.Placing? && next < |driver.items|
    ensures Enabled(s.(driver := driver.(next := next)), PlaceNext)
    ensures Apply(cfg, s.(driver := driver.(next := next)), PlaceNext) ==
            Place(s, driver.items[next], driver.nowMillis).(driver := driver.(next := next + 1))
  {
    PlaceFrame(s, driver.items[next], driver.nowMillis, driver.(next := next));
  }

  lemma {:induction false} PlaceAllFrame(s: State, items: seq<Item>, n: nat, nowMillis: int, driver: Driver)
    requires n <= |items|
    ensures PlaceAll(s.(driver := driver), items, n, nowMillis) ==
            PlaceAll(s, items, n, nowMillis).(driver := driver)
    ensures PlaceAll(s, items, n, nowMillis).endedSince == s.endedSince
  {
    if n > 0 {
      PlaceAllFrame(s, items, n - 1, nowMillis, driver);
      PlaceFrame(PlaceAll(s, items, n - 1, nowMillis), items[n - 1], nowMillis, driver);
    }
  }

  /** From any reachable state, `ReconcileSchedules` does what some run of the machine does. */
  lemma {:induction false} ReconcileIsARun(cfg: Config, s: State) returns (steps: seq<Step>)
    requires Inv(cfg, s) && s.driver.Idle?
    ensures Enabled(After(cfg, s, steps), EndReconcile)
    ensures After(cfg, s, steps + [EndReconcile]) == ReconcileAtOnce(s)
    ensures After(cfg, s, steps).endedSince == {}
    ensures After(cfg, s, steps).driver.items == Materialize(s.schedule)
  {
    var items := Materialize(s.schedule);
    var stale := StaleStarts(items, s.pendingStarts);
    var s1 := BeginReconcile(s);
    StepKeeps(cfg, s, Reconcile);
    AfterOne(cfg, s, [], Reconcile);
    assert [] + [Reconcile] == [Reconcile];
    var interrupts := InterruptAll(cfg, s1);
    AfterConcat(cfg, s, [Reconcile], interrupts);
    var until := [Reconcile] + interrupts;
    AfterOne(cfg, s, until, StartPlacing);
    var s3 := After(cfg, s, until + [StartPlacing]);
    var places := PlaceSteps(cfg, s3, |items|);
    AfterConcat(cfg, s, until + [StartPlacing], places);
    steps := until + [StartPlacing] + places;
    AfterOne(cfg, s, steps, EndReconcile);
    PlaceAllFrame(DropStale(s1, stale), items, |items|, s.now, s3.driver);
  }

  /** After a reconcile at once every scheduled window is running, completed or pending, and
      nothing pending or completed is outside the schedule. */
  lemma ReconcileAtOnceIsExact(cfg: Config, now: int, steps: seq<Step>)
    requires After(cfg, Initial(now), steps).driver.Idle?
    ensures var s := After(cfg, Initial(now), steps);
      var t, items := ReconcileAtOnce(s), Materialize(s.schedule);
      && (forall item | item in items :: Accounted(t, item.key))
      && t.pendingStarts.Keys <= Keys(items)
      && t.completedEntries <= Keys(items)
  {
    var s := After(cfg, Initial(now), steps);
    RunKeeps(cfg, now, steps);
    var more := ReconcileIsARun(cfg, s);
    AfterConcat(cfg, Initial(now), steps, more);
    ReconcileForgetsNothing(cfg, now, steps + more);
    AfterOne(cfg, s, more, EndReconcile);
  }
}
