/** A reconcile starts what is open: whatever interleaves with it, every window it found open
    has been started by its end. With the bound of `SupervisorTheorems` that is exactly once. */
module SupervisorProgress {
  import opened Windows
  import opened Supervisor
  import opened SupervisorInvariant
  import opened SupervisorTheorems

  /** The clock reading that last decided whether a window had closed. */
  function Seen(s: State): int {
    if s.driver.Placing? then s.driver.nowMillis else s.now
  }

  /** The key belongs to a window that was closed by then. */
  ghost predicate Lapsed(key: Key, t: int) {
    exists entry :: KeyOf(key, entry) && !CanContinue(entry, t)
  }

  ghost predicate RunningStarted(s: State) {
    forall k | k in s.runningByEntry :: k in s.starts
  }

  /** A completed window was started, or it was found closed. */
  ghost predicate CompletedStarted(s: State) {
    forall k | k in s.completedEntries :: k in s.starts || Lapsed(k, Seen(s))
  }

  /** Every item placed so far that was open has been started. */
  ghost predicate PlacedStarted(s: State) {
    s.driver.Placing? ==>
      forall i | 0 <= i < s.driver.next && i < |s.driver.items| && Open(s.driver.items[i].entry, s.driver.nowMillis) ::
        s.driver.items[i].key in s.starts
  }

  ghost predicate Served(s: State) {
    RunningStarted(s) && CompletedStarted(s) && PlacedStarted(s)
  }

  lemma LapsedLater(key: Key, t: int, later: int)
    requires Lapsed(key, t) && t <= later
    ensures Lapsed(key, later)
  {
    var entry :| KeyOf(key, entry) && !CanContinue(entry, t);
    assert !CanContinue(entry, later);
  }

  /** A window that is open now has not lapsed. */
  lemma OpenIsNotLapsed(item: Item, t: int)
    requires KeyOf(item.key, item.entry) && CanContinue(item.entry, t)
    ensures !Lapsed(item.key, t)
  {
    if Lapsed(item.key, t) {
      var entry :| KeyOf(item.key, entry) && !CanContinue(entry, t);
      var i: nat :| item.key == EntryKey(entry, i);
      var j: nat :| item.key == EntryKey(item.entry, j);
      EntryKeyInjective(entry, i, item.entry, j);
    }
  }

  lemma SpawnKeepsServed(s: State, key: Key, entry: Entry)
    requires Served(s)
    ensures Served(Spawn(s, key, entry))
    ensures key in Spawn(s, key, entry).starts
  {
    assert key in s.runningByEntry ==> key in s.starts;
    assert key in s.starts + [key];
  }

  lemma InstanceEndsKeepsServed(s: State, f: Fiber)
    requires Served(s) && InstancesMatch(s) && f in s.instances
    ensures Served(InstanceEnds(s, f))
  {
    assert s.instances[f].key in s.runningByEntry;
  }

  lemma ExpireKeepsServed(s: State, item: Item)
    requires Served(s) && s.driver.Placing? && KeyOf(item.key, item.entry)
    requires !CanContinue(item.entry, s.driver.nowMillis)
    ensures Served(s.(completedEntries := s.completedEntries + {item.key}))
  {
    assert Lapsed(item.key, s.driver.nowMillis);
  }

  lemma PlaceKeepsServed(s: State, item: Item)
    requires Served(s) && s.driver.Placing? && KeyOf(item.key, item.entry)
    ensures Served(Place(s, item, s.driver.nowMillis))
    ensures Open(item.entry, s.driver.nowMillis) ==> item.key in Place(s, item, s.driver.nowMillis).starts
  {
    var nowMillis := s.driver.nowMillis;
    if item.key in s.completedEntries || item.key in s.runningByEntry {
      if Open(item.entry, nowMillis) {
        OpenIsNotLapsed(item, nowMillis);
      }
    } else if item.entry.startAt <= nowMillis {
      if CanContinue(item.entry, nowMillis) {
        SpawnKeepsServed(s, item.key, item.entry);
      } else {
        ExpireKeepsServed(s, item);
      }
    } else if item.key !in s.pendingStarts && item.entry.startAt <= s.now {
      SpawnKeepsServed(s, item.key, item.entry);
    }
  }

  lemma PlaceNextKeepsServed(cfg: Config, s: State)
    requires Inv(cfg, s) && Served(s) && Enabled(s, PlaceNext)
    ensures Served(Apply(cfg, s, PlaceNext))
  {
    var item := s.driver.items[s.driver.next];
    ItemIsKeyed(s.driver.items, s.driver.next);
    PlaceKeepsServed(s, item);
    PlaceItemKeeps(cfg, s, item);
    var t := Place(s, item, s.driver.nowMillis);
    PlaceThenAdvance(cfg, s, t);
    OneMoreStarted(Place(s, item, s.driver.nowMillis));
  }

  lemma OneMoreStarted(s: State)
    requires Served(s) && s.driver.Placing? && s.driver.next < |s.driver.items|
    requires Open(s.driver.items[s.driver.next].entry, s.driver.nowMillis) ==>
               s.driver.items[s.driver.next].key in s.starts
    ensures Served(s.(driver := s.driver.(next := s.driver.next + 1)))
  {
  }

  /** The driver and the clock move, nothing else of interest does. */
  lemma ClockKeepsServed(s: State, t: State)
    requires Served(s) && Seen(s) <= Seen(t) && (t.driver.Placing? ==> t.driver.next == 0)
    requires t.starts == s.starts && t.runningByEntry == s.runningByEntry
    requires t.completedEntries <= s.completedEntries
    ensures Served(t)
  {
    forall k | k in t.completedEntries
      ensures k in t.starts || Lapsed(k, Seen(t))
    {
      if k !in s.starts {
        LapsedLater(k, Seen(s), Seen(t));
      }
    }
  }

  lemma DriverStepKeepsServed(cfg: Config, s: State, step: Step)
    requires Served(s) && Enabled(s, step)
    requires step.Reconcile? || step.InterruptStale? || step.StartPlacing?
    ensures Served(Apply(cfg, s, step))
  {
    ClockKeepsServed(s, Apply(cfg, s, step));
  }

  lemma EndKeepsServed(cfg: Config, s: State)
    requires DriverOk(s) && Served(s) && Enabled(s, EndReconcile)
    ensures Served(Apply(cfg, s, EndReconcile))
  {
    ClockKeepsServed(s, Apply(cfg, s, EndReconcile));
  }

  lemma AdvanceKeepsServed(cfg: Config, s: State, ms: nat)
    requires Served(s)
    ensures Served(Apply(cfg, s, Advance(ms)))
  {
    if !s.driver.Placing? {
      ClockKeepsServed(s, Apply(cfg, s, Advance(ms)));
    }
  }

  lemma FireKeepsServed(cfg: Config, s: State, f: Fiber)
    requires Served(s) && f in s.sleepers
    ensures Served(SleeperFires(s, f))
  {
    SpawnKeepsServed(s, s.sleepers[f].key, s.sleepers[f].entry);
  }

  lemma InstanceStepKeepsServed(cfg: Config, s: State, step: Step)
    requires Inv(cfg, s) && Served(s) && Enabled(s, step)
    requires step.CheckWindow? || step.Wake? || step.StoreAnswers? || step.UserEffectDone? || step.InstanceDies?
    ensures Served(Apply(cfg, s, step))
  {
    var t := Apply(cfg, s, step);
    InstanceEndsKeepsServed(s, step.fiber);
    if t != InstanceEnds(s, step.fiber) {
      PhaseKeepsServed(s, t);
    }
  }

  lemma PhaseKeepsServed(s: State, t: State)
    requires Served(s)
    requires t == s.(instances := t.instances, executions := t.executions)
    ensures Served(t)
  {
  }

  lemma StepKeepsServed(cfg: Config, s: State, step: Step)
    requires Inv(cfg, s) && Served(s) && Enabled(s, step)
    ensures Served(Apply(cfg, s, step))
  {
    match step {
      case SetSchedule(_) =>
      case Advance(ms) => AdvanceKeepsServed(cfg, s, ms);
      case PlaceNext => PlaceNextKeepsServed(cfg, s);
      case Fire(f) => FireKeepsServed(cfg, s, f);
      case Reconcile => DriverStepKeepsServed(cfg, s, step);
      case InterruptStale(_) => DriverStepKeepsServed(cfg, s, step);
      case StartPlacing => DriverStepKeepsServed(cfg, s, step);
      case EndReconcile => EndKeepsServed(cfg, s);
      case _ => InstanceStepKeepsServed(cfg, s, step);
    }
  }

  lemma {:induction false} RunKeepsServed(cfg: Config, now: int, steps: seq<Step>)
    ensures Served(After(cfg, Initial(now), steps))
    decreases |steps|
  {
    if steps != [] {
      var before := After(cfg, Initial(now), steps[..|steps| - 1]);
      RunKeeps(cfg, now, steps[..|steps| - 1]);
      RunKeepsServed(cfg, now, steps[..|steps| - 1]);
      if Enabled(before, steps[|steps| - 1]) {
        StepKeepsServed(cfg, before, steps[|steps| - 1]);
      }
    }
  }

  /** When a reconcile ends, every window that was open at its clock reading has been started
      at least once in the run. */
  lemma {:induction false} OpenWindowsAreStarted(cfg: Config, now: int, steps: seq<Step>, i: nat)
    requires Enabled(After(cfg, Initial(now), steps), EndReconcile)
    requires i < |After(cfg, Initial(now), steps).driver.items|
    requires var driver := After(cfg, Initial(now), steps).driver; Open(driver.items[i].entry, driver.nowMillis)
    ensures var s := After(cfg, Initial(now), steps); Starts(s, s.driver.items[i].key) >= 1
  {
    RunKeepsServed(cfg, now, steps);
    var s := After(cfg, Initial(now), steps);
    assert s.driver.items[i].key in s.starts;
  }

  /** Such a window that stayed scheduled, and was never started over its pending sleeper, has
      been started exactly once. */
  lemma {:induction false} StartedExactlyOnce(cfg: Config, now: int, steps: seq<Step>, i: nat)
    requires Enabled(After(cfg, Initial(now), steps), EndReconcile)
    requires i < |After(cfg, Initial(now), steps).driver.items|
    requires var driver := After(cfg, Initial(now), steps).driver; Open(driver.items[i].entry, driver.nowMillis)
    requires var key := After(cfg, Initial(now), steps).driver.items[i].key;
      StaysScheduled(cfg, Initial(now), steps, key) && Punctual(cfg, Initial(now), steps, key)
    ensures var s := After(cfg, Initial(now), steps); Starts(s, s.driver.items[i].key) == 1
  {
    OpenWindowsAreStarted(cfg, now, steps, i);
    StartedAtMostOnce(cfg, now, steps, After(cfg, Initial(now), steps).driver.items[i].key);
  }
}
