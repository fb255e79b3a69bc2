/** The supervisor of a process as a step machine (src/Process.ts, `createProcess`).

    One step is one synchronous section of one fiber: the driver reconciling the schedule, a
    sleeper waiting for a window to open, or an instance looping until its window closes.
    Steps of different fibers interleave freely, the clock only moves forward, and a sleeper
    never fires before the instant it sleeps for. Forking a fiber and recording it is one
    step, because a child first runs after the current section. */
module Supervisor {
  import opened Integers
  import opened Wrappers
  import opened Windows

  type Fiber = nat

  datatype PendingStart = PendingStart(startAt: int, fiber: Fiber)

  datatype Sleeper = Sleeper(key: Key, entry: Entry, wakeAt: int)

  /** Where an instance stands in its loop. */
  datatype Phase =
    | Checking                        // about to test the window at the top of the loop
    | AwaitingTick                    // inside polling.awaitNextTick
    | ReadingStore(executedAt: int)   // run recorded as started, asking the store for prior runs
    | InUserEffect

  datatype Instance = Instance(key: Key, entry: Entry, phase: Phase)

  /** The driver between two steps; a reconcile suspends while it interrupts stale sleepers. */
  datatype Driver =
    | Idle
    | Interrupting(items: seq<Item>, stale: map<Key, Fiber>)
    | Placing(items: seq<Item>, next: nat, nowMillis: int)

  /** One scheduled run: recorded as started at `executedAt`, user effect entered at `beganAt`. */
  datatype Execution = Execution(key: Key, entry: Entry, executedAt: int, beganAt: int)

  datatype State = State(
    now: int,
    schedule: seq<Entry>,
    driver: Driver,
    pendingStarts: map<Key, PendingStart>,
    runningByEntry: map<Key, Fiber>,
    completedEntries: set<Key>,
    activeInstances: int,
    sleepers: map<Fiber, Sleeper>,
    instances: map<Fiber, Instance>,
    nextFiber: Fiber,
    starts: seq<Key>,              // every instance ever spawned, oldest first
    executions: seq<Execution>,    // every user effect ever entered, oldest first
    endedSince: set<Key>)          // keys whose instance ended since the last reconcile began

  /** Which optional services the process runs with. */
  datatype Config = Config(polling: bool, executionStore: bool)

  function Initial(now: int): State {
    State(now, [], Idle, map[], map[], {}, 0, map[], map[], 0, [], [], {})
  }

  // ---- the synchronous sections ----

  function Spawn(s: State, key: Key, entry: Entry): State {
    if key in s.runningByEntry then s
    else s.(
      activeInstances := s.activeInstances + 1,
      instances := s.instances[s.nextFiber := Instance(key, entry, Checking)],
      runningByEntry := s.runningByEntry[key := s.nextFiber],
      nextFiber := s.nextFiber + 1,
      starts := s.starts + [key])
  }

  /** The finalizer of an instance, however it ended. */
  function InstanceEnds(s: State, f: Fiber): State
    requires f in s.instances
  {
    var key := s.instances[f].key;
    s.(
      activeInstances := Max(0, s.activeInstances - 1),
      runningByEntry := s.runningByEntry - {key},
      completedEntries := s.completedEntries + {key},
      instances := s.instances - {f},
      endedSince := s.endedSince + {key})
  }

  function ScheduleFuture(s: State, key: Key, entry: Entry): State {
    var delayMs := entry.startAt - s.now;
    if delayMs <= 0 then Spawn(s, key, entry)
    else s.(
      sleepers := s.sleepers[s.nextFiber := Sleeper(key, entry, s.now + delayMs)],
      pendingStarts := s.pendingStarts[key := PendingStart(entry.startAt, s.nextFiber)],
      nextFiber := s.nextFiber + 1)
  }

  /** The finalizer of a sleeper. */
  function SleeperEnds(s: State, f: Fiber): State
    requires f in s.sleepers
  {
    s.(pendingStarts := s.pendingStarts - {s.sleepers[f].key}, sleepers := s.sleepers - {f})
  }

  function SleeperFires(s: State, f: Fiber): State
    requires f in s.sleepers
  {
    SleeperEnds(Spawn(s, s.sleepers[f].key, s.sleepers[f].entry), f)
  }

  predicate IsStale(items: seq<Item>, key: Key, pending: PendingStart) {
    match Find(items, key)
    case None => true
    case Some(current) => current.startAt != pending.startAt
  }

  function StaleStarts(items: seq<Item>, pending: map<Key, PendingStart>): map<Key, Fiber> {
    map key | key in pending && IsStale(items, key, pending[key]) :: pending[key].fiber
  }

  /** A reconcile up to the point where it interrupts the first stale sleeper. */
  function BeginReconcile(s: State): State {
    var items := Materialize(s.schedule);
    s.(
      completedEntries := s.completedEntries * Keys(items),
      driver := Interrupting(items, StaleStarts(items, s.pendingStarts)),
      endedSince := {})
  }

  /** `Fiber.interrupt` of one captured sleeper: nothing happens when it is already done. */
  function InterruptSleeper(s: State, f: Fiber): State {
    if f in s.sleepers then SleeperEnds(s, f) else s
  }

  /** One iteration of the loop that places the items of the schedule. */
  function Place(s: State, item: Item, nowMillis: int): State {
    if item.key in s.completedEntries || item.key in s.runningByEntry then s
    else if item.entry.startAt <= nowMillis then
      if CanContinue(item.entry, nowMillis) then Spawn(s, item.key, item.entry)
      else s.(completedEntries := s.completedEntries + {item.key})
    else if item.key in s.pendingStarts then s
    else ScheduleFuture(s, item.key, item.entry)
  }

  function SetPhase(s: State, f: Fiber, phase: Phase): State
    requires f in s.instances
  {
    s.(instances := s.instances[f := s.instances[f].(phase := phase)])
  }

  function EnterUserEffect(s: State, f: Fiber, executedAt: int): State
    requires f in s.instances
  {
    var i := s.instances[f];
    SetPhase(s, f, InUserEffect).(
      executions := s.executions + [Execution(i.key, i.entry, executedAt, s.now)])
  }

  /** The start of a tracked run: without an execution store nothing lies between recording
      the start and entering the user effect. */
  function StartRun(cfg: Config, s: State, f: Fiber): State
    requires f in s.instances
  {
    if cfg.executionStore then SetPhase(s, f, ReadingStore(s.now)) else EnterUserEffect(s, f, s.now)
  }

  // ---- steps ----

  datatype Step =
    | SetSchedule(entries: seq<Entry>)
    | Advance(ms: nat)
    | Reconcile                     // the driver starts a reconcile
    | InterruptStale(key: Key)      // it interrupts one stale sleeper
    | StartPlacing                  // it reads the clock for the placing loop
    | PlaceNext                     // it places one item
    | EndReconcile
    | Fire(fiber: Fiber)            // a sleeper's timer fires
    | CheckWindow(fiber: Fiber)     // an instance tests its window at the top of the loop
    | Wake(fiber: Fiber)            // an instance's tick arrives, or it is woken early
    | StoreAnswers(fiber: Fiber)
    | UserEffectDone(fiber: Fiber)  // the user effect succeeded or failed
    | InstanceDies(fiber: Fiber)    // a defect or an interruption ends an instance

  predicate InPhase(s: State, f: Fiber, phase: Phase) {
    f in s.instances && s.instances[f].phase == phase
  }

  predicate Enabled(s: State, step: Step) {
    match step
    case SetSchedule(_) => true
    case Advance(_) => true
    case Reconcile => s.driver.Idle?
    case InterruptStale(key) => s.driver.Interrupting? && key in s.driver.stale
    case StartPlacing => s.driver.Interrupting? && s.driver.stale == map[]
    case PlaceNext => s.driver.Placing? && s.driver.next < |s.driver.items|
    case EndReconcile => s.driver.Placing? && s.driver.next >= |s.driver.items|
    case Fire(f) => f in s.sleepers && s.sleepers[f].wakeAt <= s.now
    case CheckWindow(f) => InPhase(s, f, Checking)
    case Wake(f) => InPhase(s, f, AwaitingTick)
    case StoreAnswers(f) => f in s.instances && s.instances[f].phase.ReadingStore?
    case UserEffectDone(f) => InPhase(s, f, InUserEffect)
    case InstanceDies(f) => f in s.instances
  }

  function Apply(cfg: Config, s: State, step: Step): State
    requires Enabled(s, step)
  {
    match step
    case SetSchedule(entries) => s.(schedule := entries)
    case Advance(ms) => s.(now := s.now + ms)
    case Reconcile => BeginReconcile(s)
    case InterruptStale(key) =>
      InterruptSleeper(s, s.driver.stale[key]).(
        driver := Interrupting(s.driver.items, s.driver.stale - {key}))
    case StartPlacing => s.(driver := Placing(s.driver.items, 0, s.now))
    case PlaceNext =>
      Place(s, s.driver.items[s.driver.next], s.driver.nowMillis).(
        driver := s.driver.(next := s.driver.next + 1))
    case EndReconcile => s.(driver := Idle)
    case Fire(f) => SleeperFires(s, f)
    case CheckWindow(f) =>
      if !CanContinue(s.instances[f].entry, s.now) then InstanceEnds(s, f)
      else if cfg.polling then SetPhase(s, f, AwaitingTick)
      else StartRun(cfg, s, f)
    case Wake(f) =>
      if !CanContinue(s.instances[f].entry, s.now) then InstanceEnds(s, f) else StartRun(cfg, s, f)
    case StoreAnswers(f) => EnterUserEffect(s, f, s.instances[f].phase.executedAt)
    case UserEffectDone(f) =>
      if cfg.polling then SetPhase(s, f, Checking) else InstanceEnds(s, f)
    case InstanceDies(f) => InstanceEnds(s, f)
  }

  /** The state after a run of steps; a step that is not enabled does nothing. */
  function After(cfg: Config, s: State, steps: seq<Step>): State
    decreases |steps|
  {
    if steps == [] then s
    else
      var before := After(cfg, s, steps[..|steps| - 1]);
      var step := steps[|steps| - 1];
      if Enabled(before, step) then Apply(cfg, before, step) else before
  }
}
