/** The concurrency gate (src/RunResource.ts, `makeRunGateEffect`): any number of calls
    interleave over one semaphore, one observed state record and two id sequences.

    One step is one atomic action of one call. Publishing a state change takes two: an id is
    drawn first, the record is modified later, and other calls may run in between. */
module RunGate {
  import opened Integers
  import opened Wrappers

  datatype Outcome = Succeeded | Failed | Interrupted

  /** The observed record of a gate, `RunResourceState`. */
  datatype GateState = GateState(
    observedAt: int,
    waiting: int,
    inFlight: int,
    completed: int,
    failed: int,
    interrupted: int,
    totalDurationMs: int)

  datatype Reason =
    | RunWaiting
    | WaitInterrupted
    | RunStarted
    | RunEnded(outcome: Outcome, durationMs: int)

  datatype Change = Change(id: nat, changedAt: int, reason: Reason, previous: GateState, current: GateState)

  /** Where a call stands. */
  datatype Phase =
    | Entering
    | Waiting
    | Abandoning                                  // interrupted at the semaphore
    | Granted(startedAt: int)                     // holds a permit, not yet published as started
    | Dropped                                     // interrupted there, permit still held
    | DroppedOut                                  // and permit returned
    | Running(startedAt: int)                     // inside the user effect
    | Ending(outcome: Outcome, durationMs: int)   // effect over, not yet published
    | Finished(outcome: Outcome, durationMs: int) // published, permit still held
    | Gone                                        // left without ever holding a permit
    | Released(outcome: Outcome, durationMs: int)

  datatype Call = Call(runId: nat, phase: Phase, changeId: Option<nat>)

  datatype Gate = Gate(
    now: int,
    free: int,
    state: GateState,
    runSeq: nat,
    stateSeq: nat,
    calls: seq<Call>,
    changes: seq<Change>)

  function InitialState(now: int): GateState {
    GateState(now, 0, 0, 0, 0, 0, 0)
  }

  function Initial(concurrency: nat, now: int): Gate {
    Gate(now, concurrency, InitialState(now), 0, 0, [], [])
  }

  /** The update a state change applies to the observed record. */
  function Updated(s: GateState, reason: Reason, observedAt: int): GateState {
    match reason
    case RunWaiting => s.(observedAt := observedAt, waiting := s.waiting + 1)
    case WaitInterrupted =>
      s.(observedAt := observedAt, waiting := Max(0, s.waiting - 1), interrupted := s.interrupted + 1)
    case RunStarted =>
      s.(observedAt := observedAt, waiting := Max(0, s.waiting - 1), inFlight := s.inFlight + 1)
    case RunEnded(outcome, durationMs) =>
      s.(
        observedAt := observedAt,
        inFlight := Max(0, s.inFlight - 1),
        completed := if outcome.Succeeded? then s.completed + 1 else s.completed,
        failed := if outcome.Failed? then s.failed + 1 else s.failed,
        interrupted := if outcome.Interrupted? then s.interrupted + 1 else s.interrupted,
        totalDurationMs := s.totalDurationMs + durationMs)
  }

  /** The start of a run is read from the clock when the granted call resumes. */
  function Stamped(phase: Phase, now: int): Phase {
    if phase.Granted? then Granted(now) else phase
  }

  predicate Publishes(phase: Phase) {
    phase.Entering? || phase.Abandoning? || phase.Granted? || phase.Ending?
  }

  function ReasonOf(phase: Phase): Reason
    requires Publishes(phase)
  {
    match phase
    case Entering => RunWaiting
    case Abandoning => WaitInterrupted
    case Granted(_) => RunStarted
    case Ending(outcome, durationMs) => RunEnded(outcome, durationMs)
  }

  function PhaseAfter(phase: Phase): Phase
    requires Publishes(phase)
  {
    match phase
    case Entering => Waiting
    case Abandoning => Gone
    case Granted(startedAt) => Running(startedAt)
    case Ending(outcome, durationMs) => Finished(outcome, durationMs)
  }

  datatype Step =
    | Advance(ms: nat)
    | Enter                            // a new call draws its run id
    | DrawChangeId(call: nat)          // nextStateChangeId
    | Publish(call: nat)               // Ref.modify on the observed record
    | Acquire(call: nat)               // the semaphore grants a permit
    | InterruptWait(call: nat)         // the call is interrupted while it waits
    | InterruptGranted(call: nat)      // or between its grant and its "started" publication
    | EndEffect(call: nat, outcome: Outcome)
    | Release(call: nat)

  predicate Enabled(g: Gate, step: Step) {
    match step
    case Advance(_) => true
    case Enter => true
    case DrawChangeId(c) => c < |g.calls| && Publishes(g.calls[c].phase) && g.calls[c].changeId.None?
    case Publish(c) => c < |g.calls| && Publishes(g.calls[c].phase) && g.calls[c].changeId.Some?
    case Acquire(c) => c < |g.calls| && g.calls[c].phase.Waiting? && g.free > 0
    case InterruptWait(c) => c < |g.calls| && g.calls[c].phase.Waiting?
    case InterruptGranted(c) => c < |g.calls| && g.calls[c].phase.Granted?
    case EndEffect(c, _) => c < |g.calls| && g.calls[c].phase.Running?
    case Release(c) => c < |g.calls| && (g.calls[c].phase.Finished? || g.calls[c].phase.Dropped?)
  }

  function SetPhase(g: Gate, c: nat, phase: Phase): Gate
    requires c < |g.calls|
  {
    g.(calls := g.calls[c := g.calls[c].(phase := phase)])
  }

  function Apply(g: Gate, step: Step): Gate
    requires Enabled(g, step)
  {
    match step
    case Advance(ms) => g.(now := g.now + ms)
    case Enter => g.(runSeq := g.runSeq + 1, calls := g.calls + [Call(g.runSeq + 1, Entering, None)])
    case DrawChangeId(c) =>
      var call := g.calls[c];
      g.(
        stateSeq := g.stateSeq + 1,
        calls := g.calls[c := Call(call.runId, Stamped(call.phase, g.now), Some(g.stateSeq + 1))])
    case Publish(c) =>
      var call := g.calls[c];
      var reason := ReasonOf(call.phase);
      var current := Updated(g.state, reason, g.now);
      g.(
        state := current,
        calls := g.calls[c := Call(call.runId, PhaseAfter(call.phase), None)],
        changes := g.changes + [Change(call.changeId.value, g.now, reason, g.state, current)])
    case Acquire(c) => SetPhase(g.(free := g.free - 1), c, Granted(g.now))
    case InterruptWait(c) => SetPhase(g, c, Abandoning)
    case InterruptGranted(c) => g.(calls := g.calls[c := Call(g.calls[c].runId, Dropped, None)])
    case EndEffect(c, outcome) =>
      SetPhase(g, c, Ending(outcome, Max(0, g.now - g.calls[c].phase.startedAt)))
    case Release(c) =>
      SetPhase(g.(free := g.free + 1), c, PhaseReleased(g.calls[c].phase))
  }

  function PhaseReleased(phase: Phase): Phase
    requires phase.Finished? || phase.Dropped?
  {
    match phase
    case Finished(outcome, durationMs) => Released(outcome, durationMs)
    case Dropped => DroppedOut
  }

  function After(g: Gate, steps: seq<Step>): Gate
    decreases |steps|
  {
    if steps == [] then g
    else
      var before := After(g, steps[..|steps| - 1]);
      var step := steps[|steps| - 1];
      if Enabled(before, step) then Apply(before, step) else before
  }

  // ---- counting calls ----

  /** The ways a call is counted. */
  datatype Role =
    | Announced       // past its first publication
    | CountedWaiting
    | StillWaiting    // waiting, giving up, or granted and not published yet
    | DroppedAtStart  // interrupted between grant and "started": counted as waiting for ever
    | CountedInFlight
    | CountedAs(outcome: Outcome)
    | HoldsPermit

  predicate Has(phase: Phase, role: Role) {
    match role
    case Announced => !phase.Entering?
    case CountedWaiting =>
      phase.Waiting? || phase.Abandoning? || phase.Granted? || phase.Dropped? || phase.DroppedOut?
    case StillWaiting => phase.Waiting? || phase.Abandoning? || phase.Granted?
    case DroppedAtStart => phase.Dropped? || phase.DroppedOut?
    case CountedInFlight => phase.Running? || phase.Ending?
    case CountedAs(outcome) =>
      || ((phase.Finished? || phase.Released?) && phase.outcome == outcome)
      || (phase.Gone? && outcome.Interrupted?)
    case HoldsPermit =>
      phase.Granted? || phase.Dropped? || phase.Running? || phase.Ending? || phase.Finished?
  }

  function Bit(phase: Phase, role: Role): nat {
    if Has(phase, role) then 1 else 0
  }

  /** How many of the calls are in a role. */
  function Count(calls: seq<Call>, role: Role): nat {
    if calls == [] then 0
    else Count(calls[..|calls| - 1], role) + Bit(calls[|calls| - 1].phase, role)
  }

  /** Published duration of a call whose end has been published. */
  function Spent(phase: Phase): int {
    if phase.Finished? || phase.Released? then phase.durationMs else 0
  }

  function TotalSpent(calls: seq<Call>): int {
    if calls == [] then 0 else TotalSpent(calls[..|calls| - 1]) + Spent(calls[|calls| - 1].phase)
  }

  lemma {:induction false} CountMove(calls: seq<Call>, c: nat, call: Call, role: Role)
    requires c < |calls|
    ensures Count(calls[c := call], role) == Count(calls, role) - Bit(calls[c].phase, role) + Bit(call.phase, role)
  {
    var last := |calls| - 1;
    if c == last {
      assert calls[c := call][..last] == calls[..last];
    } else {
      assert calls[c := call][..last] == calls[..last][c := call];
      CountMove(calls[..last], c, call, role);
    }
  }

  lemma {:induction false} TotalSpentMove(calls: seq<Call>, c: nat, call: Call)
    requires c < |calls|
    ensures TotalSpent(calls[c := call]) == TotalSpent(calls) - Spent(calls[c].phase) + Spent(call.phase)
  {
    var last := |calls| - 1;
    if c == last {
      assert calls[c := call][..last] == calls[..last];
    } else {
      assert calls[c := call][..last] == calls[..last][c := call];
      TotalSpentMove(calls[..last], c, call);
    }
  }

  /** Every call past its announcement is in exactly one counted role, and only permit
      holders are counted in flight. */
  lemma {:induction false} RolesPartition(calls: seq<Call>)
    ensures Count(calls, Announced) ==
            Count(calls, CountedWaiting) + Count(calls, CountedInFlight) + Count(calls, CountedAs(Succeeded))
            + Count(calls, CountedAs(Failed)) + Count(calls, CountedAs(Interrupted))
    ensures Count(calls, CountedInFlight) <= Count(calls, HoldsPermit)
    ensures Count(calls, Announced) <= |calls|
  {
    if calls != [] {
      RolesPartition(calls[..|calls| - 1]);
    }
  }

  lemma {:induction false} CountAtLeastOne(calls: seq<Call>, c: nat, role: Role)
    requires c < |calls| && Has(calls[c].phase, role)
    ensures Count(calls, role) >= 1
  {
    if c < |calls| - 1 {
      CountAtLeastOne(calls[..|calls| - 1], c, role);
    }
  }

  /** The record counts exactly the calls at each stage, and permits are conserved. */
  ghost predicate Counted(concurrency: nat, g: Gate) {
    && g.free >= 0
    && g.free + Count(g.calls, HoldsPermit) == concurrency
    && g.state.waiting == Count(g.calls, CountedWaiting)
    && g.state.inFlight == Count(g.calls, CountedInFlight)
    && g.state.completed == Count(g.calls, CountedAs(Succeeded))
    && g.state.failed == Count(g.calls, CountedAs(Failed))
    && g.state.interrupted == Count(g.calls, CountedAs(Interrupted))
    && g.state.totalDurationMs == TotalSpent(g.calls)
  }

  /** The record after the first `n` changes. */
  function StateAt(initial: GateState, changes: seq<Change>, n: nat): GateState
    requires n <= |changes|
  {
    if n == 0 then initial else changes[n - 1].current
  }

  ghost predicate Linked(initial: GateState, changes: seq<Change>, i: nat)
    requires i < |changes|
  {
    && changes[i].previous == StateAt(initial, changes, i)
    && changes[i].current == Updated(changes[i].previous, changes[i].reason, changes[i].changedAt)
  }

  /** Each change starts where the previous one ended, is the update its reason names, and
      the last one ends at the record. */
  ghost predicate Chained(initial: GateState, g: Gate) {
    && (forall i | 0 <= i < |g.changes| :: Linked(initial, g.changes, i))
    && g.state == StateAt(initial, g.changes, |g.changes|)
  }

  /** Change ids are drawn once; run ids number the calls. */
  ghost predicate IdsUnique(g: Gate) {
    && (forall i | 0 <= i < |g.changes| :: g.changes[i].id <= g.stateSeq)
    && (forall c | 0 <= c < |g.calls| && g.calls[c].changeId.Some? :: g.calls[c].changeId.value <= g.stateSeq)
    && (forall i, j | 0 <= i < j < |g.changes| :: g.changes[i].id != g.changes[j].id)
    && (forall c, d | 0 <= c < d < |g.calls| && g.calls[c].changeId.Some? && g.calls[d].changeId.Some? ::
          g.calls[c].changeId != g.calls[d].changeId)
    && (forall i, c | 0 <= i < |g.changes| && 0 <= c < |g.calls| && g.calls[c].changeId.Some? ::
          g.calls[c].changeId.value != g.changes[i].id)
    && g.runSeq == |g.calls|
    && (forall c | 0 <= c < |g.calls| :: g.calls[c].runId == c + 1)
  }

  ghost predicate Inv(concurrency: nat, initial: GateState, g: Gate) {
    && Counted(concurrency, g)
    && Chained(initial, g)
    && IdsUnique(g)
  }

  lemma PositiveCounts(calls: seq<Call>, c: nat)
    requires c < |calls|
    ensures forall role | Has(calls[c].phase, role) :: Count(calls, role) >= 1
  {
    forall role | Has(calls[c].phase, role)
      ensures Count(calls, role) >= 1
    {
      CountAtLeastOne(calls, c, role);
    }
  }

  /** One call moves to another phase and the record follows. */
  lemma MoveKeepsCounted(concurrency: nat, g: Gate, c: nat, call: Call, free: int, state: GateState)
    requires Counted(concurrency, g) && c < |g.calls| && free >= 0
    requires var was, next := g.calls[c].phase, call.phase;
      && free == g.free + Bit(was, HoldsPermit) - Bit(next, HoldsPermit)
      && state.waiting == g.state.waiting - Bit(was, CountedWaiting) + Bit(next, CountedWaiting)
      && state.inFlight == g.state.inFlight - Bit(was, CountedInFlight) + Bit(next, CountedInFlight)
      && state.completed == g.state.completed - Bit(was, CountedAs(Succeeded)) + Bit(next, CountedAs(Succeeded))
      && state.failed == g.state.failed - Bit(was, CountedAs(Failed)) + Bit(next, CountedAs(Failed))
      && state.interrupted == g.state.interrupted - Bit(was, CountedAs(Interrupted)) + Bit(next, CountedAs(Interrupted))
      && state.totalDurationMs == g.state.totalDurationMs - Spent(was) + Spent(next)
    ensures Counted(concurrency, g.(calls := g.calls[c := call], free := free, state := state))
  {
    CountMove(g.calls, c, call, HoldsPermit);
    CountMove(g.calls, c, call, CountedWaiting);
    CountMove(g.calls, c, call, CountedInFlight);
    CountMove(g.calls, c, call, CountedAs(Succeeded));
    CountMove(g.calls, c, call, CountedAs(Failed));
    CountMove(g.calls, c, call, CountedAs(Interrupted));
    TotalSpentMove(g.calls, c, call);
  }

  lemma PublishKeepsCounted(concurrency: nat, g: Gate, c: nat)
    requires Counted(concurrency, g) && Enabled(g, Publish(c))
    ensures Counted(concurrency, Apply(g, Publish(c)))
  {
    var t := Apply(g, Publish(c));
    PositiveCounts(g.calls, c);
    MoveKeepsCounted(concurrency, g, c, t.calls[c], t.free, t.state);
  }

  lemma EnterKeepsCounted(concurrency: nat, g: Gate)
    requires Counted(concurrency, g)
    ensures Counted(concurrency, Apply(g, Enter))
  {
    var id := g.runSeq + 1;
    EnteringCounts(g.calls, id, HoldsPermit);
    EnteringCounts(g.calls, id, CountedWaiting);
    EnteringCounts(g.calls, id, CountedInFlight);
    EnteringCounts(g.calls, id, CountedAs(Succeeded));
    EnteringCounts(g.calls, id, CountedAs(Failed));
    EnteringCounts(g.calls, id, CountedAs(Interrupted));
    TotalSpentAppend(g.calls, Call(id, Entering, None));
  }

  /** A call that enters is in no role yet. */
  lemma EnteringCounts(calls: seq<Call>, runId: nat, role: Role)
    ensures Count(calls + [Call(runId, Entering, None)], role) == Count(calls, role)
  {
    CountAppend(calls, Call(runId, Entering, None), role);
  }

  lemma CountAppend(calls: seq<Call>, call: Call, role: Role)
    ensures Count(calls + [call], role) == Count(calls, role) + Bit(call.phase, role)
  {
    assert (calls + [call])[..|calls|] == calls;
  }

  lemma TotalSpentAppend(calls: seq<Call>, call: Call)
    ensures TotalSpent(calls + [call]) == TotalSpent(calls) + Spent(call.phase)
  {
    assert (calls + [call])[..|calls|] == calls;
  }

  lemma PhaseStepKeepsCounted(concurrency: nat, g: Gate, step: Step)
    requires Counted(concurrency, g) && Enabled(g, step)
    requires step.Acquire? || step.Release? || step.InterruptWait? || step.InterruptGranted? || step.EndEffect?
          || step.DrawChangeId?
    ensures Counted(concurrency, Apply(g, step))
  {
    var t := Apply(g, step);
    MoveKeepsCounted(concurrency, g, step.call, t.calls[step.call], t.free, t.state);
  }

  lemma StepKeepsCounted(concurrency: nat, g: Gate, step: Step)
    requires Counted(concurrency, g) && Enabled(g, step)
    ensures Counted(concurrency, Apply(g, step))
  {
    match step {
      case Advance(_) =>
      case Enter => EnterKeepsCounted(concurrency, g);
      case Publish(c) => PublishKeepsCounted(concurrency, g, c);
      case _ => PhaseStepKeepsCounted(concurrency, g, step);
    }
  }

  lemma StepKeepsChained(initial: GateState, g: Gate, step: Step)
    requires Chained(initial, g) && Enabled(g, step)
    ensures Chained(initial, Apply(g, step))
  {
    var t := Apply(g, step);
    forall i | 0 <= i < |t.changes|
      ensures Linked(initial, t.changes, i)
    {
      if i < |g.changes| {
        assert Linked(initial, g.changes, i);
      }
    }
  }

  lemma DrawKeepsIds(g: Gate, c: nat)
    requires IdsUnique(g) && Enabled(g, DrawChangeId(c))
    ensures IdsUnique(Apply(g, DrawChangeId(c)))
  {
  }

  lemma PublishKeepsIds(g: Gate, c: nat)
    requires IdsUnique(g) && Enabled(g, Publish(c))
    ensures IdsUnique(Apply(g, Publish(c)))
  {
  }

  lemma StepKeepsIds(g: Gate, step: Step)
    requires IdsUnique(g) && Enabled(g, step)
    ensures IdsUnique(Apply(g, step))
  {
    match step {
      case Advance(_) =>
      case Enter => EnterKeepsIds(g);
      case DrawChangeId(c) => DrawKeepsIds(g, c);
      case Publish(c) => PublishKeepsIds(g, c);
      case InterruptGranted(c) => DropKeepsIds(g, c);
      case _ => PhaseKeepsIds(g, Apply(g, step), step.call);
    }
  }

  lemma DropKeepsIds(g: Gate, c: nat)
    requires IdsUnique(g) && Enabled(g, InterruptGranted(c))
    ensures IdsUnique(Apply(g, InterruptGranted(c)))
  {
  }

  lemma EnterKeepsIds(g: Gate)
    requires IdsUnique(g)
    ensures IdsUnique(Apply(g, Enter))
  {
  }

  lemma PhaseKeepsIds(g: Gate, t: Gate, c: nat)
    requires IdsUnique(g) && c < |g.calls|
    requires |t.calls| == |g.calls| && t == SetPhase(g.(free := t.free), c, t.calls[c].phase)
    ensures IdsUnique(t)
  {
  }

  lemma {:induction false} RunKeeps(concurrency: nat, now: int, steps: seq<Step>)
    ensures Inv(concurrency, InitialState(now), After(Initial(concurrency, now), steps))
    decreases |steps|
  {
    if steps != [] {
      var g := After(Initial(concurrency, now), steps[..|steps| - 1]);
      var step := steps[|steps| - 1];
      RunKeeps(concurrency, now, steps[..|steps| - 1]);
      if Enabled(g, step) {
        StepKeepsCounted(concurrency, g, step);
        StepKeepsChained(InitialState(now), g, step);
        StepKeepsIds(g, step);
      }
    }
  }

  // ---- what holds in every run ----

  /** No more calls than `concurrency` are ever observed in flight, and free plus held
      permits is always `concurrency`. */
  lemma NeverOverConcurrency(concurrency: nat, now: int, steps: seq<Step>)
    ensures var g := After(Initial(concurrency, now), steps);
      && 0 <= g.state.inFlight <= Count(g.calls, HoldsPermit) <= concurrency
      && g.free + Count(g.calls, HoldsPermit) == concurrency
      && 0 <= g.state.waiting
  {
    RunKeeps(concurrency, now, steps);
    RolesPartition(After(Initial(concurrency, now), steps).calls);
  }

  /** The `Math.max(0, …)` clamps never act: the counter they guard is at least one. */
  lemma ClampsNeverAct(concurrency: nat, now: int, steps: seq<Step>, c: nat)
    requires Enabled(After(Initial(concurrency, now), steps), Publish(c))
    ensures var g := After(Initial(concurrency, now), steps);
      match ReasonOf(g.calls[c].phase)
      case RunWaiting => true
      case WaitInterrupted => g.state.waiting >= 1
      case RunStarted => g.state.waiting >= 1
      case RunEnded(_, _) => g.state.inFlight >= 1
  {
    RunKeeps(concurrency, now, steps);
    var calls := After(Initial(concurrency, now), steps).calls;
    PositiveCounts(calls, c);
    assert Has(calls[c].phase, CountedWaiting) || Has(calls[c].phase, CountedInFlight) || calls[c].phase.Entering?;
  }

  /** Every call that has announced itself is counted in exactly one of the five counters; one
      dropped at its start stays counted as waiting. */
  lemma AnnouncedCallsAreConserved(concurrency: nat, now: int, steps: seq<Step>)
    ensures var g := After(Initial(concurrency, now), steps); var s := g.state;
      s.waiting + s.inFlight + s.completed + s.failed + s.interrupted == Count(g.calls, Announced)
  {
    RunKeeps(concurrency, now, steps);
    RolesPartition(After(Initial(concurrency, now), steps).calls);
  }

  predicate Over(phase: Phase) {
    phase.Gone? || phase.Released? || phase.DroppedOut?
  }

  lemma {:induction false} CountOver(calls: seq<Call>)
    requires forall call | call in calls :: Over(call.phase)
    ensures Count(calls, HoldsPermit) == Count(calls, StillWaiting) == Count(calls, CountedInFlight) == 0
    ensures Count(calls, Announced) == |calls|
  {
    if calls != [] {
      CountOver(calls[..|calls| - 1]);
    }
  }

  lemma {:induction false} WaitingSplits(calls: seq<Call>)
    ensures Count(calls, CountedWaiting) == Count(calls, StillWaiting) + Count(calls, DroppedAtStart)
  {
    if calls != [] {
      WaitingSplits(calls[..|calls| - 1]);
    }
  }

  /** The observed `waiting` exceeds the calls that do wait by exactly those interrupted between
      their grant and their "started" publication, so it is right if and only if none was. */
  lemma WaitingDriftsByDropped(concurrency: nat, now: int, steps: seq<Step>)
    ensures var g := After(Initial(concurrency, now), steps);
      && g.state.waiting == Count(g.calls, StillWaiting) + Count(g.calls, DroppedAtStart)
      && (g.state.waiting == Count(g.calls, StillWaiting) <==>
          forall call | call in g.calls :: !Has(call.phase, DroppedAtStart))
  {
    RunKeeps(concurrency, now, steps);
    var calls := After(Initial(concurrency, now), steps).calls;
    WaitingSplits(calls);
    NoneCounted(calls, DroppedAtStart);
  }

  lemma {:induction false} NoneCounted(calls: seq<Call>, role: Role)
    ensures Count(calls, role) == 0 <==> forall call | call in calls :: !Has(call.phase, role)
  {
    if calls != [] {
      var init, last := calls[..|calls| - 1], calls[|calls| - 1];
      NoneCounted(init, role);
      assert calls == init + [last];
    }
  }

  /** When every call is over all permits are back, nothing runs, every call is in one outcome
      counter or was dropped at its start and is still counted as waiting, and the total
      duration is the sum of the calls' durations. */
  lemma QuiescentGateIsWhole(concurrency: nat, now: int, steps: seq<Step>)
    requires forall call | call in After(Initial(concurrency, now), steps).calls :: Over(call.phase)
    ensures var g := After(Initial(concurrency, now), steps); var dropped := Count(g.calls, DroppedAtStart);
      && g.free == concurrency
      && g.state.waiting == dropped && g.state.inFlight == 0
      && g.state.completed + g.state.failed + g.state.interrupted == |g.calls| - dropped
      && g.state.totalDurationMs == TotalSpent(g.calls)
  {
    RunKeeps(concurrency, now, steps);
    CountOver(After(Initial(concurrency, now), steps).calls);
    WaitingDriftsByDropped(concurrency, now, steps);
    AnnouncedCallsAreConserved(concurrency, now, steps);
  }

  /** The stored changes replay the record: they chain from the initial state to the current
      one, each is the update its reason names, and no id is used twice. */
  lemma ChangesReplayTheRecord(concurrency: nat, now: int, steps: seq<Step>)
    ensures var g := After(Initial(concurrency, now), steps);
      Chained(InitialState(now), g) && Replay(InitialState(now), g.changes) == g.state
    ensures var g := After(Initial(concurrency, now), steps);
      forall i, j | 0 <= i < j < |g.changes| :: g.changes[i].id != g.changes[j].id
  {
    RunKeeps(concurrency, now, steps);
    var g := After(Initial(concurrency, now), steps);
    ReplayChained(InitialState(now), g.changes, |g.changes|);
    assert g.changes[..|g.changes|] == g.changes;
  }

  function Replay(s: GateState, changes: seq<Change>): GateState {
    if changes == [] then s
    else
      var last := changes[|changes| - 1];
      Updated(Replay(s, changes[..|changes| - 1]), last.reason, last.changedAt)
  }

  lemma {:induction false} ReplayChained(initial: GateState, changes: seq<Change>, n: nat)
    requires n <= |changes|
    requires forall i | 0 <= i < |changes| :: Linked(initial, changes, i)
    ensures Replay(initial, changes[..n]) == StateAt(initial, changes, n)
  {
    if n > 0 {
      ReplayChained(initial, changes, n - 1);
      assert changes[..n][..n - 1] == changes[..n - 1];
      assert Linked(initial, changes, n - 1);
    }
  }

  // ---- dates and durations ----

  /** The record and its changes carry the time they were made, and no run started in the future. */
  ghost predicate Dated(g: Gate) {
    && (forall i | 0 <= i < |g.changes| ::
          g.changes[i].changedAt == g.changes[i].current.observedAt <= g.state.observedAt)
    && (forall i, j | 0 <= i < j < |g.changes| :: g.changes[i].changedAt <= g.changes[j].changedAt)
    && g.state.observedAt <= g.now
    && (forall c | 0 <= c < |g.calls| :: StartedBy(g.calls[c].phase, g.now))
  }

  predicate StartedBy(phase: Phase, now: int) {
    match phase
    case Granted(startedAt) => startedAt <= now
    case Running(startedAt) => startedAt <= now
    case Ending(_, durationMs) => 0 <= durationMs
    case Finished(_, durationMs) => 0 <= durationMs
    case Released(_, durationMs) => 0 <= durationMs
    case _ => true
  }

  lemma StepKeepsDated(g: Gate, step: Step)
    requires Dated(g) && Enabled(g, step)
    ensures Dated(Apply(g, step))
  {
  }

  /** Over every run the changes are dated by the clock, in order, and no duration is negative. */
  lemma {:induction false} ChangesAreDated(concurrency: nat, now: int, steps: seq<Step>)
    ensures Dated(After(Initial(concurrency, now), steps))
    decreases |steps|
  {
    if steps != [] {
      var g := After(Initial(concurrency, now), steps[..|steps| - 1]);
      ChangesAreDated(concurrency, now, steps[..|steps| - 1]);
      if Enabled(g, steps[|steps| - 1]) {
        StepKeepsDated(g, steps[|steps| - 1]);
      }
    }
  }

  /** The duration of a run is the time since it was about to be published as started: the clamp
      never acts on it, and what is added to the record is that time under its own outcome. */
  lemma DurationsAreMeasured(concurrency: nat, now: int, steps: seq<Step>, c: nat, outcome: Outcome)
    requires var g := After(Initial(concurrency, now), steps); c < |g.calls|
    ensures var g := After(Initial(concurrency, now), steps);
      && (Enabled(g, DrawChangeId(c)) && g.calls[c].phase.Granted? ==>
            Apply(g, DrawChangeId(c)).calls[c].phase == Granted(g.now))
      && (Enabled(g, Publish(c)) && g.calls[c].phase.Granted? ==>
            Apply(g, Publish(c)).calls[c].phase == Running(g.calls[c].phase.startedAt))
      && (Enabled(g, EndEffect(c, outcome)) ==>
            Apply(g, EndEffect(c, outcome)).calls[c].phase == Ending(outcome, g.now - g.calls[c].phase.startedAt))
  {
    ChangesAreDated(concurrency, now, steps);
    var g := After(Initial(concurrency, now), steps);
    assert StartedBy(g.calls[c].phase, g.now);
  }

  // ---- the gate object ----

  /** The record with one more finished call. */
  function Counting(s: GateState, outcome: Outcome, durationMs: int, observedAt: int): GateState {
    s.(
      observedAt := observedAt,
      completed := s.completed + if outcome.Succeeded? then 1 else 0,
      failed := s.failed + if outcome.Failed? then 1 else 0,
      interrupted := s.interrupted + if outcome.Interrupted? then 1 else 0,
      totalDurationMs := s.totalDurationMs + durationMs)
  }

  /** The semaphore, the counters and the record of one gate; each method is one atomic
      action of a call. */
  class RunResourceGate {
    const concurrency: nat
    var now: int
    var free: int
    var state: GateState
    var runSeq: nat
    var stateSeq: nat
    var calls: seq<Call>
    var changes: seq<Change>

    ghost function View(): Gate
      reads this
    {
      Gate(now, free, state, runSeq, stateSeq, calls, changes)
    }

    constructor (concurrency: nat, now: int)
      ensures this.concurrency == concurrency && View() == Initial(concurrency, now)
    {
      this.concurrency, this.now, free, state := concurrency, now, concurrency, InitialState(now);
      runSeq, stateSeq, calls, changes := 0, 0, [], [];
    }

    method NewCall() returns (c: nat)
      modifies this
      ensures View() == Apply(old(View()), Enter)
      ensures c == old(|calls|)
    {
      runSeq := runSeq + 1;
      c := |calls|;
      calls := calls + [Call(runSeq, Entering, None)];
    }

    method NextStateChangeId(c: nat)
      requires Enabled(View(), DrawChangeId(c))
      modifies this
      ensures View() == Apply(old(View()), DrawChangeId(c))
    {
      stateSeq := stateSeq + 1;
      calls := calls[c := Call(calls[c].runId, Stamped(calls[c].phase, now), Some(stateSeq))];
    }

    /** The atomic part of `publishState`: modify the record and report both ends. */
    method PublishState(c: nat)
      requires Enabled(View(), Publish(c))
      modifies this
      ensures View() == Apply(old(View()), Publish(c))
      ensures |changes| == old(|changes|) + 1
      ensures changes[old(|changes|)].previous == old(state) && changes[old(|changes|)].current == state
    {
      var call := calls[c];
      var reason := ReasonOf(call.phase);
      var previous := state;
      state := Updated(previous, reason, now);
      calls := calls[c := Call(call.runId, PhaseAfter(call.phase), None)];
      changes := changes + [Change(call.changeId.value, now, reason, previous, state)];
    }

    /** One try at a permit; the caller waits when it returns false. */
    method TryTake(c: nat) returns (granted: bool)
      requires c < |calls| && calls[c].phase.Waiting?
      modifies this
      ensures granted == (old(free) > 0)
      ensures View() == if granted then Apply(old(View()), Acquire(c)) else old(View())
    {
      granted := free > 0;
      if granted {
        free := free - 1;
        calls := calls[c := calls[c].(phase := Granted(now))];
      }
    }

    method InterruptAtSemaphore(c: nat)
      requires Enabled(View(), InterruptWait(c))
      modifies this
      ensures View() == Apply(old(View()), InterruptWait(c))
    {
      calls := calls[c := calls[c].(phase := Abandoning)];
    }

    method InterruptBeforeStart(c: nat)
      requires Enabled(View(), InterruptGranted(c))
      modifies this
      ensures View() == Apply(old(View()), InterruptGranted(c))
    {
      calls := calls[c := Call(calls[c].runId, Dropped, None)];
    }

    method EffectOver(c: nat, outcome: Outcome)
      requires Enabled(View(), EndEffect(c, outcome))
      modifies this
      ensures View() == Apply(old(View()), EndEffect(c, outcome))
    {
      var durationMs := Max(0, now - calls[c].phase.startedAt);
      calls := calls[c := calls[c].(phase := Ending(outcome, durationMs))];
    }

    method ReleasePermit(c: nat)
      requires Enabled(View(), Release(c))
      modifies this
      ensures View() == Apply(old(View()), Release(c))
    {
      free := free + 1;
      calls := calls[c := calls[c].(phase := PhaseReleased(calls[c].phase))];
    }

    method Tick(ms: nat)
      modifies this`now
      ensures View() == Apply(old(View()), Advance(ms))
    {
      now := now + ms;
    }

    /** A call up to its wait at the semaphore. */
    method Announce() returns (c: nat)
      modifies this
      ensures c == old(|calls|) == |calls| - 1 && calls[..c] == old(calls)
      ensures calls[c].phase == Waiting && calls[c].changeId.None? && free == old(free) && now == old(now)
      ensures state == old(state).(observedAt := now, waiting := old(state.waiting) + 1)
      ensures |changes| == old(|changes|) + 1 && old(changes) <= changes
    {
      c := NewCall();
      NextStateChangeId(c);
      PublishState(c);
    }

    /** A granted call up to its user effect. */
    method Start(c: nat)
      requires c < |calls| && calls[c].phase.Granted? && calls[c].changeId.None? && state.waiting >= 1
      modifies this
      ensures |calls| == old(|calls|) && calls[..c] == old(calls[..c]) && calls[c].phase == Running(now)
      ensures calls[c].changeId.None?
      ensures free == old(free) && now == old(now)
      ensures state == old(state).(observedAt := now, waiting := old(state.waiting) - 1, inFlight := old(state.inFlight) + 1)
      ensures |changes| == old(|changes|) + 1 && old(changes) <= changes
    {
      NextStateChangeId(c);
      PublishState(c);
    }

    /** A call from the end of its user effect to the release of its permit. */
    method Complete(c: nat, outcome: Outcome)
      requires c < |calls| && calls[c].phase.Running? && calls[c].changeId.None? && state.inFlight >= 1
      requires calls[c].phase.startedAt <= now
      modifies this
      ensures |calls| == old(|calls|) && calls[..c] == old(calls[..c])
      ensures calls[c].phase == Released(outcome, now - old(calls[c].phase.startedAt))
      ensures free == old(free) + 1 && now == old(now)
      ensures state == Counting(old(state).(inFlight := old(state.inFlight) - 1), outcome,
                                now - old(calls[c].phase.startedAt), now)
      ensures |changes| == old(|changes|) + 1 && old(changes) <= changes
    {
      EffectOver(c, outcome);
      NextStateChangeId(c);
      PublishState(c);
      ReleasePermit(c);
    }

    /** One call from end to end, with no other call in between. If a permit is free, the call
        takes it and gives it back, and all it leaves is one more outcome, its duration and three
        state changes; otherwise it is left waiting. */
    method RunCall(runMs: nat, outcome: Outcome) returns (c: nat, ran: bool)
      requires state.waiting >= 0 && state.inFlight >= 0
      modifies this
      ensures c == old(|calls|) == |calls| - 1 && calls[..c] == old(calls)
      ensures ran == (old(free) > 0) && free == old(free)
      ensures ran ==> calls[c].phase == Released(outcome, runMs) && |changes| == old(|changes|) + 3
      ensures ran ==> now == old(now) + runMs && state == Counting(old(state), outcome, runMs, now)
      ensures !ran ==> calls[c].phase == Waiting && |changes| == old(|changes|) + 1
      ensures !ran ==> state == old(state).(observedAt := now, waiting := old(state.waiting) + 1)
      ensures old(changes) <= changes
    {
      c := Announce();
      ran := TryTake(c);
      if ran {
        Start(c);
        Tick(runMs);
        Complete(c, outcome);
      }
    }
  }
}
