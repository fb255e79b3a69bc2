/** The cadence between the runs of a polling instance (src/Polling.ts, `spacedLayer`,
    `backoffLayer`) and the instance loop it bounds (src/Process.ts, `spawnEntryInstance`).
    Durations and instants are milliseconds, as reals: `factor` need not be whole. */
module Polling {
  datatype Policy =
    | Spaced(interval: real)
    | Backoff(initial: real, max: real, factor: real)

  predicate Usable(p: Policy) {
    match p
    case Spaced(interval) => interval > 0.0
    case Backoff(initial, max, factor) => initial > 0.0 && max > 0.0 && factor >= 1.0
  }

  function Min(a: real, b: real): real { if a < b then a else b }

  function Scale(ms: real, factor: real): real { ms * factor }

  function Power(b: real, k: nat): real {
    if k == 0 then 1.0 else b * Power(b, k - 1)
  }

  function FirstCadence(p: Policy): real {
    match p
    case Spaced(interval) => interval
    case Backoff(initial, _, _) => initial
  }

  function NextCadence(p: Policy, current: real): real {
    match p
    case Spaced(_) => current
    case Backoff(_, max, factor) => Min(Scale(current, factor), max)
  }

  /** The wait before run `k`, when nothing resets or wakes the instance. */
  function CadenceAt(p: Policy, k: nat): real {
    if k == 0 then FirstCadence(p) else NextCadence(p, CadenceAt(p, k - 1))
  }

  function MinCadence(p: Policy): real {
    match p
    case Spaced(interval) => interval
    case Backoff(initial, max, _) => Min(initial, max)
  }

  lemma TimesAtLeast(x: real, c: real)
    requires x >= 0.0 && c >= 1.0
    ensures x * c >= x
  {
    assert x * c - x == x * (c - 1.0);
  }

  /** Capping before or after one more multiplication by a factor of at least 1 is the same. */
  lemma CapCommutes(p: Policy, x: real)
    requires p.Backoff? && Usable(p) && x > 0.0
    ensures NextCadence(p, Min(x, p.max)) == NextCadence(p, x)
  {
    TimesAtLeast(x, p.factor);
    TimesAtLeast(p.max, p.factor);
  }

  /** The backoff as if it had no cap. */
  function Uncapped(initial: real, factor: real, k: nat): real {
    if k == 0 then initial else Scale(Uncapped(initial, factor, k - 1), factor)
  }

  lemma {:induction false} UncappedIsPower(initial: real, factor: real, k: nat)
    ensures Uncapped(initial, factor, k) == initial * Power(factor, k)
  {
    if k > 0 {
      UncappedIsPower(initial, factor, k - 1);
      Associate(initial, factor, Power(factor, k - 1));
    }
  }

  lemma Associate(a: real, b: real, c: real)
    ensures a * (b * c) == (a * c) * b
  {
  }

  lemma {:induction false} UncappedPositive(initial: real, factor: real, k: nat)
    requires initial > 0.0 && factor >= 1.0
    ensures Uncapped(initial, factor, k) >= initial
  {
    if k > 0 {
      UncappedPositive(initial, factor, k - 1);
      TimesAtLeast(Uncapped(initial, factor, k - 1), factor);
    }
  }

  lemma {:induction false} CadenceIsCapped(p: Policy, k: nat)
    requires p.Backoff? && Usable(p) && k > 0
    ensures CadenceAt(p, k) == NextCadence(p, Uncapped(p.initial, p.factor, k - 1))
  {
    if k > 1 {
      var u := Uncapped(p.initial, p.factor, k - 2);
      CadenceIsCapped(p, k - 1);
      UncappedPositive(p.initial, p.factor, k - 1);
      CapCommutes(p, Uncapped(p.initial, p.factor, k - 1));
      assert NextCadence(p, u) == Min(Uncapped(p.initial, p.factor, k - 1), p.max);
    }
  }

  /** `min(initial * factor^k, max)`, except for a first wait that is longer than `max`. */
  lemma {:induction false} BackoffClosedForm(p: Policy, k: nat)
    requires p.Backoff? && Usable(p)
    ensures CadenceAt(p, k) == Min(Uncapped(p.initial, p.factor, k), p.max) <==> k > 0 || p.initial <= p.max
  {
    if k > 0 {
      CadenceIsCapped(p, k);
    }
  }

  /** A spaced service always waits its interval, a backoff starts at its initial wait. */
  lemma {:induction false} FirstAndSpacedWaits(interval: real, initial: real, max: real, factor: real, k: nat)
    ensures CadenceAt(Spaced(interval), k) == interval
    ensures CadenceAt(Backoff(initial, max, factor), 0) == initial
  {
    if k > 0 {
      FirstAndSpacedWaits(interval, initial, max, factor, k - 1);
    }
  }

  /** The cadence after more ticks. */
  function Ticked(p: Policy, current: real, ticks: nat): real {
    if ticks == 0 then current else NextCadence(p, Ticked(p, current, ticks - 1))
  }

  lemma NextAtLeastMin(p: Policy, current: real)
    requires Usable(p) && current >= MinCadence(p) > 0.0
    ensures NextCadence(p, current) >= MinCadence(p)
  {
    match p {
      case Spaced(_) =>
      case Backoff(_, max, factor) =>
        TimesAtLeast(current, factor);
        assert Scale(current, factor) >= current;
    }
  }

  lemma {:induction false} CadenceAtLeastMin(p: Policy, k: nat)
    requires Usable(p)
    ensures CadenceAt(p, k) >= MinCadence(p) > 0.0
  {
    if k > 0 {
      CadenceAtLeastMin(p, k - 1);
      NextAtLeastMin(p, CadenceAt(p, k - 1));
    }
  }

  lemma {:induction false} TickedAtLeastMin(p: Policy, current: real, ticks: nat)
    requires Usable(p) && current >= MinCadence(p)
    ensures Ticked(p, current, ticks) >= MinCadence(p) > 0.0
  {
    if ticks > 0 {
      TickedAtLeastMin(p, current, ticks - 1);
      NextAtLeastMin(p, Ticked(p, current, ticks - 1));
    }
  }

  /** The mutable cadence of one polling service, shared by all instances of a process, and the
      wait that `requestWake` would end: every wait replaces it by a fresh one. */
  class PollingService {
    const policy: Policy
    var currentMs: real
    var wait: nat
    var woken: set<nat>

    /** What every operation of the service keeps. */
    ghost predicate Valid()
      reads this
    {
      && (Usable(policy) ==> currentMs >= MinCadence(policy) > 0.0)
      && (forall w | w in woken :: w <= wait)
    }

    constructor (policy: Policy)
      ensures Valid()
      ensures this.policy == policy && currentMs == CadenceAt(policy, 0) && woken == {}
    {
      this.policy, wait, woken := policy, 0, {};
      currentMs := FirstCadence(policy);
    }

    method AfterTick()
      requires Valid()
      modifies this`currentMs
      ensures Valid()
      ensures currentMs == NextCadence(policy, old(currentMs))
      ensures policy.Spaced? ==> currentMs == old(currentMs)
      ensures policy.Backoff? ==>
        currentMs == if old(currentMs) * policy.factor < policy.max then old(currentMs) * policy.factor else policy.max
    {
      if Usable(policy) {
        TickedAtLeastMin(policy, currentMs, 1);
      }
      match policy
      case Spaced(_) =>
      case Backoff(_, max, factor) => currentMs := Min(Scale(currentMs, factor), max);
    }

    /** The start of a wait: it is the one a wake ends from now on, and no earlier wake ends it. */
    method BeginWait() returns (w: nat)
      requires Valid()
      modifies this`wait
      ensures Valid()
      ensures w == wait && w !in woken && wait > old(wait)
    {
      wait := wait + 1;
      w := wait;
    }

    method RequestWake()
      requires Valid()
      modifies this`woken
      ensures Valid()
      ensures woken == old(woken) + {wait}
    {
      woken := woken + {wait};
    }

    method ResetCadence()
      requires Valid()
      modifies this`currentMs, this`woken
      ensures Valid()
      ensures policy.Backoff? ==> currentMs == CadenceAt(policy, 0) == policy.initial
      ensures policy.Spaced? ==> currentMs == old(currentMs)
      ensures woken == old(woken) + {wait}
    {
      match policy {
        case Spaced(_) =>
        case Backoff(initial, _, _) => currentMs := initial;
      }
      RequestWake();
    }
  }

  /** What the surroundings add to each round: how late the timer is served, how long the user
      effect runs, and how often other instances tick the shared cadence in the meantime. */
  datatype World = World(late: nat -> real, work: nat -> real, others: nat -> nat)

  ghost predicate Forward(d: World) {
    forall k :: d.late(k) >= 0.0 && d.work(k) >= 0.0
  }

  /** The wait of round `k` of an instance that found the cadence at `first`. */
  function CadenceIn(p: Policy, d: World, first: real, k: nat): real {
    if k == 0 then first else Ticked(p, NextCadence(p, CadenceIn(p, d, first, k - 1)), d.others(k - 1))
  }

  /** Alone on a fresh service, an instance sees the service's own sequence of cadences. */
  lemma {:induction false} AloneAndFresh(p: Policy, d: World, k: nat)
    requires forall j :: d.others(j) == 0
    ensures CadenceIn(p, d, FirstCadence(p), k) == CadenceAt(p, k)
  {
    if k > 0 {
      AloneAndFresh(p, d, k - 1);
    }
  }

  lemma {:induction false} CadenceInAtLeastMin(p: Policy, d: World, first: real, k: nat)
    requires Usable(p) && first >= MinCadence(p)
    ensures CadenceIn(p, d, first, k) >= MinCadence(p) > 0.0
  {
    if k == 0 {
      CadenceAtLeastMin(p, 0);
    } else {
      CadenceInAtLeastMin(p, d, first, k - 1);
      TickedAtLeastMin(p, CadenceIn(p, d, first, k - 1), 1);
      TickedAtLeastMin(p, NextCadence(p, CadenceIn(p, d, first, k - 1)), d.others(k - 1));
    }
  }

  /** The instant at which round `k` starts at the top of the loop. */
  function RoundStart(p: Policy, d: World, first: real, start: real, k: nat): real
    decreases k, 0
  {
    if k == 0 then start
    else RunAt(p, d, first, start, k - 1) + d.work(k - 1)
  }

  /** The instant at which the tick of round `k` arrives. */
  function RunAt(p: Policy, d: World, first: real, start: real, k: nat): real
    decreases k, 1
  {
    RoundStart(p, d, first, start, k) + CadenceIn(p, d, first, k) + d.late(k)
  }

  /** `k` intervals of length `d`, one after another. */
  function Steps(k: nat, d: real): real {
    if k == 0 then 0.0 else Steps(k - 1, d) + d
  }

  lemma {:induction false} StepsIsProduct(k: nat, d: real)
    ensures Steps(k, d) == k as real * d
  {
    if k > 0 {
      StepsIsProduct(k - 1, d);
      assert k as real * d == (k - 1) as real * d + d;
    }
  }

  lemma {:induction false} RoundsAdvance(p: Policy, d: World, first: real, start: real, k: nat)
    requires Usable(p) && first >= MinCadence(p) && Forward(d)
    ensures RoundStart(p, d, first, start, k) >= start + Steps(k, MinCadence(p))
    ensures RunAt(p, d, first, start, k) >= start + Steps(k + 1, MinCadence(p))
  {
    CadenceInAtLeastMin(p, d, first, k);
    if k > 0 {
      RoundsAdvance(p, d, first, start, k - 1);
      assert d.work(k - 1) >= 0.0;
    }
    assert d.late(k) >= 0.0;
  }

  /** Consecutive runs of one instance are at least the minimum cadence apart. */
  lemma RunsAreSpaced(p: Policy, d: World, first: real, start: real, k: nat)
    requires Usable(p) && first >= MinCadence(p) && Forward(d)
    ensures RunAt(p, d, first, start, k + 1) >= RunAt(p, d, first, start, k) + MinCadence(p)
  {
    CadenceInAtLeastMin(p, d, first, k + 1);
    assert d.work(k) >= 0.0 && d.late(k + 1) >= 0.0;
  }

  /** Some whole number of steps of length `d` covers `room`. */
  lemma Covering(room: real, d: real) returns (n: nat)
    requires d > 0.0
    ensures room <= Steps(n, d)
  {
    var q := room / d;
    assert q * d == room;
    n := if q.Floor < 0 then 0 else q.Floor + 1;
    StepsIsProduct(n, d);
    TimesMonotone(q, n as real, d);
  }

  lemma TimesMonotone(a: real, b: real, d: real)
    requires a <= b && d >= 0.0
    ensures a * d <= b * d
  {
    assert (b - a) * d >= 0.0;
  }

  /** Other instances tick the shared cadence. */
  method TickOthers(polling: PollingService, ticks: nat)
    requires polling.Valid()
    modifies polling
    ensures polling.Valid() && polling.currentMs == Ticked(polling.policy, old(polling.currentMs), ticks)
  {
    for i := 0 to ticks
      invariant polling.Valid() && polling.currentMs == Ticked(polling.policy, old(polling.currentMs), i)
    {
      polling.AfterTick();
    }
  }

  /** The loop of one polling instance on a window that stops at `stopAt`, on a service whose
      cadence earlier windows have advanced and overlapping ones go on advancing. It terminates,
      its runs are exactly the ticks before the window closes, they are at least the minimum
      cadence apart, and there are fewer of them than the minimum cadence fits into the window.
      The service is left as the next window may find it. */
  method RunPollingInstance(polling: PollingService, d: World, start: real, stopAt: real)
    returns (runs: seq<real>)
    requires Usable(polling.policy) && polling.Valid()
    requires Forward(d)
    modifies polling
    ensures polling.Valid()
    ensures polling.currentMs == CadenceIn(polling.policy, d, old(polling.currentMs), |runs|)
    ensures forall k | 0 <= k < |runs| ::
      start < runs[k] == RunAt(polling.policy, d, old(polling.currentMs), start, k) < stopAt
    ensures forall k | 0 <= k < |runs| - 1 :: runs[k + 1] >= runs[k] + MinCadence(polling.policy)
    ensures RunAt(polling.policy, d, old(polling.currentMs), start, |runs|) >= stopAt
    ensures runs != [] ==> Steps(|runs|, MinCadence(polling.policy)) < stopAt - start
  {
    var p := polling.policy;
    ghost var first := polling.currentMs;
    var now := start;
    runs := [];
    ghost var most := Covering(stopAt - start, MinCadence(p));
    while true
      invariant polling.Valid() && polling.currentMs == CadenceIn(p, d, first, |runs|)
      invariant now == RoundStart(p, d, first, start, |runs|)
      invariant forall k | 0 <= k < |runs| :: runs[k] == RunAt(p, d, first, start, k) < stopAt
      invariant |runs| <= most
      decreases most - |runs|
    {
      ghost var k := |runs|;
      if !(now < stopAt) {
        CadenceInAtLeastMin(p, d, first, k);
        assert d.late(k) >= 0.0;
        break;
      }
      var _ := polling.BeginWait();
      now := now + polling.currentMs + d.late(|runs|);
      if !(now < stopAt) {
        break;
      }
      RoomForRound(p, d, first, start, stopAt, k, most);
      now, runs := now + d.work(|runs|), runs + [now];
      polling.AfterTick();
      TickOthers(polling, d.others(|runs| - 1));
    }
    RunsFitTheWindow(p, d, first, start, stopAt, runs);
  }

  /** A round whose tick arrives before the stop is one of those the window has room for. */
  lemma RoomForRound(p: Policy, d: World, first: real, start: real, stopAt: real, k: nat, most: nat)
    requires Usable(p) && first >= MinCadence(p) && Forward(d)
    requires RunAt(p, d, first, start, k) < stopAt && stopAt - start <= Steps(most, MinCadence(p))
    ensures k < most
  {
    CadenceAtLeastMin(p, 0);
    RoundsAdvance(p, d, first, start, k);
    MoreRoom(k, most, MinCadence(p));
  }

  lemma RunsFitTheWindow(p: Policy, d: World, first: real, start: real, stopAt: real, runs: seq<real>)
    requires Usable(p) && first >= MinCadence(p) && Forward(d)
    requires forall k | 0 <= k < |runs| :: runs[k] == RunAt(p, d, first, start, k) < stopAt
    ensures forall k | 0 <= k < |runs| :: start < runs[k]
    ensures forall k | 0 <= k < |runs| - 1 :: runs[k + 1] >= runs[k] + MinCadence(p)
    ensures runs != [] ==> Steps(|runs|, MinCadence(p)) < stopAt - start
  {
    CadenceAtLeastMin(p, 0);
    forall k | 0 <= k < |runs|
      ensures start < runs[k]
    {
      RoundsAdvance(p, d, first, start, k);
      MoreRoom(k, 0, MinCadence(p));
    }
    forall k | 0 <= k < |runs| - 1
      ensures runs[k + 1] >= runs[k] + MinCadence(p)
    {
      RunsAreSpaced(p, d, first, start, k);
    }
    if runs != [] {
      RoundsAdvance(p, d, first, start, |runs| - 1);
    }
  }

  /** Steps that cover less than a covering are fewer. */
  lemma {:induction false} MoreRoom(k: nat, most: nat, d: real)
    requires d > 0.0
    ensures Steps(k + 1, d) < Steps(most, d) ==> k < most
    ensures Steps(k, d) >= 0.0
  {
    StepsIsProduct(k + 1, d);
    StepsIsProduct(most, d);
    StepsIsProduct(k, d);
    if k >= most {
      TimesMonotone(most as real, (k + 1) as real, d);
    }
  }

  /** On an exact timer a `spaced` instance runs at every multiple of its interval inside the
      window and nowhere else, whatever other instances do. */
  lemma {:induction false} SpacedRunsOnTheGrid(interval: real, d: World, start: real, k: nat)
    requires interval > 0.0 && forall j :: d.late(j) == 0.0 && d.work(j) == 0.0
    ensures RunAt(Spaced(interval), d, interval, start, k) == start + Steps(k + 1, interval)
  {
    SpacedIsConstant(interval, d, k);
    if k > 0 {
      SpacedRunsOnTheGrid(interval, d, start, k - 1);
    }
  }

  lemma {:induction false} SpacedIsConstant(interval: real, d: World, k: nat)
    ensures CadenceIn(Spaced(interval), d, interval, k) == interval
  {
    if k > 0 {
      SpacedIsConstant(interval, d, k - 1);
      SpacedTicks(interval, d.others(k - 1));
    }
  }

  lemma {:induction false} SpacedTicks(interval: real, ticks: nat)
    ensures Ticked(Spaced(interval), interval, ticks) == interval
  {
    if ticks > 0 { SpacedTicks(interval, ticks - 1); }
  }
}
