/** Usage windows of an API client (src/internal/apiUsageRegistry.ts).

    Any number of `record` calls interleave with each other and with the timer that emits
    windows. One step is one atomic action on one reference: a record counts the request,
    counts the error, files the event in the open window, then in the cumulative table, and
    last reads the clock and takes the window. */
module ApiUsage {
  import opened Integers
  import opened OrderedMap
  import opened Paths
  import opened StableSort
  import opened Wrappers

  const NUL: char := '\0'
  const TOP := 10

  datatype Event = Event(group: string, endpoint: string, failed: bool, durationMs: real)

  datatype Stats = Stats(group: string, endpoint: string, requests: nat, errors: nat, durationSumMs: real)

  datatype Window = Window(startedAt: int, requests: nat, errors: nat, byEndpoint: Table<Stats>)

  /** A window taken from the accumulator, closed at the clock reading of its taker. */
  datatype Taken = Taken(window: Window, endedAt: int)

  function EndpointKey(group: string, endpoint: string): string {
    group + [NUL] + endpoint
  }

  function KeyOf(e: Event): string {
    EndpointKey(e.group, e.endpoint)
  }

  function FreshWindow(startedAt: int): Window {
    Window(startedAt, 0, 0, [])
  }

  /** An endpoint's row with one more event, named after that event. */
  function RowWith(rows: Table<Stats>, e: Event): Stats {
    var prev := Get(rows, KeyOf(e)).UnwrapOr(Stats(e.group, e.endpoint, 0, 0, 0.0));
    Stats(
      e.group,
      e.endpoint,
      prev.requests + 1,
      prev.errors + if e.failed then 1 else 0,
      prev.durationSumMs + e.durationMs)
  }

  /** One event added to its endpoint's row, as windows and the cumulative table both do. */
  function AddToRow(rows: Table<Stats>, e: Event): Table<Stats> {
    Set(rows, KeyOf(e), RowWith(rows, e))
  }

  function MergeEvent(w: Window, e: Event): Window {
    Window(w.startedAt, w.requests + 1, w.errors + if e.failed then 1 else 0, AddToRow(w.byEndpoint, e))
  }

  /** The references a sink updates. */
  datatype Refs = Refs(window: Window, requestsTotal: nat, errorsTotal: nat, cumulative: Table<Stats>)

  // ---- the steps of a sink ----

  /** Where a `record` call stands: which reference it updates next. */
  datatype Stage =
    | Arrived
    | RequestCounted
    | ErrorCounted
    | Filed
    | Cumulated
    | Closing(readAt: int)  // has read the clock, has not taken the window yet
    | Over

  datatype Record = Record(event: Event, stage: Stage)

  datatype Sink = Sink(now: int, refs: Refs, timer: Option<int>, records: seq<Record>, taken: seq<Taken>)

  datatype Step =
    | Advance(ms: nat)
    | Begin(event: Event)
    | CountRequest(record: nat)
    | CountError(record: nat)
    | FileEvent(record: nat)
    | Cumulate(record: nat)
    | ReadClock(record: nat)
    | Take(record: nat)
    | TimerReadsClock
    | TimerTakes

  function Initial(now: int): Sink {
    Sink(now, Refs(FreshWindow(now), 0, 0, []), None, [], [])
  }

  /** The stage a record's step needs and the one it leads to. */
  predicate Ready(r: Record, step: Step) {
    match step
    case CountRequest(_) => r.stage.Arrived?
    case CountError(_) => r.stage.RequestCounted? && r.event.failed
    case FileEvent(_) => r.stage.ErrorCounted? || (r.stage.RequestCounted? && !r.event.failed)
    case Cumulate(_) => r.stage.Filed?
    case ReadClock(_) => r.stage.Cumulated?
    case Take(_) => r.stage.Closing?
    case _ => false
  }

  function Next(step: Step, now: int): Stage {
    match step
    case CountRequest(_) => RequestCounted
    case CountError(_) => ErrorCounted
    case FileEvent(_) => Filed
    case Cumulate(_) => Cumulated
    case ReadClock(_) => Closing(now)
    case _ => Over
  }

  predicate OfRecord(step: Step) {
    !step.Advance? && !step.Begin? && !step.TimerReadsClock? && !step.TimerTakes?
  }

  predicate Enabled(s: Sink, step: Step) {
    match step
    case Advance(_) => true
    case Begin(_) => true
    case TimerReadsClock => s.timer.None?
    case TimerTakes => s.timer.Some?
    case _ => step.record < |s.records| && Ready(s.records[step.record], step)
  }

  /** What a record's step does to the references. */
  function Touch(refs: Refs, step: Step, e: Event, readAt: int): Refs {
    match step
    case CountRequest(_) => refs.(requestsTotal := refs.requestsTotal + 1)
    case CountError(_) => refs.(errorsTotal := refs.errorsTotal + 1)
    case FileEvent(_) => refs.(window := MergeEvent(refs.window, e))
    case Cumulate(_) => refs.(cumulative := AddToRow(refs.cumulative, e))
    case Take(_) => refs.(window := FreshWindow(readAt))
    case _ => refs
  }

  function Apply(s: Sink, step: Step): Sink
    requires Enabled(s, step)
  {
    match step
    case Advance(ms) => s.(now := s.now + ms)
    case Begin(e) => s.(records := s.records + [Record(e, Arrived)])
    case TimerReadsClock => s.(timer := Some(s.now))
    case TimerTakes =>
      s.(
        refs := s.refs.(window := FreshWindow(s.timer.value)),
        timer := None,
        taken := s.taken + [Taken(s.refs.window, s.timer.value)])
    case _ =>
      var r := s.records[step.record];
      var readAt := if r.stage.Closing? then r.stage.readAt else s.now;
      s.(
        refs := Touch(s.refs, step, r.event, readAt),
        records := s.records[step.record := Record(r.event, Next(step, s.now))],
        taken := if step.Take? then s.taken + [Taken(s.refs.window, readAt)] else s.taken)
  }

  function After(s: Sink, steps: seq<Step>): Sink
    decreases |steps|
  {
    if steps == [] then s
    else
      var before := After(s, steps[..|steps| - 1]);
      var step := steps[|steps| - 1];
      if Enabled(before, step) then Apply(before, step) else before
  }

  /** One more step of a run whose state is known. */
  lemma RunOn(start: Sink, steps: seq<Step>, s: Sink, step: Step)
    requires After(start, steps) == s && Enabled(s, step)
    ensures After(start, steps + [step]) == Apply(s, step)
  {
    assert (steps + [step])[..|steps|] == steps;
  }

  // ---- endpoint keys ----

  /** Keys tell endpoints apart as long as no group name holds the separator. */
  lemma EndpointKeyInjective(g: string, e: string, h: string, f: string)
    requires NUL !in g && NUL !in h && EndpointKey(g, e) == EndpointKey(h, f)
    ensures g == h && e == f
  {
    SplitCons(g, e, NUL);
    SplitCons(h, f, NUL);
    assert ([g] + Split(e, NUL))[0] == g && ([h] + Split(f, NUL))[0] == h;
    assert EndpointKey(g, e)[|g| + 1..] == e;
  }

  /** Two groups can share a row if and only if their names are equal or one is the other
      followed by the separator and more. */
  lemma GroupsShareARowIff(g: string, h: string)
    ensures (exists e, f :: EndpointKey(g, e) == EndpointKey(h, f)) <==> g == h || Extends(g, h, NUL) || Extends(h, g, NUL)
  {
    SharedJoinIff(g, h, NUL);
    if e, f :| g + [NUL] + e == h + [NUL] + f {
      assert EndpointKey(g, e) == EndpointKey(h, f);
    }
  }

  /** A group whose name holds the separator shares its key with another endpoint of another
      group, so the two share a row. */
  lemma SeparatorInGroupCollides(g: string, e: string)
    requires NUL in g
    ensures exists h, f :: h != g && EndpointKey(h, f) == EndpointKey(g, e)
  {
    var i :| 0 <= i < |g| && g[i] == NUL;
    var h, f := g[..i], g[i + 1..] + [NUL] + e;
    assert EndpointKey(h, f) == EndpointKey(g, e);
  }

  // ---- the busiest endpoints ----

  function MoreRequests(): (Stats, Stats) -> int {
    (a: Stats, b: Stats) => b.requests - a.requests
  }

  function ByRequests(rows: Table<Stats>): seq<Stats> {
    Sort(MoreRequests(), Values(rows))
  }

  /** The first ten rows, most requests first. */
  function TopEndpoints(rows: Table<Stats>): seq<Stats> {
    var sorted := ByRequests(rows);
    sorted[..Min(TOP, |sorted|)]
  }

  function LeftOut(rows: Table<Stats>): seq<Stats> {
    ByRequests(rows)[|TopEndpoints(rows)|..]
  }

  /** The snapshot lists the busiest endpoints: no row left out has more requests than a row
      listed. */
  lemma TopEndpointsAreTheBusiest(rows: Table<Stats>)
    ensures |TopEndpoints(rows)| == Min(TOP, |rows|)
    ensures Sorted(MoreRequests(), TopEndpoints(rows))
    ensures multiset(TopEndpoints(rows)) + multiset(LeftOut(rows)) == multiset(Values(rows))
    ensures forall a, b | a in TopEndpoints(rows) && b in LeftOut(rows) :: a.requests >= b.requests
  {
    var sorted := ByRequests(rows);
    ByRequestsIsSort(rows);
    SplitSorted(sorted, Min(TOP, |sorted|));
  }

  lemma ByRequestsIsSort(rows: Table<Stats>)
    ensures Sorted(MoreRequests(), ByRequests(rows))
    ensures multiset(ByRequests(rows)) == multiset(Values(rows))
    ensures |ByRequests(rows)| == |rows|
  {
    MoreRequestsIsPreorder();
    SortIsStable(MoreRequests(), Values(rows));
    assert |multiset(ByRequests(rows))| == |multiset(Values(rows))|;
  }

  lemma MoreRequestsIsPreorder()
    ensures TotalPreorder(MoreRequests())
  {
  }

  lemma SplitSorted(sorted: seq<Stats>, n: nat)
    requires Sorted(MoreRequests(), sorted) && n <= |sorted|
    ensures Sorted(MoreRequests(), sorted[..n])
    ensures multiset(sorted[..n]) + multiset(sorted[n..]) == multiset(sorted)
    ensures forall a, b | a in sorted[..n] && b in sorted[n..] :: a.requests >= b.requests
  {
    assert sorted == sorted[..n] + sorted[n..];
    forall a, b | a in sorted[..n] && b in sorted[n..]
      ensures a.requests >= b.requests
    {
      var i :| 0 <= i < n && sorted[i] == a;
      var j :| n <= j < |sorted| && sorted[j] == b;
      assert MoreRequests()(sorted[i], sorted[j]) <= 0;
    }
  }

  // ---- published metrics ----

  datatype EndpointMetrics = EndpointMetrics(
    group: string, endpoint: string, requests: nat, errors: nat, avgDurationMs: Option<real>)

  datatype Metrics = Metrics(
    windowStart: int, windowEnd: int, windowMillis: int, requests: nat, errors: nat, inFlight: int,
    throughputPerSec: real, byEndpoint: seq<EndpointMetrics>)

  function EndpointOf(row: Stats): EndpointMetrics {
    EndpointMetrics(row.group, row.endpoint, row.requests, row.errors,
                    if row.requests > 0 then Some(row.durationSumMs / row.requests as real) else None)
  }

  function MetricsOf(t: Taken, inFlight: int): Metrics {
    var w, millis := t.window, t.endedAt - t.window.startedAt;
    Metrics(w.startedAt, t.endedAt, millis, w.requests, w.errors, inFlight,
            if millis > 0 then w.requests as real / millis as real * 1000.0 else 0.0,
            seq(|w.byEndpoint|, i requires 0 <= i < |w.byEndpoint| => EndpointOf(w.byEndpoint[i].value)))
  }

  /** What a taken window publishes are its counts under their names, and rates that give the
      counts back: throughput times length is its requests, an endpoint's average times its
      requests is its total duration. */
  lemma MetricsAreRates(t: Taken, inFlight: int)
    ensures var m := MetricsOf(t, inFlight);
      && m.windowStart == t.window.startedAt && m.windowEnd == t.endedAt == m.windowStart + m.windowMillis
      && m.requests == t.window.requests && m.errors == t.window.errors && m.inFlight == inFlight
      && (m.windowMillis > 0 ==> m.throughputPerSec * m.windowMillis as real == m.requests as real * 1000.0)
      && (m.windowMillis <= 0 ==> m.throughputPerSec == 0.0)
      && |m.byEndpoint| == |t.window.byEndpoint|
      && forall i | 0 <= i < |m.byEndpoint| :: var e, row := m.byEndpoint[i], t.window.byEndpoint[i].value;
           e.group == row.group && e.endpoint == row.endpoint &&
           e.requests == row.requests && e.errors == row.errors &&
           (e.avgDurationMs.Some? <==> row.requests > 0) &&
           (e.avgDurationMs.Some? ==> e.avgDurationMs.value * e.requests as real == row.durationSumMs)
  {
    if t.endedAt > t.window.startedAt {
      Quotient(t.window.requests as real, (t.endedAt - t.window.startedAt) as real);
      Regroup(t.window.requests as real / (t.endedAt - t.window.startedAt) as real, 1000.0,
              (t.endedAt - t.window.startedAt) as real);
    }
    forall i | 0 <= i < |t.window.byEndpoint| && t.window.byEndpoint[i].value.requests > 0
      ensures var row := t.window.byEndpoint[i].value;
        row.durationSumMs / row.requests as real * row.requests as real == row.durationSumMs
    {
      Quotient(t.window.byEndpoint[i].value.durationSumMs, t.window.byEndpoint[i].value.requests as real);
    }
  }

  lemma Quotient(a: real, b: real)
    requires b > 0.0
    ensures a / b * b == a
  {
  }

  lemma Regroup(a: real, b: real, c: real)
    ensures a * b * c == a * c * b
  {
  }

  // ---- calls in flight ----

  datatype Passage = Entering | Leaving

  /** The in-flight counter after some calls of `enter` and `exit`. */
  function InFlight(passages: seq<Passage>): int {
    if passages == [] then 0
    else
      var n := InFlight(passages[..|passages| - 1]);
      if passages[|passages| - 1].Entering? then n + 1 else Max(0, n - 1)
  }

  function Inside(passages: seq<Passage>): int {
    if passages == [] then 0
    else Inside(passages[..|passages| - 1]) + if passages[|passages| - 1].Entering? then 1 else -1
  }

  /** The counter is the number of calls inside exactly when no call ever left before it
      entered; one that did is counted too much from then on. */
  lemma {:induction false} InFlightIsExactIff(passages: seq<Passage>)
    ensures InFlight(passages) >= Max(0, Inside(passages))
    ensures InFlight(passages) == Inside(passages) <==> forall n | 0 <= n <= |passages| :: Inside(passages[..n]) >= 0
  {
    assert passages[..|passages|] == passages;
    if passages != [] {
      var init := passages[..|passages| - 1];
      InFlightIsExactIff(init);
      assert forall n | 0 <= n <= |init| :: init[..n] == passages[..n];
      if InFlight(init) != Inside(init) {
        var n :| 0 <= n <= |init| && Inside(init[..n]) < 0;
        assert Inside(passages[..n]) < 0;
      }
    }
  }

  // ---- the sink object ----

  class UsageSink {
    var windowAccum: Window
    var requestsTotal: nat
    var errorsTotal: nat
    var cumulativeByEndpoint: Table<Stats>
    var inFlight: int
    var published: seq<Metrics>
    ghost var passages: seq<Passage>

    ghost predicate Valid()
      reads this
    {
      inFlight == InFlight(passages)
    }

    ghost function View(): Refs
      reads this
    {
      Refs(windowAccum, requestsTotal, errorsTotal, cumulativeByEndpoint)
    }

    constructor (now: int)
      ensures View() == Initial(now).refs && Valid() && passages == [] && published == []
    {
      windowAccum, requestsTotal, errorsTotal, cumulativeByEndpoint := FreshWindow(now), 0, 0, [];
      inFlight, published, passages := 0, [], [];
    }

    method Enter()
      requires Valid()
      modifies this`inFlight, this`passages
      ensures Valid() && passages == old(passages) + [Entering]
    {
      inFlight := inFlight + 1;
      passages := passages + [Entering];
      assert passages[..|passages| - 1] == old(passages);
    }

    method Exit()
      requires Valid()
      modifies this`inFlight, this`passages
      ensures Valid() && passages == old(passages) + [Leaving]
    {
      inFlight := Max(0, inFlight - 1);
      passages := passages + [Leaving];
      assert passages[..|passages| - 1] == old(passages);
    }

    /** `emitWindow`: take the open window and publish what it counted. */
    method EmitWindow(now: int) returns (taken: Taken)
      modifies this`windowAccum, this`published
      ensures taken == Taken(old(windowAccum), now)
      ensures windowAccum == FreshWindow(now)
      ensures published == old(published) + [MetricsOf(taken, inFlight)]
    {
      taken := Taken(windowAccum, now);
      windowAccum := FreshWindow(now);
      published := published + [MetricsOf(taken, inFlight)];
    }

    /** `record` run without interruption: the state and the window are those of its six
        steps in a row. */
    method RecordEvent(e: Event, now: int) returns (taken: Taken)
      modifies this`windowAccum, this`requestsTotal, this`errorsTotal, this`cumulativeByEndpoint, this`published
      ensures var s := After(Sink(now, old(View()), None, [], []), Uninterrupted(e));
        View() == s.refs && s.taken == [taken]
      ensures published == old(published) + [MetricsOf(taken, inFlight)]
    {
      ghost var s := Sink(now, View(), None, [], []);
      RecordSteps(s, e);
      requestsTotal := requestsTotal + 1;
      if e.failed {
        errorsTotal := errorsTotal + 1;
      }
      windowAccum := MergeEvent(windowAccum, e);
      cumulativeByEndpoint := AddToRow(cumulativeByEndpoint, e);
      taken := EmitWindow(now);
    }
  }

  /** The steps of one record on an otherwise idle sink. */
  function Uninterrupted(e: Event): seq<Step> {
    UntilCounted(e) + [FileEvent(0)] + [Cumulate(0)] + [ReadClock(0)] + [Take(0)]
  }

  function UntilCounted(e: Event): seq<Step> {
    [Begin(e), CountRequest(0)] + if e.failed then [CountError(0)] else []
  }

  lemma RecordSteps(s: Sink, e: Event)
    requires s.records == [] && s.taken == []
    ensures var t := After(s, Uninterrupted(e));
      t.taken == [Taken(MergeEvent(s.refs.window, e), s.now)] &&
      t.refs == RefsAfter(s.refs, e).(window := FreshWindow(s.now))
  {
    var steps, refs := UntilCounted(e) + [FileEvent(0)] + [Cumulate(0)], RefsAfter(s.refs, e);
    CumulatedAlone(s, e);
    RunOn(s, steps, Sink(s.now, refs, s.timer, [Record(e, Cumulated)], []), ReadClock(0));
    RunOn(s, steps + [ReadClock(0)], Sink(s.now, refs, s.timer, [Record(e, Closing(s.now))], []), Take(0));
  }

  /** The references with one more event counted, filed and cumulated. */
  function RefsAfter(refs: Refs, e: Event): Refs {
    Refs(
      MergeEvent(refs.window, e),
      refs.requestsTotal + 1,
      refs.errorsTotal + if e.failed then 1 else 0,
      AddToRow(refs.cumulative, e))
  }

  lemma CumulatedAlone(s: Sink, e: Event)
    requires s.records == [] && s.taken == []
    ensures After(s, UntilCounted(e) + [FileEvent(0)] + [Cumulate(0)]) ==
            Sink(s.now, RefsAfter(s.refs, e), s.timer, [Record(e, Cumulated)], [])
  {
    var steps := UntilCounted(e);
    CountedAlone(s, e);
    var files := RefsAfter(s.refs, e).(cumulative := s.refs.cumulative);
    var filed := Sink(s.now, files, s.timer, [Record(e, Filed)], []);
    RunOn(s, steps, filed.(refs := files.(window := s.refs.window), records := [Record(e, CountedStage(e))]), FileEvent(0));
    RunOn(s, steps + [FileEvent(0)], filed, Cumulate(0));
  }

  function CountedStage(e: Event): Stage {
    if e.failed then ErrorCounted else RequestCounted
  }

  lemma CountedAlone(s: Sink, e: Event)
    requires s.records == [] && s.taken == []
    ensures After(s, UntilCounted(e)) ==
            s.(refs := s.refs.(requestsTotal := s.refs.requestsTotal + 1,
                               errorsTotal := s.refs.errorsTotal + if e.failed then 1 else 0),
               records := [Record(e, CountedStage(e))])
  {
    RunOn(s, [], s, Begin(e));
    RunOn(s, [Begin(e)], s.(records := [Record(e, Arrived)]), CountRequest(0));
    var steps := [Begin(e), CountRequest(0)];
    assert [Begin(e)] + [CountRequest(0)] == steps && [] + [Begin(e)] == [Begin(e)];
    if e.failed {
      var refs := s.refs.(requestsTotal := s.refs.requestsTotal + 1);
      RunOn(s, steps, s.(refs := refs, records := [Record(e, RequestCounted)]), CountError(0));
    } else {
      assert UntilCounted(e) == steps;
    }
  }
}
