/** What is conserved over every run of a usage sink: totals against windows, windows against
    their rows, cumulative rows against window rows, and time against window lengths. */
module ApiUsageTheorems {
  import opened OrderedMap
  import opened Wrappers
  import opened ApiUsage

  // ---- amounts ----

  datatype Amount = Amount(requests: int, errors: int, durationMs: real)

  const ZERO := Amount(0, 0, 0.0)

  function Plus(a: Amount, b: Amount): Amount {
    Amount(a.requests + b.requests, a.errors + b.errors, a.durationMs + b.durationMs)
  }

  function OfStats(row: Stats): Amount {
    Amount(row.requests, row.errors, row.durationSumMs)
  }

  function OfEvent(e: Event): Amount {
    Amount(1, if e.failed then 1 else 0, e.durationMs)
  }

  function Sum(amounts: seq<Amount>): Amount {
    if amounts == [] then ZERO else Plus(Sum(amounts[..|amounts| - 1]), amounts[|amounts| - 1])
  }

  lemma PlusZero(a: Amount, b: Amount)
    requires b == ZERO
    ensures Plus(a, b) == a
  {
  }

  lemma ZeroPlus(a: Amount, b: Amount)
    requires a == ZERO
    ensures Plus(a, b) == b
  {
  }

  lemma PlusSwap(a: Amount, b: Amount, c: Amount, d: Amount)
    ensures Plus(Plus(a, b), Plus(c, d)) == Plus(Plus(a, c), Plus(b, d))
  {
  }

  lemma {:induction false} SumMove(amounts: seq<Amount>, i: nat, a: Amount)
    requires i < |amounts|
    ensures Plus(Sum(amounts[i := a]), amounts[i]) == Plus(Sum(amounts), a)
  {
    var last := |amounts| - 1;
    if i == last {
      assert amounts[i := a][..last] == amounts[..last];
    } else {
      assert amounts[i := a][..last] == amounts[..last][i := a];
      SumMove(amounts[..last], i, a);
    }
  }

  lemma SumAppend(amounts: seq<Amount>, a: Amount)
    ensures Sum(amounts + [a]) == Plus(Sum(amounts), a)
  {
    assert (amounts + [a])[..|amounts|] == amounts;
  }

  function SumRows(rows: Table<Stats>): Amount {
    if rows == [] then ZERO else Plus(OfStats(rows[0].value), SumRows(rows[1..]))
  }

  /** The amount in one endpoint's row, or in all rows when no key is given. */
  function Part(rows: Table<Stats>, key: Option<string>): Amount {
    if key.None? then SumRows(rows)
    else
      var row := Get(rows, key.value);
      if row.None? then ZERO else OfStats(row.value)
  }

  function Weight(e: Event, key: Option<string>): Amount {
    if key.None? || key.value == KeyOf(e) then OfEvent(e) else ZERO
  }

  lemma {:induction false} SumAfterSet(rows: Table<Stats>, key: string, row: Stats)
    ensures Plus(SumRows(Set(rows, key, row)), Part(rows, Some(key))) == Plus(SumRows(rows), OfStats(row))
  {
    if rows != [] && rows[0].key != key {
      SumAfterSet(rows[1..], key, row);
      assert ([rows[0]] + Set(rows[1..], key, row))[1..] == Set(rows[1..], key, row);
    }
  }

  /** Adding an event adds its weight to its own row and to the sum, and to no other row. */
  lemma AddedToPart(rows: Table<Stats>, e: Event, key: Option<string>)
    ensures Part(AddToRow(rows, e), key) == Plus(Part(rows, key), Weight(e, key))
  {
    match key {
      case None => AddedToSum(rows, e);
      case Some(k) => AddedToRow(rows, e, k);
    }
  }

  lemma AddedToRow(rows: Table<Stats>, e: Event, key: string)
    ensures Part(AddToRow(rows, e), Some(key)) == Plus(Part(rows, Some(key)), Weight(e, Some(key)))
  {
    GetAfterSet(rows, KeyOf(e), RowWith(rows, e), key);
    RowWithAdds(rows, e);
    if key != KeyOf(e) {
      PlusZero(Part(rows, Some(key)), Weight(e, Some(key)));
    }
  }

  lemma AddedToSum(rows: Table<Stats>, e: Event)
    ensures SumRows(AddToRow(rows, e)) == Plus(SumRows(rows), OfEvent(e))
  {
    SumAfterSet(rows, KeyOf(e), RowWith(rows, e));
    RowWithAdds(rows, e);
  }

  lemma RowWithAdds(rows: Table<Stats>, e: Event)
    ensures OfStats(RowWith(rows, e)) == Plus(Part(rows, Some(KeyOf(e))), OfEvent(e))
  {
  }

  // ---- names of rows ----

  /** Every row carries the names its key was made from. */
  ghost predicate Named(rows: Table<Stats>) {
    forall b | b in rows :: b.key == EndpointKey(b.value.group, b.value.endpoint)
  }

  ghost predicate RowsNamed(s: Sink) {
    && Named(s.refs.window.byEndpoint) && Named(s.refs.cumulative)
    && forall t | t in s.taken :: Named(t.window.byEndpoint)
  }

  lemma {:induction false} SetKeepsNamed(rows: Table<Stats>, row: Stats)
    requires Named(rows)
    ensures Named(Set(rows, EndpointKey(row.group, row.endpoint), row))
  {
    if rows != [] {
      assert rows == [rows[0]] + rows[1..];
      SetKeepsNamed(rows[1..], row);
    }
  }

  lemma StepKeepsNamed(s: Sink, step: Step)
    requires RowsNamed(s) && Enabled(s, step)
    ensures RowsNamed(Apply(s, step))
  {
    if OfRecord(step) {
      var e := s.records[step.record].event;
      SetKeepsNamed(s.refs.window.byEndpoint, RowWith(s.refs.window.byEndpoint, e));
      SetKeepsNamed(s.refs.cumulative, RowWith(s.refs.cumulative, e));
    }
  }

  /** Over every run, the rows of every taken window, of the open one and of the cumulative
      table are filed under the group and the endpoint they name. */
  lemma {:induction false} RowsAreNamed(now: int, steps: seq<Step>)
    ensures RowsNamed(After(Initial(now), steps))
    decreases |steps|
  {
    if steps != [] {
      var before := After(Initial(now), steps[..|steps| - 1]);
      RowsAreNamed(now, steps[..|steps| - 1]);
      if Enabled(before, steps[|steps| - 1]) {
        StepKeepsNamed(before, steps[|steps| - 1]);
      }
    }
  }

  // ---- amounts over records ----

  /** The ways the events of records are summed. */
  datatype Gauge =
    | InTotals                             // counted by the running totals
    | InWindows(key: Option<string>)       // filed in some window
    | InCumulative(key: Option<string>)    // added to the cumulative table
    | CaughtMidUpdate                      // in the totals, in no window yet
    | Lagging(key: Option<string>)         // in a window, not in the cumulative table yet
    | AwaitingTake                         // filed, the window not taken by this record yet

  predicate PastFiling(stage: Stage) {
    stage.Filed? || stage.Cumulated? || stage.Closing? || stage.Over?
  }

  function Share(r: Record, gauge: Gauge): Amount {
    var counted := if r.stage.Arrived? then 0 else 1;
    var failed := if r.event.failed && !r.stage.Arrived? && !r.stage.RequestCounted? then 1 else 0;
    match gauge
    case InTotals => Amount(counted, failed, 0.0)
    case InWindows(key) => if PastFiling(r.stage) then Weight(r.event, key) else ZERO
    case InCumulative(key) => if PastFiling(r.stage) && !r.stage.Filed? then Weight(r.event, key) else ZERO
    case CaughtMidUpdate => if PastFiling(r.stage) then ZERO else Amount(counted, failed, 0.0)
    case Lagging(key) => if r.stage.Filed? then Weight(r.event, key) else ZERO
    case AwaitingTake => if PastFiling(r.stage) && !r.stage.Over? then Amount(1, 0, 0.0) else ZERO
  }

  function Shares(records: seq<Record>, gauge: Gauge): (shares: seq<Amount>)
    ensures |shares| == |records|
    ensures forall i | 0 <= i < |records| :: shares[i] == Share(records[i], gauge)
  {
    seq(|records|, i requires 0 <= i < |records| => Share(records[i], gauge))
  }

  function Total(records: seq<Record>, gauge: Gauge): Amount {
    Sum(Shares(records, gauge))
  }

  lemma TotalMove(records: seq<Record>, i: nat, r: Record, gauge: Gauge)
    requires i < |records|
    ensures Plus(Total(records[i := r], gauge), Share(records[i], gauge)) == Plus(Total(records, gauge), Share(r, gauge))
  {
    assert Shares(records[i := r], gauge) == Shares(records, gauge)[i := Share(r, gauge)];
    SumMove(Shares(records, gauge), i, Share(r, gauge));
  }

  lemma TotalAppend(records: seq<Record>, r: Record, gauge: Gauge)
    ensures Total(records + [r], gauge) == Plus(Total(records, gauge), Share(r, gauge))
  {
    assert Shares(records + [r], gauge) == Shares(records, gauge) + [Share(r, gauge)];
    SumAppend(Shares(records, gauge), Share(r, gauge));
  }

  lemma TotalOfNew(records: seq<Record>, e: Event, gauge: Gauge)
    ensures Total(records + [Record(e, Arrived)], gauge) == Total(records, gauge)
  {
    ShareOfNew(e, gauge);
    TotalAppend(records, Record(e, Arrived), gauge);
    PlusZero(Total(records, gauge), Share(Record(e, Arrived), gauge));
  }

  lemma ShareOfNew(e: Event, gauge: Gauge)
    ensures Share(Record(e, Arrived), gauge) == ZERO
  {
  }

  lemma CountedShare(r: Record)
    ensures Share(r, InTotals).requests == Share(r, InWindows(None)).requests + Share(r, CaughtMidUpdate).requests
    ensures Share(r, InTotals).errors == Share(r, InWindows(None)).errors + Share(r, CaughtMidUpdate).errors
  {
  }

  lemma FiledShare(r: Record, key: Option<string>)
    ensures Share(r, InWindows(key)) == Plus(Share(r, InCumulative(key)), Share(r, Lagging(key)))
  {
    CumulatedOrLagging(r, key);
    if Share(r, InCumulative(key)) == ZERO {
      ZeroPlus(Share(r, InCumulative(key)), Share(r, Lagging(key)));
    } else {
      PlusZero(Share(r, InCumulative(key)), Share(r, Lagging(key)));
    }
  }

  lemma CumulatedOrLagging(r: Record, key: Option<string>)
    ensures
      || (Share(r, InCumulative(key)) == ZERO && Share(r, Lagging(key)) == Share(r, InWindows(key)))
      || (Share(r, Lagging(key)) == ZERO && Share(r, InCumulative(key)) == Share(r, InWindows(key)))
  {
  }

  /** What the totals have seen is filed or caught mid-update. */
  lemma {:induction false} TotalsPartition(records: seq<Record>)
    ensures Total(records, InTotals).requests ==
            Total(records, InWindows(None)).requests + Total(records, CaughtMidUpdate).requests
    ensures Total(records, InTotals).errors ==
            Total(records, InWindows(None)).errors + Total(records, CaughtMidUpdate).errors
  {
    if records != [] {
      var init, r := records[..|records| - 1], records[|records| - 1];
      TotalsPartition(init);
      assert records == init + [r];
      TotalAppend(init, r, InTotals);
      TotalAppend(init, r, InWindows(None));
      TotalAppend(init, r, CaughtMidUpdate);
      CountedShare(r);
    }
  }

  /** What windows have seen is cumulated or lagging. */
  lemma {:induction false} WindowsPartition(records: seq<Record>, key: Option<string>)
    ensures Total(records, InWindows(key)) == Plus(Total(records, InCumulative(key)), Total(records, Lagging(key)))
  {
    if records != [] {
      var init, r := records[..|records| - 1], records[|records| - 1];
      WindowsPartition(init, key);
      assert records == init + [r];
      TotalAppend(init, r, InWindows(key));
      TotalAppend(init, r, InCumulative(key));
      TotalAppend(init, r, Lagging(key));
      FiledShare(r, key);
      PlusSwap(Total(init, InCumulative(key)), Total(init, Lagging(key)),
               Share(r, InCumulative(key)), Share(r, Lagging(key)));
    }
  }

  // ---- amounts over windows ----

  function InTaken(taken: seq<Taken>, key: Option<string>): Amount {
    if taken == [] then ZERO
    else Plus(InTaken(taken[..|taken| - 1], key), Part(taken[|taken| - 1].window.byEndpoint, key))
  }

  /** The totals the windows themselves report. */
  function Reported(taken: seq<Taken>): Amount {
    if taken == [] then ZERO
    else
      var w := taken[|taken| - 1].window;
      Plus(Reported(taken[..|taken| - 1]), Amount(w.requests, w.errors, 0.0))
  }

  ghost predicate RowsMakeTotals(w: Window) {
    && SumRows(w.byEndpoint).requests == w.requests
    && SumRows(w.byEndpoint).errors == w.errors
  }

  lemma {:induction false} ReportedIsRows(taken: seq<Taken>)
    requires forall t | t in taken :: RowsMakeTotals(t.window)
    ensures Reported(taken).requests == InTaken(taken, None).requests
    ensures Reported(taken).errors == InTaken(taken, None).errors
  {
    if taken != [] {
      ReportedIsRows(taken[..|taken| - 1]);
      assert taken[|taken| - 1] in taken;
    }
  }

  lemma TakenAppend(taken: seq<Taken>, t: Taken, key: Option<string>)
    ensures InTaken(taken + [t], key) == Plus(InTaken(taken, key), Part(t.window.byEndpoint, key))
  {
    assert (taken + [t])[..|taken|] == taken;
  }

  // ---- the invariant ----

  /** Every event past its filing is in one window's row, once. */
  ghost predicate InOneWindow(s: Sink, key: Option<string>) {
    Plus(InTaken(s.taken, key), Part(s.refs.window.byEndpoint, key)) == Total(s.records, InWindows(key))
  }

  /** Every event past its cumulation is in the cumulative row, once. */
  ghost predicate InCumulativeOnce(s: Sink, key: Option<string>) {
    Part(s.refs.cumulative, key) == Total(s.records, InCumulative(key))
  }

  /** The running totals count every record past its counting. */
  ghost predicate TotalsCount(s: Sink) {
    && s.refs.requestsTotal == Total(s.records, InTotals).requests
    && s.refs.errorsTotal == Total(s.records, InTotals).errors
  }

  /** Whatever the open window holds, some record has yet to take it. */
  ghost predicate OpenIsAwaited(s: Sink) {
    && s.refs.window.requests <= Total(s.records, AwaitingTake).requests
    && (s.refs.window.requests == 0 ==> s.refs.window.byEndpoint == [])
  }

  /** The end of the last window taken, where the open one starts. */
  function LastEnd(start: int, taken: seq<Taken>): int {
    if taken == [] then start else taken[|taken| - 1].endedAt
  }

  /** Windows follow one another without gap or overlap. */
  ghost predicate Tiled(start: int, s: Sink) {
    && (forall i | 0 <= i < |s.taken| :: s.taken[i].window.startedAt == LastEnd(start, s.taken[..i]))
    && s.refs.window.startedAt == LastEnd(start, s.taken)
  }

  ghost predicate RowsAgree(s: Sink) {
    && RowsMakeTotals(s.refs.window)
    && forall t | t in s.taken :: RowsMakeTotals(t.window)
  }

  /** Filing, and nothing else, gives a record its share in windows. */
  lemma WindowShareStep(r: Record, step: Step, now: int, key: Option<string>)
    requires Ready(r, step)
    ensures var next := Record(r.event, Next(step, now));
      if step.FileEvent? then Share(r, InWindows(key)) == ZERO && Share(next, InWindows(key)) == Weight(r.event, key)
      else Share(next, InWindows(key)) == Share(r, InWindows(key))
  {
  }

  /** Cumulating, and nothing else, gives a record its share in the cumulative table. */
  lemma CumulativeShareStep(r: Record, step: Step, now: int, key: Option<string>)
    requires Ready(r, step)
    ensures var next := Record(r.event, Next(step, now));
      if step.Cumulate? then
        Share(r, InCumulative(key)) == ZERO && Share(next, InCumulative(key)) == Weight(r.event, key)
      else Share(next, InCumulative(key)) == Share(r, InCumulative(key))
  {
  }

  lemma TotalGain(records: seq<Record>, i: nat, r: Record, gauge: Gauge)
    requires i < |records| && Share(records[i], gauge) == ZERO
    ensures Total(records[i := r], gauge) == Plus(Total(records, gauge), Share(r, gauge))
  {
    TotalMove(records, i, r, gauge);
    PlusZero(Total(records[i := r], gauge), Share(records[i], gauge));
  }

  lemma TotalSame(records: seq<Record>, i: nat, r: Record, gauge: Gauge)
    requires i < |records| && Share(records[i], gauge) == Share(r, gauge)
    ensures Total(records[i := r], gauge) == Total(records, gauge)
  {
    TotalMove(records, i, r, gauge);
  }

  /** How a record's step moves the windows' total. */
  lemma WindowTotalStep(s: Sink, step: Step, key: Option<string>)
    requires Enabled(s, step) && OfRecord(step)
    ensures var was, now := Total(s.records, InWindows(key)), Total(Apply(s, step).records, InWindows(key));
      now == if step.FileEvent? then Plus(was, Weight(s.records[step.record].event, key)) else was
  {
    var r := s.records[step.record];
    WindowShareStep(r, step, s.now, key);
    if step.FileEvent? {
      TotalGain(s.records, step.record, Record(r.event, Next(step, s.now)), InWindows(key));
    } else {
      TotalSame(s.records, step.record, Record(r.event, Next(step, s.now)), InWindows(key));
    }
  }

  lemma CumulativeTotalStep(s: Sink, step: Step, key: Option<string>)
    requires Enabled(s, step) && OfRecord(step)
    ensures var was, now := Total(s.records, InCumulative(key)), Total(Apply(s, step).records, InCumulative(key));
      now == if step.Cumulate? then Plus(was, Weight(s.records[step.record].event, key)) else was
  {
    var r := s.records[step.record];
    CumulativeShareStep(r, step, s.now, key);
    if step.Cumulate? {
      TotalGain(s.records, step.record, Record(r.event, Next(step, s.now)), InCumulative(key));
    } else {
      TotalSame(s.records, step.record, Record(r.event, Next(step, s.now)), InCumulative(key));
    }
  }

  lemma PlusAssoc(a: Amount, b: Amount, c: Amount)
    ensures Plus(a, Plus(b, c)) == Plus(Plus(a, b), c)
  {
  }

  lemma RecordKeepsInOneWindow(s: Sink, step: Step, key: Option<string>)
    requires InOneWindow(s, key) && Enabled(s, step) && OfRecord(step)
    ensures InOneWindow(Apply(s, step), key)
  {
    WindowTotalStep(s, step, key);
    if step.FileEvent? {
      var e := s.records[step.record].event;
      AddedToPart(s.refs.window.byEndpoint, e, key);
      PlusAssoc(InTaken(s.taken, key), Part(s.refs.window.byEndpoint, key), Weight(e, key));
    } else if step.Take? {
      TakenWindow(s.taken, Apply(s, step).taken[|s.taken|], key);
    }
  }

  /** Moving the open window to the taken ones moves its part along. */
  lemma TakenWindow(taken: seq<Taken>, t: Taken, key: Option<string>)
    ensures Plus(InTaken(taken + [t], key), Part([], key)) == Plus(InTaken(taken, key), Part(t.window.byEndpoint, key))
  {
    TakenAppend(taken, t, key);
    EmptyPart(key);
    PlusZero(InTaken(taken + [t], key), Part([], key));
  }

  lemma EmptyPart(key: Option<string>)
    ensures Part([], key) == ZERO
  {
  }

  lemma StepKeepsInOneWindow(s: Sink, step: Step, key: Option<string>)
    requires InOneWindow(s, key) && Enabled(s, step)
    ensures InOneWindow(Apply(s, step), key)
  {
    if OfRecord(step) {
      RecordKeepsInOneWindow(s, step, key);
    } else if step.Begin? {
      TotalOfNew(s.records, step.event, InWindows(key));
    } else if step.TimerTakes? {
      TakenWindow(s.taken, Taken(s.refs.window, s.timer.value), key);
    }
  }

  lemma StepKeepsInCumulativeOnce(s: Sink, step: Step, key: Option<string>)
    requires InCumulativeOnce(s, key) && Enabled(s, step)
    ensures InCumulativeOnce(Apply(s, step), key)
  {
    if OfRecord(step) {
      CumulativeTotalStep(s, step, key);
      AddedToPart(s.refs.cumulative, s.records[step.record].event, key);
    } else if step.Begin? {
      TotalOfNew(s.records, step.event, InCumulative(key));
    }
  }

  lemma {:induction false} NoneAwaited(records: seq<Record>)
    ensures Total(records, AwaitingTake).requests >= 0
  {
    if records != [] {
      NoneAwaited(records[..|records| - 1]);
      TotalAppend(records[..|records| - 1], records[|records| - 1], AwaitingTake);
      assert records == records[..|records| - 1] + [records[|records| - 1]];
    }
  }

  /** A gauge that gives every record nothing sums to nothing. */
  lemma {:induction false} SumOfZeros(amounts: seq<Amount>)
    requires forall i | 0 <= i < |amounts| :: amounts[i] == ZERO
    ensures Sum(amounts) == ZERO
  {
    if amounts != [] {
      SumOfZeros(amounts[..|amounts| - 1]);
      PlusZero(Sum(amounts[..|amounts| - 1]), amounts[|amounts| - 1]);
    }
  }

  lemma StepKeepsTotals(s: Sink, step: Step)
    requires TotalsCount(s) && Enabled(s, step)
    ensures TotalsCount(Apply(s, step))
  {
    if OfRecord(step) {
      TotalMove(s.records, step.record, Apply(s, step).records[step.record], InTotals);
    } else if step.Begin? {
      TotalOfNew(s.records, step.event, InTotals);
    }
  }

  lemma StepKeepsAwaited(s: Sink, step: Step)
    requires OpenIsAwaited(s) && Enabled(s, step)
    ensures OpenIsAwaited(Apply(s, step))
  {
    if OfRecord(step) {
      TotalMove(s.records, step.record, Apply(s, step).records[step.record], AwaitingTake);
    } else if step.Begin? {
      TotalOfNew(s.records, step.event, AwaitingTake);
    }
    NoneAwaited(Apply(s, step).records);
  }

  lemma StepKeepsRows(s: Sink, step: Step)
    requires RowsAgree(s) && Enabled(s, step)
    ensures RowsAgree(Apply(s, step))
  {
    if step.FileEvent? {
      AddedToPart(s.refs.window.byEndpoint, s.records[step.record].event, None);
    }
  }

  lemma StepKeepsTiled(start: int, s: Sink, step: Step)
    requires Tiled(start, s) && Enabled(s, step)
    ensures Tiled(start, Apply(s, step))
  {
    var t := Apply(s, step);
    forall i | 0 <= i < |t.taken|
      ensures t.taken[i].window.startedAt == LastEnd(start, t.taken[..i])
    {
      assert i <= |s.taken| && t.taken[..i] == s.taken[..i];
      assert s.taken[..|s.taken|] == s.taken;
    }
  }

  ghost predicate Inv(start: int, s: Sink, key: Option<string>) {
    InOneWindow(s, key) && InCumulativeOnce(s, key) && TotalsCount(s) && OpenIsAwaited(s) && RowsAgree(s) && Tiled(start, s)
  }

  lemma InitiallyInv(now: int, key: Option<string>)
    ensures Inv(now, Initial(now), key)
  {
    InitiallyFiled(now, key);
    InitiallyCounting(now);
    InitiallyTiled(now);
  }

  lemma InitiallyTiled(now: int)
    ensures RowsAgree(Initial(now)) && Tiled(now, Initial(now))
  {
  }

  lemma InitiallyCounting(now: int)
    ensures TotalsCount(Initial(now)) && OpenIsAwaited(Initial(now))
  {
  }

  lemma InitiallyFiled(now: int, key: Option<string>)
    ensures InOneWindow(Initial(now), key) && InCumulativeOnce(Initial(now), key)
  {
    EmptyPart(key);
  }

  lemma StepKeeps(start: int, s: Sink, step: Step, key: Option<string>)
    requires Inv(start, s, key) && Enabled(s, step)
    ensures Inv(start, Apply(s, step), key)
  {
    StepKeepsInOneWindow(s, step, key);
    StepKeepsInCumulativeOnce(s, step, key);
    StepKeepsTotals(s, step);
    StepKeepsAwaited(s, step);
    StepKeepsRows(s, step);
    StepKeepsTiled(start, s, step);
  }

  lemma {:induction false} RunKeeps(now: int, steps: seq<Step>, key: Option<string>)
    ensures Inv(now, After(Initial(now), steps), key)
    decreases |steps|
  {
    if steps == [] {
      InitiallyInv(now, key);
    } else {
      var s := After(Initial(now), steps[..|steps| - 1]);
      var step := steps[|steps| - 1];
      RunKeeps(now, steps[..|steps| - 1], key);
      if Enabled(s, step) {
        StepKeeps(now, s, step, key);
      }
    }
  }

  // ---- what holds in every run ----

  /** Requests and errors over the windows taken, the open accumulator and the records
      caught mid-update make the running totals. */
  lemma TotalsAreConserved(now: int, steps: seq<Step>)
    ensures var s := After(Initial(now), steps);
      && s.refs.requestsTotal ==
         Reported(s.taken).requests + s.refs.window.requests + Total(s.records, CaughtMidUpdate).requests
      && s.refs.errorsTotal ==
         Reported(s.taken).errors + s.refs.window.errors + Total(s.records, CaughtMidUpdate).errors
  {
    var s := After(Initial(now), steps);
    RunKeeps(now, steps, None);
    TotalsPartition(s.records);
    ReportedIsRows(s.taken);
  }

  /** The rows of each window sum to its own totals. */
  lemma WindowRowsMakeTotals(now: int, steps: seq<Step>, i: nat)
    requires i < |After(Initial(now), steps).taken|
    ensures RowsMakeTotals(After(Initial(now), steps).taken[i].window)
  {
    RunKeeps(now, steps, None);
    var taken := After(Initial(now), steps).taken;
    assert taken[i] in taken;
  }

  /** An endpoint's cumulative row trails its window rows by the records in between. */
  lemma {:induction false} CumulativeTrailsWindows(now: int, steps: seq<Step>, key: string)
    ensures var s := After(Initial(now), steps); var k := Some(key);
      Plus(Part(s.refs.cumulative, k), Total(s.records, Lagging(k))) ==
      Plus(InTaken(s.taken, k), Part(s.refs.window.byEndpoint, k))
  {
    RunKeeps(now, steps, Some(key));
    WindowsPartition(After(Initial(now), steps).records, Some(key));
  }

  /** With no record in progress nothing is left in the open window. */
  lemma QuiescentWindowIsEmpty(now: int, steps: seq<Step>)
    requires forall r | r in After(Initial(now), steps).records :: r.stage.Over?
    ensures var w := After(Initial(now), steps).refs.window;
      w.requests == 0 && w.errors == 0 && w.byEndpoint == []
  {
    RunKeeps(now, steps, None);
    NothingInProgress(After(Initial(now), steps).records, AwaitingTake);
  }

  /** With no record in progress the windows taken account for every recorded event and make
      the running totals. */
  lemma QuiescentTotalsAreEmitted(now: int, steps: seq<Step>)
    requires forall r | r in After(Initial(now), steps).records :: r.stage.Over?
    ensures var s := After(Initial(now), steps);
      && s.refs.requestsTotal == Reported(s.taken).requests == |s.records|
      && s.refs.errorsTotal == Reported(s.taken).errors
  {
    var s := After(Initial(now), steps);
    RunKeeps(now, steps, None);
    TotalsAreConserved(now, steps);
    QuiescentWindowIsEmpty(now, steps);
    NothingInProgress(s.records, CaughtMidUpdate);
    AllCounted(s.records);
  }

  /** With no record in progress each cumulative row is the sum of its window rows. */
  lemma QuiescentRowsAreEmitted(now: int, steps: seq<Step>, key: string)
    requires forall r | r in After(Initial(now), steps).records :: r.stage.Over?
    ensures var s := After(Initial(now), steps);
      Part(s.refs.cumulative, Some(key)) == InTaken(s.taken, Some(key))
  {
    var s, k := After(Initial(now), steps), Some(key);
    CumulativeTrailsWindows(now, steps, key);
    QuiescentWindowIsEmpty(now, steps);
    NothingInProgress(s.records, Lagging(k));
    EmptyPart(k);
    PlusZero(Part(s.refs.cumulative, k), Total(s.records, Lagging(k)));
    PlusZero(InTaken(s.taken, k), Part(s.refs.window.byEndpoint, k));
  }

  lemma NothingInProgress(records: seq<Record>, gauge: Gauge)
    requires gauge.AwaitingTake? || gauge.CaughtMidUpdate? || gauge.Lagging?
    requires forall r | r in records :: r.stage.Over?
    ensures Total(records, gauge) == ZERO
  {
    forall i | 0 <= i < |records|
      ensures Shares(records, gauge)[i] == ZERO
    {
      assert records[i] in records;
      OverShare(records[i], gauge);
    }
    SumOfZeros(Shares(records, gauge));
  }

  lemma OverShare(r: Record, gauge: Gauge)
    requires r.stage.Over? && (gauge.AwaitingTake? || gauge.CaughtMidUpdate? || gauge.Lagging?)
    ensures Share(r, gauge) == ZERO
  {
  }

  lemma {:induction false} AllCounted(records: seq<Record>)
    requires forall r | r in records :: r.stage.Over?
    ensures Total(records, InTotals).requests == |records|
  {
    if records != [] {
      var init, r := records[..|records| - 1], records[|records| - 1];
      assert r in records && forall q | q in init :: q in records;
      AllCounted(init);
      TotalAppend(init, r, InTotals);
      assert records == init + [r];
    }
  }

  /** The windows tile the time from the sink's start to the last reading of the clock that
      closed one. */
  lemma {:induction false} WindowsTileTime(now: int, steps: seq<Step>)
    ensures var s := After(Initial(now), steps);
      && Tiled(now, s)
      && TotalMillis(s.taken) == s.refs.window.startedAt - now
  {
    var s := After(Initial(now), steps);
    RunKeeps(now, steps, None);
    MillisOfTiles(now, s.taken);
  }

  function TotalMillis(taken: seq<Taken>): int {
    if taken == [] then 0
    else
      var t := taken[|taken| - 1];
      TotalMillis(taken[..|taken| - 1]) + (t.endedAt - t.window.startedAt)
  }

  lemma {:induction false} MillisOfTiles(start: int, taken: seq<Taken>)
    requires forall i | 0 <= i < |taken| :: taken[i].window.startedAt == LastEnd(start, taken[..i])
    ensures TotalMillis(taken) == LastEnd(start, taken) - start
  {
    if taken != [] {
      var init := taken[..|taken| - 1];
      forall i | 0 <= i < |init|
        ensures init[i].window.startedAt == LastEnd(start, init[..i])
      {
        assert init[..i] == taken[..i];
      }
      MillisOfTiles(start, init);
    }
  }

  /** A window's length can come out negative: the timer reads the clock, a record reads it
      later and takes first, and the timer then closes a window that starts after its own
      reading. */
  lemma WindowMillisCanBeNegative(e: Event)
    requires !e.failed
    ensures
      var taken := After(Initial(0), Overtaken(e) + [ReadClock(0)] + [Take(0)] + [TimerTakes]).taken;
      |taken| == 2 && taken[1].endedAt - taken[1].window.startedAt == -3
  {
    var s0, steps, refs := Initial(0), Overtaken(e), RefsWith(e);
    TimerWaits(e);
    RunOn(s0, steps, Sink(3, refs, Some(0), [Record(e, Cumulated)], []), ReadClock(0));
    RunOn(s0, steps + [ReadClock(0)], Sink(3, refs, Some(0), [Record(e, Closing(3))], []), Take(0));
    var left := refs.(window := FreshWindow(3));
    RunOn(s0, steps + [ReadClock(0)] + [Take(0)],
         Sink(3, left, Some(0), [Record(e, Over)], [Taken(refs.window, 3)]), TimerTakes);
  }

  /** One record up to its window, while the timer has read the clock 3 ms ago. */
  function Overtaken(e: Event): seq<Step> {
    [Begin(e), CountRequest(0), FileEvent(0), Cumulate(0)] + [TimerReadsClock] + [Advance(3)]
  }

  /** The references of a sink started at 0 with one successful event filed. */
  function RefsWith(e: Event): Refs {
    Refs(Window(0, 1, 0, AddToRow([], e)), 1, 0, AddToRow([], e))
  }

  lemma TimerWaits(e: Event)
    requires !e.failed
    ensures After(Initial(0), Overtaken(e)) == Sink(3, RefsWith(e), Some(0), [Record(e, Cumulated)], [])
  {
    var s0, refs := Initial(0), RefsWith(e);
    var filed := [Begin(e), CountRequest(0), FileEvent(0), Cumulate(0)];
    AloneUntilCumulated(e);
    RunOn(s0, filed, Sink(0, refs, None, [Record(e, Cumulated)], []), TimerReadsClock);
    RunOn(s0, filed + [TimerReadsClock], Sink(0, refs, Some(0), [Record(e, Cumulated)], []), Advance(3));
  }

  lemma AloneUntilCumulated(e: Event)
    requires !e.failed
    ensures After(Initial(0), [Begin(e), CountRequest(0), FileEvent(0), Cumulate(0)]) ==
            Sink(0, RefsWith(e), None, [Record(e, Cumulated)], [])
  {
    var s0, rows := Initial(0), AddToRow([], e);
    RunOn(s0, [], s0, Begin(e));
    RunOn(s0, [Begin(e)], s0.(records := [Record(e, Arrived)]), CountRequest(0));
    var steps := [Begin(e), CountRequest(0)];
    var refs := Refs(FreshWindow(0), 1, 0, []);
    RunOn(s0, steps, Sink(0, refs, None, [Record(e, RequestCounted)], []), FileEvent(0));
    refs := refs.(window := Window(0, 1, 0, rows));
    RunOn(s0, steps + [FileEvent(0)], Sink(0, refs, None, [Record(e, Filed)], []), Cumulate(0));
    assert steps + [FileEvent(0)] + [Cumulate(0)] == [Begin(e), CountRequest(0), FileEvent(0), Cumulate(0)];
  }
}
