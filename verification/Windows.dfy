/** Schedule windows of a process: when a window is open, the key that identifies it to the
    supervisor, and the summary a status view shows (src/Process.ts, `entryKeyFrom`,
    `materializeEntries`, `minDate`, `summarizeScheduleState`). Instants are epoch milliseconds. */
module Windows {
  import opened Wrappers
  import opened Decimal
  import opened Paths

  type Key = string

  datatype Entry = Entry(id: Option<string>, startAt: int, stopAt: Option<int>)

  datatype Item = Item(key: Key, entry: Entry)

  /** The in-instance check: the window has not closed yet. */
  predicate CanContinue(entry: Entry, now: int) {
    entry.stopAt.None? || now < entry.stopAt.value
  }

  predicate Open(entry: Entry, now: int) {
    entry.startAt <= now && CanContinue(entry, now)
  }

  function StopPart(entry: Entry): string {
    match entry.stopAt
    case None => "none"
    case Some(stop) => Text(stop)
  }

  function EntryKey(entry: Entry, index: nat): Key {
    Text(entry.startAt) + ":" + StopPart(entry) + ":" + Text(index)
  }

  function Materialize(entries: seq<Entry>): (items: seq<Item>)
    ensures |items| == |entries|
    ensures forall i | 0 <= i < |items| :: items[i] == Item(EntryKey(entries[i], i), entries[i])
  {
    seq(|entries|, i requires 0 <= i < |entries| => Item(EntryKey(entries[i], i), entries[i]))
  }

  function Keys(items: seq<Item>): set<Key> {
    set item | item in items :: item.key
  }

  /** The entry of the first item with the key. */
  function Find(items: seq<Item>, key: Key): (found: Option<Entry>)
    ensures found.None? <==> key !in Keys(items)
    ensures found.Some? ==> Item(key, found.value) in items
  {
    if items == [] then None
    else if items[0].key == key then Some(items[0].entry)
    else
      var rest := Find(items[1..], key);
      assert items == [items[0]] + items[1..];
      rest
  }

  lemma SplitAtColon(a: string, x: string, b: string, y: string)
    requires a + ":" + x == b + ":" + y
    requires ':' !in a && ':' !in b
    ensures a == b && x == y
  {
    var s, t := a + ":" + x, b + ":" + y;
    assert s[|a|] == ':' && t[|b|] == ':';
    assert |a| == |b|;
    assert s[..|a|] == a && t[..|b|] == b;
    assert s[|a| + 1..] == x && t[|b| + 1..] == y;
  }

  lemma StopPartChars(entry: Entry)
    ensures ':' !in StopPart(entry)
    ensures entry.stopAt.Some? ==> StopPart(entry) != "none"
  {
    if entry.stopAt.Some? {
      TextChars(entry.stopAt.value);
      assert IsDigit(Text(entry.stopAt.value)[0]) || Text(entry.stopAt.value)[0] == '-';
    }
  }

  /** Equal keys mean the same window at the same position of the schedule. */
  lemma EntryKeyInjective(e: Entry, i: nat, f: Entry, j: nat)
    requires EntryKey(e, i) == EntryKey(f, j)
    ensures e.startAt == f.startAt && e.stopAt == f.stopAt && i == j
  {
    EntryKeyParts(e, i, f, j);
    TextInjective(e.startAt, f.startAt);
    TextInjective(i, j);
    StopPartInjective(e, f);
  }

  lemma EntryKeyParts(e: Entry, i: nat, f: Entry, j: nat)
    requires EntryKey(e, i) == EntryKey(f, j)
    ensures Text(e.startAt) == Text(f.startAt) && StopPart(e) == StopPart(f) && Text(i) == Text(j)
  {
    TextChars(e.startAt);
    TextChars(f.startAt);
    StopPartChars(e);
    StopPartChars(f);
    ThreeParts(Text(e.startAt), StopPart(e), Text(i), Text(f.startAt), StopPart(f), Text(j));
  }

  lemma ThreeParts(a: string, b: string, c: string, x: string, y: string, z: string)
    requires a + ":" + b + ":" + c == x + ":" + y + ":" + z
    requires ':' !in a && ':' !in b && ':' !in x && ':' !in y
    ensures a == x && b == y && c == z
  {
    assert a + ":" + b + ":" + c == a + ":" + (b + ":" + c);
    assert x + ":" + y + ":" + z == x + ":" + (y + ":" + z);
    SplitAtColon(a, b + ":" + c, x, y + ":" + z);
    SplitAtColon(b, c, y, z);
  }

  lemma StopPartInjective(e: Entry, f: Entry)
    requires StopPart(e) == StopPart(f)
    ensures e.stopAt == f.stopAt
  {
    StopPartChars(e);
    StopPartChars(f);
    if e.stopAt.Some? && f.stopAt.Some? {
      TextInjective(e.stopAt.value, f.stopAt.value);
    }
  }

  /** A key splits back into the start, the stop and the position it was made from. */
  lemma EntryKeySplits(e: Entry, index: nat)
    ensures Split(EntryKey(e, index), ':') == [Text(e.startAt), StopPart(e), Text(index)]
  {
    var start, stop, position := Text(e.startAt), StopPart(e), Text(index);
    TextChars(e.startAt);
    TextChars(index);
    StopPartChars(e);
    SplitWord(position, ':');
    SplitCons(stop, position, ':');
    SplitCons(start, stop + [':'] + position, ':');
    assert EntryKey(e, index) == start + [':'] + (stop + [':'] + position);
  }

  /** Within one schedule every key names one item, so `Find` is exact. */
  lemma MaterializeKeysDistinct(entries: seq<Entry>, i: nat, j: nat)
    requires i < |entries| && j < |entries|
    requires Materialize(entries)[i].key == Materialize(entries)[j].key
    ensures i == j
  {
    EntryKeyInjective(entries[i], i, entries[j], j);
  }

  // ---- the schedule summary ----

  predicate Armed(entries: seq<Entry>, now: int) {
    exists entry | entry in entries :: Open(entry, now)
  }

  /** An instant after `now` at which some window of the schedule starts or stops. */
  ghost predicate Boundary(entries: seq<Entry>, now: int, t: int) {
    t > now && exists entry | entry in entries :: entry.startAt == t || entry.stopAt == Some(t)
  }

  ghost predicate FutureStart(entries: seq<Entry>, now: int, t: int) {
    t > now && exists entry | entry in entries :: entry.startAt == t
  }

  function MinDate(dates: seq<int>): (least: Option<int>)
    ensures least.None? <==> dates == []
    ensures least.Some? ==> least.value in dates && forall d | d in dates :: least.value <= d
  {
    if dates == [] then None
    else
      assert dates == [dates[0]] + dates[1..];
      match MinDate(dates[1..])
      case None => Some(dates[0])
      case Some(m) => Some(if dates[0] < m then dates[0] else m)
  }

  datatype Summary = Summary(
    armed: bool,
    nextScheduleTransition: Option<int>,
    nextTriggerRun: Option<int>)

  /** Nothing opens or closes at an instant that no boundary precedes. */
  lemma ArmedIsConstantUpToNextBoundary(entries: seq<Entry>, now: int, t: int)
    requires now <= t
    requires forall b | Boundary(entries, now, b) :: t < b
    ensures Armed(entries, t) <==> Armed(entries, now)
  {
    forall entry | entry in entries
      ensures Open(entry, t) <==> Open(entry, now)
    {
      if entry.startAt > now {
        assert Boundary(entries, now, entry.startAt);
      }
      if entry.stopAt.Some? && entry.stopAt.value > now {
        assert Boundary(entries, now, entry.stopAt.value);
      }
    }
  }

  /** The published summary is exact: the next transition is the first boundary, the next
      trigger run the first future start, and `armed` stays right until the announced
      transition, or for ever when none is announced. */
  method Summarize(entries: seq<Entry>, now: int) returns (summary: Summary)
    ensures summary.armed == Armed(entries, now)
    ensures summary.nextScheduleTransition.None? ==> forall t :: !Boundary(entries, now, t)
    ensures summary.nextScheduleTransition.Some? ==>
      var next := summary.nextScheduleTransition.value;
      Boundary(entries, now, next) && forall t | Boundary(entries, now, t) :: next <= t
    ensures summary.nextTriggerRun.None? ==> forall t :: !FutureStart(entries, now, t)
    ensures summary.nextTriggerRun.Some? ==>
      var start := summary.nextTriggerRun.value;
      FutureStart(entries, now, start) && forall t | FutureStart(entries, now, t) :: start <= t
    ensures summary.nextScheduleTransition.None? ==>
      forall t | now <= t :: Armed(entries, t) == summary.armed
    ensures summary.nextScheduleTransition.Some? ==>
      forall t | now <= t < summary.nextScheduleTransition.value :: Armed(entries, t) == summary.armed
  {
    var transitionCandidates: seq<int>, nextStarts: seq<int> := [], [];
    for i := 0 to |entries|
      invariant forall t :: t in transitionCandidates <==> Boundary(entries[..i], now, t)
      invariant forall t :: t in nextStarts <==> FutureStart(entries[..i], now, t)
    {
      var entry := entries[i];
      assert entries[..i + 1] == entries[..i] + [entry];
      if entry.startAt > now {
        transitionCandidates := transitionCandidates + [entry.startAt];
        nextStarts := nextStarts + [entry.startAt];
      }
      if entry.stopAt.Some? && entry.stopAt.value > now {
        transitionCandidates := transitionCandidates + [entry.stopAt.value];
      }
    }
    assert entries[..|entries|] == entries;
    summary := Summary(Armed(entries, now), MinDate(transitionCandidates), MinDate(nextStarts));
    forall t | now <= t && (summary.nextScheduleTransition.Some? ==> t < summary.nextScheduleTransition.value)
      ensures Armed(entries, t) == summary.armed
    {
      ArmedIsConstantUpToNextBoundary(entries, now, t);
    }
  }
}
