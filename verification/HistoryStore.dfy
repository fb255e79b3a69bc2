/** The in-memory history ring (src/HistoryStore.ts, `layerMemory`) against the unbounded log
    it stands for. Times are epoch milliseconds. */
module HistoryStore {
  import opened Integers
  import opened Wrappers

  datatype Stamped<E> = Stamped(ts: int, entry: E)

  datatype ReadOptions = ReadOptions(limit: Option<int>, since: Option<int>, until: Option<int>)

  /** The last `n` elements, all of them when there are fewer, none when `n` is negative. */
  function Newest<T>(s: seq<T>, n: int): seq<T> {
    if n >= |s| then s else s[|s| - Max(0, n)..]
  }

  predicate InWindow<E>(e: Stamped<E>, o: ReadOptions) {
    (o.since.Some? ==> e.ts >= o.since.value) && (o.until.Some? ==> e.ts <= o.until.value)
  }

  function TimeFilter<E>(s: seq<Stamped<E>>, o: ReadOptions): seq<Stamped<E>> {
    if s == [] then []
    else TimeFilter(s[..|s| - 1], o) + if InWindow(s[|s| - 1], o) then [s[|s| - 1]] else []
  }

  function Entries<E>(s: seq<Stamped<E>>): (entries: seq<E>)
    ensures |entries| == |s|
    ensures forall i | 0 <= i < |s| :: entries[i] == s[i].entry
  {
    seq(|s|, i requires 0 <= i < |s| => s[i].entry)
  }

  /** What a read means on a log: the newest entries inside the time window, oldest first. */
  function Answer<E>(log: seq<Stamped<E>>, o: ReadOptions): seq<E> {
    var inside := TimeFilter(log, o);
    Entries(if o.limit.Some? then Newest(inside, o.limit.value) else inside)
  }

  /** `filter` one bound at a time. */
  method KeepSince<E>(s: seq<Stamped<E>>, since: int) returns (r: seq<Stamped<E>>)
    ensures r == TimeFilter(s, ReadOptions(None, Some(since), None))
  {
    r := [];
    for i := 0 to |s|
      invariant r == TimeFilter(s[..i], ReadOptions(None, Some(since), None))
    {
      assert s[..i + 1][..i] == s[..i];
      if s[i].ts >= since { r := r + [s[i]]; }
    }
    assert s[..|s|] == s;
  }

  method KeepUntil<E>(s: seq<Stamped<E>>, until: int) returns (r: seq<Stamped<E>>)
    ensures r == TimeFilter(s, ReadOptions(None, None, Some(until)))
  {
    r := [];
    for i := 0 to |s|
      invariant r == TimeFilter(s[..i], ReadOptions(None, None, Some(until)))
    {
      assert s[..i + 1][..i] == s[..i];
      if s[i].ts <= until { r := r + [s[i]]; }
    }
    assert s[..|s|] == s;
  }

  lemma {:induction false} FilterAll<E>(s: seq<Stamped<E>>, o: ReadOptions)
    requires o.since.None? && o.until.None?
    ensures TimeFilter(s, o) == s
  {
    if s != [] {
      FilterAll(s[..|s| - 1], o);
    }
  }

  lemma {:induction false} FilterTwice<E>(s: seq<Stamped<E>>, o: ReadOptions, p: ReadOptions, both: ReadOptions)
    requires forall e: Stamped<E> :: InWindow(e, both) <==> InWindow(e, o) && InWindow(e, p)
    ensures TimeFilter(TimeFilter(s, o), p) == TimeFilter(s, both)
  {
    if s != [] {
      var init, last := s[..|s| - 1], s[|s| - 1];
      FilterTwice(init, o, p, both);
      var kept := TimeFilter(init, o);
      if InWindow(last, o) {
        assert (kept + [last])[..|kept|] == kept;
      } else {
        assert kept + [] == kept;
      }
    }
  }

  /** The time bounds, one after the other. */
  method Narrow<E>(all: seq<Stamped<E>>, o: ReadOptions) returns (window: seq<Stamped<E>>)
    ensures window == TimeFilter(all, o)
  {
    window := all;
    if o.since.Some? {
      window := KeepSince(window, o.since.value);
    } else {
      FilterAll(all, ReadOptions(None, o.since, None));
    }
    ghost var recent := window;
    if o.until.Some? {
      window := KeepUntil(window, o.until.value);
    } else {
      FilterAll(recent, ReadOptions(None, None, o.until));
    }
    FilterTwice(all, ReadOptions(None, o.since, None), ReadOptions(None, None, o.until), o);
  }

  /** Trimming after every append keeps what one trim of the whole would. */
  lemma NewestAppend<T>(s: seq<T>, n: int, x: T)
    ensures Newest(Newest(s, n) + [x], n) == Newest(s + [x], n)
  {
  }

  type Streams<E> = map<string, seq<Stamped<E>>>

  function StreamOf<E>(streams: Streams<E>, id: string): seq<Stamped<E>> {
    if id in streams then streams[id] else []
  }

  /** Every stream holds exactly the newest `capacity` entries of its log. */
  ghost predicate Retains<E>(store: Streams<E>, log: Streams<E>, capacity: int) {
    store.Keys == log.Keys && forall id | id in log :: store[id] == Newest(log[id], capacity)
  }

  lemma RetainsAppend<E>(store: Streams<E>, log: Streams<E>, capacity: int, id: string, x: Stamped<E>)
    requires Retains(store, log, capacity)
    ensures Retains(store[id := Newest(StreamOf(store, id) + [x], capacity)], log[id := StreamOf(log, id) + [x]], capacity)
  {
    assert StreamOf(store, id) == Newest(StreamOf(log, id), capacity);
    NewestAppend(StreamOf(log, id), capacity, x);
  }

  class MemoryHistory<E> {
    const capacity: int
    var store: Streams<E>
    /** Every append since the store was made, per stream. */
    ghost var log: Streams<E>

    function Ring(streamId: string): seq<Stamped<E>>
      reads this
    {
      StreamOf(store, streamId)
    }

    ghost function Log(streamId: string): seq<Stamped<E>>
      reads this
    {
      StreamOf(log, streamId)
    }

    ghost predicate Valid()
      reads this
    {
      Retains(store, log, capacity)
    }

    constructor (capacity: int)
      ensures this.capacity == capacity && Valid() && log == map[]
    {
      this.capacity, store, log := capacity, map[], map[];
    }

    method Append(streamId: string, entry: E, now: int)
      requires Valid()
      modifies this
      ensures Valid()
      ensures log == old(log)[streamId := old(Log(streamId)) + [Stamped(now, entry)]]
      ensures forall s | s != streamId :: Ring(s) == old(Ring(s))
    {
      var existing := Ring(streamId) + [Stamped(now, entry)];
      if |existing| > capacity {
        existing := existing[|existing| - Max(0, capacity)..];
      }
      RetainsAppend(store, log, capacity, streamId, Stamped(now, entry));
      store := store[streamId := existing];
      log := log[streamId := Log(streamId) + [Stamped(now, entry)]];
    }

    /** A read answers from the ring alone. */
    method Read(streamId: string, o: ReadOptions) returns (entries: seq<E>)
      requires Valid()
      ensures entries == Answer(Newest(Log(streamId), capacity), o)
    {
      var window := Narrow(Ring(streamId), o);
      if o.limit.Some? && |window| > o.limit.value {
        window := window[|window| - Max(0, o.limit.value)..];
      }
      entries := Entries(window);
    }
  }

  lemma {:induction false} FilterConcat<E>(a: seq<Stamped<E>>, b: seq<Stamped<E>>, o: ReadOptions)
    ensures TimeFilter(a + b, o) == TimeFilter(a, o) + TimeFilter(b, o)
  {
    if b == [] {
      assert a + b == a;
    } else {
      FilterConcat(a, b[..|b| - 1], o);
      assert (a + b)[..|a + b| - 1] == a + b[..|b| - 1];
    }
  }

  /** The time window keeps, in order, the entries not before `since` and not after `until`. */
  lemma TimeFilterKeeps<E>(a: seq<Stamped<E>>, b: seq<Stamped<E>>, e: Stamped<E>, o: ReadOptions)
    ensures TimeFilter(a + b, o) == TimeFilter(a, o) + TimeFilter(b, o)
    ensures TimeFilter([e], o) ==
            if (o.since.None? || o.since.value <= e.ts) && (o.until.None? || e.ts <= o.until.value) then [e] else []
  {
    FilterConcat(a, b, o);
    assert [e][..0] == [];
  }

  /** The newest `n` are the `n` at the end, or all there are. */
  lemma NewestIsEnd<T>(s: seq<T>, n: nat, m: int)
    ensures n <= |s| ==> Newest(s, n) == s[|s| - n..]
    ensures n > |s| ==> Newest(s, n) == s
    ensures m < 0 ==> Newest(s, m) == []
  {
  }

  /** Reading the ring gives the answer of the unbounded log exactly when nothing that was
      dropped is asked for, or the retained entries alone already fill the limit. */
  lemma RingAnswersAsLogIff<E>(log: seq<Stamped<E>>, capacity: int, o: ReadOptions)
    ensures
      var ring := Newest(log, capacity);
      var dropped := log[..|log| - |ring|];
      Answer(ring, o) == Answer(log, o) <==>
      TimeFilter(dropped, o) == [] ||
      (o.limit.Some? && o.limit.value <= |TimeFilter(ring, o)|)
  {
    var ring := Newest(log, capacity);
    var dropped := log[..|log| - |ring|];
    assert log == dropped + ring;
    FilterConcat(dropped, ring, o);
    var lost, kept := TimeFilter(dropped, o), TimeFilter(ring, o);
    var all := TimeFilter(log, o);
    assert all == lost + kept;
    if o.limit.Some? && o.limit.value <= |kept| {
      assert Newest(all, o.limit.value) == Newest(kept, o.limit.value);
    } else if lost != [] {
      assert |Answer(ring, o)| == |kept| < |Answer(log, o)|;
    }
  }

  ghost predicate Chronological<E>(log: seq<Stamped<E>>) {
    forall i, j | 0 <= i < j < |log| :: log[i].ts <= log[j].ts
  }

  lemma {:induction false} NothingInside<E>(s: seq<Stamped<E>>, o: ReadOptions)
    requires forall e | e in s :: !InWindow(e, o)
    ensures TimeFilter(s, o) == []
  {
    if s != [] {
      NothingInside(s[..|s| - 1], o);
    }
  }

  /** On a clock that does not run backwards, a read from an instant later than some retained
      entry is complete. */
  lemma RecentReadsAreComplete<E>(log: seq<Stamped<E>>, capacity: int, o: ReadOptions)
    requires Chronological(log) && o.since.Some?
    requires exists e | e in Newest(log, capacity) :: e.ts < o.since.value
    ensures Answer(Newest(log, capacity), o) == Answer(log, o)
  {
    var ring := Newest(log, capacity);
    var cut := |log| - |ring|;
    assert ring == log[cut..];
    var e :| e in ring && e.ts < o.since.value;
    var j :| 0 <= j < |ring| && ring[j] == e;
    assert log[cut + j] == e;
    NothingInside(log[..cut], o);
    RingAnswersAsLogIff(log, capacity, o);
  }
}
