/** The durable node-log writer (src/NodeLogs.ts, `persistLayer`): every line gets an entry
    id that both sorts and works as a cursor. */
module NodeLogs {
  import opened Decimal

  const ID_WIDTH: nat := 12

  /** Ids below this bound fit the padded width: 10^12. */
  const ID_CAPACITY: nat := Pow10(ID_WIDTH)

  datatype Row<Line> = Row(entryId: string, line: Line)

  function EntryId(n: nat): string {
    PadStart(Digits(n), ID_WIDTH)
  }

  /** What the whole log must become: line `i` under id `i`. */
  function Numbered<Line>(lines: seq<Line>, start: nat): (rows: seq<Row<Line>>)
    ensures |rows| == |lines|
    ensures forall i | 0 <= i < |lines| :: rows[i] == Row(EntryId(start + i), lines[i])
  {
    seq(|lines|, i requires 0 <= i < |lines| => Row(EntryId(start + i), lines[i]))
  }

  function Concat<T>(batches: seq<seq<T>>): seq<T> {
    if batches == [] then [] else Concat(batches[..|batches| - 1]) + batches[|batches| - 1]
  }

  class LogWriter<Line> {
    var counter: nat
    var stored: seq<Row<Line>>

    constructor ()
      ensures counter == 0 && stored == []
    {
      counter, stored := 0, [];
    }

    /** One window of the grouped stream: claim a range of ids, then store the rows. */
    method PersistBatch(entries: seq<Line>)
      modifies this
      ensures counter == old(counter) + |entries|
      ensures stored == old(stored) + Numbered(entries, old(counter))
    {
      var start := counter;
      counter := counter + |entries|;
      var rows := [];
      for index := 0 to |entries|
        invariant counter == start + |entries| && stored == old(stored)
        invariant rows == Numbered(entries, start)[..index]
      {
        rows := rows + [Row(EntryId(start + index), entries[index])];
      }
      stored := stored + rows;
    }

    /** However the stream is split into windows, the stored rows number the lines
        0, 1, 2, … with no gap and no repeat. */
    method PersistAll(batches: seq<seq<Line>>)
      requires counter == 0 && stored == []
      modifies this
      ensures stored == Numbered(Concat(batches), 0)
    {
      for b := 0 to |batches|
        invariant counter == |Concat(batches[..b])|
        invariant stored == Numbered(Concat(batches[..b]), 0)
      {
        assert batches[..b + 1][..b] == batches[..b];
        PersistBatch(batches[b]);
      }
      assert batches[..|batches|] == batches;
    }
  }

  lemma ValueOfEntryId(n: nat)
    ensures var id := EntryId(n);
      && (forall i | 0 <= i < |id| :: IsDigit(id[i]))
      && Value(id) == n
      && (|id| == ID_WIDTH <==> n < ID_CAPACITY)
      && |id| >= ID_WIDTH
  {
    ValueOfDigits(n);
    DigitCount(n, ID_WIDTH);
    if |Digits(n)| < ID_WIDTH {
      ValueOfZeros(ID_WIDTH - |Digits(n)|, Digits(n));
    }
  }

  /** No two lines of a log ever share an id, even past the padded width. */
  lemma EntryIdInjective(a: nat, b: nat)
    requires EntryId(a) == EntryId(b)
    ensures a == b
  {
    ValueOfEntryId(a);
    ValueOfEntryId(b);
  }

  lemma EntryIdSorts(a: nat, b: nat)
    requires a < ID_CAPACITY && b < ID_CAPACITY
    ensures Precedes(EntryId(a), EntryId(b)) <==> a < b
  {
    ValueOfEntryId(a);
    ValueOfEntryId(b);
    PrecedesIsNumeric(EntryId(a), EntryId(b));
  }

  ghost predicate SortsAsNumbers(count: nat) {
    forall a: nat, b: nat | a < count && b < count ::
      Precedes(EntryId(a), EntryId(b)) <==> a < b
  }

  /** Padded ids sort as the numbers do for a log of `count` lines exactly when the log
      holds at most 10^12 lines; the first id past that bound already sorts too early. */
  lemma StringOrderIsLogOrder(count: nat)
    ensures SortsAsNumbers(count) <==> count <= ID_CAPACITY
  {
    if count <= ID_CAPACITY {
      forall a: nat, b: nat | a < count && b < count
        ensures Precedes(EntryId(a), EntryId(b)) <==> a < b
      {
        EntryIdSorts(a, b);
      }
    } else {
      // 10^12 starts with '1', 2 * 10^11 with '2'.
      var early, late := 2 * Pow10(ID_WIDTH - 1), ID_CAPACITY;
      LeadingDigit(2, ID_WIDTH - 1);
      LeadingDigit(1, ID_WIDTH);
      PowPositive(ID_WIDTH - 1);
      assert late == 10 * Pow10(ID_WIDTH - 1) == 1 * Pow10(ID_WIDTH);
      DigitCount(early, ID_WIDTH);
      DigitCount(early, ID_WIDTH - 1);
      ValueOfEntryId(late);
      assert early < late;
      assert !Precedes(EntryId(early), EntryId(late)) by {
        assert EntryId(early)[0] == '2' && EntryId(late)[0] == '1';
      }
      assert early < count && late < count;
    }
  }
}
