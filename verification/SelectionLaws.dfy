/** What a selection means in terms of the rows themselves: which rows match, which come first,
    and which part of them a window shows. */
module SelectionLaws {
  import opened Wrappers
  import opened Paths
  import opened Records
  import opened StableSort

  // ---- matching ----

  /** Every test on a row, read off its columns; the string "" also stands for an unset field
      in a list of alternatives. */
  lemma TestsOnAColumn(r: Record, c: Column, s: string, values: seq<Scalar>)
    ensures Matches(r, Equals(Col(c), Str(s))) <==> Cell(r, c) == Some(Text(s))
    ensures Matches(r, NotEquals(Col(c), Str(s))) <==> Cell(r, c) != Some(Text(s))
    ensures Matches(r, IsNull(Col(c))) <==> forall x :: Cell(r, c) != Some(Text(x))
    ensures Matches(r, IsNotNull(Col(c))) <==> exists x :: Cell(r, c) == Some(Text(x))
    ensures Cell(r, c) == Some(Text(s)) ==> (Matches(r, In(Col(c), values)) <==> Str(s) in values)
    ensures (forall x :: Cell(r, c) != Some(Text(x))) ==> (Matches(r, In(Col(c), values)) <==> Str("") in values)
  {
    if c in r.cells && r.cells[c].Text? {
      assert Cell(r, c) == Some(Text(r.cells[c].text));
    }
  }

  lemma TestsOnTheRow(r: Record, s: string, b: bool, values: seq<Scalar>)
    ensures Matches(r, Equals(Id, Str(s))) <==> r.id == s
    ensures Matches(r, In(Id, values)) <==> Str(r.id) in values
    ensures Matches(r, Equals(Readonly, Bool(b))) <==> r.readonly == Some(b)
    ensures Matches(r, NotEquals(Readonly, Bool(b))) <==> r.readonly != Some(b)
    ensures Matches(r, IsNull(Readonly)) <==> r.readonly == None
    ensures Matches(r, IsNotNull(Readonly)) <==> r.readonly != None
  {
  }

  /** The instant of a date field, as the columns of the row have it. */
  predicate IsAt(r: Record, f: DateField, ms: int) {
    match f
    case ByCreatedAt => r.createdAt == ms
    case ByOccurredAt => Cell(r, OccurredAt) == Some(Instant(ms))
  }

  /** Date tests are strict at both ends. */
  lemma TestsOnADate(r: Record, f: DateField, ms: int, at: int, until: int)
    requires IsAt(r, f, ms)
    ensures Matches(r, After(f, at)) <==> at < ms
    ensures Matches(r, Before(f, at)) <==> ms < at
    ensures Matches(r, Between(f, at, until)) <==> at < ms < until
  {
  }

  /** A group needs one part and all of them, an alternative one of them. */
  lemma TestsOnGroups(r: Record, p: Predicate, q: Predicate)
    ensures Matches(r, And([p, q])) <==> Matches(r, p) && Matches(r, q)
    ensures Matches(r, Or([p, q])) <==> Matches(r, p) || Matches(r, q)
    ensures !Matches(r, And([])) && !Matches(r, Or([]))
  {
    var ps := [p, q];
    assert ps[0] in ps && ps[1] in ps && forall x | x in ps :: x == p || x == q;
  }

  // ---- order ----

  /** By this key, in this direction, `a` may stand before `b`. */
  predicate NotAfter(collate: Collation, order: OrderBy, a: Record, b: Record) {
    match (order.key, order.direction)
    case (OrderByDate(d), Asc) => DateValue(a, d) <= DateValue(b, d)
    case (OrderByDate(d), Desc) => DateValue(a, d) >= DateValue(b, d)
    case (OrderByField(f), Asc) => collate(Rendered(a, f), Rendered(b, f)) <= 0
    case (OrderByField(f), Desc) => collate(Rendered(a, f), Rendered(b, f)) >= 0
  }

  /** By a chain of keys: by the first one, and among rows tied there by the others. */
  predicate InOrder(collate: Collation, orders: seq<OrderBy>, a: Record, b: Record) {
    || orders == []
    || (NotAfter(collate, orders[0], a, b) &&
        (NotAfter(collate, orders[0], b, a) ==> InOrder(collate, orders[1..], a, b)))
  }

  lemma KeyMeaning(collate: Collation, order: OrderBy, a: Record, b: Record)
    ensures NotAfter(collate, order, a, b) <==> Comparison(collate, order, a, b) <= 0
    ensures NotAfter(collate, order, b, a) <==> Comparison(collate, order, a, b) >= 0
  {
    ComparisonFlips(collate, order, a, b);
    assert TotalPreorder(collate);
  }

  /** The comparator says exactly that: rows are tied when either may stand first. */
  lemma {:induction false} ComparatorMeaning(collate: Collation, orders: seq<OrderBy>, a: Record, b: Record)
    ensures InOrder(collate, orders, a, b) <==> Compare(collate, orders)(a, b) <= 0
    ensures InOrder(collate, orders, b, a) <==> Compare(collate, orders)(a, b) >= 0
  {
    if orders != [] {
      KeyMeaning(collate, orders[0], a, b);
      ComparatorMeaning(collate, orders[1..], a, b);
    }
  }

  /** A selection comes in the order its query asks for, whatever its window. */
  lemma SelectIsOrdered(collate: Collation, rows: seq<Record>, q: Query, i: nat, j: nat)
    requires i < j < |Select(collate, rows, q)|
    ensures InOrder(collate, Orders(q), Select(collate, rows, q)[i], Select(collate, rows, q)[j])
  {
    var sorted := Sort(Compare(collate, Orders(q)), Filter(rows, q.filter));
    var from := Skipped(q.offset);
    WindowAt(sorted, q.offset, q.limit, i);
    WindowAt(sorted, q.offset, q.limit, j);
    SortIsInOrder(collate, Orders(q), Filter(rows, q.filter), from + i, from + j);
  }

  lemma SortIsInOrder(collate: Collation, orders: seq<OrderBy>, rows: seq<Record>, i: nat, j: nat)
    requires i < j < |Sort(Compare(collate, orders), rows)|
    ensures var sorted := Sort(Compare(collate, orders), rows); InOrder(collate, orders, sorted[i], sorted[j])
  {
    var c := Compare(collate, orders);
    var sorted := Sort(c, rows);
    assert c(sorted[i], sorted[j]) <= 0 by {
      CompareIsPreorder(collate, orders);
      SortIsStable(c, rows);
    }
    ComparatorMeaning(collate, orders, sorted[i], sorted[j]);
  }

  /** Without an explicit order the newest rows come first. */
  lemma NewestFirst(collate: Collation, rows: seq<Record>, q: Query, i: nat, j: nat, x: int, y: int)
    requires q.orderBy.None? && i < j < |Select(collate, rows, q)|
    requires IsAt(Select(collate, rows, q)[i], ByOccurredAt, x) && IsAt(Select(collate, rows, q)[j], ByOccurredAt, y)
    ensures x >= y
  {
    SelectIsOrdered(collate, rows, q, i, j);
  }

  /** Ordered by one date, ascending is oldest first and descending newest first. */
  lemma OrderedByDate(collate: Collation, rows: seq<Record>, q: Query, order: OrderBy, i: nat, j: nat, x: int, y: int)
    requires q.orderBy == Some([order]) && order.key.OrderByDate? && i < j < |Select(collate, rows, q)|
    requires IsAt(Select(collate, rows, q)[i], order.key.date, x) && IsAt(Select(collate, rows, q)[j], order.key.date, y)
    ensures if order.direction.Asc? then x <= y else x >= y
  {
    SelectIsOrdered(collate, rows, q, i, j);
  }

  /** The text of a column, empty when it has none. */
  ghost predicate Reads(r: Record, c: Column, text: string) {
    Cell(r, c) == Some(Text(text)) || (text == "" && forall x :: Cell(r, c) != Some(Text(x)))
  }

  /** Ordered by one text column, the texts ascend or descend in the collation. */
  lemma OrderedByText(collate: Collation, rows: seq<Record>, q: Query, c: Column, direction: Direction,
                      i: nat, j: nat, x: string, y: string)
    requires q.orderBy == Some([OrderBy(OrderByField(Col(c)), direction)]) && i < j < |Select(collate, rows, q)|
    requires Reads(Select(collate, rows, q)[i], c, x) && Reads(Select(collate, rows, q)[j], c, y)
    ensures if direction.Asc? then collate(x, y) <= 0 else collate(x, y) >= 0
  {
    SelectIsOrdered(collate, rows, q, i, j);
    ReadsRendered(Select(collate, rows, q)[i], c, x);
    ReadsRendered(Select(collate, rows, q)[j], c, y);
  }

  lemma ReadsRendered(r: Record, c: Column, text: string)
    requires Reads(r, c, text)
    ensures Rendered(r, Col(c)) == text
  {
    if c in r.cells && r.cells[c].Text? {
      assert Cell(r, c) == Some(Text(r.cells[c].text));
    }
  }

  // ---- windows ----

  function Skipped(offset: Option<int>): nat {
    if offset.Some? && offset.value > 0 then offset.value else 0
  }

  /** How many of the rows that are left a limit lets through. */
  function Shown(limit: Option<int>, left: nat): nat {
    match limit
    case None => left
    case Some(n) => if n < 0 then 0 else if n < left then n else left
  }

  ghost predicate IsSlice<T>(r: seq<T>, all: seq<T>, offset: Option<int>, limit: Option<int>) {
    var skip := Skipped(offset);
    && |r| == Shown(limit, if skip < |all| then |all| - skip else 0)
    && (r != [] ==> skip + |r| <= |all| && r == all[skip..skip + |r|])
  }

  lemma WindowIsSlice<T>(all: seq<T>, offset: Option<int>, limit: Option<int>)
    ensures IsSlice(Window(all, offset, limit), all, offset, limit)
  {
    var skip := Skipped(offset);
    if skip < |all| {
      var left := all[skip..];
      var shown := Shown(limit, |left|);
      assert Window(all, offset, limit) == left[..shown] == all[skip..skip + shown];
    }
  }

  lemma WindowAt<T>(all: seq<T>, offset: Option<int>, limit: Option<int>, i: nat)
    requires i < |Window(all, offset, limit)|
    ensures Skipped(offset) + i < |all| && Window(all, offset, limit)[i] == all[Skipped(offset) + i]
  {
    WindowIsSlice(all, offset, limit);
  }

  /** The query without its window. */
  function Everything(q: Query): Query {
    q.(offset := None, limit := None)
  }

  /** The window of a query shows a slice of what the query without it selects, and that is
      every matching row as often as it is stored. */
  lemma SelectIsSlice(collate: Collation, rows: seq<Record>, q: Query, r: Record)
    ensures IsSlice(Select(collate, rows, q), Select(collate, rows, Everything(q)), q.offset, q.limit)
    ensures multiset(Select(collate, rows, Everything(q)))[r] ==
            if MatchesOptional(r, q.filter) then multiset(rows)[r] else 0
  {
    var c, matching := Compare(collate, Orders(q)), Filter(rows, q.filter);
    CompareIsPreorder(collate, Orders(q));
    SortIsStable(c, matching);
    FilterCounts(rows, q.filter, r);
    UnwindowedIsSort(collate, rows, q);
    WindowIsSlice(Sort(c, matching), q.offset, q.limit);
  }

  lemma UnwindowedIsSort(collate: Collation, rows: seq<Record>, q: Query)
    ensures Select(collate, rows, Everything(q)) == Sort(Compare(collate, Orders(q)), Filter(rows, q.filter))
  {
  }

  lemma {:induction false} FilterCounts(rows: seq<Record>, p: Option<Predicate>, r: Record)
    ensures multiset(Filter(rows, p))[r] == if MatchesOptional(r, p) then multiset(rows)[r] else 0
  {
    if rows != [] {
      FilterCounts(rows[1..], p, r);
      assert rows == [rows[0]] + rows[1..];
    }
  }

  /** The rows that match keep their stored order, so that ties show it. */
  lemma {:induction false} FilterInOrder(a: seq<Record>, b: seq<Record>, p: Option<Predicate>)
    ensures Filter(a + b, p) == Filter(a, p) + Filter(b, p)
    ensures forall r :: Filter([r], p) == if MatchesOptional(r, p) then [r] else []
  {
    if a == [] {
      assert a + b == b;
    } else {
      FilterInOrder(a[1..], b, p);
      HeadOfConcat(a, b);
      ConcatTwice(if MatchesOptional(a[0], p) then [a[0]] else [], Filter(a[1..], p), Filter(b, p));
    }
  }
}
