/** Runtime records, the query DSL and patches (src/RuntimeStorage.ts, src/Query.ts).

    The optional and patchable columns of a row are one map; a column absent from it is
    `undefined`. JSON values stay opaque text. */
module Records {
  import opened Integers
  import opened Wrappers
  import opened StableSort

  datatype Column =
    | Type | OccurredAt | RunId | ProcessType | ProcessId
    | SubjectType | SubjectId | Key
    | IndexA | IndexB | IndexC | IndexD | IndexE | IndexF | IndexG | IndexH
    | IndexNames | Payload | Attributes

  const COLUMNS: set<Column> := {
    Type, OccurredAt, RunId, ProcessType, ProcessId, SubjectType, SubjectId, Key,
    IndexA, IndexB, IndexC, IndexD, IndexE, IndexF, IndexG, IndexH, IndexNames, Payload, Attributes}

  lemma EveryColumn(c: Column)
    ensures c in COLUMNS
  {
    match c {
      case Type => case OccurredAt => case RunId => case ProcessType => case ProcessId =>
      case SubjectType => case SubjectId => case Key =>
      case IndexA => case IndexB => case IndexC => case IndexD =>
      case IndexE => case IndexF => case IndexG => case IndexH =>
      case IndexNames => case Payload => case Attributes =>
    }
  }

  /** Columns that are always set: a patch may replace them but not unset them. */
  predicate Required(c: Column) {
    c in {Type, OccurredAt, RunId, ProcessType, ProcessId}
  }

  datatype Value = Text(text: string) | Instant(ms: int) | Names(names: seq<string>) | Json(json: string)

  datatype Record = Record(id: string, createdAt: int, readonly: Option<bool>, cells: map<Column, Value>)

  function Cell(r: Record, c: Column): Option<Value> {
    if c in r.cells then Some(r.cells[c]) else None
  }

  predicate IsReadonly(r: Record) {
    r.readonly == Some(true)
  }

  // ---- predicates ----

  datatype Field = Id | Col(column: Column) | Readonly

  datatype Scalar = Str(s: string) | Bool(b: bool)

  /** `fieldValue`: only text columns can be compared, anything else reads as `undefined`. */
  function FieldValue(r: Record, f: Field): Option<Scalar> {
    match f
    case Id => Some(Str(r.id))
    case Readonly => if r.readonly.Some? then Some(Bool(r.readonly.value)) else None
    case Col(c) => if c in r.cells && r.cells[c].Text? then Some(Str(r.cells[c].text)) else None
  }

  datatype DateField = ByOccurredAt | ByCreatedAt

  function DateValue(r: Record, f: DateField): int {
    match f
    case ByCreatedAt => r.createdAt
    case ByOccurredAt =>
      if OccurredAt in r.cells && r.cells[OccurredAt].Instant? then r.cells[OccurredAt].ms else 0
  }

  datatype Predicate =
    | Equals(field: Field, value: Scalar)
    | NotEquals(field: Field, value: Scalar)
    | In(field: Field, values: seq<Scalar>)
    | IsNull(field: Field)
    | IsNotNull(field: Field)
    | After(date: DateField, at: int)
    | Before(date: DateField, at: int)
    | Between(date: DateField, start: int, end: int)
    | And(predicates: seq<Predicate>)
    | Or(predicates: seq<Predicate>)

  predicate Matches(r: Record, p: Predicate) {
    match p
    case Equals(f, v) => FieldValue(r, f) == Some(v)
    case NotEquals(f, v) => FieldValue(r, f) != Some(v)
    case In(f, vs) => (if FieldValue(r, f).Some? then FieldValue(r, f).value else Str("")) in vs
    case IsNull(f) => FieldValue(r, f).None?
    case IsNotNull(f) => FieldValue(r, f).Some?
    case After(f, at) => DateValue(r, f) - at > 0
    case Before(f, at) => DateValue(r, f) - at < 0
    case Between(f, start, end) => DateValue(r, f) - start > 0 && DateValue(r, f) - end < 0
    case And(ps) => |ps| > 0 && forall q | q in ps :: Matches(r, q)
    case Or(ps) => exists q | q in ps :: Matches(r, q)
  }

  /** An absent predicate matches every row. */
  predicate MatchesOptional(r: Record, p: Option<Predicate>) {
    p.None? || Matches(r, p.value)
  }

  function Combine(left: Option<Predicate>, right: Predicate): Predicate {
    if left.None? then right else And([left.value, right])
  }

  /** `Where(p1, …, pn)`: a left fold of `combine`. */
  function Where(ps: seq<Predicate>): Option<Predicate> {
    if ps == [] then None else Some(Combine(Where(ps[..|ps| - 1]), ps[|ps| - 1]))
  }

  /** `Where` is a plain conjunction for every number of predicates; for none it matches every
      row, although the empty `And` and `Or` groups match no row. */
  lemma {:induction false} WhereIsConjunction(r: Record, ps: seq<Predicate>)
    ensures MatchesOptional(r, Where(ps)) <==> forall p | p in ps :: Matches(r, p)
    ensures !Matches(r, And([])) && !Matches(r, Or([]))
  {
    if ps != [] {
      var init, last := ps[..|ps| - 1], ps[|ps| - 1];
      WhereIsConjunction(r, init);
      assert ps == init + [last];
      CombineIsConjunction(r, Where(init), last);
      assert forall p :: p in ps <==> p in init || p == last;
    }
  }

  lemma CombineIsConjunction(r: Record, left: Option<Predicate>, right: Predicate)
    ensures Matches(r, Combine(left, right)) <==> MatchesOptional(r, left) && Matches(r, right)
  {
    if left.Some? {
      var group := [left.value, right];
      assert group[0] in group && group[1] in group;
    }
  }

  predicate IncludesReadonlyTrue(p: Option<Predicate>) {
    p.Some? && MentionsReadonlyTrue(p.value)
  }

  predicate MentionsReadonlyTrue(p: Predicate) {
    match p
    case Equals(f, v) => f == Readonly && v == Bool(true)
    case And(ps) => exists q | q in ps :: MentionsReadonlyTrue(q)
    case Or(ps) => exists q | q in ps :: MentionsReadonlyTrue(q)
    case _ => false
  }

  /** `x` is this predicate or a part of one of its groups, at any depth. */
  predicate IsPart(x: Predicate, p: Predicate) {
    || x == p
    || (p.And? && exists q | q in p.predicates :: IsPart(x, q))
    || (p.Or? && exists q | q in p.predicates :: IsPart(x, q))
  }

  /** A query lifts the protection of readonly rows when the test readonly = true occurs in it,
      wherever that is. */
  lemma {:induction false} MentionsIffPart(p: Predicate)
    ensures MentionsReadonlyTrue(p) <==> IsPart(Equals(Readonly, Bool(true)), p)
  {
    match p
    case And(ps) =>
      forall q | q in ps ensures MentionsReadonlyTrue(q) <==> IsPart(Equals(Readonly, Bool(true)), q) {
        MentionsIffPart(q);
      }
    case Or(ps) =>
      forall q | q in ps ensures MentionsReadonlyTrue(q) <==> IsPart(Equals(Readonly, Bool(true)), q) {
        MentionsIffPart(q);
      }
    case _ =>
  }

  /** Matching pins readonly = true: the test itself does, an `And` if one part does, an `Or`
      if every alternative does. */
  predicate Pins(p: Predicate) {
    match p
    case Equals(f, v) => f == Readonly && v == Bool(true)
    case And(ps) => exists q | q in ps :: Pins(q)
    case Or(ps) => forall q | q in ps :: Pins(q)
    case _ => false
  }

  /** A predicate that pins readonly = true matches readonly rows only. */
  lemma {:induction false} PinnedMatchIsReadonly(r: Record, p: Predicate)
    requires Pins(p) && Matches(r, p)
    ensures IsReadonly(r)
  {
    match p
    case Equals(_, _) =>
    case And(ps) =>
      var q :| q in ps && Pins(q);
      PinnedMatchIsReadonly(r, q);
    case Or(ps) =>
      var q :| q in ps && Matches(r, q);
      PinnedMatchIsReadonly(r, q);
  }

  /** No `Or` group anywhere. */
  predicate OrFree(p: Predicate) {
    match p
    case And(ps) => forall q | q in ps :: OrFree(q)
    case Or(_) => false
    case _ => true
  }

  lemma {:induction false} OrFreeMentionPins(p: Predicate)
    requires MentionsReadonlyTrue(p) && OrFree(p)
    ensures Pins(p)
  {
    match p
    case Equals(_, _) =>
    case And(ps) =>
      var q :| q in ps && MentionsReadonlyTrue(q);
      OrFreeMentionPins(q);
  }

  /** Without `Or`, a predicate that mentions readonly = true matches readonly rows only. */
  lemma {:induction false} MentionPinsReadonly(r: Record, p: Predicate)
    requires MentionsReadonlyTrue(p) && OrFree(p) && Matches(r, p)
    ensures IsReadonly(r)
  {
    OrFreeMentionPins(p);
    PinnedMatchIsReadonly(r, p);
  }

  /** With `Or` it may match writable rows too, which such a delete then removes. */
  lemma OrMentionsWithoutPinning(r: Record)
    requires r.id == "a" && !IsReadonly(r)
    ensures var p := Or([Equals(Readonly, Bool(true)), Equals(Id, Str("a"))]);
      MentionsReadonlyTrue(p) && Matches(r, p)
  {
    var ps := [Equals(Readonly, Bool(true)), Equals(Id, Str("a"))];
    assert ps[0] in ps && ps[1] in ps;
    assert Matches(r, ps[1]);
  }

  // ---- ordering and windows ----

  /** `localeCompare` is some total preorder on strings. */
  type Collation = c: (string, string) -> int | TotalPreorder(c) ghost witness (a: string, b: string) => 0

  datatype OrderKey = OrderByDate(date: DateField) | OrderByField(field: Field)

  datatype Direction = Asc | Desc

  datatype OrderBy = OrderBy(key: OrderKey, direction: Direction)

  /** The text a field sorts by, empty when it is not set. */
  function Rendered(r: Record, f: Field): string {
    match FieldValue(r, f)
    case None => ""
    case Some(Str(s)) => s
    case Some(Bool(b)) => if b then "true" else "false"
  }

  /** One key of an ordering, in its direction. */
  function Comparison(collate: Collation, order: OrderBy, left: Record, right: Record): int {
    var ascending :=
      match order.key
      case OrderByDate(d) => DateValue(left, d) - DateValue(right, d)
      case OrderByField(f) => collate(Rendered(left, f), Rendered(right, f));
    if order.direction.Asc? then ascending else -ascending
  }

  function CompareBy(collate: Collation, order: OrderBy): (Record, Record) -> int {
    (left: Record, right: Record) => Comparison(collate, order, left, right)
  }

  /** The comparator: the first key whose comparison is not zero decides. */
  function Compare(collate: Collation, orders: seq<OrderBy>): (Record, Record) -> int {
    (left: Record, right: Record) => CompareFrom(collate, orders, left, right)
  }

  function CompareFrom(collate: Collation, orders: seq<OrderBy>, left: Record, right: Record): int {
    if orders == [] then 0
    else
      var comparison := Comparison(collate, orders[0], left, right);
      if comparison != 0 then comparison else CompareFrom(collate, orders[1..], left, right)
  }

  datatype Query = Query(
    filter: Option<Predicate>,
    orderBy: Option<seq<OrderBy>>,
    limit: Option<int>,
    offset: Option<int>)

  const DEFAULT_ORDER: seq<OrderBy> := [OrderBy(OrderByDate(ByOccurredAt), Desc)]

  function Orders(q: Query): seq<OrderBy> {
    if q.orderBy.Some? then q.orderBy.value else DEFAULT_ORDER
  }

  function Filter(rows: seq<Record>, p: Option<Predicate>): seq<Record> {
    if rows == [] then []
    else (if MatchesOptional(rows[0], p) then [rows[0]] else []) + Filter(rows[1..], p)
  }

  /** `applyWindow`: negative offsets and limits count as zero. */
  function Window<T>(rows: seq<T>, offset: Option<int>, limit: Option<int>): seq<T> {
    var from := Min(if offset.Some? then Max(0, offset.value) else 0, |rows|);
    var limited := rows[from..];
    if limit.None? then limited else limited[..Min(Max(0, limit.value), |limited|)]
  }

  /** `selectRuntimeRecords` */
  function Select(collate: Collation, rows: seq<Record>, q: Query): seq<Record> {
    Window(Sort(Compare(collate, Orders(q)), Filter(rows, q.filter)), q.offset, q.limit)
  }

  lemma CompareByIsPreorder(collate: Collation, order: OrderBy)
    ensures TotalPreorder(CompareBy(collate, order))
  {
    var cmp := CompareBy(collate, order);
    forall a, b
      ensures cmp(a, b) < 0 <==> cmp(b, a) > 0
    {
      ComparisonFlips(collate, order, a, b);
    }
    forall a, b, c | cmp(a, b) <= 0 && cmp(b, c) <= 0
      ensures cmp(a, c) <= 0
    {
      ComparisonChains(collate, order, a, b, c);
    }
  }

  lemma ComparisonFlips(collate: Collation, order: OrderBy, a: Record, b: Record)
    ensures Comparison(collate, order, a, b) < 0 <==> Comparison(collate, order, b, a) > 0
    ensures Comparison(collate, order, a, b) > 0 <==> Comparison(collate, order, b, a) < 0
  {
    assert TotalPreorder(collate);
  }

  lemma ComparisonChains(collate: Collation, order: OrderBy, a: Record, b: Record, c: Record)
    requires Comparison(collate, order, a, b) <= 0 && Comparison(collate, order, b, c) <= 0
    ensures Comparison(collate, order, a, c) <= 0
  {
    if order.key.OrderByField? {
      var f := order.key.field;
      var x, y, z := Rendered(a, f), Rendered(b, f), Rendered(c, f);
      assert TotalPreorder(collate);
      if order.direction.Asc? {
        assert collate(x, y) <= 0 && collate(y, z) <= 0;
      } else {
        assert collate(z, y) <= 0 && collate(y, x) <= 0;
      }
    }
  }

  lemma {:induction false} CompareIsPreorder(collate: Collation, orders: seq<OrderBy>)
    ensures TotalPreorder(Compare(collate, orders))
  {
    if orders != [] {
      var c1, c2 := CompareBy(collate, orders[0]), Compare(collate, orders[1..]);
      CompareByIsPreorder(collate, orders[0]);
      CompareIsPreorder(collate, orders[1..]);
      ThenIsPreorder(c1, c2);
      assert forall a, b :: Compare(collate, orders)(a, b) == Then(c1, c2)(a, b);
    }
  }

  /** Stable sorts by the last key first, then the one before, up to the first key. */
  function SortByEach(collate: Collation, orders: seq<OrderBy>, rows: seq<Record>): seq<Record> {
    if orders == [] then rows
    else Sort(CompareBy(collate, orders[0]), SortByEach(collate, orders[1..], rows))
  }

  /** Chained `OrderBy` keys sort exactly as one stable sort per key, last key first. */
  lemma {:induction false} OrderChainIsRepeatedSort(collate: Collation, orders: seq<OrderBy>, rows: seq<Record>)
    ensures Sort(Compare(collate, orders), rows) == SortByEach(collate, orders, rows)
  {
    var c := Compare(collate, orders);
    if orders == [] {
      SortIsStable(c, rows);
      SortedWhenAllEqual(c, rows);
    } else {
      var c1, c2 := CompareBy(collate, orders[0]), Compare(collate, orders[1..]);
      CompareByIsPreorder(collate, orders[0]);
      CompareIsPreorder(collate, orders[1..]);
      assert forall a, b :: c(a, b) == Then(c1, c2)(a, b);
      SortExtensional(c, Then(c1, c2), rows);
      SortThen(c1, c2, rows);
      OrderChainIsRepeatedSort(collate, orders[1..], rows);
    }
  }

  lemma SortedWhenAllEqual(c: (Record, Record) -> int, rows: seq<Record>)
    requires forall a, b :: c(a, b) == 0
    ensures Sort(c, rows) == rows
  {
    SortIsStable(c, rows);
    StableSortUnique(c, Sort(c, rows), rows);
  }

  lemma {:induction false} FilterMembers(rows: seq<Record>, p: Option<Predicate>)
    ensures forall r :: r in Filter(rows, p) <==> r in rows && MatchesOptional(r, p)
  {
    if rows != [] {
      FilterMembers(rows[1..], p);
      assert rows == [rows[0]] + rows[1..];
    }
  }

  lemma {:induction false} FilterIsPart(rows: seq<Record>, p: Option<Predicate>)
    ensures multiset(Filter(rows, p)) <= multiset(rows)
  {
    if rows != [] {
      FilterIsPart(rows[1..], p);
      assert rows == [rows[0]] + rows[1..];
      assert multiset(rows) == multiset{rows[0]} + multiset(rows[1..]);
    }
  }

  /** A selection is a window of the one stable sort of the matching rows. */
  lemma SelectIsStableWindow(collate: Collation, rows: seq<Record>, q: Query)
    ensures exists sorted ::
      && IsStableSort(Compare(collate, Orders(q)), sorted, Filter(rows, q.filter))
      && multiset(sorted) == multiset(Filter(rows, q.filter))
      && Select(collate, rows, q) == Window(sorted, q.offset, q.limit)
  {
    CompareIsPreorder(collate, Orders(q));
    SortIsStable(Compare(collate, Orders(q)), Filter(rows, q.filter));
  }

  lemma WindowIsPart<T>(rows: seq<T>, offset: Option<int>, limit: Option<int>)
    ensures multiset(Window(rows, offset, limit)) <= multiset(rows)
  {
    var from := Min(if offset.Some? then Max(0, offset.value) else 0, |rows|);
    var limited, picked := rows[from..], Window(rows, offset, limit);
    assert rows == rows[..from] + limited;
    assert limited == picked + limited[|picked|..];
  }

  /** Every selected row is one of the matching rows, and none is selected more often than it
      is stored. */
  lemma SelectMembers(collate: Collation, rows: seq<Record>, q: Query)
    ensures forall r | r in Select(collate, rows, q) :: r in rows && MatchesOptional(r, q.filter)
    ensures multiset(Select(collate, rows, q)) <= multiset(rows)
  {
    var matching := Filter(rows, q.filter);
    var sorted := Sort(Compare(collate, Orders(q)), matching);
    CompareIsPreorder(collate, Orders(q));
    SortIsStable(Compare(collate, Orders(q)), matching);
    WindowIsPart(sorted, q.offset, q.limit);
    FilterIsPart(rows, q.filter);
    FilterMembers(rows, q.filter);
    forall r | r in Window(sorted, q.offset, q.limit)
      ensures r in rows && MatchesOptional(r, q.filter)
    {
      InMultiset(r, Window(sorted, q.offset, q.limit), matching);
    }
  }

  lemma InMultiset<T>(x: T, a: seq<T>, b: seq<T>)
    requires x in a && multiset(a) <= multiset(b)
    ensures x in b
  {
    assert multiset(a)[x] > 0;
  }

  /** The first `n` pages of `size` rows each, one after another. */
  function Pages<T>(rows: seq<T>, size: nat, n: nat): seq<T> {
    if n == 0 then [] else Pages(rows, size, n - 1) + Window(rows, Some((n - 1) * size), Some(size))
  }

  lemma {:induction false} PagesArePrefix<T>(rows: seq<T>, size: nat, n: nat)
    ensures Pages(rows, size, n) == rows[..Min(n * size, |rows|)]
  {
    if n == 0 {
      assert n * size == 0;
    } else {
      PagesArePrefix(rows, size, n - 1);
      assert n * size == (n - 1) * size + size;
      assert (n - 1) * size >= 0;
      PageExtends(rows, (n - 1) * size, size);
    }
  }

  /** A page picks up where the rows before it end. */
  lemma PageExtends<T>(rows: seq<T>, from: nat, size: nat)
    ensures rows[..Min(from, |rows|)] + Window(rows, Some(from), Some(size)) == rows[..Min(from + size, |rows|)]
  {
  }

  /** Consecutive `Offset`/`Limit` pages of a query concatenate to the whole selection. */
  lemma {:induction false} PagesConcatenate(collate: Collation, rows: seq<Record>, q: Query, size: nat, n: nat)
    requires q.offset.None? && q.limit.None? && n * size >= |Select(collate, rows, q)|
    ensures Pages(Select(collate, rows, q), size, n) == Select(collate, rows, q)
    ensures forall k: nat ::
      Select(collate, rows, q.(offset := Some(k * size), limit := Some(size))) ==
      Window(Select(collate, rows, q), Some(k * size), Some(size))
  {
    PagesArePrefix(Select(collate, rows, q), size, n);
  }
}
