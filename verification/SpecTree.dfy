/** Nested contracts and the flat, dotted form the wire uses (src/Resource.ts, `flattenSpec`,
    `flattenImpl`, `nestService`, `setPath`). Objects are maps from property names; a value is
    opaque. Writing onto a leaf that stands in the way of a path does not change the tree. */
module SpecTree {
  import opened Wrappers
  import opened Paths

  const DOT: char := '.'

  type Path = seq<string>

  // ---- objects ----

  datatype Node<V> = Val(value: V) | Obj(fields: map<string, Node<V>>)

  /** The value at a path, if the path ends at a leaf. */
  function LeafAt<V>(n: Node<V>, path: Path): Option<V> {
    match n
    case Val(v) => if path == [] then Some(v) else None
    case Obj(fields) =>
      if path != [] && path[0] in fields then LeafAt(fields[path[0]], path[1..]) else None
  }

  /** Every group, at any depth, holds something. */
  ghost predicate Full<V>(n: Node<V>) {
    match n
    case Val(_) => true
    case Obj(fields) => fields != map[] && forall k | k in fields :: Full(fields[k])
  }

  ghost predicate FullBelow<V>(fields: map<string, Node<V>>) {
    forall k | k in fields :: Full(fields[k])
  }

  lemma SomeLeaf<V>(n: Node<V>) returns (path: Path)
    requires Full(n)
    ensures LeafAt(n, path).Some?
  {
    match n
    case Val(_) => path := [];
    case Obj(fields) =>
      var k :| k in fields;
      var rest := SomeLeaf(fields[k]);
      path := [k] + rest;
      assert path[1..] == rest;
  }

  lemma LeafKeyShared<V>(f: map<string, Node<V>>, g: map<string, Node<V>>, k: string)
    requires FullBelow(f) && k in f
    requires forall path :: LeafAt(Obj(f), path) == LeafAt(Obj(g), path)
    ensures k in g
    ensures forall path :: LeafAt(f[k], path) == LeafAt(g[k], path)
  {
    var rest := SomeLeaf(f[k]);
    assert ([k] + rest)[1..] == rest;
    assert LeafAt(Obj(f), [k] + rest).Some?;
    forall path
      ensures LeafAt(f[k], path) == LeafAt(g[k], path)
    {
      assert ([k] + path)[1..] == path;
      assert LeafAt(Obj(f), [k] + path) == LeafAt(Obj(g), [k] + path);
    }
  }

  lemma SameLeavesSameNode<V>(m: Node<V>, n: Node<V>)
    requires Full(m) && Full(n)
    requires forall path :: LeafAt(m, path) == LeafAt(n, path)
    ensures m == n
    decreases m
  {
    assert LeafAt(m, []) == LeafAt(n, []);
    if m.Obj? && n.Obj? {
      forall k | k in m.fields
        ensures k in n.fields && m.fields[k] == n.fields[k]
      {
        LeafKeyShared(m.fields, n.fields, k);
        SameLeavesSameNode(m.fields[k], n.fields[k]);
      }
      forall k | k in n.fields
        ensures k in m.fields
      {
        LeafKeyShared(n.fields, m.fields, k);
      }
      assert m.fields == n.fields;
    }
  }

  /** Objects without empty groups are determined by their leaves. */
  lemma SameLeavesSameObject<V>(f: map<string, Node<V>>, g: map<string, Node<V>>)
    requires FullBelow(f) && FullBelow(g)
    requires forall path :: LeafAt(Obj(f), path) == LeafAt(Obj(g), path)
    ensures f == g
  {
    forall k | k in f
      ensures k in g && f[k] == g[k]
    {
      LeafKeyShared(f, g, k);
      SameLeavesSameNode(f[k], g[k]);
    }
    forall k | k in g
      ensures k in f
    {
      LeafKeyShared(g, f, k);
    }
  }

  // ---- setPath ----

  /** Nothing stands at the path, and no leaf stands in its way. */
  predicate Free<V>(obj: map<string, Node<V>>, parts: Path)
    decreases |parts|
  {
    parts != [] &&
    (parts[0] in obj ==> |parts| > 1 && obj[parts[0]].Obj? && Free(obj[parts[0]].fields, parts[1..]))
  }

  function SetPath<V>(obj: map<string, Node<V>>, parts: Path, value: V): map<string, Node<V>>
    decreases |parts|
  {
    if parts == [] then obj
    else if |parts| == 1 then obj[parts[0] := Val(value)]
    else
      var node := if parts[0] in obj then obj[parts[0]] else Obj(map[]);
      match node
      case Val(_) => obj
      case Obj(fields) => obj[parts[0] := Obj(SetPath(fields, parts[1..], value))]
  }

  /** Setting a free path adds exactly that leaf. */
  lemma {:induction false} SetPathAdds<V>(obj: map<string, Node<V>>, parts: Path, value: V, path: Path)
    requires Free(obj, parts)
    ensures LeafAt(Obj(SetPath(obj, parts, value)), path) ==
            if path == parts then Some(value) else LeafAt(Obj(obj), path)
    decreases |parts|
  {
    if path != [] && path[0] == parts[0] {
      assert path == [path[0]] + path[1..] && parts == [parts[0]] + parts[1..];
      if |parts| > 1 {
        var fields: map<string, Node<V>> := if parts[0] in obj then obj[parts[0]].fields else map[];
        SetPathAdds(fields, parts[1..], value, path[1..]);
      }
    }
  }

  lemma {:induction false} SetPathKeepsFull<V>(obj: map<string, Node<V>>, parts: Path, value: V)
    requires Free(obj, parts) && FullBelow(obj)
    ensures FullBelow(SetPath(obj, parts, value)) && SetPath(obj, parts, value) != map[]
    decreases |parts|
  {
    var after := SetPath(obj, parts, value);
    assert parts[0] in after;
    if |parts| > 1 {
      var fields: map<string, Node<V>> := if parts[0] in obj then obj[parts[0]].fields else map[];
      SetPathKeepsFull(fields, parts[1..], value);
    }
  }

  predicate Comparable(p: Path, q: Path) {
    p <= q || q <= p
  }

  /** A path is free exactly when no leaf lies on it, before it or below it. */
  lemma {:induction false} FreeWhenIncomparable<V>(obj: map<string, Node<V>>, parts: Path)
    requires FullBelow(obj) && parts != []
    ensures Free(obj, parts) <==> forall path | LeafAt(Obj(obj), path).Some? :: !Comparable(path, parts)
    decreases |parts|
  {
    var k := parts[0];
    assert parts == [k] + parts[1..];
    if k !in obj {
      forall path | LeafAt(Obj(obj), path).Some?
        ensures !Comparable(path, parts)
      {
        assert path[0] in obj;
      }
    } else if |parts| == 1 || obj[k].Val? {
      var rest := SomeLeaf(obj[k]);
      assert ([k] + rest)[1..] == rest;
      assert LeafAt(Obj(obj), [k] + rest).Some?;
      if |parts| == 1 {
        assert parts <= [k] + rest;
      } else {
        assert rest == [] && [k] <= parts;
      }
      assert Comparable([k] + rest, parts);
    } else {
      var fields := obj[k].fields;
      FreeWhenIncomparable(fields, parts[1..]);
      forall path
        ensures LeafAt(Obj(obj), [k] + path) == LeafAt(Obj(fields), path)
        ensures Comparable([k] + path, parts) <==> Comparable(path, parts[1..])
      {
        assert ([k] + path)[1..] == path;
        ComparableCons(k, path, parts[1..]);
      }
      forall path | LeafAt(Obj(obj), path).Some?
        ensures path[0] != k ==> !Comparable(path, parts)
        ensures path[0] == k ==> path == [k] + path[1..]
      {
      }
    }
  }

  lemma PrefixCons(k: string, p: Path, q: Path)
    ensures [k] + p <= [k] + q <==> p <= q
  {
    if [k] + p <= [k] + q {
      assert p == ([k] + p)[1..] && q[..|p|] == ([k] + q)[1..][..|p|];
    }
  }

  lemma ComparableCons(k: string, p: Path, q: Path)
    ensures Comparable([k] + p, [k] + q) <==> Comparable(p, q)
  {
    PrefixCons(k, p, q);
    PrefixCons(k, q, p);
  }

  // ---- building a tree from dotted paths ----

  type Flat<V> = map<string, V>

  /** No path of the flat record leads through another one. */
  ghost predicate PrefixFree<V>(flat: Flat<V>) {
    forall a, b | a in flat && b in flat && Comparable(Split(a, DOT), Split(b, DOT)) :: a == b
  }

  /** The paths of the record in some order, each once. */
  ghost predicate Enumerates(order: seq<string>, keys: set<string>) {
    && (forall k :: k in order <==> k in keys)
    && (forall i, j | 0 <= i < j < |order| :: order[i] != order[j])
  }

  /** `setPath` on an empty object, path after path. */
  function BuildFrom<V>(flat: Flat<V>, order: seq<string>): map<string, Node<V>>
    requires forall k | k in order :: k in flat
  {
    if order == [] then map[]
    else
      var last := order[|order| - 1];
      SetPath(BuildFrom(flat, order[..|order| - 1]), Split(last, DOT), flat[last])
  }

  predicate IsName(path: Path) {
    path != [] && forall p | p in path :: DOT !in p
  }

  /** The leaf a flat record asks for at a path. */
  function FlatLeaf<V>(flat: Flat<V>, path: Path): Option<V> {
    if IsName(path) && Join(path, DOT) in flat then Some(flat[Join(path, DOT)]) else None
  }

  /** The leaf asked for by the paths listed in `order`. */
  function Wanted<V>(flat: Flat<V>, order: seq<string>, path: Path): Option<V>
    requires forall k | k in order :: k in flat
  {
    if IsName(path) && Join(path, DOT) in order then Some(flat[Join(path, DOT)]) else None
  }

  lemma JoinNames(path: Path, k: string)
    requires IsName(path)
    ensures Join(path, DOT) == k <==> path == Split(k, DOT)
  {
    SplitOfJoin(path, DOT);
    JoinOfSplit(k, DOT);
  }

  /** Building from a prefix-free record, in whatever order, sets each path while it is free,
      so no leaf and no group is ever overwritten, and yields exactly the wanted leaves. */
  lemma {:induction false} BuildHasWantedLeaves<V>(flat: Flat<V>, order: seq<string>)
    requires forall k | k in order :: k in flat
    requires forall i, j | 0 <= i < j < |order| :: order[i] != order[j]
    requires PrefixFree(flat)
    ensures FullBelow(BuildFrom(flat, order))
    ensures forall path :: LeafAt(Obj(BuildFrom(flat, order)), path) == Wanted(flat, order, path)
    ensures order != [] ==>
      Free(BuildFrom(flat, order[..|order| - 1]), Split(order[|order| - 1], DOT))
    decreases |order|
  {
    if order == [] {
    } else {
      var init, last := order[..|order| - 1], order[|order| - 1];
      var before, parts := BuildFrom(flat, init), Split(last, DOT);
      assert order == init + [last];
      BuildHasWantedLeaves(flat, init);
      forall path | LeafAt(Obj(before), path).Some?
        ensures !Comparable(path, parts)
      {
        var k := Join(path, DOT);
        assert Wanted(flat, init, path).Some?;
        JoinNames(path, k);
      }
      FreeWhenIncomparable(before, parts);
      SetPathKeepsFull(before, parts, flat[last]);
      forall path
        ensures LeafAt(Obj(BuildFrom(flat, order)), path) == Wanted(flat, order, path)
      {
        SetPathAdds(before, parts, flat[last], path);
        if IsName(path) {
          JoinNames(path, last);
        }
      }
    }
  }

  /** Every order of the paths builds the same tree. */
  lemma BuildOrderIrrelevant<V>(flat: Flat<V>, order: seq<string>, other: seq<string>)
    requires Enumerates(order, flat.Keys) && Enumerates(other, flat.Keys) && PrefixFree(flat)
    ensures BuildFrom(flat, order) == BuildFrom(flat, other)
  {
    BuildHasWantedLeaves(flat, order);
    BuildHasWantedLeaves(flat, other);
    forall path
      ensures Wanted(flat, order, path) == Wanted(flat, other, path)
    {
    }
    SameLeavesSameObject(BuildFrom(flat, order), BuildFrom(flat, other));
  }

  /** `nestService`: the flat record itself when no path is dotted, else path after path. */
  method NestService<V>(flat: Flat<V>) returns (service: map<string, Node<V>>)
    requires PrefixFree(flat)
    ensures forall order | Enumerates(order, flat.Keys) :: service == BuildFrom(flat, order)
    ensures forall path :: LeafAt(Obj(service), path) == FlatLeaf(flat, path)
    ensures FullBelow(service)
  {
    ghost var order := [];
    service := map[];
    if forall k | k in flat :: DOT !in k {
      service := map k | k in flat :: Val(flat[k]);
      order := SomeOrder(flat.Keys);
      assert forall k | k in order :: k in flat;
      BuildFlat(flat, order);
      assert service == BuildFrom(flat, order);
    } else {
      var todo := flat.Keys;
      while todo != {}
        invariant todo <= flat.Keys && Enumerates(order, flat.Keys - todo)
        invariant service == BuildFrom(flat, order)
        decreases todo
      {
        var path :| path in todo;
        todo := todo - {path};
        var longer := order + [path];
        assert longer[..|longer| - 1] == order;
        service := SetPath(service, Split(path, DOT), flat[path]);
        order := longer;
      }
    }
    forall other | Enumerates(other, flat.Keys)
      ensures service == BuildFrom(flat, other)
    {
      BuildOrderIrrelevant(flat, order, other);
    }
    BuildHasWantedLeaves(flat, order);
  }

  lemma SomeOrder(keys: set<string>) returns (order: seq<string>)
    ensures Enumerates(order, keys)
    decreases |keys|
  {
    if keys == {} {
      order := [];
    } else {
      var k :| k in keys;
      var rest := SomeOrder(keys - {k});
      order := rest + [k];
    }
  }

  lemma {:induction false} BuildFlat<V>(flat: Flat<V>, order: seq<string>)
    requires forall k | k in order :: k in flat && DOT !in k
    ensures BuildFrom(flat, order) == map k | k in order :: Val(flat[k])
    decreases |order|
  {
    if order != [] {
      var init, last := order[..|order| - 1], order[|order| - 1];
      assert order == init + [last];
      BuildFlat(flat, init);
      SplitWord(last, DOT);
    }
  }

  // ---- contracts ----

  datatype Spec<M> = Leaf(member: M) | Group(entries: seq<Entry<M>>)

  datatype Entry<M> = Entry(key: string, spec: Spec<M>)

  /** Property names of a group are distinct and free of dots. */
  ghost predicate WellNamed<M>(spec: Spec<M>) {
    match spec
    case Leaf(_) => true
    case Group(entries) =>
      && (forall e | e in entries :: DOT !in e.key && WellNamed(e.spec))
      && (forall i, j | 0 <= i < j < |entries| :: entries[i].key != entries[j].key)
  }

  function Lookup<M>(entries: seq<Entry<M>>, key: string): (found: Option<Spec<M>>)
    ensures found.Some? ==> Entry(key, found.value) in entries
    ensures found.None? ==> forall e | e in entries :: e.key != key
  {
    if entries == [] then None
    else
      assert entries == entries[..|entries| - 1] + [entries[|entries| - 1]];
      if entries[|entries| - 1].key == key then Some(entries[|entries| - 1].spec)
      else Lookup(entries[..|entries| - 1], key)
  }

  function MethodAt<M>(spec: Spec<M>, path: Path): Option<M> {
    match spec
    case Leaf(m) => if path == [] then Some(m) else None
    case Group(entries) =>
      if path == [] then None
      else
        match Lookup(entries, path[0])
        case None => None
        case Some(child) => MethodAt(child, path[1..])
  }

  /** `flattenSpec`: later properties win, as in `Object.assign`. */
  function FlattenEntries<M>(entries: seq<Entry<M>>, prefix: string): Flat<M> {
    if entries == [] then map[]
    else
      var last := entries[|entries| - 1];
      FlattenEntries(entries[..|entries| - 1], prefix) +
      match last.spec
      case Leaf(m) => map[prefix + last.key := m]
      case Group(children) => FlattenEntries(children, prefix + last.key + [DOT])
  }

  function FlattenSpec<M>(entries: seq<Entry<M>>): Flat<M> {
    FlattenEntries(entries, "")
  }

  function GetFlat<V>(flat: Flat<V>, key: string): Option<V> {
    if key in flat then Some(flat[key]) else None
  }

  lemma {:induction false} FlattenedKeysUnderPrefix<M>(entries: seq<Entry<M>>, prefix: string)
    ensures forall k | k in FlattenEntries(entries, prefix) :: prefix <= k
    decreases entries
  {
    if entries != [] {
      var init, last := entries[..|entries| - 1], entries[|entries| - 1];
      assert last in entries;
      FlattenedKeysUnderPrefix(init, prefix);
      if last.spec.Group? {
        var longer := prefix + last.key + [DOT];
        FlattenedKeysUnderPrefix(last.spec.entries, longer);
        forall k | k in FlattenEntries(last.spec.entries, longer)
          ensures prefix <= k
        {
          assert longer <= k;
        }
      }
    }
  }

  lemma {:induction false} FlattenedUnderPrefix<M>(entries: seq<Entry<M>>, prefix: string)
    requires WellNamed(Group(entries))
    ensures forall s :: GetFlat(FlattenEntries(entries, prefix), prefix + s) == MethodAt(Group(entries), Split(s, DOT))
    decreases entries
  {
    if entries != [] {
      var init, last := entries[..|entries| - 1], entries[|entries| - 1];
      assert entries == init + [last];
      assert last in entries;
      FlattenedUnderPrefix(init, prefix);
      NoEntryBefore(entries);
      match last.spec {
        case Leaf(m) =>
          forall s
            ensures GetFlat(FlattenEntries(entries, prefix), prefix + s) == MethodAt(Group(entries), Split(s, DOT))
          {
            FlattenedLeaf(entries, prefix, s);
          }
        case Group(children) =>
          FlattenedUnderPrefix(children, prefix + last.key + [DOT]);
          FlattenedKeysUnderPrefix(children, prefix + last.key + [DOT]);
          forall s
            ensures GetFlat(FlattenEntries(entries, prefix), prefix + s) == MethodAt(Group(entries), Split(s, DOT))
          {
            FlattenedGroup(entries, prefix, s);
          }
      }
    }
  }

  lemma FlattenedLeaf<M>(entries: seq<Entry<M>>, prefix: string, s: string)
    requires entries != [] && entries[|entries| - 1].spec.Leaf? && DOT !in entries[|entries| - 1].key
    requires Lookup(entries[..|entries| - 1], entries[|entries| - 1].key).None?
    requires GetFlat(FlattenEntries(entries[..|entries| - 1], prefix), prefix + s) ==
             MethodAt(Group(entries[..|entries| - 1]), Split(s, DOT))
    ensures GetFlat(FlattenEntries(entries, prefix), prefix + s) == MethodAt(Group(entries), Split(s, DOT))
  {
    var init, last, parts := entries[..|entries| - 1], entries[|entries| - 1], Split(s, DOT);
    AddedLeaf(entries, prefix, prefix + s);
    SamePrefix(prefix, s, last.key);
    LookupLast(entries, parts);
    OnePart(s, last.key);
  }

  lemma OnePart(s: string, name: string)
    requires DOT !in name
    ensures s == name ==> Split(s, DOT)[0] == name && Split(s, DOT)[1..] == []
    ensures Split(s, DOT)[0] == name && Split(s, DOT)[1..] == [] ==> s == name
  {
    SplitWord(name, DOT);
    var parts := Split(s, DOT);
    if parts[0] == name && parts[1..] == [] {
      assert parts == [name];
      SplitInjective(s, name, DOT);
    }
  }

  lemma AddedLeaf<M>(entries: seq<Entry<M>>, prefix: string, k: string)
    requires entries != [] && entries[|entries| - 1].spec.Leaf?
    ensures var init, last := entries[..|entries| - 1], entries[|entries| - 1];
      GetFlat(FlattenEntries(entries, prefix), k) ==
      if k == prefix + last.key then Some(last.spec.member) else GetFlat(FlattenEntries(init, prefix), k)
  {
  }

  lemma LookupLast<M>(entries: seq<Entry<M>>, parts: Path)
    requires entries != [] && parts != []
    requires Lookup(entries[..|entries| - 1], entries[|entries| - 1].key).None?
    ensures var init, last := entries[..|entries| - 1], entries[|entries| - 1];
      && (parts[0] == last.key ==>
            MethodAt(Group(entries), parts) == MethodAt(last.spec, parts[1..]) &&
            MethodAt(Group(init), parts).None?)
      && (parts[0] != last.key ==> MethodAt(Group(entries), parts) == MethodAt(Group(init), parts))
  {
    assert Lookup(entries, parts[0]) ==
           if parts[0] == entries[|entries| - 1].key then Some(entries[|entries| - 1].spec)
           else Lookup(entries[..|entries| - 1], parts[0]);
  }

  lemma SamePrefix(prefix: string, s: string, t: string)
    ensures prefix + s == prefix + t <==> s == t
  {
    assert (prefix + s)[|prefix|..] == s && (prefix + t)[|prefix|..] == t;
  }

  lemma FlattenedGroup<M>(entries: seq<Entry<M>>, prefix: string, s: string)
    requires entries != [] && entries[|entries| - 1].spec.Group? && DOT !in entries[|entries| - 1].key
    requires Lookup(entries[..|entries| - 1], entries[|entries| - 1].key).None?
    requires GetFlat(FlattenEntries(entries[..|entries| - 1], prefix), prefix + s) ==
             MethodAt(Group(entries[..|entries| - 1]), Split(s, DOT))
    requires var last := entries[|entries| - 1]; var longer := prefix + last.key + [DOT];
      && (forall k | k in FlattenEntries(last.spec.entries, longer) :: longer <= k)
      && (forall r :: GetFlat(FlattenEntries(last.spec.entries, longer), longer + r) ==
                      MethodAt(last.spec, Split(r, DOT)))
    ensures GetFlat(FlattenEntries(entries, prefix), prefix + s) == MethodAt(Group(entries), Split(s, DOT))
  {
    var last, parts := entries[|entries| - 1], Split(s, DOT);
    GroupKey(prefix, last.key, s);
    LookupLast(entries, parts);
    if parts[0] == last.key && |parts| > 1 {
      SplitOfJoin(parts[1..], DOT);
    }
  }

  /** A key lies under a group's prefix exactly when its first part is the group's name. */
  lemma GroupKey(prefix: string, name: string, s: string)
    requires DOT !in name
    ensures var parts, longer := Split(s, DOT), prefix + name + [DOT];
      && (longer <= prefix + s <==> |parts| > 1 && parts[0] == name)
      && (|parts| > 1 && parts[0] == name ==> prefix + s == longer + Join(parts[1..], DOT))
  {
    var parts, longer := Split(s, DOT), prefix + name + [DOT];
    if |parts| > 1 && parts[0] == name {
      JoinOfSplit(s, DOT);
      assert s == name + [DOT] + Join(parts[1..], DOT);
      assert prefix + s == longer + Join(parts[1..], DOT);
    }
    if longer <= prefix + s {
      var r := (prefix + s)[|longer|..];
      assert prefix + s == longer + r == prefix + (name + [DOT] + r);
      SamePrefix(prefix, s, name + [DOT] + r);
      SplitCons(name, r, DOT);
    }
  }

  lemma NoEntryBefore<M>(entries: seq<Entry<M>>)
    requires WellNamed(Group(entries)) && entries != []
    ensures Lookup(entries[..|entries| - 1], entries[|entries| - 1].key).None?
    ensures DOT !in entries[|entries| - 1].key
  {
    var init, last := entries[..|entries| - 1], entries[|entries| - 1];
    assert last in entries;
    assert forall i | 0 <= i < |init| :: init[i].key != last.key;
  }

  /** A dotted key names a member of the flat contract exactly when splitting it leads to a
      leaf of the nested one, and then it names that leaf. */
  lemma FlattenedSpecIsExact<M>(entries: seq<Entry<M>>, key: string)
    requires WellNamed(Group(entries))
    ensures GetFlat(FlattenSpec(entries), key) == MethodAt(Group(entries), Split(key, DOT))
  {
    FlattenedUnderPrefix(entries, "");
    assert "" + key == key;
  }

  /** No leaf of a contract lies on the way to another one. */
  lemma {:induction false} LeafPathsPrefixFree<M>(spec: Spec<M>, p: Path, q: Path)
    requires MethodAt(spec, p).Some? && MethodAt(spec, q).Some? && p <= q
    ensures p == q
  {
    match spec
    case Leaf(_) =>
    case Group(entries) =>
      assert p[0] == q[0];
      LeafPathsPrefixFree(Lookup(entries, p[0]).value, p[1..], q[1..]);
  }

  lemma FlattenedIsPrefixFree<M>(entries: seq<Entry<M>>)
    requires WellNamed(Group(entries))
    ensures PrefixFree(FlattenSpec(entries))
  {
    var flat := FlattenSpec(entries);
    forall a, b | a in flat && b in flat && Comparable(Split(a, DOT), Split(b, DOT))
      ensures a == b
    {
      FlattenedSpecIsExact(entries, a);
      FlattenedSpecIsExact(entries, b);
      if Split(a, DOT) <= Split(b, DOT) {
        LeafPathsPrefixFree(Group(entries), Split(a, DOT), Split(b, DOT));
      } else {
        LeafPathsPrefixFree(Group(entries), Split(b, DOT), Split(a, DOT));
      }
      SplitInjective(a, b, DOT);
    }
  }

  // ---- implementations ----

  /** The implementation has the contract's shape, member for member. */
  ghost predicate Conforms<M, V>(impl: Node<V>, spec: Spec<M>)
    decreases spec
  {
    match spec
    case Leaf(_) => impl.Val?
    case Group(entries) =>
      && impl.Obj?
      && impl.fields.Keys == (set e | e in entries :: e.key)
      && forall e | e in entries :: e.key in impl.fields && Conforms(impl.fields[e.key], e.spec)
  }

  lemma ConformingLeaves<M, V>(impl: Node<V>, spec: Spec<M>, path: Path)
    requires Conforms(impl, spec)
    ensures LeafAt(impl, path).Some? <==> MethodAt(spec, path).Some?
    decreases spec
  {
    match spec
    case Leaf(_) =>
    case Group(entries) =>
      if path != [] && path[0] in impl.fields {
        var e :| e in entries && e.key == path[0];
        var child := Lookup(entries, path[0]).value;
        assert Entry(path[0], child) in entries;
        ConformingLeaves(impl.fields[path[0]], child, path[1..]);
      }
  }

  /** Every nested group, at any depth, holds something. */
  ghost predicate Populated<M>(spec: Spec<M>) {
    spec.Group? ==> spec.entries != [] && forall e | e in spec.entries :: Populated(e.spec)
  }

  /** A conforming implementation has an empty group exactly where its contract has one. */
  lemma ConformingFullIff<M, V>(impl: Node<V>, spec: Spec<M>)
    requires Conforms(impl, spec)
    ensures Full(impl) <==> Populated(spec)
    decreases spec
  {
    match spec
    case Leaf(_) =>
    case Group(entries) =>
      forall e | e in entries
        ensures Full(impl.fields[e.key]) <==> Populated(e.spec)
      {
        ConformingFullIff(impl.fields[e.key], e.spec);
      }
      if entries != [] {
        assert entries[0] in entries && entries[0].key in impl.fields;
      }
      forall k | k in impl.fields
        ensures exists e :: e in entries && e.key == k
      {
        assert k in (set e | e in entries :: e.key);
      }
  }

  lemma ConformingFieldsFullIff<M, V>(impl: map<string, Node<V>>, entries: seq<Entry<M>>)
    requires Conforms(Obj(impl), Group(entries))
    ensures FullBelow(impl) <==> forall e | e in entries :: Populated(e.spec)
  {
    forall e | e in entries
      ensures Full(impl[e.key]) <==> Populated(e.spec)
    {
      ConformingFullIff(impl[e.key], e.spec);
    }
    forall k | k in impl
      ensures exists e :: e in entries && e.key == k
    {
      assert k in (set e | e in entries :: e.key);
    }
  }

  /** The walk of `flattenImpl` along one path; a step from `undefined` throws. */
  datatype Walked<V> = Reached(node: Node<V>) | Missing | Threw

  function Walk<V>(n: Node<V>, parts: Path): Walked<V> {
    if parts == [] then Reached(n)
    else if n.Obj? && parts[0] in n.fields then Walk(n.fields[parts[0]], parts[1..])
    else if |parts| == 1 then Missing
    else Threw
  }

  lemma {:induction false} WalkReachesLeaf<V>(n: Node<V>, parts: Path)
    requires LeafAt(n, parts).Some?
    ensures Walk(n, parts) == Reached(Val(LeafAt(n, parts).value))
    decreases |parts|
  {
    if parts != [] {
      WalkReachesLeaf(n.fields[parts[0]], parts[1..]);
    }
  }

  /** `flattenImpl`: the walk of every path of the flat contract. It throws exactly when one
      of the walks does. */
  method FlattenImpl<V>(impl: Node<V>, paths: set<string>) returns (r: Result<map<string, Option<Node<V>>>, string>)
    ensures r.Err? ==> r.error in paths && Walk(impl, Split(r.error, DOT)).Threw?
    ensures r.Ok? ==> r.value.Keys == paths
    ensures r.Ok? ==> forall k | k in paths ::
      match Walk(impl, Split(k, DOT))
      case Reached(node) => r.value[k] == Some(node)
      case Missing => r.value[k] == None
      case Threw => false
  {
    var todo := paths;
    var flat: map<string, Option<Node<V>>> := map[];
    while todo != {}
      invariant todo <= paths && flat.Keys == paths - todo
      invariant forall k | k in flat ::
        match Walk(impl, Split(k, DOT))
        case Reached(node) => flat[k] == Some(node)
        case Missing => flat[k] == None
        case Threw => false
      decreases todo
    {
      var path :| path in todo;
      match Walk(impl, Split(path, DOT)) {
        case Reached(node) => flat := flat[path := Some(node)];
        case Missing => flat := flat[path := None];
        case Threw => return Err(path);
      }
      todo := todo - {path};
    }
    return Ok(flat);
  }

  /** The flat record of a conforming implementation: each path of the contract with the
      member that stands there. */
  function FlatMembers<M, V>(impl: Node<V>, entries: seq<Entry<M>>): Flat<V> {
    map k | k in FlattenSpec(entries) && LeafAt(impl, Split(k, DOT)).Some? :: LeafAt(impl, Split(k, DOT)).value
  }

  lemma FlatMembersComplete<M, V>(impl: Node<V>, entries: seq<Entry<M>>)
    requires WellNamed(Group(entries)) && Conforms(impl, Group(entries))
    ensures FlatMembers(impl, entries).Keys == FlattenSpec(entries).Keys
    ensures forall k | k in FlatMembers(impl, entries) ::
      LeafAt(impl, Split(k, DOT)) == Some(FlatMembers(impl, entries)[k])
  {
    forall k | k in FlattenSpec(entries)
      ensures LeafAt(impl, Split(k, DOT)).Some?
    {
      FlattenedSpecIsExact(entries, k);
      ConformingLeaves(impl, Group(entries), Split(k, DOT));
    }
  }

  /** Flattening a conforming implementation never throws and finds every member. */
  lemma ConformingFlattens<M, V>(impl: Node<V>, entries: seq<Entry<M>>, k: string)
    requires WellNamed(Group(entries)) && Conforms(impl, Group(entries))
    requires k in FlattenSpec(entries)
    ensures k in FlatMembers(impl, entries)
    ensures Walk(impl, Split(k, DOT)) == Reached(Val(FlatMembers(impl, entries)[k]))
  {
    FlatMembersComplete(impl, entries);
    assert LeafAt(impl, Split(k, DOT)) == Some(FlatMembers(impl, entries)[k]);
    WalkReachesLeaf(impl, Split(k, DOT));
  }

  /** `flattenImpl` of an implementation with every member. */
  method FlattenWhole<M, V>(impl: map<string, Node<V>>, entries: seq<Entry<M>>) returns (flat: Flat<V>)
    requires WellNamed(Group(entries)) && Conforms(Obj(impl), Group(entries))
    ensures flat == FlatMembers(Obj(impl), entries)
  {
    var paths := FlattenSpec(entries).Keys;
    FlatMembersComplete(Obj(impl), entries);
    forall k | k in paths
      ensures Walk(Obj(impl), Split(k, DOT)) == Reached(Val(FlatMembers(Obj(impl), entries)[k]))
    {
      ConformingFlattens(Obj(impl), entries, k);
    }
    var r := FlattenImpl(Obj(impl), paths);
    flat := map k | k in r.value :: r.value[k].value.value;
    assert flat == FlatMembers(Obj(impl), entries);
  }

  /** Flattening an implementation and nesting the result gives back every member at its path,
      and the implementation itself if and only if the contract has no empty nested group. */
  method NestAfterFlatten<M, V>(impl: map<string, Node<V>>, entries: seq<Entry<M>>)
    returns (service: map<string, Node<V>>)
    requires WellNamed(Group(entries)) && Conforms(Obj(impl), Group(entries))
    ensures forall path :: LeafAt(Obj(service), path) == LeafAt(Obj(impl), path)
    ensures service == impl <==> forall e | e in entries :: Populated(e.spec)
  {
    var flat := FlattenWhole(impl, entries);
    FlatMembersComplete(Obj(impl), entries);
    FlattenedIsPrefixFree(entries);
    assert PrefixFree(flat);
    service := NestService(flat);
    NestedIsImpl(impl, entries, flat, service);
  }

  /** The nested record of a conforming implementation's members has its leaves, and is the
      implementation if and only if no group of that is empty. */
  lemma NestedIsImpl<M, V>(impl: map<string, Node<V>>, entries: seq<Entry<M>>, flat: Flat<V>,
                           service: map<string, Node<V>>)
    requires WellNamed(Group(entries)) && Conforms(Obj(impl), Group(entries))
    requires flat == FlatMembers(Obj(impl), entries)
    requires FullBelow(service) && forall path :: LeafAt(Obj(service), path) == FlatLeaf(flat, path)
    ensures forall path :: LeafAt(Obj(service), path) == LeafAt(Obj(impl), path)
    ensures service == impl <==> forall e | e in entries :: Populated(e.spec)
  {
    FlatMembersComplete(Obj(impl), entries);
    forall path
      ensures LeafAt(Obj(service), path) == LeafAt(Obj(impl), path)
    {
      NestedLeaf(impl, entries, flat, path);
    }
    ConformingFieldsFullIff(impl, entries);
    if FullBelow(impl) {
      SameLeavesSameObject(service, impl);
    }
  }

  lemma {:induction false} MethodPathsAreNames<M>(spec: Spec<M>, path: Path)
    requires WellNamed(spec) && MethodAt(spec, path).Some?
    ensures forall p | p in path :: DOT !in p
    decreases |path|
  {
    if path != [] {
      var child := Lookup(spec.entries, path[0]).value;
      assert Entry(path[0], child) in spec.entries;
      MethodPathsAreNames(child, path[1..]);
      assert path == [path[0]] + path[1..];
    }
  }

  lemma NestedLeaf<M, V>(impl: map<string, Node<V>>, entries: seq<Entry<M>>, flat: Flat<V>, path: Path)
    requires WellNamed(Group(entries)) && Conforms(Obj(impl), Group(entries))
    requires flat.Keys == FlattenSpec(entries).Keys
    requires forall k | k in flat :: LeafAt(Obj(impl), Split(k, DOT)) == Some(flat[k])
    ensures LeafAt(Obj(impl), path) == FlatLeaf(flat, path)
  {
    ConformingLeaves(Obj(impl), Group(entries), path);
    if MethodAt(Group(entries), path).Some? {
      MethodPathsAreNames(Group(entries), path);
    }
    if IsName(path) {
      SplitOfJoin(path, DOT);
      FlattenedSpecIsExact(entries, Join(path, DOT));
    }
  }
}
