/** The stable sort of `Array.prototype.sort`, specified by its two properties alone: the
    result is sorted, and elements that compare equal keep their order. */
module StableSort {
  ghost predicate TotalPreorder<T(!new)>(cmp: (T, T) -> int) {
    && (forall a, b :: cmp(a, b) < 0 <==> cmp(b, a) > 0)
    && (forall a, b, c :: cmp(a, b) <= 0 && cmp(b, c) <= 0 ==> cmp(a, c) <= 0)
  }

  ghost predicate Sorted<T>(cmp: (T, T) -> int, s: seq<T>) {
    forall i, j | 0 <= i < j < |s| :: cmp(s[i], s[j]) <= 0
  }

  /** The elements that compare equal to `x`, in order. */
  function Class<T>(cmp: (T, T) -> int, s: seq<T>, x: T): seq<T> {
    if s == [] then []
    else (if cmp(x, s[0]) == 0 then [s[0]] else []) + Class(cmp, s[1..], x)
  }

  ghost predicate SameClasses<T(!new)>(cmp: (T, T) -> int, r: seq<T>, s: seq<T>) {
    forall x :: Class(cmp, r, x) == Class(cmp, s, x)
  }

  /** What a stable sort promises of its result `r` on the input `s`. */
  ghost predicate IsStableSort<T(!new)>(cmp: (T, T) -> int, r: seq<T>, s: seq<T>) {
    Sorted(cmp, r) && SameClasses(cmp, r, s)
  }

  function Insert<T>(cmp: (T, T) -> int, x: T, s: seq<T>): seq<T> {
    if s == [] || cmp(x, s[0]) <= 0 then [x] + s else [s[0]] + Insert(cmp, x, s[1..])
  }

  function Sort<T>(cmp: (T, T) -> int, s: seq<T>): seq<T> {
    if s == [] then [] else Insert(cmp, s[0], Sort(cmp, s[1..]))
  }

  lemma {:induction false} InsertMembers<T>(cmp: (T, T) -> int, x: T, s: seq<T>)
    ensures multiset(Insert(cmp, x, s)) == multiset(s) + multiset{x}
  {
    if s != [] && cmp(x, s[0]) > 0 {
      InsertMembers(cmp, x, s[1..]);
      assert s == [s[0]] + s[1..];
    }
  }

  lemma {:induction false} InsertSorted<T(!new)>(cmp: (T, T) -> int, x: T, s: seq<T>)
    requires TotalPreorder(cmp) && Sorted(cmp, s)
    ensures Sorted(cmp, Insert(cmp, x, s))
  {
    if s == [] {
    } else if cmp(x, s[0]) <= 0 {
      forall j | 0 <= j < |s|
        ensures cmp(x, s[j]) <= 0
      {
        assert j > 0 ==> cmp(s[0], s[j]) <= 0;
      }
    } else {
      InsertSorted(cmp, x, s[1..]);
      InsertMembers(cmp, x, s[1..]);
      var r := Insert(cmp, x, s[1..]);
      forall j | 0 <= j < |r|
        ensures cmp(s[0], r[j]) <= 0
      {
        assert r[j] in multiset(r);
        if r[j] != x {
          assert r[j] in s[1..];
        }
      }
    }
  }

  lemma {:induction false} InsertClass<T(!new)>(cmp: (T, T) -> int, x: T, s: seq<T>, z: T)
    requires TotalPreorder(cmp)
    ensures Class(cmp, Insert(cmp, x, s), z) == Class(cmp, [x] + s, z)
  {
    if s == [] || cmp(x, s[0]) <= 0 {
    } else {
      InsertClass(cmp, x, s[1..], z);
      var r := Insert(cmp, x, s[1..]);
      assert ([s[0]] + r)[1..] == r;
      assert ([x] + s)[1..] == s;
      assert ([x] + s[1..])[1..] == s[1..];
    }
  }

  /** The model's sort is a stable sort and a permutation of its input. */
  lemma {:induction false} SortIsStable<T(!new)>(cmp: (T, T) -> int, s: seq<T>)
    requires TotalPreorder(cmp)
    ensures IsStableSort(cmp, Sort(cmp, s), s)
    ensures multiset(Sort(cmp, s)) == multiset(s)
  {
    if s != [] {
      var t := Sort(cmp, s[1..]);
      SortIsStable(cmp, s[1..]);
      InsertSorted(cmp, s[0], t);
      InsertMembers(cmp, s[0], t);
      assert s == [s[0]] + s[1..];
      forall z
        ensures Class(cmp, Sort(cmp, s), z) == Class(cmp, s, z)
      {
        InsertClass(cmp, s[0], t, z);
        assert ([s[0]] + t)[1..] == t;
      }
    }
  }

  lemma {:induction false} ClassMembers<T>(cmp: (T, T) -> int, s: seq<T>, x: T)
    ensures forall y | y in Class(cmp, s, x) :: y in s && cmp(x, y) == 0
    ensures forall y | y in s && cmp(x, y) == 0 :: y in Class(cmp, s, x)
  {
    if s != [] {
      ClassMembers(cmp, s[1..], x);
      assert s == [s[0]] + s[1..];
    }
  }

  lemma HeadIsLeast<T(!new)>(cmp: (T, T) -> int, r: seq<T>, s: seq<T>)
    requires TotalPreorder(cmp) && Sorted(cmp, r) && r != [] && s != []
    requires SameClasses(cmp, r, s)
    ensures cmp(r[0], s[0]) <= 0
  {
    ClassMembers(cmp, s, s[0]);
    ClassMembers(cmp, r, s[0]);
    Reflexive(cmp, s[0]);
    assert s[0] in Class(cmp, r, s[0]);
    var i :| 0 <= i < |r| && r[i] == s[0];
    if i == 0 { Reflexive(cmp, r[0]); }
  }

  lemma Reflexive<T(!new)>(cmp: (T, T) -> int, x: T)
    requires TotalPreorder(cmp)
    ensures cmp(x, x) == 0
  {
  }

  /** A stable sort is unique: whatever algorithm the engine uses, it returns this result. */
  lemma {:induction false} StableSortUnique<T(!new)>(cmp: (T, T) -> int, r: seq<T>, s: seq<T>)
    requires TotalPreorder(cmp) && Sorted(cmp, r) && Sorted(cmp, s) && SameClasses(cmp, r, s)
    ensures r == s
    decreases |r|
  {
    if r == [] || s == [] {
      if r != [] {
        Reflexive(cmp, r[0]);
        ClassMembers(cmp, r, r[0]);
      } else if s != [] {
        Reflexive(cmp, s[0]);
        ClassMembers(cmp, s, s[0]);
      }
    } else {
      HeadIsLeast(cmp, r, s);
      HeadIsLeast(cmp, s, r);
      var x := r[0];
      Reflexive(cmp, x);
      assert Class(cmp, r, x)[0] == x && Class(cmp, s, x)[0] == s[0];
      forall z
        ensures Class(cmp, r[1..], z) == Class(cmp, s[1..], z)
      {
        var head := if cmp(z, x) == 0 then [x] else [];
        assert Class(cmp, r, z) == head + Class(cmp, r[1..], z);
        assert Class(cmp, s, z) == head + Class(cmp, s[1..], z);
        assert Class(cmp, r, z)[|head|..] == Class(cmp, r[1..], z);
        assert Class(cmp, s, z)[|head|..] == Class(cmp, s[1..], z);
      }
      StableSortUnique(cmp, r[1..], s[1..]);
    }
  }

  // ---- sorting by several keys ----

  /** First by `c1`, ties by `c2`. */
  function Then<T>(c1: (T, T) -> int, c2: (T, T) -> int): (T, T) -> int {
    (a, b) => if c1(a, b) != 0 then c1(a, b) else c2(a, b)
  }

  lemma ThenIsPreorder<T(!new)>(c1: (T, T) -> int, c2: (T, T) -> int)
    requires TotalPreorder(c1) && TotalPreorder(c2)
    ensures TotalPreorder(Then(c1, c2))
  {
    var c := Then(c1, c2);
    forall x, y, z | c(x, y) <= 0 && c(y, z) <= 0
      ensures c(x, z) <= 0
    {
      assert c1(x, y) <= 0 && c1(y, z) <= 0 && c1(x, z) <= 0;
      if c1(x, z) == 0 {
        assert c1(z, x) <= 0;
        assert c1(y, x) <= 0 && c1(z, y) <= 0;
        assert c1(x, y) == 0 && c1(y, z) == 0;
      }
    }
  }

  lemma {:induction false} ClassOfClass<T>(c1: (T, T) -> int, c2: (T, T) -> int, s: seq<T>, x: T)
    ensures Class(Then(c1, c2), s, x) == Class(c2, Class(c1, s, x), x)
    ensures Class(Then(c1, c2), s, x) == Class(c1, Class(c2, s, x), x)
  {
    if s != [] {
      ClassOfClass(c1, c2, s[1..], x);
      var t1, t2 := Class(c1, s[1..], x), Class(c2, s[1..], x);
      assert ([s[0]] + t1)[1..] == t1 && ([s[0]] + t2)[1..] == t2;
      assert [] + t1 == t1 && [] + t2 == t2;
    }
  }

  lemma {:induction false} ClassSorted<T>(c1: (T, T) -> int, c2: (T, T) -> int, s: seq<T>, x: T)
    requires Sorted(c2, s)
    ensures Sorted(c2, Class(c1, s, x))
  {
    if s != [] {
      ClassSorted(c1, c2, s[1..], x);
      ClassMembers(c1, s[1..], x);
      forall y | y in Class(c1, s[1..], x)
        ensures c2(s[0], y) <= 0
      {
        assert y in s[1..];
      }
    }
  }

  lemma {:induction false} SortedInClass<T>(c1: (T, T) -> int, c2: (T, T) -> int, r: seq<T>, x: T, i: nat, j: nat)
    requires Sorted(c2, Class(c1, r, x)) && i < j < |r| && c1(x, r[i]) == 0 && c1(x, r[j]) == 0
    ensures c2(r[i], r[j]) <= 0
  {
    var t := Class(c1, r[1..], x);
    if c1(x, r[0]) == 0 {
      assert Class(c1, r, x) == [r[0]] + t;
      assert Sorted(c2, t) by {
        assert forall k | 0 <= k < |t| :: t[k] == Class(c1, r, x)[k + 1];
      }
      if i == 0 {
        ClassMembers(c1, r[1..], x);
        assert r[1..][j - 1] == r[j];
        assert r[j] in r[1..];
        var k :| 0 <= k < |t| && t[k] == r[j];
        var equals := Class(c1, r, x);
        assert equals[0] == r[0] && equals[k + 1] == r[j];
      } else {
        SortedInClass(c1, c2, r[1..], x, i - 1, j - 1);
      }
    } else {
      assert Class(c1, r, x) == t;
      SortedInClass(c1, c2, r[1..], x, i - 1, j - 1);
    }
  }

  /** Sorting by a chain of two keys is stable sorting by the last key, then by the first. */
  lemma SortThen<T(!new)>(c1: (T, T) -> int, c2: (T, T) -> int, s: seq<T>)
    requires TotalPreorder(c1) && TotalPreorder(c2)
    ensures Sort(Then(c1, c2), s) == Sort(c1, Sort(c2, s))
  {
    var c, t := Then(c1, c2), Sort(c2, s);
    var r := Sort(c1, t);
    ThenIsPreorder(c1, c2);
    SortIsStable(c, s);
    SortIsStable(c2, s);
    SortIsStable(c1, t);
    forall x
      ensures Class(c, r, x) == Class(c, Sort(c, s), x)
    {
      ClassOfClass(c1, c2, r, x);
      ClassOfClass(c1, c2, t, x);
      ClassOfClass(c1, c2, s, x);
      assert Class(c1, r, x) == Class(c1, t, x) && Class(c2, t, x) == Class(c2, s, x);
    }
    forall i, j | 0 <= i < j < |r|
      ensures c(r[i], r[j]) <= 0
    {
      if c1(r[i], r[j]) == 0 {
        Reflexive(c1, r[i]);
        ClassSorted(c1, c2, t, r[i]);
        assert Class(c1, r, r[i]) == Class(c1, t, r[i]);
        SortedInClass(c1, c2, r, r[i], i, j);
      }
    }
    StableSortUnique(c, r, Sort(c, s));
  }

  /** The sort depends only on what the comparator answers. */
  lemma {:induction false} SortExtensional<T(!new)>(c: (T, T) -> int, d: (T, T) -> int, s: seq<T>)
    requires forall a, b :: c(a, b) == d(a, b)
    ensures Sort(c, s) == Sort(d, s)
  {
    if s != [] {
      SortExtensional(c, d, s[1..]);
      InsertExtensional(c, d, s[0], Sort(c, s[1..]));
    }
  }

  lemma {:induction false} InsertExtensional<T(!new)>(c: (T, T) -> int, d: (T, T) -> int, x: T, s: seq<T>)
    requires forall a, b :: c(a, b) == d(a, b)
    ensures Insert(c, x, s) == Insert(d, x, s)
  {
    if s != [] { InsertExtensional(c, d, x, s[1..]); }
  }
}
