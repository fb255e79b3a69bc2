/** A JavaScript `Map` with string keys: bindings in insertion order. Setting a present key
    keeps its position, a deleted key that is set again goes to the end. */
module OrderedMap {
  import opened Wrappers

  datatype Binding<V> = Binding(key: string, value: V)

  type Table<V> = seq<Binding<V>>

  ghost predicate Distinct<V>(t: Table<V>) {
    forall i, j | 0 <= i < j < |t| :: t[i].key != t[j].key
  }

  predicate Has<V>(t: Table<V>, key: string) {
    exists i | 0 <= i < |t| :: t[i].key == key
  }

  function Get<V>(t: Table<V>, key: string): (value: Option<V>)
    ensures value.None? <==> !Has(t, key)
    ensures value.Some? ==> Binding(key, value.value) in t
  {
    if t == [] then None
    else if t[0].key == key then
      assert Has(t, key);
      Some(t[0].value)
    else
      var rest := Get(t[1..], key);
      assert t == [t[0]] + t[1..];
      assert Has(t[1..], key) <==> Has(t, key) by { HasTail(t, key); }
      rest
  }

  lemma HasTail<V>(t: Table<V>, key: string)
    requires t != [] && t[0].key != key
    ensures Has(t[1..], key) <==> Has(t, key)
  {
    if Has(t, key) {
      var i :| 0 <= i < |t| && t[i].key == key;
      assert t[1..][i - 1].key == key;
    }
    if Has(t[1..], key) {
      var i :| 0 <= i < |t[1..]| && t[1..][i].key == key;
      assert t[i + 1].key == key;
    }
  }

  function Set<V>(t: Table<V>, key: string, value: V): Table<V> {
    if t == [] then [Binding(key, value)]
    else if t[0].key == key then [Binding(key, value)] + t[1..]
    else [t[0]] + Set(t[1..], key, value)
  }

  function Delete<V>(t: Table<V>, key: string): Table<V> {
    if t == [] then []
    else if t[0].key == key then t[1..]
    else [t[0]] + Delete(t[1..], key)
  }

  function Values<V>(t: Table<V>): (values: seq<V>)
    ensures |values| == |t|
    ensures forall i | 0 <= i < |t| :: values[i] == t[i].value
  {
    seq(|t|, i requires 0 <= i < |t| => t[i].value)
  }

  /** Setting a present key changes the value at its position and nothing else. */
  lemma {:induction false} SetPresent<V>(t: Table<V>, i: nat, value: V)
    requires i < |t| && Distinct(t)
    ensures Set(t, t[i].key, value) == t[i := Binding(t[i].key, value)]
  {
    if i > 0 {
      assert t[0].key != t[i].key;
      SetPresent(t[1..], i - 1, value);
      UpdateTail(t, i, Binding(t[i].key, value));
    }
  }

  lemma UpdateTail<T>(s: seq<T>, i: nat, x: T)
    requires 0 < i < |s|
    ensures s[i := x] == [s[0]] + s[1..][i - 1 := x]
  {
  }

  /** Setting an absent key appends. */
  lemma {:induction false} SetAbsent<V>(t: Table<V>, key: string, value: V)
    requires !Has(t, key)
    ensures Set(t, key, value) == t + [Binding(key, value)]
  {
    if t != [] {
      assert t[0].key != key;
      HasTail(t, key);
      SetAbsent(t[1..], key, value);
    }
  }

  lemma GetAt<V>(t: Table<V>, i: nat)
    requires i < |t| && Distinct(t)
    ensures Get(t, t[i].key) == Some(t[i].value)
  {
    var found := Get(t, t[i].key);
    assert t[i].key == t[i].key && Has(t, t[i].key);
    var j :| 0 <= j < |t| && t[j] == Binding(t[i].key, found.value);
    assert j == i;
  }

  /** A set key reads back its value, every other key what it read before. */
  lemma {:induction false} GetAfterSet<V>(t: Table<V>, key: string, value: V, other: string)
    ensures Get(Set(t, key, value), other) == if other == key then Some(value) else Get(t, other)
  {
    if t != [] && t[0].key != key {
      GetAfterSet(t[1..], key, value, other);
    }
  }

  function KeysOf<V>(t: Table<V>): (keys: seq<string>)
    ensures |keys| == |t|
    ensures forall i | 0 <= i < |t| :: keys[i] == t[i].key
  {
    seq(|t|, i requires 0 <= i < |t| => t[i].key)
  }

  /** Setting keeps the order of the keys; a new key goes to the end. */
  lemma KeysAfterSet<V>(t: Table<V>, key: string, value: V)
    requires Distinct(t)
    ensures KeysOf(Set(t, key, value)) == if Has(t, key) then KeysOf(t) else KeysOf(t) + [key]
  {
    if Has(t, key) {
      var i :| 0 <= i < |t| && t[i].key == key;
      SetPresent(t, i, value);
    } else {
      SetAbsent(t, key, value);
    }
  }
}
