/** Short command names for resource tags (src/cli/index.ts, `resourcesByName`). */
module CommandNames {
  import opened Paths

  const SLASH: char := '/'

  function NonEmpty(parts: seq<string>): (r: seq<string>)
    ensures forall p | p in r :: p != "" && p in parts
  {
    if parts == [] then []
    else
      var rest := NonEmpty(parts[1..]);
      if parts[0] == "" then rest else [parts[0]] + rest
  }

  /** The parts of an id between slashes, empty ones dropped. */
  function Segments(id: string): (segments: seq<string>)
    ensures forall p | p in segments :: p != "" && SLASH !in p
  {
    NonEmpty(Split(id, SLASH))
  }

  function JoinAll(parts: seq<string>): string {
    if parts == [] then "" else Join(parts, SLASH)
  }

  function Last<T>(s: seq<T>, n: nat): seq<T> {
    if n >= |s| then s else s[|s| - n..]
  }

  /** The last `n` segments of an id, joined. */
  function Suffix(id: string, n: nat): string {
    JoinAll(Last(Segments(id), n))
  }

  /** How many keys have this suffix of length `n`. */
  function Sharing(keys: seq<string>, n: nat, candidate: string): nat {
    if keys == [] then 0
    else Sharing(keys[..|keys| - 1], n, candidate) + if Suffix(keys[|keys| - 1], n) == candidate then 1 else 0
  }

  /** Exactly one key has this suffix of length `n`. */
  predicate Unique(keys: seq<string>, id: string, n: nat) {
    Sharing(keys, n, Suffix(id, n)) == 1
  }

  function FirstTrue(flags: seq<bool>): (i: nat)
    ensures i <= |flags|
    ensures i < |flags| ==> flags[i]
    ensures forall j | 0 <= j < i :: !flags[j]
  {
    if flags == [] || flags[0] then 0 else 1 + FirstTrue(flags[1..])
  }

  /** Which suffix lengths, from one up, are unique. */
  function UniqueAt(keys: seq<string>, id: string): (flags: seq<bool>)
    ensures |flags| == |Segments(id)|
    ensures forall i | 0 <= i < |flags| :: flags[i] == Unique(keys, id, i + 1)
  {
    seq(|Segments(id)|, i requires 0 <= i < |Segments(id)| => Unique(keys, id, i + 1))
  }

  /** The least length whose suffix is unique, one more than the whole key when none is. */
  function Depth(keys: seq<string>, id: string): nat {
    FirstTrue(UniqueAt(keys, id)) + 1
  }

  lemma DepthIsLeast(keys: seq<string>, id: string)
    ensures 1 <= Depth(keys, id) <= |Segments(id)| + 1
    ensures Depth(keys, id) <= |Segments(id)| ==> Unique(keys, id, Depth(keys, id))
    ensures forall l | 1 <= l < Depth(keys, id) :: !Unique(keys, id, l)
  {
    forall l | 1 <= l < Depth(keys, id)
      ensures !Unique(keys, id, l)
    {
      NotUniqueBefore(keys, id, l);
    }
  }

  lemma NotUniqueBefore(keys: seq<string>, id: string, l: nat)
    requires 1 <= l < Depth(keys, id)
    ensures !Unique(keys, id, l)
  {
    assert !UniqueAt(keys, id)[l - 1];
  }

  lemma DepthIs(keys: seq<string>, id: string, m: nat)
    requires 1 <= m <= |Segments(id)| + 1
    requires m <= |Segments(id)| ==> Unique(keys, id, m)
    requires forall l | 1 <= l < m :: !Unique(keys, id, l)
    ensures Depth(keys, id) == m
  {
    DepthIsLeast(keys, id);
    var d := Depth(keys, id);
  }

  /** The command name of a key among all keys: its shortest unique suffix, or the key. */
  function Name(keys: seq<string>, id: string): string {
    if Depth(keys, id) <= |Segments(id)| then Suffix(id, Depth(keys, id)) else id
  }

  /** The last segments of the key are these. */
  predicate EndsWith(key: string, end: seq<string>) {
    |end| <= |Segments(key)| && Segments(key)[|Segments(key)| - |end|..] == end
  }

  /** Some other key ends with the last `n` segments of key `i`. */
  predicate SharesEnd(keys: seq<string>, i: nat, n: nat)
    requires i < |keys| && n <= |Segments(keys[i])|
  {
    var segments := Segments(keys[i]);
    exists j | 0 <= j < |keys| && j != i :: EndsWith(keys[j], segments[|segments| - n..])
  }

  /** The text, split at its slashes, is an end of key `i` that no other key has, while every
      shorter end is some other key's as well. */
  predicate IsShortestOwnEnd(keys: seq<string>, i: nat, name: string)
    requires i < |keys|
  {
    var n := |Split(name, SLASH)|;
    && EndsWith(keys[i], Split(name, SLASH)) && !SharesEnd(keys, i, n)
    && forall m | 1 <= m < n :: SharesEnd(keys, i, m)
  }

  /** The key gets such an end as its name, or is named in full when no end is its own. */
  predicate IsNameOf(keys: seq<string>, i: nat, name: string)
    requires i < |keys|
  {
    || IsShortestOwnEnd(keys, i, name)
    || (name == keys[i] && forall m | 1 <= m <= |Segments(keys[i])| :: SharesEnd(keys, i, m))
  }

  method NameOf(keys: seq<string>, id: string) returns (name: string)
    ensures name == Name(keys, id)
    ensures forall i | 0 <= i < |keys| && keys[i] == id :: IsNameOf(keys, i, name)
  {
    NamedAs(keys, id);
    var depth := |Segments(id)|;
    for n := 1 to depth + 1
      invariant forall l | 1 <= l < n :: !Unique(keys, id, l)
    {
      var candidate := Suffix(id, n);
      if Sharing(keys, n, candidate) == 1 {
        DepthIs(keys, id, n);
        return candidate;
      }
    }
    DepthIs(keys, id, depth + 1);
    return id;
  }

  function Names(keys: seq<string>): (names: seq<string>)
    ensures |names| == |keys|
    ensures forall i | 0 <= i < |keys| :: names[i] == Name(keys, keys[i])
  {
    seq(|keys|, i requires 0 <= i < |keys| => Name(keys, keys[i]))
  }

  /** `Object.fromEntries` on the first `n` pairs: on equal names the later value wins. */
  function FromEntries<K, V>(names: seq<K>, values: seq<V>, n: nat): map<K, V>
    requires n <= |names| == |values|
  {
    if n == 0 then map[] else FromEntries(names, values, n - 1)[names[n - 1] := values[n - 1]]
  }

  method ObjectFromEntries<K(==), V>(names: seq<K>, values: seq<V>) returns (m: map<K, V>)
    requires |names| == |values|
    ensures m == FromEntries(names, values, |names|)
  {
    m := map[];
    for i := 0 to |names|
      invariant m == FromEntries(names, values, i)
    {
      m := m[names[i] := values[i]];
    }
  }

  method NameAll(keys: seq<string>) returns (names: seq<string>)
    ensures names == Names(keys)
  {
    ghost var all := Names(keys);
    names := [];
    for i := 0 to |keys|
      invariant names == all[..i]
    {
      var name := NameOf(keys, keys[i]);
      PrefixGrows(all, i);
      names := names + [name];
    }
    PrefixGrows(all, |keys|);
  }

  lemma PrefixGrows<T>(s: seq<T>, i: nat)
    requires i <= |s|
    ensures if i < |s| then s[..i + 1] == s[..i] + [s[i]] else s[..i] == s
  {
  }

  method ResourcesByName(keys: seq<string>) returns (byName: map<string, string>)
    ensures byName == FromEntries(Names(keys), keys, |keys|)
    ensures forall name | name in byName ::
      exists i | 0 <= i < |keys| :: byName[name] == keys[i] && IsNameOf(keys, i, name)
  {
    EntriesAreNamed(keys);
    var names := NameAll(keys);
    byName := ObjectFromEntries(names, keys);
  }

  lemma {:induction false} KeysOfEntries<K, V>(names: seq<K>, values: seq<V>, n: nat)
    requires n <= |names| == |values|
    ensures forall key | key in FromEntries(names, values, n) :: exists i | 0 <= i < n :: names[i] == key
  {
    if n > 0 {
      KeysOfEntries(names, values, n - 1);
    }
  }

  /** Each entry is one of the pairs. */
  lemma {:induction false} EntryAt<K, V>(names: seq<K>, values: seq<V>, n: nat, key: K) returns (i: nat)
    requires n <= |names| == |values| && key in FromEntries(names, values, n)
    ensures i < n && names[i] == key && FromEntries(names, values, n)[key] == values[i]
  {
    if names[n - 1] == key {
      i := n - 1;
    } else {
      i := EntryAt(names, values, n - 1, key);
    }
  }

  lemma {:induction false} EntriesOfDistinct<K, V>(names: seq<K>, values: seq<V>, n: nat)
    requires n <= |names| == |values|
    requires forall i, j | 0 <= i < j < |names| :: names[i] != names[j]
    ensures var m := FromEntries(names, values, n);
      && |m.Keys| == n
      && forall i | 0 <= i < n :: names[i] in m && m[names[i]] == values[i]
  {
    if n > 0 {
      EntriesOfDistinct(names, values, n - 1);
      KeysOfEntries(names, values, n - 1);
      var m := FromEntries(names, values, n - 1);
      assert names[n - 1] !in m;
      assert m[names[n - 1] := values[n - 1]].Keys == m.Keys + {names[n - 1]};
    }
  }

  /** No tag is lost: the record has one entry per key and finds every key under its name. */
  lemma {:induction false} NoTagIsLost(keys: seq<string>)
    requires forall i, j | 0 <= i < j < |keys| :: keys[i] != keys[j]
    ensures var byName := FromEntries(Names(keys), keys, |keys|);
      && |byName.Keys| == |keys|
      && forall i | 0 <= i < |keys| :: Names(keys)[i] in byName && byName[Names(keys)[i]] == keys[i]
  {
    forall i, j | 0 <= i < j < |keys|
      ensures Names(keys)[i] != Names(keys)[j]
    {
      NamesDistinct(keys, i, j);
    }
    EntriesOfDistinct(Names(keys), keys, |keys|);
  }

  // ---- suffixes as segment lists ----

  lemma {:induction false} NonEmptyAll(parts: seq<string>)
    requires forall p | p in parts :: p != ""
    ensures NonEmpty(parts) == parts
  {
    if parts != [] {
      assert parts[0] in parts && parts == [parts[0]] + parts[1..];
      forall p | p in parts[1..] ensures p != "" {
        assert p in parts;
      }
      NonEmptyAll(parts[1..]);
    }
  }

  /** Joining segments and splitting again gives the segments back. */
  lemma SegmentsOfJoin(parts: seq<string>)
    requires forall p | p in parts :: p != "" && SLASH !in p
    ensures Segments(JoinAll(parts)) == parts
  {
    if parts == [] {
      assert Split("", SLASH) == [""] && [""][1..] == [];
    } else {
      SplitOfJoin(parts, SLASH);
      NonEmptyAll(parts);
    }
  }

  lemma SuffixSegments(id: string, n: nat)
    ensures Segments(Suffix(id, n)) == Last(Segments(id), n)
  {
    var parts := Last(Segments(id), n);
    assert forall p | p in parts :: p in Segments(id);
    SegmentsOfJoin(parts);
  }

  lemma {:induction false} SharingSome(keys: seq<string>, n: nat, candidate: string, i: nat)
    requires i < |keys| && Suffix(keys[i], n) == candidate
    ensures Sharing(keys, n, candidate) >= 1
  {
    if i < |keys| - 1 {
      SharingSome(keys[..|keys| - 1], n, candidate, i);
    }
  }

  /** A suffix counted once belongs to one key. */
  lemma {:induction false} SharedByOne(keys: seq<string>, n: nat, candidate: string, i: nat, j: nat)
    requires i < j < |keys| && Suffix(keys[i], n) == candidate && Suffix(keys[j], n) == candidate
    ensures Sharing(keys, n, candidate) >= 2
  {
    var init := keys[..|keys| - 1];
    if j < |keys| - 1 {
      SharedByOne(init, n, candidate, i, j);
    } else {
      SharingSome(init, n, candidate, i);
    }
  }

  lemma NotSharedTwice(keys: seq<string>, n: nat, i: nat, j: nat)
    requires i < |keys| && j < |keys| && i != j && Suffix(keys[i], n) == Suffix(keys[j], n)
    ensures Sharing(keys, n, Suffix(keys[i], n)) != 1
  {
    if i < j {
      SharedByOne(keys, n, Suffix(keys[i], n), i, j);
    } else {
      SharedByOne(keys, n, Suffix(keys[i], n), j, i);
    }
  }

  lemma {:induction false} NobodyShares(keys: seq<string>, n: nat, candidate: string)
    requires forall j | 0 <= j < |keys| :: Suffix(keys[j], n) != candidate
    ensures Sharing(keys, n, candidate) == 0
  {
    if keys != [] {
      NobodyShares(keys[..|keys| - 1], n, candidate);
    }
  }

  lemma {:induction false} SharedByNoOther(keys: seq<string>, n: nat, candidate: string, i: nat)
    requires i < |keys| && Suffix(keys[i], n) == candidate
    requires forall j | 0 <= j < |keys| && j != i :: Suffix(keys[j], n) != candidate
    ensures Sharing(keys, n, candidate) == 1
  {
    var init := keys[..|keys| - 1];
    if i == |init| {
      NobodyShares(init, n, candidate);
    } else {
      SharedByNoOther(init, n, candidate, i);
    }
  }

  /** Two suffixes of the same length agree when the one key ends with the segments of the other. */
  lemma SameSuffixIff(id: string, key: string, n: nat)
    requires 1 <= n <= |Segments(id)|
    ensures Suffix(key, n) == Suffix(id, n) <==> EndsWith(key, Segments(id)[|Segments(id)| - n..])
  {
    SuffixSegments(id, n);
    SuffixSegments(key, n);
  }

  lemma UniqueIff(keys: seq<string>, i: nat, n: nat)
    requires i < |keys| && 1 <= n <= |Segments(keys[i])|
    ensures Unique(keys, keys[i], n) <==> !SharesEnd(keys, i, n)
  {
    var candidate := Suffix(keys[i], n);
    forall j | 0 <= j < |keys|
      ensures Suffix(keys[j], n) == candidate <==>
              EndsWith(keys[j], Segments(keys[i])[|Segments(keys[i])| - n..])
    {
      SameSuffixIff(keys[i], keys[j], n);
    }
    if SharesEnd(keys, i, n) {
      var j :| 0 <= j < |keys| && j != i && Suffix(keys[j], n) == candidate;
      NotSharedTwice(keys, n, i, j);
    } else {
      SharedByNoOther(keys, n, candidate, i);
    }
  }

  /** Every key is named by its shortest end that no other key shares, or in full. */
  lemma NameIsShortestOwnEnd(keys: seq<string>, i: nat)
    requires i < |keys|
    ensures IsNameOf(keys, i, Name(keys, keys[i]))
  {
    var key := keys[i];
    var n := Depth(keys, key);
    DepthIsLeast(keys, key);
    forall m | 1 <= m <= |Segments(key)|
      ensures Unique(keys, key, m) <==> !SharesEnd(keys, i, m)
    {
      UniqueIff(keys, i, m);
    }
    if n <= |Segments(key)| {
      SplitSuffix(key, n);
    }
  }

  lemma NamedAs(keys: seq<string>, id: string)
    ensures forall i | 0 <= i < |keys| && keys[i] == id :: IsNameOf(keys, i, Name(keys, id))
  {
    forall i | 0 <= i < |keys| && keys[i] == id
      ensures IsNameOf(keys, i, Name(keys, id))
    {
      NameIsShortestOwnEnd(keys, i);
    }
  }

  lemma EntriesAreNamed(keys: seq<string>)
    ensures var byName := FromEntries(Names(keys), keys, |keys|);
      forall name | name in byName :: exists i | 0 <= i < |keys| :: byName[name] == keys[i] && IsNameOf(keys, i, name)
  {
    var names := Names(keys);
    forall name | name in FromEntries(names, keys, |keys|)
      ensures exists i | 0 <= i < |keys| ::
        FromEntries(names, keys, |keys|)[name] == keys[i] && IsNameOf(keys, i, name)
    {
      var i := EntryAt(names, keys, |keys|, name);
      NameIsShortestOwnEnd(keys, i);
    }
  }

  lemma SplitSuffix(id: string, n: nat)
    requires 1 <= n <= |Segments(id)|
    ensures Split(Suffix(id, n), SLASH) == Segments(id)[|Segments(id)| - n..]
  {
    var parts := Last(Segments(id), n);
    assert forall p | p in parts :: p in Segments(id);
    SplitOfJoin(parts, SLASH);
  }

  /** The segments of an id are its parts between slashes without the empty ones, in order. */
  lemma {:induction false} SegmentsInOrder(a: seq<string>, b: seq<string>)
    ensures NonEmpty(a + b) == NonEmpty(a) + NonEmpty(b)
    ensures forall part :: NonEmpty([part]) == if part == "" then [] else [part]
  {
    if a == [] {
      assert a + b == b;
    } else {
      SegmentsInOrder(a[1..], b);
      HeadOfConcat(a, b);
      ConcatTwice(if a[0] == "" then [] else [a[0]], NonEmpty(a[1..]), NonEmpty(b));
    }
  }

  /** A key whose name is the unique suffix of length `m` never shares that text with the
      name of another key, be it a suffix or a whole key. */
  lemma UniqueSuffixIsTaken(keys: seq<string>, i: nat, m: nat, j: nat, l: nat)
    requires i < |keys| && j < |keys| && i != j
    requires m <= |Segments(keys[i])| && Unique(keys, keys[i], m)
    requires l <= |Segments(keys[j])|
    ensures Suffix(keys[i], m) != Suffix(keys[j], l)
    ensures Suffix(keys[i], m) != keys[j]
  {
    SuffixSegments(keys[i], m);
    SuffixSegments(keys[j], l);
    if Suffix(keys[i], m) == Suffix(keys[j], l) {
      assert m == l;
      NotSharedTwice(keys, m, i, j);
    }
    if Suffix(keys[i], m) == keys[j] {
      assert Suffix(keys[j], m) == JoinAll(Segments(keys[j])) == keys[j];
      NotSharedTwice(keys, m, i, j);
    }
  }

  /** Distinct keys get distinct names, so no tag is lost from the record. */
  lemma NamesDistinct(keys: seq<string>, i: nat, j: nat)
    requires i < |keys| && j < |keys| && keys[i] != keys[j]
    ensures Name(keys, keys[i]) != Name(keys, keys[j])
  {
    DepthIsLeast(keys, keys[i]);
    DepthIsLeast(keys, keys[j]);
    var m, l := Depth(keys, keys[i]), Depth(keys, keys[j]);
    if m <= |Segments(keys[i])| {
      UniqueSuffixIsTaken(keys, i, m, j, if l <= |Segments(keys[j])| then l else 0);
    } else if l <= |Segments(keys[j])| {
      UniqueSuffixIsTaken(keys, j, l, i, 0);
    }
  }

  // ---- adding a tag ----

  /** The name is one of the key's own slash-suffixes. */
  predicate HasSuffix(key: string, name: string) {
    exists n | 1 <= n <= |Segments(key)| :: Suffix(key, n) == name
  }

  lemma SharingAdded(keys: seq<string>, added: string, n: nat, candidate: string)
    ensures Sharing(keys + [added], n, candidate) ==
            Sharing(keys, n, candidate) + if Suffix(added, n) == candidate then 1 else 0
  {
    assert (keys + [added])[..|keys|] == keys;
  }

  /** A suffix that is not unique stays so, and a unique one stays unique unless the new key
      has that very suffix. */
  lemma UniqueAfterAdding(keys: seq<string>, added: string, i: nat, n: nat)
    requires i < |keys|
    ensures Unique(keys + [added], keys[i], n) <==> Unique(keys, keys[i], n) && Suffix(added, n) != Suffix(keys[i], n)
  {
    SharingAdded(keys, added, n, Suffix(keys[i], n));
    SharingSome(keys, n, Suffix(keys[i], n), i);
  }

  lemma DepthAfterAdding(keys: seq<string>, added: string, i: nat)
    requires i < |keys|
    ensures var id := keys[i]; var m, now := Depth(keys, id), Depth(keys + [added], id);
      && m <= now
      && (now == m <==> m > |Segments(id)| || Suffix(added, m) != Suffix(id, m))
  {
    var id := keys[i];
    var m, now := Depth(keys, id), Depth(keys + [added], id);
    DepthIsLeast(keys, id);
    DepthIsLeast(keys + [added], id);
    if now < m {
      UniqueAfterAdding(keys, added, i, now);
    }
    if m <= |Segments(id)| {
      UniqueAfterAdding(keys, added, i, m);
    }
  }

  lemma AddedSuffix(added: string, id: string, n: nat)
    requires 1 <= n <= |Segments(id)|
    ensures HasSuffix(added, Suffix(id, n)) <==> Suffix(added, n) == Suffix(id, n)
  {
    SuffixSegments(id, n);
    SuffixSegments(added, n);
    if m :| 1 <= m <= |Segments(added)| && Suffix(added, m) == Suffix(id, n) {
      SuffixSegments(added, m);
      assert m == n;
    }
    if Suffix(added, n) == Suffix(id, n) {
      assert |Segments(added)| >= n;
    }
  }

  /** Suffixes of different lengths differ, and only the longest can be the whole key. */
  lemma LongerSuffixDiffers(id: string, n: nat, m: nat)
    requires 1 <= n < m <= |Segments(id)|
    ensures Suffix(id, n) != Suffix(id, m) && Suffix(id, n) != id
  {
    SuffixSegments(id, n);
    SuffixSegments(id, m);
  }

  /** Adding a tag renames an existing command exactly when the new key has the very suffix
      that names it, and that name is not already the whole key. */
  lemma AddingATagRenamesIff(keys: seq<string>, added: string, i: nat)
    requires i < |keys|
    ensures var was := Name(keys, keys[i]);
      Name(keys + [added], keys[i]) != was <==> HasSuffix(added, was) && was != keys[i]
  {
    var id := keys[i];
    var m, now := Depth(keys, id), Depth(keys + [added], id);
    DepthIsLeast(keys, id);
    DepthIsLeast(keys + [added], id);
    DepthAfterAdding(keys, added, i);
    if m <= |Segments(id)| {
      AddedSuffix(added, id, m);
      if m < now <= |Segments(id)| {
        LongerSuffixDiffers(id, m, now);
      }
    }
  }
}
