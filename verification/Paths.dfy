/** `String.prototype.split` on a one-character separator, and its inverse `join`. */
module Paths {
  function Split(s: string, sep: char): (parts: seq<string>)
    ensures parts != []
    ensures forall p | p in parts :: sep !in p
  {
    if s == "" then [""]
    else
      var rest := Split(s[1..], sep);
      assert sep !in rest[0];
      if s[0] == sep then [""] + rest else [[s[0]] + rest[0]] + rest[1..]
  }

  function Join(parts: seq<string>, sep: char): string
    requires parts != []
  {
    if |parts| == 1 then parts[0] else parts[0] + [sep] + Join(parts[1..], sep)
  }

  lemma {:induction false} SplitWord(s: string, sep: char)
    requires sep !in s
    ensures Split(s, sep) == [s]
  {
    if s != "" {
      SplitWord(s[1..], sep);
      assert s == [s[0]] + s[1..];
    }
  }

  lemma {:induction false} SplitCons(head: string, tail: string, sep: char)
    requires sep !in head
    ensures Split(head + [sep] + tail, sep) == [head] + Split(tail, sep)
  {
    var s := head + [sep] + tail;
    if head == "" {
      assert s[1..] == tail;
    } else {
      SplitCons(head[1..], tail, sep);
      assert s[1..] == head[1..] + [sep] + tail;
      assert head == [head[0]] + head[1..];
    }
  }

  lemma {:induction false} SplitOfJoin(parts: seq<string>, sep: char)
    requires parts != [] && forall p | p in parts :: sep !in p
    ensures Split(Join(parts, sep), sep) == parts
  {
    if |parts| == 1 {
      SplitWord(parts[0], sep);
    } else {
      SplitOfJoin(parts[1..], sep);
      SplitCons(parts[0], Join(parts[1..], sep), sep);
    }
  }

  lemma {:induction false} JoinOfSplit(s: string, sep: char)
    ensures Join(Split(s, sep), sep) == s
  {
    if s != "" {
      var rest := Split(s[1..], sep);
      JoinOfSplit(s[1..], sep);
      if s[0] == sep {
        assert ([""] + rest)[1..] == rest;
        assert s == [sep] + s[1..];
      } else {
        var parts := [[s[0]] + rest[0]] + rest[1..];
        assert parts[1..] == rest[1..];
        assert s == [s[0]] + s[1..];
      }
    }
  }

  lemma SplitInjective(s: string, t: string, sep: char)
    requires Split(s, sep) == Split(t, sep)
    ensures s == t
  {
    JoinOfSplit(s, sep);
    JoinOfSplit(t, sep);
  }

  // ---- concatenation ----

  lemma HeadOfConcat<T>(a: seq<T>, b: seq<T>)
    requires a != []
    ensures (a + b)[0] == a[0] && (a + b)[1..] == a[1..] + b
  {
  }

  lemma ConcatTwice<T>(a: seq<T>, b: seq<T>, c: seq<T>)
    ensures (a + b) + c == a + (b + c) && [] + c == c
  {
  }

  // ---- two names joined by a separator ----

  /** One text is the other one followed by the separator and more. */
  predicate Extends(longer: string, shorter: string, sep: char) {
    shorter + [sep] <= longer
  }

  /** Two heads can be completed to the same joined text if and only if they are equal or one
      extends the other past a separator. */
  lemma SharedJoinIff(g: string, h: string, sep: char)
    ensures (exists p, q :: g + [sep] + p == h + [sep] + q) <==> g == h || Extends(g, h, sep) || Extends(h, g, sep)
  {
    if g == h {
      assert g + [sep] + "" == h + [sep] + "";
    } else if Extends(g, h, sep) {
      assert g + [sep] + "" == h + [sep] + (g[|h| + 1..] + [sep]);
    } else if Extends(h, g, sep) {
      assert g + [sep] + (h[|g| + 1..] + [sep]) == h + [sep] + "";
    }
    if p, q :| g + [sep] + p == h + [sep] + q {
      SharedJoin(g, p, h, q, sep);
    }
  }

  lemma SharedJoin(g: string, p: string, h: string, q: string, sep: char)
    requires g + [sep] + p == h + [sep] + q
    ensures g == h || Extends(g, h, sep) || Extends(h, g, sep)
  {
    var t := g + [sep] + p;
    assert t[..|g| + 1] == g + [sep] && t[..|h| + 1] == h + [sep];
    assert t[..|g|] == g && t[..|h|] == h;
    if |g| < |h| {
      assert g + [sep] == h[..|g| + 1];
    } else if |h| < |g| {
      assert h + [sep] == g[..|h| + 1];
    }
  }
}
