/**
  The asset store: the keys of a bundler glob map (`Object.keys(...)` of an
  `import.meta.glob` result), in the order the bundler lists them. Every
  resolver in the source filters these keys by a directory prefix and a
  file extension, and some then sort the survivors in string order.
*/
module AssetStore {
  import opened Strings

  type Store = seq<string>

  predicate Matches(key: string, prefix: string, suffix: string)
  {
    StartsWith(key, prefix) && EndsWith(key, suffix)
  }

  /** `keys.filter(path => path.startsWith(prefix) && path.endsWith(suffix))` */
  function Filter(keys: Store, prefix: string, suffix: string): (r: seq<string>)
    ensures |r| <= |keys|
    ensures forall k :: k in r <==> k in keys && Matches(k, prefix, suffix)
    ensures forall k :: multiset(r)[k] == if Matches(k, prefix, suffix) then multiset(keys)[k] else 0
  {
    if keys == [] then []
    else
      var rest := Filter(keys[1..], prefix, suffix);
      assert keys == [keys[0]] + keys[1..];
      if Matches(keys[0], prefix, suffix) then [keys[0]] + rest else rest
  }

  lemma FilterRespectsKeyMultiset(k1: Store, k2: Store, prefix: string, suffix: string)
    requires multiset(k1) == multiset(k2)
    ensures multiset(Filter(k1, prefix, suffix)) == multiset(Filter(k2, prefix, suffix))
  {
    var a, b := Filter(k1, prefix, suffix), Filter(k2, prefix, suffix);
    forall k ensures multiset(a)[k] == multiset(b)[k] { }
  }

  // ---------------------------------------------------------------------
  // `Array.prototype.sort()` with its default comparison.

  predicate SortedLex(s: seq<string>)
  {
    forall i, j :: 0 <= i < j < |s| ==> LexLe(s[i], s[j])
  }

  function Insert(x: string, s: seq<string>): (r: seq<string>)
    requires SortedLex(s)
    ensures SortedLex(r) && multiset(r) == multiset(s) + multiset{x}
  {
    if s == [] then [x]
    else if LexLe(x, s[0]) then
      InsertBefore(x, s); [x] + s
    else
      var rest := Insert(x, s[1..]);
      InsertAfter(x, s, rest);
      [s[0]] + rest
  }

  lemma InsertAfter(x: string, s: seq<string>, rest: seq<string>)
    requires SortedLex(s) && s != [] && !LexLe(x, s[0])
    requires SortedLex(rest) && multiset(rest) == multiset(s[1..]) + multiset{x}
    ensures SortedLex([s[0]] + rest)
    ensures multiset([s[0]] + rest) == multiset(s) + multiset{x}
  {
    LexLeTotal(x, s[0]);
    assert s == [s[0]] + s[1..];
    forall j | 0 <= j < |rest| ensures LexLe(s[0], rest[j]) {
      var y := rest[j];
      assert y in multiset(rest);
      if y != x {
        assert y in multiset(s[1..]);
        var k :| 0 <= k < |s[1..]| && s[1..][k] == y;
        assert s[k + 1] == y;
      }
    }
  }

  lemma InsertBefore(x: string, s: seq<string>)
    requires SortedLex(s) && s != [] && LexLe(x, s[0])
    ensures SortedLex([x] + s)
  {
    forall j | 0 <= j < |s| ensures LexLe(x, s[j]) {
      if j > 0 { LexLeTransitive(x, s[0], s[j]); }
    }
  }

  function Sort(s: seq<string>): (r: seq<string>)
    ensures SortedLex(r) && multiset(r) == multiset(s)
    ensures |r| == |s|
  {
    if s == [] then []
    else
      assert s == [s[0]] + s[1..];
      Insert(s[0], Sort(s[1..]))
  }

  lemma HeadIsLeast(s: seq<string>, x: string)
    requires SortedLex(s) && x in multiset(s)
    ensures LexLe(s[0], x)
  {
    var i :| 0 <= i < |s| && s[i] == x;
    if i == 0 { LexLeReflexive(x); }
  }

  lemma TailMultiset(s: seq<string>)
    requires s != []
    ensures multiset(s[1..]) == multiset(s) - multiset{s[0]}
  {
    assert s == [s[0]] + s[1..];
  }

  /** A multiset has one sorted arrangement: the order `sort()` produces
      does not depend on the order the keys came in. */
  lemma {:induction false} SortedArrangementUnique(a: seq<string>, b: seq<string>)
    requires SortedLex(a) && SortedLex(b) && multiset(a) == multiset(b)
    ensures a == b
    decreases |a|
  {
    assert |a| == |multiset(a)| == |multiset(b)| == |b|;
    if a != [] {
      HeadIsLeast(b, a[0]);
      HeadIsLeast(a, b[0]);
      LexLeAntisymmetric(a[0], b[0]);
      TailMultiset(a);
      TailMultiset(b);
      SortedArrangementUnique(a[1..], b[1..]);
      assert a == [a[0]] + a[1..] && b == [b[0]] + b[1..];
    }
  }

  /** The sorted list of matching keys, as the shape-icon renderer and the
      multi-part hook compute it. */
  function SortedMatches(keys: Store, prefix: string, suffix: string): (r: seq<string>)
    ensures SortedLex(r) && |r| == |Filter(keys, prefix, suffix)|
    ensures multiset(r) == multiset(Filter(keys, prefix, suffix))
    ensures forall k :: k in r <==> k in keys && Matches(k, prefix, suffix)
  {
    var f := Filter(keys, prefix, suffix);
    var r := Sort(f);
    assert forall k :: k in r <==> k in multiset(f);
    r
  }

  /** A store whose every key matches is kept whole. */
  lemma {:induction false} FilterAllMatching(keys: Store, prefix: string, suffix: string)
    requires forall i :: 0 <= i < |keys| ==> Matches(keys[i], prefix, suffix)
    ensures Filter(keys, prefix, suffix) == keys
  {
    if keys != [] {
      FilterAllMatching(keys[1..], prefix, suffix);
    }
  }

  /** The only sorted arrangement of two keys. */
  lemma SortedPair(r: seq<string>, x: string, y: string)
    requires SortedLex(r) && multiset(r) == multiset([x, y]) && LexLe(y, x)
    ensures r == [y, x]
  {
    var swapped := [y, x];
    assert multiset(r) == multiset(swapped);
    assert SortedLex(swapped);
    SortedArrangementUnique(r, swapped);
  }

  /** Two matching keys come out in string order whatever order the store
      lists them in. */
  lemma SortedMatchesOfTwo(x: string, y: string, prefix: string, suffix: string)
    requires Matches(x, prefix, suffix) && Matches(y, prefix, suffix) && LexLe(y, x)
    ensures SortedMatches([x, y], prefix, suffix) == [y, x]
  {
    var r := SortedMatches([x, y], prefix, suffix);
    assert multiset(r) == multiset([x, y]) by {
      FilterAllMatching([x, y], prefix, suffix);
    }
    SortedPair(r, x, y);
  }

  lemma SortedMatchesIndependentOfKeyOrder(k1: Store, k2: Store, prefix: string, suffix: string)
    requires multiset(k1) == multiset(k2)
    ensures SortedMatches(k1, prefix, suffix) == SortedMatches(k2, prefix, suffix)
  {
    FilterRespectsKeyMultiset(k1, k2, prefix, suffix);
    SortedArrangementUnique(SortedMatches(k1, prefix, suffix), SortedMatches(k2, prefix, suffix));
  }

  // ---------------------------------------------------------------------
  // Counting: `.filter(...).length`.

  /** Object.keys never lists a key twice. */
  predicate DistinctKeys(keys: Store)
  {
    forall i, j :: 0 <= i < j < |keys| ==> keys[i] != keys[j]
  }

  function MatchingSet(keys: Store, prefix: string, suffix: string): set<string>
  {
    set k | k in keys && Matches(k, prefix, suffix)
  }

  lemma {:induction false} DistinctCardinality(s: seq<string>)
    requires forall k :: multiset(s)[k] <= 1
    ensures |set k | k in s| == |s|
  {
    if s != [] {
      assert s == [s[0]] + s[1..];
      assert multiset(s) == multiset{s[0]} + multiset(s[1..]);
      forall k ensures multiset(s[1..])[k] <= 1 {
        assert multiset(s)[k] >= multiset(s[1..])[k];
      }
      DistinctCardinality(s[1..]);
      assert multiset(s)[s[0]] == 1 + multiset(s[1..])[s[0]];
      assert (set k | k in s) == {s[0]} + (set k | k in s[1..]);
    }
  }

  lemma {:induction false} DistinctMultiplicity(s: seq<string>)
    requires DistinctKeys(s)
    ensures forall k :: multiset(s)[k] <= 1
  {
    if s != [] {
      assert s == [s[0]] + s[1..];
      DistinctMultiplicity(s[1..]);
      assert s[0] !in s[1..];
    }
  }

  /** The number of keys `filter(...).length` reports: at most the number of
      keys, zero exactly when no key matches, and the size of the set of
      matching keys. */
  lemma FilterLength(keys: Store, prefix: string, suffix: string)
    ensures |Filter(keys, prefix, suffix)| <= |keys|
    ensures |Filter(keys, prefix, suffix)| == 0 <==> forall k :: k in keys ==> !Matches(k, prefix, suffix)
    ensures DistinctKeys(keys) ==> |Filter(keys, prefix, suffix)| == |MatchingSet(keys, prefix, suffix)|
  {
    var f := Filter(keys, prefix, suffix);
    if f != [] { assert f[0] in f; }
    if DistinctKeys(keys) {
      DistinctMultiplicity(keys);
      DistinctCardinality(f);
      assert (set k | k in f) == MatchingSet(keys, prefix, suffix);
    }
  }

  /** Directories named `root + a + "/"` and `root + b + "/"` hold disjoint
      keys when the names differ and contain no `/`: a name that is a prefix
      of another (`pi` of `pizza`) does not capture its files. */
  lemma DirectoriesDisjoint(root: string, a: string, b: string, key: string)
    requires a != b && '/' !in a && '/' !in b
    ensures !(StartsWith(key, root + a + "/") && StartsWith(key, root + b + "/"))
  {
    if StartsWith(key, root + a + "/") && StartsWith(key, root + b + "/") {
      if |a| <= |b| {
        PrefixesNest(key, root + a + "/", root + b + "/");
        NamePrefixClash(root, a, b);
      } else {
        PrefixesNest(key, root + b + "/", root + a + "/");
        NamePrefixClash(root, b, a);
      }
    }
  }

  lemma NamePrefixClash(root: string, a: string, b: string)
    requires |a| <= |b| && '/' !in b && StartsWith(root + b + "/", root + a + "/")
    ensures a == b
  {
    var p, q := root + a + "/", root + b + "/";
    assert |a| == |b| by {
      assert q[|root| + |a|] == p[|root| + |a|] == '/';
    }
    assert a == p[|root|..|root| + |a|] == q[|root|..|root| + |a|] == b;
  }
}
