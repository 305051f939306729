/** The pieces of Swift's standard library the core leans on: `sorted(by:)`
    under a strict weak ordering, `compactMap`, and iteration over a
    dictionary (or a store's result set) in an order nobody promises. */
module Collections {
  import opened Wrappers

  /** What `sorted(by:)` demands of its predicate: asymmetric, and
      "not before" is transitive. */
  ghost predicate StrictWeakOrder<T(!new)>(lt: (T, T) -> bool) {
    && (forall a, b :: NotBothBefore(lt, a, b))
    && (forall a, b, c :: NotBeforeIsTransitive(lt, a, b, c))
  }

  ghost predicate NotBothBefore<T>(lt: (T, T) -> bool, a: T, b: T) {
    lt(a, b) ==> !lt(b, a)
  }

  ghost predicate NotBeforeIsTransitive<T>(lt: (T, T) -> bool, a: T, b: T, c: T) {
    !lt(b, a) && !lt(c, b) ==> !lt(c, a)
  }

  /** No element is ordered strictly before an element to its left. */
  ghost predicate IsSortedBy<T>(s: seq<T>, lt: (T, T) -> bool) {
    forall i, j :: 0 <= i < j < |s| ==> !lt(s[j], s[i])
  }

  predicate Distinct<T(==)>(s: seq<T>) {
    forall i, j :: 0 <= i < j < |s| ==> s[i] != s[j]
  }

  /** The position of the first `x` in `s`. */
  function IndexOf<T(==)>(s: seq<T>, x: T): (i: nat)
    requires x in s
    ensures i < |s| && s[i] == x && x !in s[..i]
  {
    if s[0] == x then 0
    else
      assert x in s[1..] by { assert s == [s[0]] + s[1..]; }
      var i := 1 + IndexOf(s[1..], x);
      assert s[..i] == [s[0]] + s[1..][..i - 1];
      i
  }

  /** Places `x` before the first element that `lt` does not put before `x`. */
  function Insert<T(!new)>(x: T, s: seq<T>, lt: (T, T) -> bool): (r: seq<T>)
    requires StrictWeakOrder(lt) && IsSortedBy(s, lt)
    ensures multiset(r) == multiset(s) + multiset{x}
    ensures IsSortedBy(r, lt)
  {
    if s == [] || !lt(s[0], x) then
      PrependKeepsSorted(lt, x, s);
      [x] + s
    else
      assert s == [s[0]] + s[1..];
      var rest := Insert(x, s[1..], lt);
      ConsKeepsSorted(lt, s[0], x, s[1..], rest);
      [s[0]] + rest
  }

  lemma PrependKeepsSorted<T(!new)>(lt: (T, T) -> bool, x: T, s: seq<T>)
    requires StrictWeakOrder(lt) && IsSortedBy(s, lt) && (s == [] || !lt(s[0], x))
    ensures IsSortedBy([x] + s, lt)
  {
    var r := [x] + s;
    forall i, j | 0 <= i < j < |r| ensures !lt(r[j], r[i]) {
      if i > 0 {
        assert r[i] == s[i - 1] && r[j] == s[j - 1];
      } else if j > 1 {
        NotBeforeChains(lt, x, s[0], s[j - 1]);
      }
    }
  }

  /** Behind a head ordered before `x`, the tail with `x` inserted stays sorted. */
  lemma ConsKeepsSorted<T(!new)>(lt: (T, T) -> bool, y: T, x: T, s: seq<T>, rest: seq<T>)
    requires StrictWeakOrder(lt) && IsSortedBy([y] + s, lt) && lt(y, x)
    requires IsSortedBy(rest, lt) && multiset(rest) == multiset(s) + multiset{x}
    ensures IsSortedBy([y] + rest, lt)
  {
    var r := [y] + rest;
    forall i, j | 0 <= i < j < |r| ensures !lt(r[j], r[i]) {
      if i > 0 {
        assert r[i] == rest[i - 1] && r[j] == rest[j - 1];
      } else {
        assert r[i] == y && r[j] in multiset(rest);
        if r[j] == x {
          assert NotBothBefore(lt, y, x);
        } else {
          assert r[j] in s;
          var k :| 0 <= k < |s| && s[k] == r[j];
          assert ([y] + s)[0] == y && ([y] + s)[k + 1] == r[j];
        }
      }
    }
  }

  lemma NotBeforeChains<T(!new)>(lt: (T, T) -> bool, a: T, b: T, c: T)
    requires StrictWeakOrder(lt)
    requires !lt(b, a) && !lt(c, b)
    ensures !lt(c, a)
  {
    assert NotBeforeIsTransitive(lt, a, b, c);
  }

  /** `s.sorted(by: lt)`: a permutation of `s` in which no element is
      ordered before one that precedes it. Equal elements keep their
      input order here; Swift leaves their order unspecified. */
  function Sorted<T(!new)>(s: seq<T>, lt: (T, T) -> bool): (r: seq<T>)
    requires StrictWeakOrder(lt)
    ensures multiset(r) == multiset(s)
    ensures |r| == |s|
    ensures IsSortedBy(r, lt)
  {
    if s == [] then []
    else
      assert s == [s[0]] + s[1..];
      Insert(s[0], Sorted(s[1..], lt), lt)
  }

  lemma {:induction false} DistinctCountsAtMostOnce<T>(s: seq<T>, x: T)
    requires Distinct(s)
    ensures multiset(s)[x] <= 1
  {
    if s != [] {
      var s' := s[..|s| - 1];
      assert s == s' + [s[|s| - 1]];
      DistinctCountsAtMostOnce(s', x);
      if x == s[|s| - 1] {
        assert x !in s';
      }
    }
  }

  lemma RepeatCountsTwice<T>(s: seq<T>, i: nat, j: nat)
    requires i < j < |s|
    ensures s[i] == s[j] ==> multiset(s)[s[i]] >= 2
  {
    assert s == s[..j] + [s[j]] + s[j + 1..];
    assert s[i] in s[..j];
  }

  /** A permutation of a sequence without repeats has no repeats. */
  lemma PermutationKeepsDistinct<T>(a: seq<T>, b: seq<T>)
    requires multiset(a) == multiset(b) && Distinct(a)
    ensures Distinct(b)
  {
    forall i, j | 0 <= i < j < |b| ensures b[i] != b[j] {
      RepeatCountsTwice(b, i, j);
      DistinctCountsAtMostOnce(a, b[i]);
    }
  }

  /** Two sequences without repeats that hold the same elements are
      permutations of each other. */
  lemma DistinctPermutation<T>(a: seq<T>, b: seq<T>)
    requires Distinct(a) && Distinct(b)
    requires forall i :: 0 <= i < |a| ==> a[i] in b
    requires forall i :: 0 <= i < |b| ==> b[i] in a
    ensures multiset(a) == multiset(b)
  {
    forall x ensures multiset(a)[x] == multiset(b)[x] {
      DistinctCountsAtMostOnce(a, x);
      DistinctCountsAtMostOnce(b, x);
    }
  }

  /** `s.map(f)`. */
  function MapSeq<T, U>(s: seq<T>, f: T -> U): (r: seq<U>)
    ensures |r| == |s| && forall i {:trigger r[i]} :: 0 <= i < |s| ==> r[i] == f(s[i])
  {
    if s == [] then [] else [f(s[0])] + MapSeq(s[1..], f)
  }

  /** `s.compactMap(f)`: the present results of `f`, in the order of `s`. */
  function CompactMap<T, U>(s: seq<T>, f: T -> Option<U>): (r: seq<U>)
    ensures |r| <= |s|
    ensures forall i :: 0 <= i < |r| ==> exists j :: 0 <= j < |s| && f(s[j]) == Some(r[i])
    ensures (forall j :: 0 <= j < |s| ==> f(s[j]).Some?) ==> |r| == |s|
  {
    if s == [] then []
    else
      var prefix := CompactMap(s[..|s| - 1], f);
      var last := f(s[|s| - 1]);
      assert forall j :: 0 <= j < |s| - 1 ==> s[..|s| - 1][j] == s[j];
      assert forall i :: 0 <= i < |prefix| ==> exists j :: 0 <= j < |s| && f(s[j]) == Some(prefix[i]) by {
        forall i | 0 <= i < |prefix| ensures exists j :: 0 <= j < |s| && f(s[j]) == Some(prefix[i]) {
          var j :| 0 <= j < |s| - 1 && f(s[..|s| - 1][j]) == Some(prefix[i]);
          assert s[j] == s[..|s| - 1][j];
        }
      }
      if last.Some? then prefix + [last.value] else prefix
  }

  /** `compactMap` works element by element: over a concatenation it is the
      concatenation of the two results, so every present result is kept, in
      the order of its element. */
  lemma {:induction false} CompactMapConcat<T, U>(a: seq<T>, b: seq<T>, f: T -> Option<U>)
    ensures CompactMap(a + b, f) == CompactMap(a, f) + CompactMap(b, f)
    decreases |b|
  {
    if b == [] {
      assert a + b == a;
    } else {
      var ab, c, x := a + b, b[..|b| - 1], b[|b| - 1];
      var tail := if f(x).Some? then [f(x).value] else [];
      assert ab[..|ab| - 1] == a + c;
      assert ab[|ab| - 1] == x;
      assert CompactMap(ab, f) == CompactMap(a + c, f) + tail;
      assert CompactMap(b, f) == CompactMap(c, f) + tail;
      CompactMapConcat(a, c, f);
    }
  }

  /** Every present result is kept: `compactMap` drops only what maps to nil. */
  lemma CompactMapKeeps<T, U>(s: seq<T>, f: T -> Option<U>, j: nat)
    requires j < |s| && f(s[j]).Some?
    ensures f(s[j]).value in CompactMap(s, f)
  {
    var before, x, after := s[..j], s[j], s[j + 1..];
    assert s == before + [x] + after;
    CompactMapConcat(before + [x], after, f);
    CompactMapConcat(before, [x], f);
    CompactMapOne(x, f);
    var kept := CompactMap(before, f) + [f(x).value] + CompactMap(after, f);
    assert CompactMap(s, f) == kept;
    assert kept[|CompactMap(before, f)|] == f(x).value;
  }

  /** One element gives its present result, or nothing. */
  lemma CompactMapOne<T, U>(x: T, f: T -> Option<U>)
    ensures CompactMap([x], f) == if f(x).Some? then [f(x).value] else []
  {
    assert [x][..0] == [];
  }

  /** The entries of a dictionary, each exactly once, in an unspecified order
      (Swift's `Dictionary` iteration order, or the order a store returns). */
  method EntriesInSomeOrder<K, V>(m: map<K, V>) returns (entries: seq<(K, V)>)
    ensures |entries| == |m|
    ensures forall k :: k in m ==> (k, m[k]) in entries
    ensures forall i :: 0 <= i < |entries| ==> entries[i].0 in m && m[entries[i].0] == entries[i].1
    ensures forall i, j :: 0 <= i < j < |entries| ==> entries[i].0 != entries[j].0
  {
    var remaining := m.Keys;
    entries := [];
    assert |m.Keys| == |m|;
    while remaining != {}
      invariant remaining <= m.Keys
      invariant |entries| + |remaining| == |m|
      invariant forall k :: k in m && k !in remaining ==> (k, m[k]) in entries
      invariant forall i :: 0 <= i < |entries| ==> entries[i].0 in m && entries[i].0 !in remaining && m[entries[i].0] == entries[i].1
      invariant forall i, j :: 0 <= i < j < |entries| ==> entries[i].0 != entries[j].0
      decreases remaining
    {
      var k :| k in remaining;
      entries := entries + [(k, m[k])];
      remaining := remaining - {k};
    }
  }
}
