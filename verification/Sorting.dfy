/** Go's `sort` package as its callers may rely on it: an unstable in-place sort that
    permutes its input and, when the comparator is a strict weak order, leaves no inversion. */
module Sorting {
  import opened Text

  /** No element is less than one that stands before it. */
  ghost predicate Ordered<T(!new)>(less: (T, T) -> bool, s: seq<T>) {
    forall i, j | 0 <= i < j < |s| :: !less(s[j], s[i])
  }

  /** The comparator is a strict weak order on the elements of s. */
  ghost predicate StrictWeakOrder<T(!new)>(less: (T, T) -> bool, s: seq<T>) {
    && (forall x | x in s :: !less(x, x))
    && (forall x, y | x in s && y in s && less(x, y) :: !less(y, x))
    && (forall x, y, z | x in s && y in s && z in s && less(x, z) :: less(x, y) || less(y, z))
  }

  /** A strict weak order that also tells any two different elements apart. */
  ghost predicate StrictTotalOrder<T(!new)>(less: (T, T) -> bool, s: seq<T>) {
    && StrictWeakOrder(less, s)
    && forall x, y | x in s && y in s && x != y :: less(x, y) || less(y, x)
  }

  /** What a call of sort.Slice may leave behind. */
  ghost predicate SortedCopy<T(!new)>(less: (T, T) -> bool, before: seq<T>, after: seq<T>) {
    && multiset(after) == multiset(before)
    && (StrictWeakOrder(less, before) ==> Ordered(less, after))
  }

  lemma SameElements<T>(a: seq<T>, b: seq<T>)
    requires multiset(a) == multiset(b)
    ensures |a| == |b|
    ensures forall x :: x in a <==> x in b
  {
    assert |multiset(a)| == |multiset(b)|;
    forall x ensures x in a <==> x in b {
      assert x in a <==> x in multiset(a);
      assert x in b <==> x in multiset(b);
    }
  }

  /** Insertion of one element into an ordered prefix, one swap at a time. */
  method SortSlice<T(!new)>(less: (T, T) -> bool, s: seq<T>) returns (r: seq<T>)
    ensures SortedCopy(less, s, r)
  {
    r := [];
    for n := 0 to |s|
      invariant multiset(r) == multiset(s[..n])
      invariant StrictWeakOrder(less, s) ==> Ordered(less, r)
    {
      var k := |r|;
      while k > 0 && less(s[n], r[k - 1])
        invariant 0 <= k <= |r|
        invariant forall j | k <= j < |r| :: less(s[n], r[j])
      {
        k := k - 1;
      }
      assert s[..n + 1] == s[..n] + [s[n]];
      if StrictWeakOrder(less, s) {
        SameElements(r, s[..n]);
        InsertKeepsOrder(less, s, r, s[n], k);
      }
      assert r == r[..k] + r[k..];
      r := r[..k] + [s[n]] + r[k..];
    }
    assert s[..|s|] == s;
  }

  lemma NegativelyTransitive<T(!new)>(less: (T, T) -> bool, s: seq<T>, x: T, y: T, z: T)
    requires StrictWeakOrder(less, s) && x in s && y in s && z in s
    ensures less(x, z) ==> less(x, y) || less(y, z)
  {
  }

  lemma InsertKeepsOrder<T(!new)>(less: (T, T) -> bool, s: seq<T>, r: seq<T>, x: T, k: nat)
    requires StrictWeakOrder(less, s) && x in s && forall y | y in r :: y in s
    requires Ordered(less, r) && k <= |r|
    requires k > 0 ==> !less(x, r[k - 1])
    requires forall j | k <= j < |r| :: less(x, r[j])
    ensures Ordered(less, r[..k] + [x] + r[k..])
  {
    forall i | 0 <= i < k ensures !less(x, r[i]) {
      NegativelyTransitive(less, s, x, r[k - 1], r[i]);
    }
  }

  lemma SameFirst<T(!new)>(less: (T, T) -> bool, a: seq<T>, b: seq<T>)
    requires a != [] && multiset(a) == multiset(b)
    requires forall x, y | x in a && y in a && x != y :: less(x, y) || less(y, x)
    requires Ordered(less, a) && Ordered(less, b)
    ensures b != [] && a[0] == b[0]
  {
    SameElements(a, b);
    assert a[0] in b && b[0] in a;
    var j :| 0 <= j < |b| && b[j] == a[0];
    var k :| 0 <= k < |a| && a[k] == b[0];
    assert j > 0 ==> !less(b[j], b[0]);
    assert k > 0 ==> !less(a[k], a[0]);
  }

  lemma TailElements<T>(a: seq<T>)
    requires a != []
    ensures a == [a[0]] + a[1..]
    ensures multiset(a[1..]) == multiset(a) - multiset{a[0]}
  {
    assert a == [a[0]] + a[1..];
  }

  lemma WithoutOne<T>(s: seq<T>, k: nat)
    requires k < |s|
    ensures multiset(s[..k] + s[k + 1..]) == multiset(s) - multiset{s[k]}
  {
    assert s == s[..k] + [s[k]] + s[k + 1..];
  }

  /** Under a strict total order the sorted list is determined by the elements alone, so it
      depends neither on the order of the input nor on the algorithm. */
  lemma {:induction false} OrderedIsUnique<T(!new)>(less: (T, T) -> bool, a: seq<T>, b: seq<T>)
    requires multiset(a) == multiset(b)
    requires forall x, y | x in a && y in a && x != y :: less(x, y) || less(y, x)
    requires Ordered(less, a) && Ordered(less, b)
    ensures a == b
  {
    SameElements(a, b);
    if a != [] {
      SameFirst(less, a, b);
      TailElements(a);
      TailElements(b);
      OrderedIsUnique(less, a[1..], b[1..]);
    }
  }

  lemma StrictTotalOrderTransfers<T(!new)>(less: (T, T) -> bool, a: seq<T>, b: seq<T>)
    requires multiset(a) == multiset(b)
    requires StrictTotalOrder(less, a)
    ensures StrictTotalOrder(less, b)
  {
    SameElements(a, b);
  }

  /** Two sorts of two permutations of the same elements agree. */
  lemma SortIsCanonical<T(!new)>(less: (T, T) -> bool, a: seq<T>, b: seq<T>, sortedA: seq<T>, sortedB: seq<T>)
    requires multiset(a) == multiset(b)
    requires StrictTotalOrder(less, a)
    requires SortedCopy(less, a, sortedA) && SortedCopy(less, b, sortedB)
    ensures sortedA == sortedB
  {
    StrictTotalOrderTransfers(less, a, b);
    StrictTotalOrderTransfers(less, a, sortedA);
    OrderedIsUnique(less, sortedA, sortedB);
  }

  // ----- sort.Strings on a set of keys -----

  ghost predicate IsSortedSet(keys: set<string>, s: seq<string>) {
    && (forall k :: k in keys <==> k in s)
    && (forall i, j | 0 <= i < j < |s| :: Less(s[i], s[j]))
  }

  lemma SortedSetExists(keys: set<string>)
    ensures exists s :: IsSortedSet(keys, s)
  {
    if keys == {} {
      assert IsSortedSet(keys, []);
    } else {
      var k :| k in keys;
      SortedSetExists(keys - {k});
      var s :| IsSortedSet(keys - {k}, s);
      var r := InsertKey(s, k);
      assert IsSortedSet(keys, r);
    }
  }

  lemma {:induction false} InsertKey(s: seq<string>, k: string) returns (r: seq<string>)
    requires k !in s && forall i, j | 0 <= i < j < |s| :: Less(s[i], s[j])
    ensures forall i, j | 0 <= i < j < |r| :: Less(r[i], r[j])
    ensures forall x :: x in r <==> x == k || x in s
  {
    if s == [] {
      r := [k];
    } else if Less(k, s[0]) {
      forall j | 0 <= j < |s| ensures Less(k, s[j]) {
        if j > 0 { LessTransitive(k, s[0], s[j]); }
      }
      r := [k] + s;
    } else {
      assert s == [s[0]] + s[1..];
      var t := InsertKey(s[1..], k);
      LessTotal(k, s[0]);
      forall j | 0 <= j < |t| ensures Less(s[0], t[j]) {
        assert t[j] in t;
      }
      r := [s[0]] + t;
    }
  }

  lemma {:induction false} SortedSetUnique(keys: set<string>, a: seq<string>, b: seq<string>)
    requires IsSortedSet(keys, a) && IsSortedSet(keys, b)
    ensures a == b
  {
    assert a != [] <==> b != [] by {
      if a != [] { assert a[0] in keys; }
      if b != [] { assert b[0] in keys; }
    }
    if a != [] {
      assert a[0] in keys && b[0] in keys;
      assert a[0] in b && b[0] in a;
      var j :| 0 <= j < |b| && b[j] == a[0];
      var k :| 0 <= k < |a| && a[k] == b[0];
      if a[0] != b[0] {
        LessTransitive(a[0], b[0], a[0]);
        LessIrreflexive(a[0]);
        assert false;
      }
      TailIsSortedSet(keys, a);
      TailIsSortedSet(keys, b);
      SortedSetUnique(keys - {a[0]}, a[1..], b[1..]);
      assert a == [a[0]] + a[1..] && b == [b[0]] + b[1..];
    }
  }

  lemma TailIsSortedSet(keys: set<string>, a: seq<string>)
    requires a != [] && IsSortedSet(keys, a)
    ensures IsSortedSet(keys - {a[0]}, a[1..])
  {
    assert a == [a[0]] + a[1..];
    LessIrreflexive(a[0]);
    forall x ensures x in keys - {a[0]} <==> x in a[1..] {
      assert x in keys <==> x in a;
    }
  }

  lemma {:induction false} SortedSetSize(keys: set<string>, s: seq<string>)
    requires IsSortedSet(keys, s)
    ensures |s| == |keys|
  {
    if s == [] {
      assert keys == {};
    } else {
      TailIsSortedSet(keys, s);
      SortedSetSize(keys - {s[0]}, s[1..]);
      assert s[0] in keys;
    }
  }

  /** The keys of a set in increasing order. */
  ghost function SortedKeys(keys: set<string>): (s: seq<string>)
    ensures IsSortedSet(keys, s)
  {
    SortedSetExists(keys);
    var s :| IsSortedSet(keys, s);
    s
  }

  /** That is: in the order of Go's strings, and each key once. */
  ghost predicate InStringOrder(keys: seq<string>) {
    forall i, j | 0 <= i < j < |keys| :: Precedes(keys[i], keys[j])
  }

  lemma SortedIsInStringOrder(keys: set<string>, s: seq<string>)
    requires IsSortedSet(keys, s)
    ensures InStringOrder(s)
  {
    forall i, j | 0 <= i < j < |s| ensures Precedes(s[i], s[j]) {
      LessIsPrecedes(s[i], s[j]);
    }
  }

  /** Go's `for key := range m` visits the keys in no particular order; sort.Strings then
      fixes the order. */
  method SortStrings(keys: set<string>) returns (s: seq<string>)
    ensures s == SortedKeys(keys)
  {
    var rest := keys;
    var visited: seq<string> := [];
    while rest != {}
      invariant rest <= keys
      invariant forall k :: k in keys <==> k in rest || k in visited
      invariant forall k | k in rest :: k !in visited
      invariant forall i, j | 0 <= i < j < |visited| :: visited[i] != visited[j]
      decreases rest
    {
      var k :| k in rest;
      visited := visited + [k];
      rest := rest - {k};
    }
    s := SortSlice(Less, visited);
    LessIsTotal(visited);
    DistinctSortIsSet(keys, visited, s);
    SortedSetUnique(keys, s, SortedKeys(keys));
  }

  lemma LessIsTotal(s: seq<string>)
    ensures StrictTotalOrder(Less, s)
  {
    forall x ensures !Less(x, x) { LessIrreflexive(x); }
    forall x, y | Less(x, y) ensures !Less(y, x) {
      if Less(y, x) { LessTransitive(x, y, x); }
    }
    forall x, y | x != y ensures Less(x, y) || Less(y, x) { LessTotal(x, y); }
    forall x, y, z | Less(x, z) ensures Less(x, y) || Less(y, z) {
      if y != x && !Less(x, y) {
        LessTotal(x, y);
        LessTransitive(y, x, z);
      }
    }
  }

  lemma DistinctSortIsSet(keys: set<string>, visited: seq<string>, s: seq<string>)
    requires forall k :: k in keys <==> k in visited
    requires forall i, j | 0 <= i < j < |visited| :: visited[i] != visited[j]
    requires multiset(s) == multiset(visited) && Ordered(Less, s)
    ensures IsSortedSet(keys, s)
  {
    SameElements(s, visited);
    forall i, j | 0 <= i < j < |s| ensures Less(s[i], s[j]) {
      if s[i] == s[j] {
        RepeatedCount(s, i, j);
        DistinctCount(visited, s[i]);
        assert false;
      }
      LessTotal(s[i], s[j]);
    }
  }

  lemma RepeatedCount<T>(s: seq<T>, i: nat, j: nat)
    requires i < j < |s| && s[i] == s[j]
    ensures multiset(s)[s[i]] >= 2
  {
    assert s == s[..i] + [s[i]] + s[i + 1..j] + [s[j]] + s[j + 1..];
  }

  lemma {:induction false} DistinctCount<T>(s: seq<T>, x: T)
    requires forall i, j | 0 <= i < j < |s| :: s[i] != s[j]
    ensures multiset(s)[x] <= 1
  {
    if s != [] {
      DistinctCount(s[1..], x);
      assert s == [s[0]] + s[1..];
      assert s[0] !in s[1..];
    }
  }
}
