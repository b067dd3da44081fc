/**
 Stable sorting by a numeric key, ascending: the meaning of `Array.sort` with a
 comparator that subtracts keys.  The result is pinned down by what it must be,
 so it does not matter which algorithm computes it.
 */
module StableSort {
  import opened Sequences

  ghost predicate Sorted<T(!new)>(s: seq<T>, key: T -> real) {
    s == [] ||
    var (front, last) := (s[..|s| - 1], s[|s| - 1]);
    Sorted(front, key) && forall x :: x in front ==> key(x) <= key(last)
  }

  lemma {:induction false} SortedMeans<T(!new)>(s: seq<T>, key: T -> real)
    requires Sorted(s, key)
    ensures forall i, j :: 0 <= i < j < |s| ==> key(s[i]) <= key(s[j])
  {
    if s != [] {
      var front := s[..|s| - 1];
      SortedMeans(front, key);
      forall i, j | 0 <= i < j < |s| ensures key(s[i]) <= key(s[j]) {
        assert s[i] == front[i] && front[i] in front;
        assert j < |front| ==> s[j] == front[j];
      }
    }
  }

  /** Nothing after a cut comes before anything ahead of it. */
  lemma CutSorted<T(!new)>(s: seq<T>, n: nat, key: T -> real)
    requires Sorted(s, key) && n <= |s|
    ensures forall x, y :: x in s[..n] && y in s[n..] ==> key(x) <= key(y)
  {
    SortedMeans(s, key);
    forall x, y | x in s[..n] && y in s[n..] ensures key(x) <= key(y) {
      var i :| 0 <= i < n && s[i] == x;
      var j :| n <= j < |s| && s[j] == y;
    }
  }

  lemma CutCounts<T>(s: seq<T>, n: nat)
    requires n <= |s|
    ensures multiset(s[..n]) + multiset(s[n..]) == multiset(s)
  {
    assert s == s[..n] + s[n..];
  }

  lemma LastIsGreatest<T(!new)>(s: seq<T>, key: T -> real)
    requires Sorted(s, key) && s != []
    ensures forall x :: x in s ==> key(x) <= key(s[|s| - 1])
  {
    var (front, last) := (s[..|s| - 1], s[|s| - 1]);
    assert s == front + [last];
  }

  /** Put x after everything whose key is not greater. */
  function Insert<T>(s: seq<T>, x: T, key: T -> real): seq<T> {
    if s == [] || key(s[|s| - 1]) <= key(x) then s + [x]
    else Insert(s[..|s| - 1], x, key) + [s[|s| - 1]]
  }

  function SortBy<T>(s: seq<T>, key: T -> real): seq<T> {
    if s == [] then [] else Insert(SortBy(s[..|s| - 1], key), s[|s| - 1], key)
  }

  /** The elements with one key, in order. */
  function WithKey<T>(s: seq<T>, key: T -> real, v: real): seq<T> {
    if s == [] then []
    else
      var (front, x) := (WithKey(s[..|s| - 1], key, v), s[|s| - 1]);
      if key(x) == v then front + [x] else front
  }

  lemma WithKeySnoc<T>(s: seq<T>, x: T, key: T -> real, v: real)
    ensures WithKey(s + [x], key, v) == WithKey(s, key, v) + if key(x) == v then [x] else []
  {
    assert (s + [x])[..|s|] == s;
  }

  lemma {:induction false} WithKeyMember<T(!new)>(s: seq<T>, key: T -> real, v: real)
    ensures WithKey(s, key, v) != [] <==> exists x :: x in s && key(x) == v
  {
    if s != [] {
      var (front, last) := (s[..|s| - 1], s[|s| - 1]);
      WithKeyMember(front, key, v);
      assert s == front + [last];
    }
  }

  lemma SortedSnoc<T(!new)>(s: seq<T>, x: T, key: T -> real)
    ensures Sorted(s + [x], key) <==> Sorted(s, key) && forall y :: y in s ==> key(y) <= key(x)
  {
    assert (s + [x])[..|s|] == s;
  }

  lemma {:induction false} InsertMeans<T(!new)>(s: seq<T>, x: T, key: T -> real)
    requires Sorted(s, key)
    ensures Sorted(Insert(s, x, key), key)
    ensures multiset(Insert(s, x, key)) == multiset(s) + multiset{x}
    ensures forall y :: y in Insert(s, x, key) <==> y in s || y == x
  {
    if s == [] || key(s[|s| - 1]) <= key(x) {
      SortedSnoc(s, x, key);
      if s != [] {
        LastIsGreatest(s, key);
      }
    } else {
      var (front, last) := (s[..|s| - 1], s[|s| - 1]);
      assert s == front + [last];
      InsertMeans(front, x, key);
      SortedSnoc(Insert(front, x, key), last, key);
    }
  }

  lemma {:induction false} InsertKeepsOrder<T>(s: seq<T>, x: T, key: T -> real, v: real)
    ensures WithKey(Insert(s, x, key), key, v) == WithKey(s, key, v) + if key(x) == v then [x] else []
  {
    if s == [] || key(s[|s| - 1]) <= key(x) {
      WithKeySnoc(s, x, key, v);
    } else {
      var (front, last) := (s[..|s| - 1], s[|s| - 1]);
      assert s == front + [last];
      InsertKeepsOrder(front, x, key, v);
      WithKeySnoc(Insert(front, x, key), last, key, v);
      WithKeySnoc(front, last, key, v);
    }
  }

  /** The result is a sorted permutation... */
  lemma {:induction false} SortByMeans<T(!new)>(s: seq<T>, key: T -> real)
    ensures Sorted(SortBy(s, key), key)
    ensures multiset(SortBy(s, key)) == multiset(s)
    ensures forall x :: x in SortBy(s, key) <==> x in s
  {
    if s != [] {
      var (front, x) := (s[..|s| - 1], s[|s| - 1]);
      assert s == front + [x];
      SortByMeans(front, key);
      InsertMeans(SortBy(front, key), x, key);
    }
  }

  /** ...that keeps elements of equal key in their order. */
  lemma {:induction false} SortByIsStable<T(!new)>(s: seq<T>, key: T -> real, v: real)
    ensures WithKey(SortBy(s, key), key, v) == WithKey(s, key, v)
  {
    if s != [] {
      SortByIsStable(s[..|s| - 1], key, v);
      InsertKeepsOrder(SortBy(s[..|s| - 1], key), s[|s| - 1], key, v);
    }
  }

  ghost predicate SameGroups<T(!new)>(a: seq<T>, b: seq<T>, key: T -> real) {
    forall v :: WithKey(a, key, v) == WithKey(b, key, v)
  }

  /** There is only one such sequence. */
  lemma {:induction false} SortedStableUnique<T(!new)>(a: seq<T>, b: seq<T>, key: T -> real)
    requires Sorted(a, key) && Sorted(b, key) && SameGroups(a, b, key)
    ensures a == b
  {
    SameGroupsEmpty(a, b, key);
    SameGroupsEmpty(b, a, key);
    if a != [] {
      LastKeyNotBelow(a, b, key);
      LastKeyNotBelow(b, a, key);
      var (x, y, v) := (a[|a| - 1], b[|b| - 1], key(a[|a| - 1]));
      var (fa, fb) := (a[..|a| - 1], b[..|b| - 1]);
      assert a == fa + [x] && b == fb + [y];
      forall u ensures WithKey(fa, key, u) == WithKey(fb, key, u) && (u == v ==> x == y) {
        assert WithKey(a, key, u) == WithKey(b, key, u);
        if u == v {
          LastEqual(WithKey(fa, key, u), x, WithKey(fb, key, u), y);
        }
      }
      assert WithKey(fa, key, v) == WithKey(fb, key, v);
      SortedStableUnique(fa, fb, key);
    }
  }

  lemma SameGroupsEmpty<T(!new)>(a: seq<T>, b: seq<T>, key: T -> real)
    requires SameGroups(a, b, key)
    ensures b != [] ==> a != []
  {
    if b != [] {
      var v := key(b[|b| - 1]);
      assert WithKey(b, key, v) != [];
      assert WithKey(a, key, v) == WithKey(b, key, v);
    }
  }

  lemma LastKeyNotBelow<T(!new)>(a: seq<T>, b: seq<T>, key: T -> real)
    requires a != [] && b != [] && Sorted(b, key) && SameGroups(a, b, key)
    ensures key(a[|a| - 1]) <= key(b[|b| - 1])
  {
    var v := key(a[|a| - 1]);
    assert WithKey(a, key, v) == WithKey(b, key, v);
    WithKeyMember(b, key, v);
    LastIsGreatest(b, key);
  }

  // ----- sorting what is already sorted by another key

  /** Ordered by the first key, and by the second where the first is equal. */
  ghost predicate Lexicographic<T(!new)>(s: seq<T>, first: T -> real, second: T -> real) {
    s == [] ||
    var (front, last) := (s[..|s| - 1], s[|s| - 1]);
    Lexicographic(front, first, second) && forall x :: x in front ==> NotAfter(x, last, first, second)
  }

  predicate NotAfter<T>(x: T, y: T, first: T -> real, second: T -> real) {
    first(x) < first(y) || (first(x) == first(y) && second(x) <= second(y))
  }

  lemma {:induction false} LexicographicMeans<T(!new)>(s: seq<T>, first: T -> real, second: T -> real, i: nat, j: nat)
    requires Lexicographic(s, first, second) && i < j < |s|
    ensures NotAfter(s[i], s[j], first, second)
  {
    var front := s[..|s| - 1];
    assert s[i] == front[i] && front[i] in front;
    if j < |front| {
      LexicographicMeans(front, first, second, i, j);
    }
  }

  lemma {:induction false} PrefixSorted<T(!new)>(s: seq<T>, n: nat, key: T -> real)
    requires n <= |s| && Sorted(s, key)
    ensures Sorted(s[..n], key)
  {
    if n == |s| {
      assert s[..n] == s;
    } else {
      PrefixSorted(s[..|s| - 1], n, key);
      assert s[..|s| - 1][..n] == s[..n];
    }
  }

  /** A prefix holds nothing that should come after the rest. */
  lemma PrefixIsTop<T(!new)>(s: seq<T>, n: nat, first: T -> real, second: T -> real)
    requires n <= |s| && Lexicographic(s, first, second)
    ensures forall i, j :: 0 <= i < j < n ==> NotAfter(s[..n][i], s[..n][j], first, second)
    ensures forall x, y :: x in s[..n] && y in s[n..] ==> NotAfter(x, y, first, second)
    ensures multiset(s[..n]) + multiset(s[n..]) == multiset(s)
  {
    var (prefix, rest) := (s[..n], s[n..]);
    assert s == prefix + rest;
    forall i, j | 0 <= i < j < n ensures NotAfter(prefix[i], prefix[j], first, second) {
      LexicographicMeans(s, first, second, i, j);
    }
    forall x, y | x in prefix && y in rest ensures NotAfter(x, y, first, second) {
      ApartInOrder(prefix, rest, x, y, first, second);
    }
  }

  lemma ApartInOrder<T(!new)>(prefix: seq<T>, rest: seq<T>, x: T, y: T, first: T -> real, second: T -> real)
    requires Lexicographic(prefix + rest, first, second) && x in prefix && y in rest
    ensures NotAfter(x, y, first, second)
  {
    var s := prefix + rest;
    var i :| 0 <= i < |prefix| && prefix[i] == x;
    var j :| 0 <= j < |rest| && rest[j] == y;
    assert s[i] == x && s[|prefix| + j] == y;
    LexicographicMeans(s, first, second, i, |prefix| + j);
  }

  lemma HeadIsFirst<T(!new)>(s: seq<T>, first: T -> real, second: T -> real)
    requires s != [] && Lexicographic(s, first, second)
    ensures forall x :: x in s ==> NotAfter(s[0], x, first, second)
  {
    forall x | x in s ensures NotAfter(s[0], x, first, second) {
      var j :| 0 <= j < |s| && s[j] == x;
      if j > 0 {
        LexicographicMeans(s, first, second, 0, j);
      }
    }
  }

  lemma LexicographicSnoc<T(!new)>(s: seq<T>, x: T, first: T -> real, second: T -> real)
    ensures Lexicographic(s + [x], first, second)
            <==> Lexicographic(s, first, second) && forall y :: y in s ==> NotAfter(y, x, first, second)
  {
    assert (s + [x])[..|s|] == s;
  }

  lemma {:induction false} InsertLexicographic<T(!new)>(s: seq<T>, x: T, first: T -> real, second: T -> real)
    requires Lexicographic(s, first, second) && Sorted(s, first)
    requires forall y :: y in s ==> second(y) <= second(x)
    ensures Lexicographic(Insert(s, x, first), first, second)
  {
    if s == [] || first(s[|s| - 1]) <= first(x) {
      LexicographicSnoc(s, x, first, second);
      SortedMeans(s, first);
    } else {
      var (front, last) := (s[..|s| - 1], s[|s| - 1]);
      assert s == front + [last];
      InsertLexicographic(front, x, first, second);
      InsertMeans(front, x, first);
      LexicographicSnoc(Insert(front, x, first), last, first, second);
    }
  }

  /** Sorting by one key a list already sorted by another breaks ties by it. */
  lemma {:induction false} SortByLexicographic<T(!new)>(s: seq<T>, first: T -> real, second: T -> real)
    requires Sorted(s, second)
    ensures Lexicographic(SortBy(s, first), first, second)
  {
    if s != [] {
      var (front, x) := (s[..|s| - 1], s[|s| - 1]);
      SortByLexicographic(front, first, second);
      SortByMeans(front, first);
      InsertLexicographic(SortBy(front, first), x, first, second);
    }
  }

  /** Keys that order the elements alike sort alike. */
  lemma {:induction false} SortByOrderOnly<T(!new)>(s: seq<T>, a: T -> real, b: T -> real)
    requires forall x, y :: x in s && y in s ==> (a(x) <= a(y) <==> b(x) <= b(y))
    ensures SortBy(s, a) == SortBy(s, b)
  {
    if s != [] {
      var (front, x) := (s[..|s| - 1], s[|s| - 1]);
      assert s == front + [x];
      SortByOrderOnly(front, a, b);
      SortByMeans(front, a);
      InsertOrderOnly(SortBy(front, a), x, a, b);
    }
  }

  lemma {:induction false} InsertOrderOnly<T(!new)>(s: seq<T>, x: T, a: T -> real, b: T -> real)
    requires forall y :: y in s ==> (a(y) <= a(x) <==> b(y) <= b(x))
    ensures Insert(s, x, a) == Insert(s, x, b)
  {
    if s != [] {
      assert s[|s| - 1] in s;
      InsertOrderOnly(s[..|s| - 1], x, a, b);
    }
  }

  // ----- mapping before or after sorting

  function Map<A, B>(s: seq<A>, f: A -> B): (r: seq<B>)
    ensures |r| == |s|
  {
    if s == [] then [] else Map(s[..|s| - 1], f) + [f(s[|s| - 1])]
  }

  lemma {:induction false} MapInsert<A(!new), B>(s: seq<A>, x: A, f: A -> B, ka: A -> real, kb: B -> real)
    requires forall y: A :: kb(f(y)) == ka(y)
    ensures Map(Insert(s, x, ka), f) == Insert(Map(s, f), f(x), kb)
  {
    if s == [] || ka(s[|s| - 1]) <= ka(x) {
      assert (s + [x])[..|s|] == s;
    } else {
      var (front, last) := (s[..|s| - 1], s[|s| - 1]);
      MapInsert(front, x, f, ka, kb);
      var r := Insert(front, x, ka);
      assert (r + [last])[..|r|] == r;
      assert Map(s, f)[..|front|] == Map(front, f);
    }
  }

  /** It does not matter whether a list is mapped before or after sorting by a
      key that the mapping keeps. */
  lemma {:induction false} MapSortBy<A(!new), B>(s: seq<A>, f: A -> B, ka: A -> real, kb: B -> real)
    requires forall y: A :: kb(f(y)) == ka(y)
    ensures Map(SortBy(s, ka), f) == SortBy(Map(s, f), kb)
  {
    if s != [] {
      var (front, x) := (s[..|s| - 1], s[|s| - 1]);
      MapSortBy(front, f, ka, kb);
      MapInsert(SortBy(front, ka), x, f, ka, kb);
      assert Map(s, f)[..|front|] == Map(front, f);
    }
  }
}
