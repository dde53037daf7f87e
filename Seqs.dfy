/** Sequence operations the app applies to its stored lists: `Array.prototype.filter`
    and the stable `Array.prototype.sort` with a numeric-key comparator. */
module Seqs {

  /** `s.filter(p)`: the elements satisfying `p`, in their original order. */
  function Filter<T>(p: T -> bool, s: seq<T>): (r: seq<T>)
    ensures |r| <= |s|
    ensures forall i :: 0 <= i < |r| ==> p(r[i])
    decreases |s|
  {
    if s == [] then []
    else (if p(s[0]) then [s[0]] else []) + Filter(p, s[1..])
  }

  /** `a` can be obtained from `b` by deleting elements (the order of `a` is kept in `b`). */
  predicate IsSubsequence<T(==)>(a: seq<T>, b: seq<T>)
    decreases |b|
  {
    a == [] ||
    (b != [] &&
      if a[0] == b[0] then IsSubsequence(a[1..], b[1..]) else IsSubsequence(a, b[1..]))
  }

  /** An element is kept exactly when it was there and satisfies the predicate. */
  lemma {:induction false} FilterMember<T>(p: T -> bool, s: seq<T>, x: T)
    ensures x in Filter(p, s) <==> x in s && p(x)
    decreases |s|
  {
    if s != [] {
      FilterMember(p, s[1..], x);
      assert s == [s[0]] + s[1..];
    }
  }

  /** Every element keeps its multiplicity if it satisfies the predicate, else it is gone. */
  lemma {:induction false} FilterCount<T>(p: T -> bool, s: seq<T>, x: T)
    ensures multiset(Filter(p, s))[x] == if p(x) then multiset(s)[x] else 0
    decreases |s|
  {
    if s != [] {
      FilterCount(p, s[1..], x);
      assert s == [s[0]] + s[1..];
    }
  }

  /** Filtering distributes over concatenation. */
  lemma {:induction false} FilterAppend<T>(p: T -> bool, a: seq<T>, b: seq<T>)
    ensures Filter(p, a + b) == Filter(p, a) + Filter(p, b)
    decreases |a|
  {
    if a != [] {
      assert (a + b)[1..] == a[1..] + b;
      FilterAppend(p, a[1..], b);
    } else {
      assert a + b == b;
    }
  }

  /** The filtered list keeps the order of the original. */
  lemma {:induction false} FilterIsSubsequence<T>(p: T -> bool, s: seq<T>)
    ensures IsSubsequence(Filter(p, s), s)
    decreases |s|
  {
    if s != [] {
      FilterIsSubsequence(p, s[1..]);
      var rest := Filter(p, s[1..]);
      if p(s[0]) {
        assert Filter(p, s) == [s[0]] + rest;
        assert ([s[0]] + rest)[1..] == rest;
      } else {
        assert Filter(p, s) == rest;
        assert rest != [] ==> p(rest[0]) && rest[0] != s[0];
      }
    }
  }

  /** A predicate and its negation split a list: the two filtered lists share no
      element and together hold every element exactly as often as the list did. */
  lemma FilterPartition<T>(p: T -> bool, q: T -> bool, s: seq<T>)
    requires forall x :: q(x) == !p(x)
    ensures multiset(Filter(p, s)) + multiset(Filter(q, s)) == multiset(s)
    ensures forall x :: x in Filter(p, s) ==> x !in Filter(q, s)
  {
    FilterPartitionCount(p, q, s);
    forall x | x in Filter(p, s)
      ensures x !in Filter(q, s)
    {
      FilterMember(p, s, x);
      FilterMember(q, s, x);
    }
  }

  lemma {:induction false} FilterPartitionCount<T>(p: T -> bool, q: T -> bool, s: seq<T>)
    requires forall x :: q(x) == !p(x)
    ensures multiset(Filter(p, s)) + multiset(Filter(q, s)) == multiset(s)
    decreases |s|
  {
    if s != [] {
      FilterPartitionCount(p, q, s[1..]);
      assert s == [s[0]] + s[1..];
      assert Filter(p, s) == (if p(s[0]) then [s[0]] else []) + Filter(p, s[1..]);
      assert Filter(q, s) == (if q(s[0]) then [s[0]] else []) + Filter(q, s[1..]);
    }
  }

  /** Nothing is kept exactly when no element satisfies the predicate. */
  lemma {:induction false} FilterEmpty<T>(p: T -> bool, s: seq<T>)
    ensures Filter(p, s) == [] <==> forall x :: x in s ==> !p(x)
    decreases |s|
  {
    if s != [] {
      FilterEmpty(p, s[1..]);
      assert forall x :: x in s <==> x == s[0] || x in s[1..];
    }
  }

  /** When every element satisfies the predicate, filtering keeps the list as it is. */
  lemma {:induction false} FilterAll<T>(p: T -> bool, s: seq<T>)
    requires forall x :: x in s ==> p(x)
    ensures Filter(p, s) == s
    decreases |s|
  {
    if s != [] {
      assert s[0] in s;
      FilterAll(p, s[1..]);
      assert s == [s[0]] + s[1..];
    }
  }

  // ---------------------------------------------------------------------------
  // Stable sort by an integer key: `s.sort((a, b) => key(a) - key(b))`

  predicate SortedBy<T>(key: T -> int, s: seq<T>) {
    forall i, j :: 0 <= i < j < |s| ==> key(s[i]) <= key(s[j])
  }

  /** Place `x` after every element whose key is at most its own. */
  function InsertBy<T>(key: T -> int, x: T, s: seq<T>): seq<T>
    decreases |s|
  {
    if s == [] then [x]
    else if key(x) < key(s[0]) then [x] + s
    else [s[0]] + InsertBy(key, x, s[1..])
  }

  /** Insertion sort taking the elements in list order; equal keys keep their order. */
  function SortBy<T>(key: T -> int, s: seq<T>): seq<T>
    decreases |s|
  {
    if s == [] then [] else InsertBy(key, s[|s| - 1], SortBy(key, s[..|s| - 1]))
  }

  lemma {:induction false} InsertByPermutes<T>(key: T -> int, x: T, s: seq<T>)
    ensures multiset(InsertBy(key, x, s)) == multiset(s) + multiset{x}
    decreases |s|
  {
    if s != [] && key(s[0]) <= key(x) {
      InsertByPermutes(key, x, s[1..]);
      assert s == [s[0]] + s[1..];
    }
  }

  lemma {:induction false} InsertBySorted<T>(key: T -> int, x: T, s: seq<T>)
    requires SortedBy(key, s)
    ensures SortedBy(key, InsertBy(key, x, s))
    decreases |s|
  {
    if s != [] && key(s[0]) <= key(x) {
      InsertBySorted(key, x, s[1..]);
      InsertByBound(key, x, s[1..], key(s[0]));
      ConsSorted(key, s[0], InsertBy(key, x, s[1..]));
    }
  }

  /** A lower bound on every element and on `x` bounds the list after the insertion. */
  lemma InsertByBound<T>(key: T -> int, x: T, s: seq<T>, b: int)
    requires forall i :: 0 <= i < |s| ==> b <= key(s[i])
    requires b <= key(x)
    ensures forall y :: y in InsertBy(key, x, s) ==> b <= key(y)
  {
    InsertByPermutes(key, x, s);
    forall y | y in InsertBy(key, x, s) ensures b <= key(y) {
      assert y in multiset(InsertBy(key, x, s));
      assert y in multiset(s) || y == x;
    }
  }

  /** An element no larger than any in a sorted list can go in front of it. */
  lemma ConsSorted<T>(key: T -> int, h: T, rest: seq<T>)
    requires SortedBy(key, rest)
    requires forall y :: y in rest ==> key(h) <= key(y)
    ensures SortedBy(key, [h] + rest)
  {
    var r := [h] + rest;
    forall i, j | 0 <= i < j < |r| ensures key(r[i]) <= key(r[j]) {
      if i > 0 {
        assert r[i] == rest[i - 1] && r[j] == rest[j - 1];
      } else {
        assert r[j] in rest;
      }
    }
  }

  lemma InsertByFacts<T>(key: T -> int, x: T, s: seq<T>)
    requires SortedBy(key, s)
    ensures SortedBy(key, InsertBy(key, x, s))
    ensures multiset(InsertBy(key, x, s)) == multiset(s) + multiset{x}
  {
    InsertBySorted(key, x, s);
    InsertByPermutes(key, x, s);
  }

  /** The sorted list is ordered by key and is a permutation of the input. */
  lemma {:induction false} SortByFacts<T>(key: T -> int, s: seq<T>)
    ensures SortedBy(key, SortBy(key, s))
    ensures multiset(SortBy(key, s)) == multiset(s)
    decreases |s|
  {
    if s != [] {
      var init := s[..|s| - 1];
      SortByFacts(key, init);
      InsertByFacts(key, s[|s| - 1], SortBy(key, init));
      assert s == init + [s[|s| - 1]];
    }
  }

  /** Inserting `x` keeps, within one key value `k`, the earlier elements first and
      puts `x` last among them. */
  lemma {:induction false} InsertByStable<T>(key: T -> int, p: T -> bool, k: int, x: T, s: seq<T>)
    requires forall y :: p(y) == (key(y) == k)
    requires SortedBy(key, s)
    ensures Filter(p, InsertBy(key, x, s)) == Filter(p, s) + (if p(x) then [x] else [])
    decreases |s|
  {
    if s == [] {
      FilterCons(p, x, []);
    } else if key(x) < key(s[0]) {
      assert InsertBy(key, x, s) == [x] + s;
      FilterCons(p, x, s);
      if p(x) {
        KeysAbove(key, s, k);
        FilterEmpty(p, s);
      }
    } else {
      assert InsertBy(key, x, s) == [s[0]] + InsertBy(key, x, s[1..]);
      SortedTail(key, s);
      InsertByStable(key, p, k, x, s[1..]);
      FilterCons(p, s[0], InsertBy(key, x, s[1..]));
      FilterCons(p, s[0], s[1..]);
      assert s == [s[0]] + s[1..];
    }
  }

  /** In a sorted list whose first key exceeds `k`, no key is `k`. */
  lemma KeysAbove<T>(key: T -> int, s: seq<T>, k: int)
    requires SortedBy(key, s) && s != [] && k < key(s[0])
    ensures forall y :: y in s ==> key(y) != k
  {
    forall y | y in s ensures key(y) != k {
      var i :| 0 <= i < |s| && s[i] == y;
      if i > 0 {
        assert key(s[0]) <= key(s[i]);
      }
    }
  }

  /** Filtering a list with a known head looks at the head, then at the rest. */
  lemma FilterCons<T>(p: T -> bool, h: T, t: seq<T>)
    ensures Filter(p, [h] + t) == (if p(h) then [h] else []) + Filter(p, t)
  {
    assert ([h] + t)[1..] == t;
  }

  lemma SortedTail<T>(key: T -> int, s: seq<T>)
    requires s != [] && SortedBy(key, s)
    ensures SortedBy(key, s[1..])
  {
    forall i, j | 0 <= i < j < |s| - 1 ensures key(s[1..][i]) <= key(s[1..][j]) {
      assert s[1..][i] == s[i + 1] && s[1..][j] == s[j + 1];
    }
  }

  /** Sorting is stable: the elements with any one key appear in their input order. */
  lemma {:induction false} SortByStable<T>(key: T -> int, p: T -> bool, k: int, s: seq<T>)
    requires forall y :: p(y) == (key(y) == k)
    ensures Filter(p, SortBy(key, s)) == Filter(p, s)
    decreases |s|
  {
    if s != [] {
      var init, last := s[..|s| - 1], s[|s| - 1];
      assert s == init + [last];
      SortByStable(key, p, k, init);
      SortByFacts(key, init);
      InsertByStable(key, p, k, last, SortBy(key, init));
      FilterAppend(p, init, [last]);
      FilterCons(p, last, []);
      assert [last] + [] == [last];
    }
  }

  /** A list already in key order is left as it is. */
  lemma {:induction false} SortBySorted<T>(key: T -> int, s: seq<T>)
    requires SortedBy(key, s)
    ensures SortBy(key, s) == s
    decreases |s|
  {
    if s != [] {
      var init, last := s[..|s| - 1], s[|s| - 1];
      SortBySorted(key, init);
      InsertAtEnd(key, last, init);
      assert s == init + [last];
    }
  }

  lemma {:induction false} InsertAtEnd<T>(key: T -> int, x: T, s: seq<T>)
    requires forall y :: y in s ==> key(y) <= key(x)
    ensures InsertBy(key, x, s) == s + [x]
    decreases |s|
  {
    if s != [] {
      assert s[0] in s;
      InsertAtEnd(key, x, s[1..]);
      assert s == [s[0]] + s[1..];
    }
  }
}
