/**
 * Generic sequence operations behind the `filter`, `find`, `map`, `new Set(...)`,
 * `sort` and `reverse` calls of the dashboard.  Predicates and sort keys are passed
 * as total functions.
 */
module Seqs {
  import opened Wrappers

  /** `Array.prototype.filter`: the elements satisfying `p`, in their original order. */
  function Filter<T(!new)>(s: seq<T>, p: T -> bool): (r: seq<T>)
    ensures |r| <= |s|
    ensures forall x :: x in r <==> x in s && p(x)
  {
    if s == [] then [] else (if p(s[0]) then [s[0]] else []) + Filter(s[1..], p)
  }

  /** `Array.prototype.findIndex`: the first index whose element satisfies `p`. */
  function FindIndex<T>(s: seq<T>, p: T -> bool): (r: Option<nat>)
    ensures r.Some? ==> r.value < |s| && p(s[r.value])
    ensures r.Some? ==> forall j :: 0 <= j < r.value ==> !p(s[j])
    ensures r.None? <==> forall j :: 0 <= j < |s| ==> !p(s[j])
  {
    if s == [] then None
    else if p(s[0]) then Some(0)
    else match FindIndex(s[1..], p)
      case None => None
      case Some(k) => Some(k + 1)
  }

  /** `Array.prototype.map`. */
  function Map<T, U>(s: seq<T>, f: T -> U): (r: seq<U>)
    ensures |r| == |s| && forall i :: 0 <= i < |s| ==> r[i] == f(s[i])
  {
    seq(|s|, i requires 0 <= i < |s| => f(s[i]))
  }

  ghost predicate NoDup<T>(s: seq<T>) {
    forall i, j :: 0 <= i < j < |s| ==> s[i] != s[j]
  }

  function Elements<T>(s: seq<T>): set<T> {
    set i | 0 <= i < |s| :: s[i]
  }

  /** `[...new Set(s)]`: each element once, in order of first occurrence. */
  function Distinct<T(==, !new)>(s: seq<T>): (r: seq<T>)
    ensures forall x :: x in r <==> x in s
    ensures NoDup(r)
    ensures |r| <= |s|
  {
    if s == [] then []
    else
      var d := Distinct(s[..|s| - 1]);
      if s[|s| - 1] in d then d else d + [s[|s| - 1]]
  }

  function KeyIs<T>(key: T -> int, k: int): T -> bool {
    x => key(x) == k
  }

  function Negated<T>(key: T -> int): T -> int {
    x => -key(x)
  }

  /** Non-decreasing by `key`. */
  ghost predicate SortedBy<T>(s: seq<T>, key: T -> int) {
    forall i, j :: 0 <= i < j < |s| ==> key(s[i]) <= key(s[j])
  }

  /**
   * Places `x` after every trailing element whose key exceeds `key(x)`: in a
   * sequence sorted by `key` that is just after the last element with key <= key(x).
   */
  function InsertLast<T>(t: seq<T>, x: T, key: T -> int): (r: seq<T>)
    ensures |r| == |t| + 1
  {
    if t == [] then [x]
    else if key(t[|t| - 1]) <= key(x) then t + [x]
    else
      assert t == t[..|t| - 1] + [t[|t| - 1]];
      InsertLast(t[..|t| - 1], x, key) + [t[|t| - 1]]
  }

  /**
   * The stable ascending sort that `Array.prototype.sort` performs with the comparator
   * `(a, b) => key(a) - key(b)`: insertion sort, one element at a time, left to right.
   */
  function SortBy<T>(s: seq<T>, key: T -> int): (r: seq<T>)
    ensures |r| == |s|
  {
    if s == [] then []
    else
      assert s == s[..|s| - 1] + [s[|s| - 1]];
      InsertLast(SortBy(s[..|s| - 1], key), s[|s| - 1], key)
  }

  /** The sort with comparator `(a, b) => key(b) - key(a)`: stable and non-increasing. */
  function SortDescBy<T>(s: seq<T>, key: T -> int): seq<T> {
    SortBy(s, Negated(key))
  }

  function Reverse<T>(s: seq<T>): seq<T> {
    seq(|s|, i requires 0 <= i < |s| => s[|s| - 1 - i])
  }

  /** The first `n` elements, or all of them (`slice(0, n)`). */
  function Take<T>(s: seq<T>, n: nat): (r: seq<T>)
    ensures |r| == if |s| < n then |s| else n
    ensures r == s[..|r|]
  {
    if |s| < n then s else s[..n]
  }

  lemma {:induction false} FilterAppend<T(!new)>(a: seq<T>, b: seq<T>, p: T -> bool)
    ensures Filter(a + b, p) == Filter(a, p) + Filter(b, p)
  {
    if a == [] {
      assert a + b == b;
    } else {
      assert (a + b)[1..] == a[1..] + b;
      FilterAppend(a[1..], b, p);
    }
  }

  lemma FilterSingleton<T(!new)>(x: T, p: T -> bool)
    ensures Filter([x], p) == if p(x) then [x] else []
  {
    assert [x][1..] == [];
  }

  lemma FilterSnoc<T(!new)>(s: seq<T>, x: T, p: T -> bool)
    ensures Filter(s + [x], p) == Filter(s, p) + (if p(x) then [x] else [])
  {
    FilterAppend(s, [x], p);
    FilterSingleton(x, p);
  }

  /** Nothing is kept when no element satisfies the predicate. */
  lemma FilterNone<T(!new)>(s: seq<T>, p: T -> bool)
    requires forall i :: 0 <= i < |s| ==> !p(s[i])
    ensures Filter(s, p) == []
  {
  }

  /** Filtering twice keeps what both predicates accept. */
  lemma {:induction false} FilterFilter<T(!new)>(s: seq<T>, p: T -> bool, q: T -> bool, both: T -> bool)
    requires forall x :: both(x) == (p(x) && q(x))
    ensures Filter(Filter(s, p), q) == Filter(s, both)
  {
    if s != [] {
      var head := if p(s[0]) then [s[0]] else [];
      FilterAppend(head, Filter(s[1..], p), q);
      if p(s[0]) {
        FilterSingleton(s[0], q);
      }
      FilterFilter(s[1..], p, q, both);
    }
  }

  lemma DistinctSnoc<T(!new)>(s: seq<T>, x: T)
    ensures Distinct(s + [x]) == if x in s then Distinct(s) else Distinct(s) + [x]
  {
    assert (s + [x])[..|s|] == s;
    var d := Distinct(s);
    if x in s {
      var i :| 0 <= i < |s| && s[i] == x;
      assert x in d;
    }
  }

  lemma AppendAssociative<T>(a: seq<T>, b: seq<T>, c: seq<T>)
    ensures (a + b) + c == a + (b + c)
  {
  }

  lemma MapAppend<T, U>(a: seq<T>, b: seq<T>, f: T -> U)
    ensures Map(a + b, f) == Map(a, f) + Map(b, f)
  {
  }

  /** Filtering keeps a sorted sequence sorted. */
  lemma {:induction false} FilterSorted<T(!new)>(s: seq<T>, p: T -> bool, key: T -> int)
    requires SortedBy(s, key)
    ensures SortedBy(Filter(s, p), key)
  {
    if s != [] {
      FilterSorted(s[1..], p, key);
      var rest := Filter(s[1..], p);
      forall i | 0 <= i < |rest| ensures key(s[0]) <= key(rest[i]) {
        assert rest[i] in rest;
        var j :| 0 <= j < |s[1..]| && s[1..][j] == rest[i];
        assert s[j + 1] == rest[i];
      }
    }
  }

  /** Filtering by two predicates that agree on every element gives the same result. */
  lemma {:induction false} FilterAgree<T(!new)>(s: seq<T>, p: T -> bool, q: T -> bool)
    requires forall i :: 0 <= i < |s| ==> p(s[i]) == q(s[i])
    ensures Filter(s, p) == Filter(s, q)
  {
    if s != [] {
      FilterAgree(s[1..], p, q);
    }
  }

  /** A weaker predicate keeps at least as many elements. */
  lemma {:induction false} FilterWeaker<T(!new)>(s: seq<T>, p: T -> bool, q: T -> bool)
    requires forall i :: 0 <= i < |s| && p(s[i]) ==> q(s[i])
    ensures |Filter(s, p)| <= |Filter(s, q)|
  {
    if s != [] {
      FilterWeaker(s[1..], p, q);
    }
  }

  lemma {:induction false} FilterKeepsAll<T(!new)>(s: seq<T>, p: T -> bool)
    requires forall i :: 0 <= i < |s| ==> p(s[i])
    ensures Filter(s, p) == s
  {
    if s != [] {
      FilterKeepsAll(s[1..], p);
    }
  }

  /** Filtering keeps the relative order of what it keeps: distinct projections stay distinct. */
  lemma {:induction false} FilterKeepsDistinct<T(!new), U(!new)>(s: seq<T>, p: T -> bool, f: T -> U)
    requires NoDup(Map(s, f))
    ensures NoDup(Map(Filter(s, p), f))
  {
    if s != [] {
      var head, tail := s[0], s[1..];
      assert Map(tail, f) == Map(s, f)[1..];
      FilterKeepsDistinct(tail, p, f);
      var rest := Filter(tail, p);
      if p(head) {
        assert Filter(s, p) == [head] + rest;
        HeadProjectionFresh(s, p, f);
        ConsNoDup(head, rest, f);
      } else {
        assert Filter(s, p) == rest;
      }
    }
  }

  /** With distinct projections, nothing kept from the tail shares the head's projection. */
  lemma HeadProjectionFresh<T(!new), U(!new)>(s: seq<T>, p: T -> bool, f: T -> U)
    requires s != [] && NoDup(Map(s, f))
    ensures forall i :: 0 <= i < |Filter(s[1..], p)| ==> f(Filter(s[1..], p)[i]) != f(s[0])
  {
    var rest := Filter(s[1..], p);
    forall i | 0 <= i < |rest| ensures f(rest[i]) != f(s[0]) {
      assert rest[i] in rest;
      var k :| 0 <= k < |s[1..]| && s[1..][k] == rest[i];
      assert Map(s, f)[k + 1] == f(rest[i]);
      assert Map(s, f)[0] == f(s[0]);
    }
  }

  /** Putting an element with a new projection in front keeps the projections distinct. */
  lemma ConsNoDup<T, U>(x: T, rest: seq<T>, f: T -> U)
    requires NoDup(Map(rest, f))
    requires forall i :: 0 <= i < |rest| ==> f(rest[i]) != f(x)
    ensures NoDup(Map([x] + rest, f))
  {
    var m := Map([x] + rest, f);
    forall i, j | 0 <= i < j < |m| ensures m[i] != m[j] {
      if i == 0 {
        assert m[j] == f(rest[j - 1]);
      } else {
        assert m[i] == Map(rest, f)[i - 1] && m[j] == Map(rest, f)[j - 1];
      }
    }
  }

  /** `r` is `s` with some elements dropped, the rest kept in order. */
  ghost predicate SubsequenceOf<T>(r: seq<T>, s: seq<T>) {
    if s == [] then r == []
    else (r != [] && r[0] == s[0] && SubsequenceOf(r[1..], s[1..])) || SubsequenceOf(r, s[1..])
  }

  /** Filtering only drops elements: what is kept stays in order. */
  lemma {:induction false} FilterSubsequence<T(!new)>(s: seq<T>, p: T -> bool)
    ensures SubsequenceOf(Filter(s, p), s)
  {
    if s != [] {
      FilterSubsequence(s[1..], p);
      var r := Filter(s, p);
      if p(s[0]) {
        assert r[0] == s[0] && r[1..] == Filter(s[1..], p);
      } else {
        assert r == Filter(s[1..], p);
      }
    }
  }

  /** Every element of a subsequence occurs in the sequence. */
  lemma {:induction false} SubsequenceMembers<T>(r: seq<T>, s: seq<T>)
    requires SubsequenceOf(r, s)
    ensures forall i :: 0 <= i < |r| ==> exists a :: 0 <= a < |s| && s[a] == r[i]
  {
    if s != [] {
      if r != [] && r[0] == s[0] && SubsequenceOf(r[1..], s[1..]) {
        SubsequenceMembers(r[1..], s[1..]);
        forall i | 1 <= i < |r| ensures exists a :: 0 <= a < |s| && s[a] == r[i] {
          var a :| 0 <= a < |s[1..]| && s[1..][a] == r[1..][i - 1];
          assert s[a + 1] == r[i];
        }
        assert s[0] == r[0];
      } else {
        SubsequenceMembers(r, s[1..]);
        forall i | 0 <= i < |r| ensures exists a :: 0 <= a < |s| && s[a] == r[i] {
          var a :| 0 <= a < |s[1..]| && s[1..][a] == r[i];
          assert s[a + 1] == r[i];
        }
      }
    }
  }

  /** A reordering has no element the original lacks. */
  /** A reordering of a sequence without repeats has no repeats either. */
  lemma NoDupPermutation<T>(s: seq<T>, r: seq<T>)
    requires NoDup(s) && multiset(r) == multiset(s)
    ensures NoDup(r)
  {
    forall i, j | 0 <= i < j < |r| ensures r[i] != r[j] {
      if r[i] == r[j] {
        var x := r[i];
        assert multiset(r[..j]) + multiset(r[j..]) == multiset(r) by { assert r == r[..j] + r[j..]; }
        assert x in multiset(r[..j]) && x in multiset(r[j..]) by {
          assert r[..j][i] == x && r[j..][0] == x;
        }
        assert multiset(s)[x] >= 2;
        NoDupOnce(s, x);
      }
    }
  }

  /** In a sequence without repeats, each element occurs at most once. */
  lemma {:induction false} NoDupOnce<T>(s: seq<T>, x: T)
    requires NoDup(s)
    ensures multiset(s)[x] <= 1
  {
    if s != [] {
      var init := s[..|s| - 1];
      assert s == init + [s[|s| - 1]];
      assert NoDup(init);
      NoDupOnce(init, x);
      if x == s[|s| - 1] {
        assert x !in init;
      }
    }
  }

  lemma MultisetMembers<T>(r: seq<T>, s: seq<T>)
    requires multiset(r) == multiset(s)
    ensures forall i :: 0 <= i < |r| ==> r[i] in s
  {
    forall i | 0 <= i < |r| ensures r[i] in s {
      assert r[i] in multiset(r);
    }
  }

  /** `x` occurs in `s` at some position before an occurrence of `y`. */
  ghost predicate Precedes<T>(s: seq<T>, x: T, y: T) {
    exists a, b :: 0 <= a < b < |s| && s[a] == x && s[b] == y
  }

  /** A subsequence lists its elements in the order the sequence has them. */
  lemma {:induction false} SubsequenceOrder<T>(r: seq<T>, s: seq<T>)
    requires SubsequenceOf(r, s)
    ensures forall i, j :: 0 <= i < j < |r| ==> Precedes(s, r[i], r[j])
    decreases |s|, 1
  {
    if s != [] {
      if r != [] && r[0] == s[0] && SubsequenceOf(r[1..], s[1..]) {
        SubsequenceOrderHead(r, s);
      } else {
        SubsequenceOrder(r, s[1..]);
        forall i, j | 0 <= i < j < |r| ensures Precedes(s, r[i], r[j]) {
          assert Precedes(s[1..], r[i], r[j]);
          var a, b :| 0 <= a < b < |s[1..]| && s[1..][a] == r[i] && s[1..][b] == r[j];
          assert s[a + 1] == r[i] && s[b + 1] == r[j];
        }
      }
    }
  }

  /** The case of `SubsequenceOrder` where the first elements are matched. */
  lemma {:induction false} SubsequenceOrderHead<T>(r: seq<T>, s: seq<T>)
    requires s != [] && r != [] && r[0] == s[0] && SubsequenceOf(r[1..], s[1..])
    ensures forall i, j :: 0 <= i < j < |r| ==> Precedes(s, r[i], r[j])
    decreases |s|, 0
  {
    SubsequenceOrder(r[1..], s[1..]);
    SubsequenceMembers(r[1..], s[1..]);
    forall i, j | 0 <= i < j < |r| ensures Precedes(s, r[i], r[j]) {
      if i == 0 {
        var b :| 0 <= b < |s[1..]| && s[1..][b] == r[1..][j - 1];
        assert s[0] == r[0] && s[b + 1] == r[j];
      } else {
        assert Precedes(s[1..], r[1..][i - 1], r[1..][j - 1]);
        var a, b :| 0 <= a < b < |s[1..]| && s[1..][a] == r[1..][i - 1] && s[1..][b] == r[1..][j - 1];
        assert s[a + 1] == r[i] && s[b + 1] == r[j];
      }
    }
  }

  /** Order of occurrence survives a `map`. */
  lemma MapPrecedes<T, U>(s: seq<T>, f: T -> U, x: T, y: T)
    requires Precedes(s, x, y)
    ensures Precedes(Map(s, f), f(x), f(y))
  {
    var a, b :| 0 <= a < b < |s| && s[a] == x && s[b] == y;
    assert Map(s, f)[a] == f(x) && Map(s, f)[b] == f(y);
  }

  lemma {:induction false} NoDupCardinality<T>(s: seq<T>)
    requires NoDup(s)
    ensures |Elements(s)| == |s|
  {
    if s != [] {
      var init := s[..|s| - 1];
      NoDupCardinality(init);
      assert Elements(s) == Elements(init) + {s[|s| - 1]};
      assert s[|s| - 1] !in Elements(init);
    }
  }

  lemma {:induction false} InsertLastPermutes<T>(t: seq<T>, x: T, key: T -> int)
    ensures multiset(InsertLast(t, x, key)) == multiset(t) + multiset{x}
  {
    if t != [] && key(t[|t| - 1]) > key(x) {
      var init, last := t[..|t| - 1], t[|t| - 1];
      assert t == init + [last];
      InsertLastPermutes(init, x, key);
    }
  }

  /** The sort only reorders: its result is a permutation of its input. */
  lemma {:induction false} SortByPermutes<T>(s: seq<T>, key: T -> int)
    ensures multiset(SortBy(s, key)) == multiset(s)
  {
    if s != [] {
      var init := s[..|s| - 1];
      SortByPermutes(init, key);
      InsertLastPermutes(SortBy(init, key), s[|s| - 1], key);
      assert s == init + [s[|s| - 1]];
    }
  }

  lemma {:induction false} InsertLastSorted<T>(t: seq<T>, x: T, key: T -> int)
    requires SortedBy(t, key)
    ensures SortedBy(InsertLast(t, x, key), key)
  {
    if t != [] && key(t[|t| - 1]) > key(x) {
      var init, last := t[..|t| - 1], t[|t| - 1];
      InsertLastSorted(init, x, key);
      var u := InsertLast(init, x, key);
      InsertLastPermutes(init, x, key);
      forall i | 0 <= i < |u| ensures key(u[i]) <= key(last) {
        assert u[i] in multiset(u);
        assert u[i] == x || u[i] in multiset(init);
      }
    }
  }

  lemma {:induction false} SortBySorted<T>(s: seq<T>, key: T -> int)
    ensures SortedBy(SortBy(s, key), key)
  {
    if s != [] {
      SortBySorted(s[..|s| - 1], key);
      InsertLastSorted(SortBy(s[..|s| - 1], key), s[|s| - 1], key);
    }
  }

  lemma {:induction false} InsertLastStable<T(!new)>(t: seq<T>, x: T, key: T -> int, k: int)
    ensures Filter(InsertLast(t, x, key), KeyIs(key, k)) == Filter(t, KeyIs(key, k)) + Filter([x], KeyIs(key, k))
  {
    var p := KeyIs(key, k);
    FilterSingleton(x, p);
    if t == [] {
      assert [x] == [] + [x];
    } else if key(t[|t| - 1]) <= key(x) {
      FilterSnoc(t, x, p);
    } else {
      var init, last := t[..|t| - 1], t[|t| - 1];
      assert t == init + [last];
      var u := InsertLast(init, x, key);
      assert InsertLast(t, x, key) == u + [last];
      InsertLastStable(init, x, key, k);
      FilterSnoc(u, last, p);
      FilterSnoc(init, last, p);
      var front, single := Filter(init, p), Filter([x], p);
      if p(last) {
        assert !p(x) && single == [];
        assert Filter(u + [last], p) == front + [last];
        assert Filter(t, p) + single == front + [last];
      } else {
        assert Filter(u + [last], p) == front + single;
        assert Filter(t, p) == front;
      }
    }
  }

  /** Stability: the elements sharing one key keep their input order. */
  lemma {:induction false} SortByStable<T(!new)>(s: seq<T>, key: T -> int, k: int)
    ensures Filter(SortBy(s, key), KeyIs(key, k)) == Filter(s, KeyIs(key, k))
  {
    if s != [] {
      var init, last, p := s[..|s| - 1], s[|s| - 1], KeyIs(key, k);
      var sortedInit := SortBy(init, key);
      assert SortBy(s, key) == InsertLast(sortedInit, last, key);
      SortByStable(init, key, k);
      InsertLastStable(sortedInit, last, key, k);
      assert s == init + [last];
      FilterAppend(init, [last], p);
    }
  }

  lemma SortDescNonIncreasing<T>(s: seq<T>, key: T -> int)
    ensures forall i, j :: 0 <= i < j < |SortDescBy(s, key)| ==>
      key(SortDescBy(s, key)[i]) >= key(SortDescBy(s, key)[j])
  {
    SortBySorted(s, Negated(key));
    var r := SortDescBy(s, key);
    forall i, j | 0 <= i < j < |r| ensures key(r[i]) >= key(r[j]) {
      assert Negated(key)(r[i]) <= Negated(key)(r[j]);
    }
  }

  /** The descending sort is stable too: elements with equal keys keep their order. */
  lemma SortDescStable<T(!new)>(s: seq<T>, key: T -> int, k: int)
    ensures Filter(SortDescBy(s, key), KeyIs(key, k)) == Filter(s, KeyIs(key, k))
  {
    var r := SortDescBy(s, key);
    SortByStable(s, Negated(key), -k);
    FilterAgree(r, KeyIs(key, k), KeyIs(Negated(key), -k));
    FilterAgree(s, KeyIs(key, k), KeyIs(Negated(key), -k));
  }

  lemma ReverseOfSorted<T>(s: seq<T>, key: T -> int)
    requires SortedBy(s, key)
    ensures |Reverse(s)| == |s|
    ensures forall i, j :: 0 <= i < j < |s| ==> key(Reverse(s)[i]) >= key(Reverse(s)[j])
  {
  }

  /** Where the insertion sort's inner loop leaves `x`. */
  lemma {:induction false} InsertLastAt<T>(t: seq<T>, x: T, key: T -> int, j: nat)
    requires j <= |t|
    requires j == 0 || key(t[j - 1]) <= key(x)
    requires forall k :: j <= k < |t| ==> key(t[k]) > key(x)
    ensures InsertLast(t, x, key) == t[..j] + [x] + t[j..]
  {
    if t == [] {
      assert t[..j] + [x] + t[j..] == [x];
    } else if key(t[|t| - 1]) <= key(x) {
      assert j == |t|;
      assert t[..j] == t && t[j..] == [];
    } else {
      var init, last := t[..|t| - 1], t[|t| - 1];
      assert j < |t|;
      InsertLastAt(init, x, key, j);
      assert InsertLast(t, x, key) == InsertLast(init, x, key) + [last];
      SplitBeforeLast(t, j);
    }
  }

  /** Cutting `t` at `j` before its last element: the last element stays in the back part. */
  lemma SplitBeforeLast<T>(t: seq<T>, j: nat)
    requires j < |t|
    ensures t[..|t| - 1][..j] == t[..j]
    ensures t[j..] == t[..|t| - 1][j..] + [t[|t| - 1]]
  {
  }

  /** One step of insertion sort: moves `a[i]` into place within the prefix `a[..i + 1]`. */
  method InsertIntoPrefix<T>(a: array<T>, i: nat, key: T -> int)
    requires i < a.Length
    modifies a
    ensures a[..i + 1] == InsertLast(old(a[..i]), old(a[i]), key)
    ensures a[i + 1..] == old(a[i + 1..])
  {
    ghost var sorted := a[..i];
    var x := a[i];
    var j := i;
    while j > 0 && key(a[j - 1]) > key(x)
      invariant 0 <= j <= i
      invariant forall k :: 0 <= k < j ==> a[k] == sorted[k]
      invariant forall k :: j < k <= i ==> a[k] == sorted[k - 1]
      invariant forall k :: j <= k < i ==> key(sorted[k]) > key(x)
      invariant forall k :: i < k < a.Length ==> a[k] == old(a[k])
    {
      a[j] := a[j - 1];
      j := j - 1;
    }
    a[j] := x;
    InsertLastAt(sorted, x, key, j);
    ghost var target := sorted[..j] + [x] + sorted[j..];
    forall k | 0 <= k <= i
      ensures a[k] == target[k]
    {
      if k < j {
        assert target[k] == sorted[k];
      } else if j < k {
        assert target[k] == sorted[k - 1];
      }
    }
    assert a[..i + 1] == target;
  }

  /** `Array.prototype.sort` on `a` itself: the array ends up as the stable sort of its old contents. */
  method SortInPlace<T>(a: array<T>, key: T -> int)
    modifies a
    ensures a[..] == SortBy(old(a[..]), key)
  {
    ghost var input := a[..];
    var i := 0;
    while i < a.Length
      invariant 0 <= i <= a.Length
      invariant a[..i] == SortBy(input[..i], key)
      invariant a[i..] == input[i..]
    {
      assert a[i] == input[i];
      InsertIntoPrefix(a, i, key);
      assert input[..i + 1] == input[..i] + [input[i]];
      i := i + 1;
    }
    assert input[..a.Length] == input;
  }

  /** Sorts a fresh copy of `s` in place, leaving `s` itself alone. */
  method SortedCopy<T>(s: seq<T>, key: T -> int) returns (r: seq<T>)
    ensures r == SortBy(s, key)
  {
    var a := new T[|s|](i requires 0 <= i < |s| => s[i]);
    assert a[..] == s;
    SortInPlace(a, key);
    r := a[..];
  }
}
