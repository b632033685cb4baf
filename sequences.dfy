/** Generic sequence operations used by the upload handlers: the
    order-preserving `filter` of JavaScript arrays and the stable
    `sort` with a comparator that subtracts two numeric keys. */
module Sequences {

  /** `s.filter(p)`: the elements of `s` that satisfy `p`, in order. */
  function Filter<T(!new)>(s: seq<T>, p: T -> bool): (r: seq<T>)
    ensures |r| <= |s|
    ensures forall x :: x in r <==> x in s && p(x)
    ensures forall i :: 0 <= i < |r| ==> p(r[i])
  {
    if s == [] then []
    else
      var init := Filter(s[..|s| - 1], p);
      assert s == s[..|s| - 1] + [s[|s| - 1]];
      if p(s[|s| - 1]) then init + [s[|s| - 1]] else init
  }

  /** Filtering keeps every occurrence of an element that satisfies `p` and
      no occurrence of one that does not. */
  lemma {:induction false} FilterCount<T(!new)>(s: seq<T>, p: T -> bool, x: T)
    ensures multiset(Filter(s, p))[x] == if p(x) then multiset(s)[x] else 0
  {
    if s != [] {
      FilterCount(s[..|s| - 1], p, x);
      assert s == s[..|s| - 1] + [s[|s| - 1]];
    }
  }

  /** Filtering distributes over concatenation. */
  lemma {:induction false} FilterAppend<T(!new)>(a: seq<T>, b: seq<T>, p: T -> bool)
    ensures Filter(a + b, p) == Filter(a, p) + Filter(b, p)
  {
    if b == [] {
      assert a + b == a;
    } else {
      var b' := b[..|b| - 1];
      FilterAppend(a, b', p);
      assert (a + b)[..|a + b| - 1] == a + b';
      var last := b[|b| - 1];
      assert (a + b)[|a + b| - 1] == last;
      if p(last) {
        calc {
          Filter(a + b, p);
          Filter(a + b', p) + [last];
          (Filter(a, p) + Filter(b', p)) + [last];
          Filter(a, p) + (Filter(b', p) + [last]);
          Filter(a, p) + Filter(b, p);
        }
      } else {
        calc {
          Filter(a + b, p);
          Filter(a + b', p);
          Filter(a, p) + Filter(b', p);
          Filter(a, p) + Filter(b, p);
        }
      }
    }
  }

  /** `a` is obtained from `b` by deleting elements, keeping the order of the rest. */
  predicate IsSubsequence<T(==)>(a: seq<T>, b: seq<T>)
    decreases |b|
  {
    if a == [] then true
    else if b == [] then false
    else (a[|a| - 1] == b[|b| - 1] && IsSubsequence(a[..|a| - 1], b[..|b| - 1]))
         || IsSubsequence(a, b[..|b| - 1])
  }

  lemma {:induction false} FilterIsSubsequence<T(!new)>(s: seq<T>, p: T -> bool)
    ensures IsSubsequence(Filter(s, p), s)
  {
    if s != [] {
      var init := s[..|s| - 1];
      FilterIsSubsequence(init, p);
      var r := Filter(s, p);
      if p(s[|s| - 1]) {
        assert r[..|r| - 1] == Filter(init, p);
      }
    }
  }

  /** The array `map`: the image of every element under `f`, in order. */
  function Map<A, B>(s: seq<A>, f: A -> B): seq<B>
  {
    seq(|s|, i requires 0 <= i < |s| => f(s[i]))
  }

  /** Mapping gives one result per element: each result is the image of an
      element, and each element's image is among the results. */
  lemma MapMembers<A, B>(s: seq<A>, f: A -> B)
    ensures |Map(s, f)| == |s|
    ensures forall y :: y in Map(s, f) ==> exists x :: x in s && y == f(x)
    ensures forall x :: x in s ==> f(x) in Map(s, f)
  {
    var r := Map(s, f);
    forall y | y in r
      ensures exists x :: x in s && y == f(x)
    {
      var i :| 0 <= i < |r| && r[i] == y;
      assert s[i] in s;
    }
    forall x | x in s
      ensures f(x) in r
    {
      var i :| 0 <= i < |s| && s[i] == x;
      assert r[i] == f(x);
    }
  }

  ghost predicate SortedBy<T>(s: seq<T>, key: T -> int)
  {
    forall i, j :: 0 <= i < j < |s| ==> key(s[i]) <= key(s[j])
  }

  /** In a sorted sequence an element with a smaller key comes earlier. */
  lemma SmallerKeyComesFirst<T>(s: seq<T>, key: T -> int, i: int, j: int)
    requires SortedBy(s, key)
    requires 0 <= i < |s| && 0 <= j < |s| && key(s[i]) < key(s[j])
    ensures i < j
  {
  }

  /** Puts `x` in front of the first element whose key is not smaller. */
  function Insert<T>(x: T, s: seq<T>, key: T -> int): (r: seq<T>)
    ensures multiset(r) == multiset(s) + multiset{x}
  {
    if s == [] || key(x) <= key(s[0]) then [x] + s
    else
      assert s == [s[0]] + s[1..];
      [s[0]] + Insert(x, s[1..], key)
  }

  lemma {:induction false} InsertSorted<T>(x: T, s: seq<T>, key: T -> int)
    requires SortedBy(s, key)
    ensures SortedBy(Insert(x, s, key), key)
  {
    if s != [] && key(x) > key(s[0]) {
      var rest := Insert(x, s[1..], key);
      InsertSorted(x, s[1..], key);
      forall y | y in rest
        ensures key(s[0]) <= key(y)
      {
        assert y in multiset(rest);
        if y != x {
          assert y in s[1..];
        }
      }
      assert forall j :: 0 < j < |rest| + 1 ==> ([s[0]] + rest)[j] == rest[j - 1];
    }
  }

  /** A stable sort of `s` by `key`, as `Array.prototype.sort` with the
      comparator that subtracts the keys of its two arguments does since
      ECMAScript 2019. */
  function SortBy<T>(s: seq<T>, key: T -> int): (r: seq<T>)
    ensures SortedBy(r, key)
    ensures multiset(r) == multiset(s)
  {
    if s == [] then []
    else
      assert s == [s[0]] + s[1..];
      InsertSorted(s[0], SortBy(s[1..], key), key);
      Insert(s[0], SortBy(s[1..], key), key)
  }

  /** Sorting keeps the length and the elements. */
  lemma SortByMembers<T>(s: seq<T>, key: T -> int)
    ensures |SortBy(s, key)| == |s|
    ensures forall x :: x in SortBy(s, key) <==> x in s
  {
    var r := SortBy(s, key);
    assert |r| == |multiset(r)| == |multiset(s)| == |s|;
    forall x
      ensures x in r <==> x in s
    {
      assert x in r <==> x in multiset(r);
      assert x in s <==> x in multiset(s);
    }
  }

  /** Inserting `x` moves it only past elements with a smaller key, so a
      selection `p` of elements that all share one key sees no reordering. */
  lemma {:induction false} InsertStable<T(!new)>(x: T, s: seq<T>, key: T -> int, p: T -> bool)
    requires forall y, z :: p(y) && p(z) ==> key(y) == key(z)
    ensures Filter(Insert(x, s, key), p) == Filter([x] + s, p)
  {
    if s != [] && key(x) > key(s[0]) {
      var y, tail := s[0], s[1..];
      var rest := Insert(x, tail, key);
      assert Insert(x, s, key) == [y] + rest;
      assert s == [y] + tail;
      InsertStable(x, tail, key, p);
      FilterSwapFront(x, y, tail, rest, p);
    }
  }

  /** Two elements that are not both selected can trade places in front of
      a sequence without changing what the selection sees. */
  lemma FilterSwapFront<T(!new)>(x: T, y: T, tail: seq<T>, rest: seq<T>, p: T -> bool)
    requires !(p(x) && p(y))
    requires Filter(rest, p) == Filter([x] + tail, p)
    ensures Filter([y] + rest, p) == Filter([x] + ([y] + tail), p)
  {
    FilterSingleton(x, p);
    FilterSingleton(y, p);
    FilterAppend([y], rest, p);
    FilterAppend([x], tail, p);
    FilterAppend([x], [y] + tail, p);
    FilterAppend([y], tail, p);
    var fx, fy, ft := Filter([x], p), Filter([y], p), Filter(tail, p);
    assert fx + fy == fy + fx;
    AppendAssoc(fy, fx, ft);
    AppendAssoc(fx, fy, ft);
  }

  lemma AppendAssoc<T>(a: seq<T>, b: seq<T>, c: seq<T>)
    ensures (a + b) + c == a + (b + c)
  {
  }

  lemma FilterSingleton<T(!new)>(x: T, p: T -> bool)
    ensures Filter([x], p) == if p(x) then [x] else []
  {
    assert [x][..0] == [];
  }

  /** Stability: elements with equal keys keep their relative order. */
  lemma {:induction false} SortByStable<T(!new)>(s: seq<T>, key: T -> int, p: T -> bool)
    requires forall y, z :: p(y) && p(z) ==> key(y) == key(z)
    ensures Filter(SortBy(s, key), p) == Filter(s, p)
  {
    if s != [] {
      SortByStable(s[1..], key, p);
      InsertStable(s[0], SortBy(s[1..], key), key, p);
      FilterAppend([s[0]], SortBy(s[1..], key), p);
      FilterAppend([s[0]], s[1..], p);
      assert s == [s[0]] + s[1..];
    }
  }
}
