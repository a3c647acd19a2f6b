/** Sequence operations shared by the list views and the data-service joins:
    `Array.prototype.filter`, the stable `Array.prototype.sort` with a newest-first
    comparator, `slice(0, n)`, and the insertion-ordered `Set` used to collect categories. */
module Seqs {

  /** The elements of `s` that satisfy `p`, in their original order. */
  function Filter<T(!new)>(s: seq<T>, p: T -> bool): (r: seq<T>)
    ensures |r| <= |s|
  {
    if s == [] then [] else (if p(s[0]) then [s[0]] else []) + Filter(s[1..], p)
  }

  /** The filtered elements are exactly the elements of `s` that satisfy `p`. */
  lemma {:induction false} FilterMembers<T(!new)>(s: seq<T>, p: T -> bool)
    ensures forall x :: x in Filter(s, p) <==> x in s && p(x)
  {
    if s != [] {
      FilterMembers(s[1..], p);
      assert s == [s[0]] + s[1..];
    }
  }

  /** Filtering an element put in front of `s`. */
  lemma FilterCons<T(!new)>(x: T, s: seq<T>, p: T -> bool)
    ensures Filter([x] + s, p) == (if p(x) then [x] else []) + Filter(s, p)
  {
    assert ([x] + s)[1..] == s;
  }

  /** Filtering a concatenation filters each part and keeps them in order: the result
      is the subsequence of the input, not merely a set of its elements. */
  lemma {:induction false} FilterAppend<T(!new)>(a: seq<T>, b: seq<T>, p: T -> bool)
    ensures Filter(a + b, p) == Filter(a, p) + Filter(b, p)
  {
    if a == [] {
      assert a + b == b;
    } else {
      var c := a + b;
      assert c[0] == a[0] && c[1..] == a[1..] + b;
      FilterAppend(a[1..], b, p);
      assert Filter(c, p) == (if p(a[0]) then [a[0]] else []) + Filter(c[1..], p);
    }
  }

  /** When every element passes, filtering changes nothing. */
  lemma {:induction false} FilterKeepsAll<T(!new)>(s: seq<T>, p: T -> bool)
    requires forall i :: 0 <= i < |s| ==> p(s[i])
    ensures Filter(s, p) == s
  {
    if s != [] {
      FilterKeepsAll(s[1..], p);
    }
  }

  /** When no element passes, nothing is kept. */
  lemma {:induction false} FilterKeepsNone<T(!new)>(s: seq<T>, p: T -> bool)
    requires forall i :: 0 <= i < |s| ==> !p(s[i])
    ensures Filter(s, p) == []
  {
    if s != [] {
      FilterKeepsNone(s[1..], p);
    }
  }

  /** Filtering only depends on what the predicate answers. */
  lemma {:induction false} FilterSamePredicate<T(!new)>(s: seq<T>, p: T -> bool, q: T -> bool)
    requires forall x :: p(x) == q(x)
    ensures Filter(s, p) == Filter(s, q)
  {
    if s != [] {
      FilterSamePredicate(s[1..], p, q);
    }
  }

  /** When exactly the element at `i` fails, filtering removes just that element. */
  lemma {:induction false} FilterDropsOne<T(!new)>(s: seq<T>, i: nat, p: T -> bool)
    requires i < |s| && !p(s[i])
    requires forall j :: 0 <= j < |s| && j != i ==> p(s[j])
    ensures Filter(s, p) == s[..i] + s[i + 1..]
  {
    var t := s[1..];
    if i == 0 {
      forall j | 0 <= j < |t| ensures p(t[j]) { assert t[j] == s[j + 1]; }
      FilterKeepsAll(t, p);
      assert Filter(s, p) == Filter(t, p);
      assert s[..0] + s[1..] == t;
    } else {
      forall j | 0 <= j < |t| && j != i - 1 ensures p(t[j]) { assert t[j] == s[j + 1]; }
      assert t[i - 1] == s[i];
      FilterDropsOne(t, i - 1, p);
      assert Filter(s, p) == [s[0]] + Filter(t, p);
      assert s[..i] + s[i + 1..] == [s[0]] + (t[..i - 1] + t[i..]);
    }
  }

  /** Filtering by `p` and then by `q` is filtering once by their conjunction `pq`. */
  lemma {:induction false} FilterTwice<T(!new)>(s: seq<T>, p: T -> bool, q: T -> bool, pq: T -> bool)
    requires forall x :: pq(x) == (p(x) && q(x))
    ensures Filter(Filter(s, p), q) == Filter(s, pq)
  {
    if s != [] {
      FilterTwice(s[1..], p, q, pq);
      var head := if p(s[0]) then [s[0]] else [];
      assert Filter(s, p) == head + Filter(s[1..], p);
      FilterAppend(head, Filter(s[1..], p), q);
      assert Filter(head, q) == if pq(s[0]) then [s[0]] else [];
    }
  }

  /** Two predicates that never hold together select at most |s| elements between them. */
  lemma {:induction false} FilterDisjoint<T(!new)>(s: seq<T>, p: T -> bool, q: T -> bool)
    requires forall x :: !(p(x) && q(x))
    ensures |Filter(s, p)| + |Filter(s, q)| <= |s|
  {
    if s != [] {
      FilterDisjoint(s[1..], p, q);
    }
  }

  /** Filtering by `p` and by its negation splits `s` into two parts whose lengths add up to |s|. */
  lemma {:induction false} FilterPartition<T(!new)>(s: seq<T>, p: T -> bool, notP: T -> bool)
    requires forall x :: notP(x) == !p(x)
    ensures |Filter(s, p)| + |Filter(s, notP)| == |s|
  {
    if s != [] {
      FilterPartition(s[1..], p, notP);
    }
  }

  /** Three predicates of which exactly one holds for each element split `s` into three
      parts whose lengths add up to |s|. */
  lemma {:induction false} FilterPartitionThree<T(!new)>(s: seq<T>, p: T -> bool, q: T -> bool, r: T -> bool)
    requires forall x :: !(p(x) && q(x))
    requires forall x :: r(x) == !(p(x) || q(x))
    ensures |Filter(s, p)| + |Filter(s, q)| + |Filter(s, r)| == |s|
  {
    if s != [] {
      FilterPartitionThree(s[1..], p, q, r);
    }
  }

  /** The number of elements of `s` that satisfy `p`, counted by occurrences. */
  lemma {:induction false} FilterLengthIsMultiplicity<T(!new)>(s: seq<T>, p: T -> bool, x: T)
    requires forall y :: p(y) <==> y == x
    ensures |Filter(s, p)| == multiset(s)[x]
  {
    if s != [] {
      FilterLengthIsMultiplicity(s[1..], p, x);
      assert s == [s[0]] + s[1..];
      assert multiset(s) == multiset{s[0]} + multiset(s[1..]);
    }
  }

  // ---------------------------------------------------------------------------
  // Sums

  /** `s.reduce((acc, x) => acc + f(x), 0)`: the left-to-right sum of `f` over `s`. */
  function Sum<T>(s: seq<T>, f: T -> real): real
  {
    if s == [] then 0.0 else Sum(s[..|s| - 1], f) + f(s[|s| - 1])
  }

  /** The sum over a concatenation is the sum of the sums over the parts. */
  lemma {:induction false} SumAppend<T>(a: seq<T>, b: seq<T>, f: T -> real)
    ensures Sum(a + b, f) == Sum(a, f) + Sum(b, f)
  {
    if b == [] {
      assert a + b == a;
    } else {
      SumAppend(a, b[..|b| - 1], f);
      assert (a + b)[..|a + b| - 1] == a + b[..|b| - 1];
    }
  }

  /** Replacing one element changes the sum by the difference of the two terms. */
  lemma SumUpdate<T>(s: seq<T>, i: nat, x: T, f: T -> real)
    requires i < |s|
    ensures Sum(s[i := x], f) == Sum(s, f) - f(s[i]) + f(x)
  {
    assert s == s[..i] + [s[i]] + s[i + 1..];
    assert s[i := x] == s[..i] + [x] + s[i + 1..];
    SumAppend(s[..i] + [s[i]], s[i + 1..], f);
    SumAppend(s[..i] + [x], s[i + 1..], f);
    SumAppend(s[..i], [s[i]], f);
    SumAppend(s[..i], [x], f);
  }

  /** Removing the element at `i` takes its term out of the sum. */
  lemma SumRemove<T>(s: seq<T>, i: nat, f: T -> real)
    requires i < |s|
    ensures Sum(s[..i] + s[i + 1..], f) == Sum(s, f) - f(s[i])
  {
    SplitAround(s, i);
    SumMiddle(s[..i], s[i], s[i + 1..], f);
    SumAppend(s[..i], s[i + 1..], f);
  }

  lemma SplitAround<T>(s: seq<T>, i: nat)
    requires i < |s|
    ensures s == s[..i] + ([s[i]] + s[i + 1..])
  {
  }

  /** The sum over `a`, then `x`, then `b`. */
  lemma SumMiddle<T>(a: seq<T>, x: T, b: seq<T>, f: T -> real)
    ensures Sum(a + ([x] + b), f) == Sum(a, f) + f(x) + Sum(b, f)
  {
    SumAppend(a, [x] + b, f);
    SumAppend([x], b, f);
    SumSingleton(x, f);
  }

  lemma SumSingleton<T>(x: T, f: T -> real)
    ensures Sum([x], f) == f(x)
  {
    assert [x][..0] == [];
  }

  /** A sum splits over the elements that pass `p` and those that pass its negation `notP`. */
  lemma {:induction false} SumFilterPartition<T(!new)>(s: seq<T>, f: T -> real, p: T -> bool, notP: T -> bool)
    requires forall x :: notP(x) == !p(x)
    ensures Sum(s, f) == Sum(Filter(s, p), f) + Sum(Filter(s, notP), f)
  {
    if s != [] {
      var (a, b) := (Filter(s[1..], p), Filter(s[1..], notP));
      SumFilterPartition(s[1..], f, p, notP);
      assert s == [s[0]] + s[1..];
      assert Sum([s[0]], f) == f(s[0]) by { assert [s[0]][..0] == []; }
      if p(s[0]) {
        assert Filter(s, p) == [s[0]] + a;
        assert Filter(s, notP) == b;
        SumAppend([s[0]], a, f);
      } else {
        assert Filter(s, p) == a;
        assert Filter(s, notP) == [s[0]] + b;
        SumAppend([s[0]], b, f);
      }
      SumAppend([s[0]], s[1..], f);
    }
  }

  /** Two sequences of equal length whose terms agree position by position have equal sums. */
  lemma {:induction false} SumPointwise<T, U>(a: seq<T>, f: T -> real, b: seq<U>, g: U -> real)
    requires |a| == |b|
    requires forall i :: 0 <= i < |a| ==> f(a[i]) == g(b[i])
    ensures Sum(a, f) == Sum(b, g)
  {
    if a != [] {
      SumPointwise(a[..|a| - 1], f, b[..|b| - 1], g);
    }
  }

  // ---------------------------------------------------------------------------
  // Newest-first sorting

  /** `s` is in non-increasing order of `key`. */
  ghost predicate SortedDesc<T>(s: seq<T>, key: T -> int)
  {
    forall i, j :: 0 <= i < j < |s| ==> key(s[i]) >= key(s[j])
  }

  /** Places `x` in front of the first element whose key is not larger than its own. */
  function InsertDesc<T>(x: T, s: seq<T>, key: T -> int): (r: seq<T>)
    ensures multiset(r) == multiset(s) + multiset{x}
  {
    if s == [] || key(x) >= key(s[0]) then [x] + s
    else
      assert s == [s[0]] + s[1..];
      [s[0]] + InsertDesc(x, s[1..], key)
  }

  /** A stable sort by descending key: the comparator `(a, b) => key(b) - key(a)` under a
      stable `Array.prototype.sort`. Elements with equal keys keep their input order. */
  function SortDesc<T>(s: seq<T>, key: T -> int): (r: seq<T>)
    ensures multiset(r) == multiset(s)
    ensures SortedDesc(r, key)
  {
    if s == [] then []
    else
      var rest := SortDesc(s[1..], key);
      InsertDescSorted(s[0], rest, key);
      assert s == [s[0]] + s[1..];
      InsertDesc(s[0], rest, key)
  }

  /** Sequences with the same elements counted by occurrences have the same members. */
  lemma SameMultisetSameMembers<T>(a: seq<T>, b: seq<T>)
    requires multiset(a) == multiset(b)
    ensures |a| == |b|
    ensures forall x :: x in a <==> x in b
  {
    assert |a| == |multiset(a)| && |b| == |multiset(b)|;
    forall x ensures x in a <==> x in b {
      assert x in a <==> x in multiset(a);
      assert x in b <==> x in multiset(b);
    }
  }

  /** Every key in `InsertDesc(x, s, key)` is bounded by `b` when `x`'s and all of `s`'s are. */
  lemma {:induction false} InsertDescBounded<T>(x: T, s: seq<T>, key: T -> int, b: int)
    requires key(x) <= b
    requires forall i :: 0 <= i < |s| ==> key(s[i]) <= b
    ensures forall i :: 0 <= i < |InsertDesc(x, s, key)| ==> key(InsertDesc(x, s, key)[i]) <= b
  {
    if s != [] && key(x) < key(s[0]) {
      InsertDescBounded(x, s[1..], key, b);
      var r := InsertDesc(x, s, key);
      assert r == [s[0]] + InsertDesc(x, s[1..], key);
      forall i | 0 <= i < |r| ensures key(r[i]) <= b {
        if i > 0 { assert r[i] == InsertDesc(x, s[1..], key)[i - 1]; }
      }
    }
  }

  /** Inserting into a newest-first sequence keeps it newest-first. */
  lemma {:induction false} InsertDescSorted<T>(x: T, s: seq<T>, key: T -> int)
    requires SortedDesc(s, key)
    ensures SortedDesc(InsertDesc(x, s, key), key)
  {
    if s == [] || key(x) >= key(s[0]) {
      forall i | 0 <= i < |s| ensures key(s[i]) <= key(x) {
        assert key(s[0]) >= key(s[i]);
      }
      SortedDescCons(x, s, key);
    } else {
      var t := InsertDesc(x, s[1..], key);
      SortedDescTail(s, key);
      InsertDescSorted(x, s[1..], key);
      forall i | 0 <= i < |s[1..]| ensures key(s[1..][i]) <= key(s[0]) {
        assert s[1..][i] == s[i + 1];
      }
      InsertDescBounded(x, s[1..], key, key(s[0]));
      SortedDescCons(s[0], t, key);
    }
  }

  /** An element no older than everything in a newest-first sequence can go in front. */
  lemma SortedDescCons<T>(y: T, t: seq<T>, key: T -> int)
    requires SortedDesc(t, key)
    requires forall i :: 0 <= i < |t| ==> key(t[i]) <= key(y)
    ensures SortedDesc([y] + t, key)
  {
    var r := [y] + t;
    forall i, j | 0 <= i < j < |r| ensures key(r[i]) >= key(r[j]) {
      assert r[j] == t[j - 1];
      if i > 0 {
        assert r[i] == t[i - 1];
      }
    }
  }

  lemma SortedDescTail<T>(s: seq<T>, key: T -> int)
    requires SortedDesc(s, key) && s != []
    ensures SortedDesc(s[1..], key)
  {
    var t := s[1..];
    forall i, j | 0 <= i < j < |t| ensures key(t[i]) >= key(t[j]) {
      assert t[i] == s[i + 1] && t[j] == s[j + 1];
    }
  }

  /** Insertion never moves `x` past an element with its own key. */
  lemma {:induction false} FilterInsertDesc<T(!new)>(x: T, s: seq<T>, key: T -> int, p: T -> bool, k: int)
    requires forall y :: p(y) ==> key(y) == k
    ensures Filter(InsertDesc(x, s, key), p) == (if p(x) then [x] else []) + Filter(s, p)
  {
    if s == [] || key(x) >= key(s[0]) {
      assert InsertDesc(x, s, key) == [x] + s;
      FilterCons(x, s, p);
    } else {
      var t := InsertDesc(x, s[1..], key);
      var hx := if p(x) then [x] else [];
      var h0 := if p(s[0]) then [s[0]] else [];
      assert InsertDesc(x, s, key) == [s[0]] + t;
      FilterCons(s[0], t, p);
      FilterInsertDesc(x, s[1..], key, p, k);
      // s[0] has a larger key than x, so they cannot both have key k.
      assert h0 == [] || hx == [];
      SwapEmptyHeads(h0, hx, Filter(s[1..], p));
    }
  }

  lemma SwapEmptyHeads<T>(a: seq<T>, b: seq<T>, rest: seq<T>)
    requires a == [] || b == []
    ensures a + (b + rest) == b + (a + rest)
  {
    if a == [] {
      assert a + (b + rest) == b + rest == b + (a + rest);
    } else {
      assert a + (b + rest) == a + rest == b + (a + rest);
    }
  }

  /** Stability: the elements sharing one key appear in the sorted result in input order. */
  lemma {:induction false} SortDescStable<T(!new)>(s: seq<T>, key: T -> int, p: T -> bool, k: int)
    requires forall y :: p(y) ==> key(y) == k
    ensures Filter(SortDesc(s, key), p) == Filter(s, p)
  {
    if s != [] {
      SortDescStable(s[1..], key, p, k);
      FilterInsertDesc(s[0], SortDesc(s[1..], key), key, p, k);
    }
  }

  /** The first `n` elements (`slice(0, n)`). */
  function Take<T>(s: seq<T>, n: nat): (r: seq<T>)
    ensures |r| == if n < |s| then n else |s|
    ensures forall i :: 0 <= i < |r| ==> r[i] == s[i]
  {
    if n < |s| then s[..n] else s
  }

  /** A prefix holds no element more often than the whole sequence does. */
  lemma TakeSubMultiset<T>(s: seq<T>, n: nat)
    ensures multiset(Take(s, n)) <= multiset(s)
  {
    if n < |s| {
      assert s == s[..n] + s[n..];
    }
  }

  /** A prefix of a newest-first sequence is newest-first. */
  lemma TakeSortedDesc<T>(s: seq<T>, key: T -> int, n: nat)
    requires SortedDesc(s, key)
    ensures SortedDesc(Take(s, n), key)
  {
    var r := Take(s, n);
    forall i, j | 0 <= i < j < |r| ensures key(r[i]) >= key(r[j]) {
      assert r[i] == s[i] && r[j] == s[j];
    }
  }

  // ---------------------------------------------------------------------------
  // Insertion-ordered sets

  /** No element occurs twice. */
  ghost predicate NoDuplicates<T>(s: seq<T>)
  {
    forall i, j :: 0 <= i < j < |s| ==> s[i] != s[j]
  }

  /** Position of the first occurrence of `x` in `s`. */
  function IndexOf<T(==)>(s: seq<T>, x: T): (i: nat)
    requires x in s
    ensures i < |s| && s[i] == x
    ensures forall j :: 0 <= j < i ==> s[j] != x
  {
    if s[0] == x then 0 else 1 + IndexOf(s[1..], x)
  }

  /** The elements of `s` without repetitions, in order of first appearance: what
      `[...new Set(s)]` yields, since a JavaScript `Set` iterates in insertion order. */
  function Distinct<T(==,!new)>(s: seq<T>): (r: seq<T>)
    ensures forall x :: x in r <==> x in s
    ensures NoDuplicates(r)
  {
    if s == [] then []
    else
      var d := Distinct(s[..|s| - 1]);
      if s[|s| - 1] in d then d else d + [s[|s| - 1]]
  }

  /** A non-empty sequence repeating one value has that value as its only distinct element. */
  lemma {:induction false} DistinctOfConstant<T(!new)>(s: seq<T>, x: T)
    requires s != [] && forall i :: 0 <= i < |s| ==> s[i] == x
    ensures Distinct(s) == [x]
  {
    var pre := s[..|s| - 1];
    if pre == [] {
      assert Distinct(pre) == [];
    } else {
      DistinctOfConstant(pre, x);
    }
  }

  /** Two different values come out of `Distinct` as they are. */
  lemma DistinctOfTwo<T(!new)>(a: T, b: T)
    requires a != b
    ensures Distinct([a, b]) == [a, b]
  {
    assert [a][..0] == [];
    assert Distinct([a]) == [a];
    assert [a, b][..1] == [a];
    assert b !in [a];
  }

  lemma IndexOfPrefix<T>(s: seq<T>, n: nat, x: T)
    requires n <= |s| && x in s[..n]
    ensures x in s && IndexOf(s, x) == IndexOf(s[..n], x) < n
  {
    var i := IndexOf(s[..n], x);
    assert s[i] == x;
    forall k | 0 <= k < i ensures s[k] != x {
      assert s[k] == s[..n][k];
    }
  }

  /** The distinct elements come out in order of their first occurrence in `s`. */
  lemma {:induction false} DistinctFirstAppearanceOrder<T(!new)>(s: seq<T>)
    ensures forall i, j :: 0 <= i < j < |Distinct(s)| ==> IndexOf(s, Distinct(s)[i]) < IndexOf(s, Distinct(s)[j])
  {
    if s != [] {
      var pre := s[..|s| - 1];
      var last := s[|s| - 1];
      var d := Distinct(pre);
      DistinctFirstAppearanceOrder(pre);
      PrefixIndices(s, d);
      if last !in d {
        LastIndex(s);
        AppendKeepsOrder(s, d, last);
      }
    }
  }

  /** Elements of the prefix keep their first index when the last element is added. */
  lemma PrefixIndices<T(!new)>(s: seq<T>, d: seq<T>)
    requires s != [] && forall x :: x in d ==> x in s[..|s| - 1]
    ensures forall i :: 0 <= i < |d| ==> d[i] in s && IndexOf(s, d[i]) < |s| - 1
    ensures forall i :: 0 <= i < |d| ==> d[i] in s[..|s| - 1] && IndexOf(s, d[i]) == IndexOf(s[..|s| - 1], d[i])
  {
    forall i | 0 <= i < |d|
      ensures d[i] in s[..|s| - 1] && d[i] in s
      ensures IndexOf(s, d[i]) == IndexOf(s[..|s| - 1], d[i]) < |s| - 1
    {
      var x := d[i];
      assert x in d;
      IndexOfPrefix(s, |s| - 1, x);
    }
  }

  lemma LastIndex<T>(s: seq<T>)
    requires s != [] && s[|s| - 1] !in s[..|s| - 1]
    ensures IndexOf(s, s[|s| - 1]) == |s| - 1
  {
  }

  lemma AppendKeepsOrder<T>(s: seq<T>, d: seq<T>, x: T)
    requires x in s && forall i :: 0 <= i < |d| ==> d[i] in s && IndexOf(s, d[i]) < IndexOf(s, x)
    requires forall i, j :: 0 <= i < j < |d| ==> IndexOf(s, d[i]) < IndexOf(s, d[j])
    ensures forall i, j :: 0 <= i < j < |d + [x]| ==> IndexOf(s, (d + [x])[i]) < IndexOf(s, (d + [x])[j])
  {
    var r := d + [x];
    forall i, j | 0 <= i < j < |r|
      ensures IndexOf(s, r[i]) < IndexOf(s, r[j])
    {
      assert r[i] == d[i];
      if j < |d| {
        assert r[j] == d[j];
      }
    }
  }
}
