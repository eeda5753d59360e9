/** Generic sequence helpers shared by every part of the model: sums, filters,
    counting, stable insertion sort and the offset/limit window of a query. */
module Seqs {

  datatype Option<+T> = None | Some(value: T)

  datatype Result<+T, +E> = Success(value: T) | Failure(error: E)

  /** No element occurs twice. */
  predicate Distinct<T(==)>(s: seq<T>) {
    forall i, j :: 0 <= i < j < |s| ==> s[i] != s[j]
  }

  /** A sequence without repeats has as many distinct elements as it has positions. */
  lemma {:induction false} DistinctCardinality<T>(s: seq<T>)
    requires Distinct(s)
    ensures |set i | 0 <= i < |s| :: s[i]| == |s|
    decreases |s|
  {
    if s != [] {
      var n := |s| - 1;
      DistinctCardinality(s[..n]);
      var prefix := set i | 0 <= i < n :: s[..n][i];
      assert (set i | 0 <= i < |s| :: s[i]) == prefix + {s[n]};
      assert s[n] !in prefix;
    }
  }

  function Min(a: int, b: int): int { if a <= b then a else b }

  function Max(a: int, b: int): int { if a >= b then a else b }

  // ---------------------------------------------------------------- sums

  /** The sum of f over s, folded from the left as `sum(...)` and `reduce` do. */
  function Sum<T>(s: seq<T>, f: T -> int): int
    decreases |s|
  {
    if s == [] then 0 else Sum(s[..|s| - 1], f) + f(s[|s| - 1])
  }

  lemma {:induction false} SumAppend<T>(s: seq<T>, t: seq<T>, f: T -> int)
    ensures Sum(s + t, f) == Sum(s, f) + Sum(t, f)
    decreases |t|
  {
    if t == [] {
      assert s + t == s;
    } else {
      var t' := t[..|t| - 1];
      assert (s + t)[..|s + t| - 1] == s + t';
      SumAppend(s, t', f);
    }
  }

  /** Appending one element adds its value. */
  lemma SumLast<T>(s: seq<T>, x: T, f: T -> int)
    ensures Sum(s + [x], f) == Sum(s, f) + f(x)
  {
    assert (s + [x])[..|s|] == s;
  }

  /** Extending a prefix by one element adds that element's value. */
  lemma SumPrefix<T>(s: seq<T>, i: nat, f: T -> int)
    requires i < |s|
    ensures Sum(s[..i + 1], f) == Sum(s[..i], f) + f(s[i])
  {
    assert s[..i + 1][..i] == s[..i];
  }

  /** A sum of values that are all zero or more is zero or more. */
  lemma {:induction false} SumNonNegative<T>(s: seq<T>, f: T -> int)
    requires forall i :: 0 <= i < |s| ==> f(s[i]) >= 0
    ensures Sum(s, f) >= 0
    decreases |s|
  {
    if s != [] {
      SumNonNegative(s[..|s| - 1], f);
    }
  }

  /** Sums agree when the summed values agree element by element. */
  lemma {:induction false} SumPointwise<T, U>(s: seq<T>, f: T -> int, t: seq<U>, g: U -> int)
    requires |s| == |t|
    requires forall i :: 0 <= i < |s| ==> f(s[i]) == g(t[i])
    ensures Sum(s, f) == Sum(t, g)
    decreases |s|
  {
    if s != [] {
      SumPointwise(s[..|s| - 1], f, t[..|t| - 1], g);
    }
  }

  // ------------------------------------------------------------- filters

  /** The elements of s that satisfy p, in their original order. */
  function Filter<T(!new)>(s: seq<T>, p: T -> bool): (r: seq<T>)
    ensures |r| <= |s|
    ensures forall i :: 0 <= i < |r| ==> p(r[i])
    ensures forall x :: x in r <==> x in s && p(x)
    decreases |s|
  {
    if s == [] then []
    else Filter(s[..|s| - 1], p) + (if p(s[|s| - 1]) then [s[|s| - 1]] else [])
  }

  lemma FilterPrefix<T(!new)>(s: seq<T>, i: nat, p: T -> bool)
    requires i < |s|
    ensures Filter(s[..i + 1], p) == Filter(s[..i], p) + (if p(s[i]) then [s[i]] else [])
  {
    assert s[..i + 1][..i] == s[..i];
  }

  lemma {:induction false} FilterAppend<T(!new)>(s: seq<T>, t: seq<T>, p: T -> bool)
    ensures Filter(s + t, p) == Filter(s, p) + Filter(t, p)
    decreases |t|
  {
    if t == [] {
      assert s + t == s;
    } else {
      var t' := t[..|t| - 1];
      assert (s + t)[..|s + t| - 1] == s + t';
      FilterAppend(s, t', p);
    }
  }

  /** A filter keeps every element when all of them qualify. */
  lemma {:induction false} FilterAll<T(!new)>(s: seq<T>, p: T -> bool)
    requires forall i :: 0 <= i < |s| ==> p(s[i])
    ensures Filter(s, p) == s
    decreases |s|
  {
    if s != [] {
      FilterAll(s[..|s| - 1], p);
    }
  }

  /** Filtering twice keeps the elements that pass both filters. */
  lemma {:induction false} FilterFilter<T(!new)>(s: seq<T>, p: T -> bool, q: T -> bool, both: T -> bool)
    requires forall x :: both(x) == (p(x) && q(x))
    ensures Filter(Filter(s, p), q) == Filter(s, both)
    decreases |s|
  {
    if s != [] {
      var s' := s[..|s| - 1];
      FilterFilter(s', p, q, both);
      FilterAppend(Filter(s', p), if p(s[|s| - 1]) then [s[|s| - 1]] else [], q);
    }
  }

  /** The index of the first element of s that satisfies p, if any (the element
      `Array.prototype.find` returns). */
  function Find<T>(s: seq<T>, p: T -> bool): (r: Option<nat>)
    ensures r.None? <==> forall i :: 0 <= i < |s| ==> !p(s[i])
    ensures r.Some? ==> r.value < |s| && p(s[r.value]) && forall i :: 0 <= i < r.value ==> !p(s[i])
    decreases |s|
  {
    if s == [] then None
    else if p(s[0]) then Some(0)
    else match Find(s[1..], p)
      case None => None
      case Some(k) => Some(k + 1)
  }

  /** The number of elements of s that satisfy p. */
  function Count<T(!new)>(s: seq<T>, p: T -> bool): nat {
    |Filter(s, p)|
  }

  /** Sub-sequence: s can be obtained from t by deleting elements. */
  ghost predicate SubsequenceOf<T>(s: seq<T>, t: seq<T>)
    decreases |t|
  {
    if s == [] then true
    else if t == [] then false
    else if s[|s| - 1] == t[|t| - 1] then SubsequenceOf(s[..|s| - 1], t[..|t| - 1])
    else SubsequenceOf(s, t[..|t| - 1])
  }

  lemma {:induction false} SubsequenceOfEmpty<T>(t: seq<T>)
    ensures SubsequenceOf([], t)
  {
  }

  /** Every filter of a sequence is one of its sub-sequences. */
  lemma {:induction false} FilterIsSubsequence<T(!new)>(s: seq<T>, p: T -> bool)
    ensures SubsequenceOf(Filter(s, p), s)
    decreases |s|
  {
    if s != [] {
      var s' := s[..|s| - 1];
      FilterIsSubsequence(s', p);
      var r := Filter(s, p);
      if p(s[|s| - 1]) {
        assert r[..|r| - 1] == Filter(s', p);
      } else {
        assert r == Filter(s', p);
        SubsequenceDropLast(r, s);
      }
    }
  }

  /** A sub-sequence of t without its last element is a sub-sequence of t. */
  lemma {:induction false} SubsequenceDropLast<T>(s: seq<T>, t: seq<T>)
    requires t != [] && SubsequenceOf(s, t[..|t| - 1])
    ensures SubsequenceOf(s, t)
    decreases |t|, 0
  {
    if s != [] && s[|s| - 1] == t[|t| - 1] {
      SubsequenceWeaken(s, t[..|t| - 1]);
    }
  }

  /** A sub-sequence of t, minus its last element, is still a sub-sequence of t. */
  lemma {:induction false} SubsequenceWeaken<T>(s: seq<T>, t: seq<T>)
    requires s != [] && SubsequenceOf(s, t)
    ensures SubsequenceOf(s[..|s| - 1], t)
    decreases |t|, 1
  {
    if t == [] {
    } else if s[|s| - 1] == t[|t| - 1] {
      SubsequenceDropLast(s[..|s| - 1], t);
    } else {
      SubsequenceWeaken(s, t[..|t| - 1]);
      SubsequenceDropLast(s[..|s| - 1], t);
    }
  }

  // --------------------------------------------------------------- sorting

  /** Ascending by key. */
  predicate SortedBy<T>(s: seq<T>, key: T -> int) {
    forall i, j :: 0 <= i < j < |s| ==> key(s[i]) <= key(s[j])
  }

  /** Puts x after every element whose key is not greater than x's (stable). */
  function Insert<T>(x: T, s: seq<T>, key: T -> int): (r: seq<T>)
    requires SortedBy(s, key)
    ensures |r| == |s| + 1
    ensures SortedBy(r, key)
    ensures multiset(r) == multiset(s) + multiset{x}
    ensures r[|r| - 1] == x || (s != [] && r[|r| - 1] == s[|s| - 1])
    decreases |s|
  {
    if s == [] then [x]
    else if key(s[|s| - 1]) <= key(x) then s + [x]
    else
      var s' := s[..|s| - 1];
      var r' := Insert(x, s', key);
      MultisetDropLast(s);
      SortedSnoc(r', s[|s| - 1], key);
      r' + [s[|s| - 1]]
  }

  lemma MultisetDropLast<T>(s: seq<T>)
    requires s != []
    ensures multiset(s) == multiset(s[..|s| - 1]) + multiset{s[|s| - 1]}
  {
    assert s == s[..|s| - 1] + [s[|s| - 1]];
  }

  /** Appending an element whose key is at least that of the last keeps the order. */
  lemma SortedSnoc<T>(s: seq<T>, y: T, key: T -> int)
    requires SortedBy(s, key) && (s == [] || key(s[|s| - 1]) <= key(y))
    ensures SortedBy(s + [y], key)
  {
  }

  /** Stable insertion sort, ascending by key. */
  function SortBy<T>(s: seq<T>, key: T -> int): (r: seq<T>)
    ensures |r| == |s|
    ensures SortedBy(r, key)
    ensures multiset(r) == multiset(s)
    decreases |s|
  {
    if s == [] then []
    else
      MultisetDropLast(s);
      Insert(s[|s| - 1], SortBy(s[..|s| - 1], key), key)
  }

  /** Every element of the sorted sequence is an element of the original. */
  lemma SortByKeepsMembers<T>(s: seq<T>, key: T -> int)
    ensures forall x :: x in SortBy(s, key) <==> x in s
  {
    var r := SortBy(s, key);
    forall x
      ensures x in r <==> x in s
    {
      assert x in r <==> x in multiset(r);
      assert x in s <==> x in multiset(s);
    }
  }

  lemma SortByMembers<T>(s: seq<T>, key: T -> int)
    ensures forall i :: 0 <= i < |SortBy(s, key)| ==> SortBy(s, key)[i] in s
  {
    var r := SortBy(s, key);
    forall i | 0 <= i < |r| ensures r[i] in s {
      assert r[i] in multiset(r);
    }
  }

  /** Every element of the original is an element of the sorted sequence. */
  lemma SortByHasAll<T>(s: seq<T>, key: T -> int, j: nat) returns (i: nat)
    requires j < |s|
    ensures i < |SortBy(s, key)| && SortBy(s, key)[i] == s[j]
  {
    var r := SortBy(s, key);
    assert s[j] in multiset(s);
    assert s[j] in multiset(r);
    i :| 0 <= i < |r| && r[i] == s[j];
  }

  /** No two elements share a value of k. */
  predicate DistinctBy<T, K(==)>(s: seq<T>, k: T -> K) {
    forall i, j :: 0 <= i < j < |s| ==> k(s[i]) != k(s[j])
  }

  /** Every element of an insertion is the inserted element or one of the originals. */
  lemma InsertMembers<T>(x: T, s: seq<T>, key: T -> int)
    requires SortedBy(s, key)
    ensures forall i :: 0 <= i < |Insert(x, s, key)| ==> Insert(x, s, key)[i] == x || Insert(x, s, key)[i] in s
  {
    var r := Insert(x, s, key);
    forall i | 0 <= i < |r| ensures r[i] == x || r[i] in s {
      assert r[i] in multiset(r);
    }
  }

  /** Appending an element whose k-value is new keeps the k-values distinct. */
  lemma AppendDistinctBy<T, K>(s: seq<T>, x: T, k: T -> K)
    requires DistinctBy(s, k)
    requires forall i :: 0 <= i < |s| ==> k(s[i]) != k(x)
    ensures DistinctBy(s + [x], k)
  {
    var r := s + [x];
    forall i, j | 0 <= i < j < |r| ensures k(r[i]) != k(r[j]) {
      if j < |s| {
        assert r[i] == s[i] && r[j] == s[j];
      } else {
        assert r[i] == s[i] && r[j] == x;
      }
    }
  }

  /** Inserting an element whose k-value is new keeps the k-values distinct. */
  lemma {:induction false} InsertDistinctBy<T, K>(x: T, s: seq<T>, key: T -> int, k: T -> K)
    requires SortedBy(s, key) && DistinctBy(s, k)
    requires forall i :: 0 <= i < |s| ==> k(s[i]) != k(x)
    ensures DistinctBy(Insert(x, s, key), k)
    decreases |s|
  {
    if s == [] {
    } else if key(s[|s| - 1]) <= key(x) {
      AppendDistinctBy(s, x, k);
    } else {
      var n := |s| - 1;
      var s' := s[..n];
      InsertDistinctBy(x, s', key, k);
      var r' := Insert(x, s', key);
      InsertMembers(x, s', key);
      forall i | 0 <= i < |r'| ensures k(r'[i]) != k(s[n]) {
        if r'[i] != x {
          var m :| 0 <= m < |s'| && s'[m] == r'[i];
          assert s[m] == r'[i];
        }
      }
      AppendDistinctBy(r', s[n], k);
    }
  }

  /** Sorting keeps the k-values distinct. */
  lemma {:induction false} SortByDistinctBy<T, K>(s: seq<T>, key: T -> int, k: T -> K)
    requires DistinctBy(s, k)
    ensures DistinctBy(SortBy(s, key), k)
    decreases |s|
  {
    if s != [] {
      var s' := s[..|s| - 1];
      SortByDistinctBy(s', key, k);
      SortByMembers(s', key);
      InsertDistinctBy(s[|s| - 1], SortBy(s', key), key, k);
    }
  }

  /** Rows [skip, skip + limit) of s, as `offset(skip).limit(limit)` returns them. */
  function Window<T>(s: seq<T>, skip: nat, limit: nat): (r: seq<T>)
    ensures |r| == Max(0, Min(|s|, skip + limit) - skip)
    ensures forall i :: 0 <= i < |r| ==> r[i] == s[skip + i]
  {
    if skip >= |s| then [] else s[skip..Min(|s|, skip + limit)]
  }

  /** Consecutive pages join into one: the page after a page of `a` rows starts where it ends. */
  lemma WindowSplit<T>(s: seq<T>, skip: nat, a: nat, b: nat)
    ensures Window(s, skip, a) + Window(s, skip + a, b) == Window(s, skip, a + b)
  {
    if skip < |s| && skip + a < |s| {
      assert s[skip..skip + a] + s[skip + a..Min(|s|, skip + a + b)] == s[skip..Min(|s|, skip + a + b)];
    }
  }

  /** The first n rows, or all of them when there are fewer (`s[:n]`, `.limit(n)`). */
  function Take<T>(s: seq<T>, n: nat): (r: seq<T>)
    ensures |r| == Min(|s|, n)
    ensures r == s[..|r|]
  {
    s[..Min(|s|, n)]
  }

  /** An element left out of the first n of a sorted sequence has a key no smaller than
      that of any kept one: the first n are the n smallest by key. */
  lemma TakeSortedIsLeast<T>(s: seq<T>, key: T -> int, n: nat, m: nat, i: nat)
    requires m < |s| && i < |Take(SortBy(s, key), n)|
    requires forall k :: 0 <= k < |Take(SortBy(s, key), n)| ==> Take(SortBy(s, key), n)[k] != s[m]
    ensures key(Take(SortBy(s, key), n)[i]) <= key(s[m])
  {
    var ranked := SortBy(s, key);
    var top := Take(ranked, n);
    var j := SortByHasAll(s, key, m);
    assert s[m] !in top;
    assert j >= |top|;
    assert top[i] == ranked[i] && i < j;
  }

  /** A sequence is the part before position i, the element at i and the part after it. */
  lemma SplitAt<T>(s: seq<T>, i: nat)
    requires i < |s|
    ensures s == s[..i] + [s[i]] + s[i + 1..]
  {
  }
}
