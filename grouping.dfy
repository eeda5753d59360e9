/** Grouping rows by a key and totalling each group, the shape shared by every
    `GROUP BY ... SUM(...)` query and every dictionary tally of the system; and
    sums of real numbers, for averages and percentage shares. */
module Grouping {
  import opened Seqs

  /** The distinct keys of the rows, in the order each first occurs. */
  function KeysOf<T, K(==)>(s: seq<T>, key: T -> K): (r: seq<K>)
    ensures Distinct(r)
    ensures forall i :: 0 <= i < |s| ==> key(s[i]) in r
    ensures forall k :: k in r ==> exists i :: 0 <= i < |s| && key(s[i]) == k
    decreases |s|
  {
    if s == [] then []
    else
      var r := KeysOf(s[..|s| - 1], key);
      var k := key(s[|s| - 1]);
      assert forall i :: 0 <= i < |s| - 1 ==> s[..|s| - 1][i] == s[i];
      if k in r then r else r + [k]
  }

  /** Ranking the distinct keys keeps exactly the keys of the rows. */
  lemma RankedKeysCover<T>(s: seq<T>, key: T -> int, rank: int -> int, ranked: seq<int>)
    requires ranked == SortBy(KeysOf(s, key), rank)
    ensures forall i :: 0 <= i < |s| ==> key(s[i]) in ranked
    ensures forall j :: 0 <= j < |ranked| ==> exists i :: 0 <= i < |s| && key(s[i]) == ranked[j]
  {
    var keys := KeysOf(s, key);
    SortByKeepsMembers(keys, rank);
    forall j | 0 <= j < |ranked|
      ensures exists i :: 0 <= i < |s| && key(s[i]) == ranked[j]
    {
      assert ranked[j] in keys;
    }
  }

  function HasKey<T, K(==)>(key: T -> K, k: K): T -> bool {
    (x: T) => key(x) == k
  }

  /** The total of f over the rows whose key is k (`SUM(f) ... GROUP BY key`). */
  function GroupTotal<T(!new), K(==)>(s: seq<T>, key: T -> K, f: T -> int, k: K): int {
    Sum(Filter(s, HasKey(key, k)), f)
  }

  function GroupTotalOf<T(!new), K(==)>(s: seq<T>, key: T -> K, f: T -> int): K -> int {
    (k: K) => GroupTotal(s, key, f, k)
  }

  /** A key that no row carries has total 0. */
  lemma GroupTotalAbsent<T(!new), K>(s: seq<T>, key: T -> K, f: T -> int, k: K)
    requires forall i :: 0 <= i < |s| ==> key(s[i]) != k
    ensures GroupTotal(s, key, f, k) == 0
  {
  }

  /** One more row adds its value to its own group and to no other. */
  lemma GroupTotalStep<T(!new), K>(s: seq<T>, key: T -> K, f: T -> int, k: K, i: nat)
    requires i < |s|
    ensures GroupTotal(s[..i + 1], key, f, k)
         == GroupTotal(s[..i], key, f, k) + (if key(s[i]) == k then f(s[i]) else 0)
  {
    FilterPrefix(s, i, HasKey(key, k));
    var before := Filter(s[..i], HasKey(key, k));
    if key(s[i]) == k {
      assert (before + [s[i]])[..|before|] == before;
    } else {
      assert before + [] == before;
    }
  }

  /** Raising one key's value by d raises the sum over distinct keys by d. */
  lemma {:induction false} SumBump<K>(ks: seq<K>, g: K -> int, h: K -> int, k: K, d: int)
    requires Distinct(ks) && k in ks
    requires forall i :: 0 <= i < |ks| ==> g(ks[i]) == h(ks[i]) + (if ks[i] == k then d else 0)
    ensures Sum(ks, g) == Sum(ks, h) + d
    decreases |ks|
  {
    var n := |ks| - 1;
    var rest := ks[..n];
    if ks[n] == k {
      assert k !in rest;
      SumPointwise(rest, g, rest, h);
    } else {
      assert k in rest;
      SumBump(rest, g, h, k, d);
    }
  }

  /** The group totals add up to the total over all rows. */
  lemma {:induction false} GroupTotalsSum<T(!new), K>(s: seq<T>, key: T -> K, f: T -> int)
    ensures Sum(KeysOf(s, key), GroupTotalOf(s, key, f)) == Sum(s, f)
    decreases |s|
  {
    if s != [] {
      var n := |s| - 1;
      GroupTotalsSum(s[..n], key, f);
      GroupTotalsLast(s, key, f);
    }
  }

  /** The step of GroupTotalsSum: the last row moves the sum over the groups by its own value. */
  lemma GroupTotalsLast<T(!new), K>(s: seq<T>, key: T -> K, f: T -> int)
    requires s != []
    ensures Sum(KeysOf(s, key), GroupTotalOf(s, key, f))
         == Sum(KeysOf(s[..|s| - 1], key), GroupTotalOf(s[..|s| - 1], key, f)) + f(s[|s| - 1])
  {
    var n := |s| - 1;
    var ks' := KeysOf(s[..n], key);
    GroupTotalsShift(s, key, f, ks');
    if key(s[n]) in ks' {
      SumBump(ks', GroupTotalOf(s, key, f), GroupTotalOf(s[..n], key, f), key(s[n]), f(s[n]));
    } else {
      GroupTotalsNewKey(s, key, f);
    }
  }

  /** Over any keys, each group total of s is that of s without its last row, plus that
      row's value in its own group. */
  lemma GroupTotalsShift<T(!new), K>(s: seq<T>, key: T -> K, f: T -> int, ks: seq<K>)
    requires s != []
    ensures forall i :: 0 <= i < |ks| ==>
      GroupTotalOf(s, key, f)(ks[i])
        == GroupTotalOf(s[..|s| - 1], key, f)(ks[i]) + (if key(s[|s| - 1]) == ks[i] then f(s[|s| - 1]) else 0)
  {
    var n := |s| - 1;
    assert s[..n + 1] == s;
    forall i | 0 <= i < |ks|
      ensures GroupTotalOf(s, key, f)(ks[i])
        == GroupTotalOf(s[..n], key, f)(ks[i]) + (if key(s[n]) == ks[i] then f(s[n]) else 0)
    {
      GroupTotalStep(s, key, f, ks[i], n);
    }
  }

  /** The last row opens a new group: the old groups keep their totals and the new one holds that row alone. */
  lemma GroupTotalsNewKey<T(!new), K>(s: seq<T>, key: T -> K, f: T -> int)
    requires s != [] && key(s[|s| - 1]) !in KeysOf(s[..|s| - 1], key)
    ensures Sum(KeysOf(s, key), GroupTotalOf(s, key, f))
         == Sum(KeysOf(s[..|s| - 1], key), GroupTotalOf(s[..|s| - 1], key, f)) + f(s[|s| - 1])
  {
    var n := |s| - 1;
    var ks' := KeysOf(s[..n], key);
    SumLast(ks', key(s[n]), GroupTotalOf(s, key, f));
    OldGroupsKeepTotals(s, key, f);
    NewKeyAppended(s, key);
    NewGroupHoldsLastRow(s, key, f);
  }

  /** The groups that existed before the last row keep their totals. */
  lemma OldGroupsKeepTotals<T(!new), K>(s: seq<T>, key: T -> K, f: T -> int)
    requires s != [] && key(s[|s| - 1]) !in KeysOf(s[..|s| - 1], key)
    ensures Sum(KeysOf(s[..|s| - 1], key), GroupTotalOf(s, key, f))
         == Sum(KeysOf(s[..|s| - 1], key), GroupTotalOf(s[..|s| - 1], key, f))
  {
    var ks' := KeysOf(s[..|s| - 1], key);
    GroupTotalsShift(s, key, f, ks');
    SumPointwise(ks', GroupTotalOf(s, key, f), ks', GroupTotalOf(s[..|s| - 1], key, f));
  }

  /** A key first carried by the last row is appended to the keys. */
  lemma NewKeyAppended<T, K>(s: seq<T>, key: T -> K)
    requires s != [] && key(s[|s| - 1]) !in KeysOf(s[..|s| - 1], key)
    ensures KeysOf(s, key) == KeysOf(s[..|s| - 1], key) + [key(s[|s| - 1])]
  {
  }

  /** A key first carried by the last row has that row as its whole group. */
  lemma NewGroupHoldsLastRow<T(!new), K>(s: seq<T>, key: T -> K, f: T -> int)
    requires s != [] && key(s[|s| - 1]) !in KeysOf(s[..|s| - 1], key)
    ensures GroupTotalOf(s, key, f)(key(s[|s| - 1])) == f(s[|s| - 1])
  {
    var n := |s| - 1;
    assert s[..n + 1] == s;
    GroupTotalStep(s, key, f, key(s[n]), n);
    GroupTotalAbsent(s[..n], key, f, key(s[n]));
  }

  /** The group of a key holds exactly the rows carrying it, so its total is the sum over them. */
  lemma GroupTotalOfOwnRows<T(!new), K>(s: seq<T>, key: T -> K, f: T -> int, k: K)
    requires forall i :: 0 <= i < |s| ==> key(s[i]) == k
    ensures GroupTotal(s, key, f, k) == Sum(s, f)
  {
    FilterAll(s, HasKey(key, k));
  }

  // --------------------------------------------------------- dictionary tallies

  /** A tally's value for a key, 0 for a key it does not hold (`dict.get(key, 0)`). */
  function BucketOf(buckets: map<int, int>): int -> int {
    (h: int) => if h in buckets then buckets[h] else 0
  }

  /** The keys of the first i + 1 rows are those of the first i and the key of the i-th. */
  lemma KeysOfStep<T>(rows: seq<T>, key: T -> int, i: nat)
    requires i < |rows|
    ensures forall h :: h in KeysOf(rows[..i + 1], key) <==> h in KeysOf(rows[..i], key) || h == key(rows[i])
  {
    assert rows[..i + 1][..i] == rows[..i];
  }

  /** The dictionary holds one entry per key of the rows, and that entry is the
      total of f over the rows carrying the key. */
  ghost predicate Tallies<T(!new)>(buckets: map<int, int>, rows: seq<T>, key: T -> int, f: T -> int) {
    && (forall h :: h in buckets <==> h in KeysOf(rows, key))
    && (forall h :: h in buckets ==> buckets[h] == GroupTotal(rows, key, f, h))
  }

  /** The empty dictionary tallies no rows. */
  lemma TalliesNothing<T(!new)>(rows: seq<T>, key: T -> int, f: T -> int)
    ensures Tallies(map[], rows[..0], key, f)
  {
    assert rows[..0] == [];
  }

  /** Adding the i-th row's value to the entry of its key (an absent entry counting
      as 0) turns a tally of the first i rows into a tally of the first i + 1. */
  lemma TalliesStep<T(!new)>(buckets: map<int, int>, next: map<int, int>, rows: seq<T>, key: T -> int,
                              f: T -> int, i: nat, k: int, v: int)
    requires i < |rows| && Tallies(buckets, rows[..i], key, f)
    requires k == key(rows[i]) && v == f(rows[i]) && next == buckets[k := BucketOf(buckets)(k) + v]
    ensures Tallies(next, rows[..i + 1], key, f)
  {
    TalliesStepKeys(buckets, next, rows, key, f, i, k, v);
    TalliesStepValues(buckets, next, rows, key, f, i, k, v);
  }

  lemma TalliesStepKeys<T(!new)>(buckets: map<int, int>, next: map<int, int>, rows: seq<T>, key: T -> int,
                                 f: T -> int, i: nat, k: int, v: int)
    requires i < |rows| && Tallies(buckets, rows[..i], key, f)
    requires k == key(rows[i]) && next == buckets[k := BucketOf(buckets)(k) + v]
    ensures forall h :: h in next <==> h in KeysOf(rows[..i + 1], key)
  {
    KeysOfStep(rows, key, i);
  }

  lemma TalliesStepValues<T(!new)>(buckets: map<int, int>, next: map<int, int>, rows: seq<T>, key: T -> int,
                                   f: T -> int, i: nat, k: int, v: int)
    requires i < |rows| && Tallies(buckets, rows[..i], key, f)
    requires k == key(rows[i]) && v == f(rows[i]) && next == buckets[k := BucketOf(buckets)(k) + v]
    ensures forall h :: h in next ==> next[h] == GroupTotal(rows[..i + 1], key, f, h)
  {
    forall h | h in next
      ensures next[h] == GroupTotal(rows[..i + 1], key, f, h)
    {
      TallyEntryStep(buckets, rows, key, f, i, h);
    }
  }

  /** Each key's total over the first i + 1 rows is its tallied value over the first
      i, plus the i-th row's value when the row carries that key. */
  lemma TallyEntryStep<T(!new)>(buckets: map<int, int>, rows: seq<T>, key: T -> int, f: T -> int, i: nat, h: int)
    requires i < |rows| && Tallies(buckets, rows[..i], key, f)
    ensures GroupTotal(rows[..i + 1], key, f, h)
         == BucketOf(buckets)(h) + (if key(rows[i]) == h then f(rows[i]) else 0)
  {
    GroupTotalStep(rows, key, f, h, i);
    if h !in buckets {
      UntalliedKeyIsZero(buckets, rows[..i], key, f, h);
    }
  }

  /** A key without an entry in a tally has no rows behind it. */
  lemma UntalliedKeyIsZero<T(!new)>(buckets: map<int, int>, rows: seq<T>, key: T -> int, f: T -> int, k: int)
    requires Tallies(buckets, rows, key, f) && k !in buckets
    ensures GroupTotal(rows, key, f, k) == 0
  {
    forall j | 0 <= j < |rows|
      ensures key(rows[j]) != k
    {
      assert key(rows[j]) in KeysOf(rows, key);
    }
    GroupTotalAbsent(rows, key, f, k);
  }

  /** A tally's entries add up to the total of the rows it was filled from. */
  lemma TallySumsToTotal<T(!new)>(buckets: map<int, int>, rows: seq<T>, key: T -> int, f: T -> int)
    requires Tallies(buckets, rows, key, f)
    ensures Sum(KeysOf(rows, key), BucketOf(buckets)) == Sum(rows, f)
  {
    var keys := KeysOf(rows, key);
    forall i | 0 <= i < |keys|
      ensures BucketOf(buckets)(keys[i]) == GroupTotalOf(rows, key, f)(keys[i])
    {
      var k := keys[i];
      assert k in keys;
    }
    SumPointwise(keys, BucketOf(buckets), keys, GroupTotalOf(rows, key, f));
    GroupTotalsSum(rows, key, f);
  }

  // ------------------------------------------------------------- real sums

  /** The sum of f over s, for real-valued f. */
  function SumReal<T>(s: seq<T>, f: T -> real): real
    decreases |s|
  {
    if s == [] then 0.0 else SumReal(s[..|s| - 1], f) + f(s[|s| - 1])
  }

  /** Values that are integer values times one factor sum to the integer sum times that factor. */
  lemma {:induction false} SumRealScaled<T>(s: seq<T>, f: T -> int, g: T -> real, c: real)
    requires forall i :: 0 <= i < |s| ==> g(s[i]) == f(s[i]) as real * c
    ensures SumReal(s, g) == Sum(s, f) as real * c
    decreases |s|
  {
    if s != [] {
      var n := |s| - 1;
      SumRealScaled(s[..n], f, g, c);
      assert (Sum(s[..n], f) + f(s[n])) as real * c == Sum(s[..n], f) as real * c + f(s[n]) as real * c;
    }
  }

  /** A sum is at most the number of terms times an upper bound, and at least that times a lower bound. */
  lemma {:induction false} SumBounds<T>(s: seq<T>, f: T -> int, lo: int, hi: int)
    requires forall i :: 0 <= i < |s| ==> lo <= f(s[i]) <= hi
    ensures |s| * lo <= Sum(s, f) <= |s| * hi
    decreases |s|
  {
    if s != [] {
      var n := |s| - 1;
      SumBounds(s[..n], f, lo, hi);
      assert |s| * lo == n * lo + lo && |s| * hi == n * hi + hi;
    }
  }

  /** The average of `count` values summing to `total`, and 0 when there are none
      (`total / count if count else 0`, `AVG(...)` with NULL read as 0). */
  function Average(total: int, count: nat): (r: real)
    ensures count > 0 ==> r * count as real == total as real
    ensures count == 0 ==> r == 0.0
  {
    if count > 0 then total as real / count as real else 0.0
  }

  /** An average lies between the smallest and the largest of the values. */
  lemma AverageWithinBounds<T>(s: seq<T>, f: T -> int, lo: int, hi: int)
    requires |s| > 0
    requires forall i :: 0 <= i < |s| ==> lo <= f(s[i]) <= hi
    ensures lo as real <= Average(Sum(s, f), |s|) <= hi as real
  {
    SumBounds(s, f, lo, hi);
    QuotientBounds(Sum(s, f), |s|, lo, hi);
  }

  /** n * lo <= total <= n * hi bounds total / n by lo and hi. */
  lemma QuotientBounds(total: int, n: nat, lo: int, hi: int)
    requires n > 0 && n * lo <= total <= n * hi
    ensures lo as real <= total as real / n as real <= hi as real
  {
    var q := total as real / n as real;
    assert q * n as real == total as real;
    assert (n * lo) as real == n as real * lo as real;
    assert (n * hi) as real == n as real * hi as real;
  }

  /** `amount / total * 100` (before any rounding), or 0 when the total is not positive. */
  function Share(amount: int, total: int): real {
    if total > 0 then amount as real / total as real * 100.0 else 0.0
  }

  /** When the total is positive and is the sum of the amounts, the shares add up to 100 percent. */
  lemma SharesSumToHundred<T>(s: seq<T>, amount: T -> int, percentage: T -> real, total: int)
    requires total > 0 && total == Sum(s, amount)
    requires forall i :: 0 <= i < |s| ==> percentage(s[i]) == Share(amount(s[i]), total)
    ensures SumReal(s, percentage) == 100.0
  {
    var c := 100.0 / total as real;
    PercentagesScaled(s, amount, percentage, total);
    SumRealScaled(s, amount, percentage, c);
    ShareOfWhole(total);
  }

  /** Each percentage is its amount times 100 / total. */
  lemma PercentagesScaled<T>(s: seq<T>, amount: T -> int, percentage: T -> real, total: int)
    requires total > 0
    requires forall i :: 0 <= i < |s| ==> percentage(s[i]) == Share(amount(s[i]), total)
    ensures forall i :: 0 <= i < |s| ==> percentage(s[i]) == amount(s[i]) as real * (100.0 / total as real)
  {
    forall i | 0 <= i < |s|
      ensures percentage(s[i]) == amount(s[i]) as real * (100.0 / total as real)
    {
      ShareIsScaled(amount(s[i]), total);
    }
  }

  lemma ShareIsScaled(amount: int, total: int)
    requires total > 0
    ensures Share(amount, total) == amount as real * (100.0 / total as real)
  {
  }

  lemma ShareOfWhole(total: int)
    requires total > 0
    ensures total as real * (100.0 / total as real) == 100.0
  {
  }
}
