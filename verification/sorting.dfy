/** Sorting as the standard library promises it: ascending for reals, and stable by
    a key for records. */
module Sorting {

  // ----- reals -----

  function Insert(x: real, sorted: seq<real>): seq<real> {
    if sorted == [] || x <= sorted[0] then [x] + sorted else [sorted[0]] + Insert(x, sorted[1..])
  }

  /** `sort_by(f64::total_cmp)` on finite values. */
  function Sort(values: seq<real>): seq<real> {
    if values == [] then [] else Insert(values[0], Sort(values[1..]))
  }

  ghost predicate Ascending(s: seq<real>) {
    forall i, j | 0 <= i < j < |s| :: s[i] <= s[j]
  }

  lemma {:induction false} InsertKeeps(x: real, sorted: seq<real>)
    ensures multiset(Insert(x, sorted)) == multiset(sorted) + multiset{x}
  {
    if sorted != [] {
      assert sorted == [sorted[0]] + sorted[1..];
      if x > sorted[0] {
        InsertKeeps(x, sorted[1..]);
      }
    }
  }

  lemma {:induction false} InsertAscends(x: real, sorted: seq<real>)
    requires Ascending(sorted)
    ensures Ascending(Insert(x, sorted))
    ensures forall i | 0 <= i < |Insert(x, sorted)| :: Insert(x, sorted)[i] == x || (sorted != [] && Insert(x, sorted)[i] >= sorted[0])
  {
    if sorted != [] && x > sorted[0] {
      InsertAscends(x, sorted[1..]);
    }
  }

  /** Sorting puts the same values in ascending order. */
  lemma {:induction false} SortAscends(values: seq<real>)
    ensures Ascending(Sort(values)) && multiset(Sort(values)) == multiset(values)
    ensures |Sort(values)| == |values|
  {
    if values != [] {
      SortAscends(values[1..]);
      InsertAscends(values[0], Sort(values[1..]));
      InsertKeeps(values[0], Sort(values[1..]));
      assert values == [values[0]] + values[1..];
      InsertLength(values[0], Sort(values[1..]));
    }
  }

  lemma InsertLength(x: real, sorted: seq<real>)
    ensures |Insert(x, sorted)| == |sorted| + 1
  {
  }

  /** How many values are below `x`, or at most `x`. */
  function CountBelow(values: seq<real>, x: real): nat {
    if values == [] then 0 else (if values[0] < x then 1 else 0) + CountBelow(values[1..], x)
  }

  function CountAtMost(values: seq<real>, x: real): nat {
    if values == [] then 0 else (if values[0] <= x then 1 else 0) + CountAtMost(values[1..], x)
  }

  lemma {:induction false} InsertCounts(y: real, sorted: seq<real>, x: real)
    ensures CountBelow(Insert(y, sorted), x) == CountBelow(sorted, x) + if y < x then 1 else 0
    ensures CountAtMost(Insert(y, sorted), x) == CountAtMost(sorted, x) + if y <= x then 1 else 0
  {
    if sorted != [] && y > sorted[0] {
      InsertCounts(y, sorted[1..], x);
    }
  }

  lemma {:induction false} SortCounts(values: seq<real>, x: real)
    ensures CountBelow(Sort(values), x) == CountBelow(values, x)
    ensures CountAtMost(Sort(values), x) == CountAtMost(values, x)
  {
    if values != [] {
      SortCounts(values[1..], x);
      InsertCounts(values[0], Sort(values[1..]), x);
    }
  }

  lemma {:induction false} RankInAscending(s: seq<real>, k: nat)
    requires Ascending(s) && k < |s|
    ensures CountBelow(s, s[k]) <= k < CountAtMost(s, s[k])
  {
    if k == 0 {
      NoneBelow(s, s[0]);
    } else {
      assert s[1..][k - 1] == s[k];
      RankInAscending(s[1..], k - 1);
    }
  }

  lemma {:induction false} NoneBelow(s: seq<real>, x: real)
    requires forall i | 0 <= i < |s| :: x <= s[i]
    ensures CountBelow(s, x) == 0
  {
    if s != [] {
      NoneBelow(s[1..], x);
    }
  }

  /** The element at `k` of the sorted values is the one with that rank. */
  lemma SortedElementHasRank(values: seq<real>, k: nat)
    requires k < |values|
    ensures |Sort(values)| == |values|
    ensures CountBelow(values, Sort(values)[k]) <= k < CountAtMost(values, Sort(values)[k])
    ensures Sort(values)[k] in values
  {
    SortAscends(values);
    RankInAscending(Sort(values), k);
    SortCounts(values, Sort(values)[k]);
    assert Sort(values)[k] in multiset(Sort(values));
  }

  // ----- records by an order on them -----

  ghost predicate TotalPreorder<T(!new)>(atMost: (T, T) -> bool) {
    && (forall a, b :: atMost(a, b) || atMost(b, a))
    && (forall a, b, c :: atMost(a, b) && atMost(b, c) ==> atMost(a, c))
  }

  function InsertBy<T>(x: T, sorted: seq<T>, atMost: (T, T) -> bool): seq<T> {
    if sorted == [] || atMost(x, sorted[0]) then [x] + sorted
    else [sorted[0]] + InsertBy(x, sorted[1..], atMost)
  }

  /** `sort_by` and `sort_by_key`: equal items keep their order. */
  function SortBy<T>(items: seq<T>, atMost: (T, T) -> bool): seq<T> {
    if items == [] then [] else InsertBy(items[0], SortBy(items[1..], atMost), atMost)
  }

  function Filter<T>(items: seq<T>, keep: T -> bool): seq<T> {
    if items == [] then []
    else if keep(items[0]) then [items[0]] + Filter(items[1..], keep)
    else Filter(items[1..], keep)
  }

  ghost predicate Ordered<T>(items: seq<T>, atMost: (T, T) -> bool) {
    forall i, j | 0 <= i < j < |items| :: atMost(items[i], items[j])
  }

  lemma {:induction false} InsertByKeeps<T(!new)>(x: T, sorted: seq<T>, atMost: (T, T) -> bool)
    ensures multiset(InsertBy(x, sorted, atMost)) == multiset(sorted) + multiset{x}
  {
    if sorted != [] {
      assert sorted == [sorted[0]] + sorted[1..];
      if !atMost(x, sorted[0]) {
        InsertByKeeps(x, sorted[1..], atMost);
      }
    }
  }

  lemma {:induction false} InsertByOrders<T(!new)>(x: T, sorted: seq<T>, atMost: (T, T) -> bool)
    requires TotalPreorder(atMost) && Ordered(sorted, atMost)
    ensures Ordered(InsertBy(x, sorted, atMost), atMost)
  {
    if sorted != [] && !atMost(x, sorted[0]) {
      InsertByOrders(x, sorted[1..], atMost);
      InsertByKeeps(x, sorted[1..], atMost);
      var rest := InsertBy(x, sorted[1..], atMost);
      forall i | 0 <= i < |rest| ensures atMost(sorted[0], rest[i]) {
        assert rest[i] in multiset(rest);
        if rest[i] != x {
          assert rest[i] in multiset(sorted[1..]);
        }
      }
    }
  }

  /** The sort is a sort: ordered, and a permutation. */
  lemma {:induction false} SortByOrders<T(!new)>(items: seq<T>, atMost: (T, T) -> bool)
    requires TotalPreorder(atMost)
    ensures Ordered(SortBy(items, atMost), atMost) && multiset(SortBy(items, atMost)) == multiset(items)
  {
    if items != [] {
      SortByOrders(items[1..], atMost);
      InsertByOrders(items[0], SortBy(items[1..], atMost), atMost);
      InsertByKeeps(items[0], SortBy(items[1..], atMost), atMost);
      assert items == [items[0]] + items[1..];
    }
  }

  lemma {:induction false} FilterMembers<T>(items: seq<T>, keep: T -> bool)
    ensures forall i | 0 <= i < |Filter(items, keep)| :: Filter(items, keep)[i] in items && keep(Filter(items, keep)[i])
  {
    if items != [] {
      FilterMembers(items[1..], keep);
    }
  }

  lemma {:induction false} FilterInsert<T(!new)>(x: T, sorted: seq<T>, atMost: (T, T) -> bool, keep: T -> bool)
    requires TotalPreorder(atMost) && Ordered(sorted, atMost)
    ensures Filter(InsertBy(x, sorted, atMost), keep) ==
            if keep(x) then InsertBy(x, Filter(sorted, keep), atMost) else Filter(sorted, keep)
  {
    if sorted != [] {
      if atMost(x, sorted[0]) {
        assert ([x] + sorted)[1..] == sorted;
        InsertInFront(x, sorted, atMost, keep);
      } else {
        var more := InsertBy(x, sorted[1..], atMost);
        assert ([sorted[0]] + more)[1..] == more;
        FilterInsert(x, sorted[1..], atMost, keep);
        if keep(sorted[0]) {
          assert Filter(sorted, keep)[1..] == Filter(sorted[1..], keep);
        }
      }
    }
  }

  /** What precedes every element precedes every kept element. */
  lemma InsertInFront<T(!new)>(x: T, sorted: seq<T>, atMost: (T, T) -> bool, keep: T -> bool)
    requires TotalPreorder(atMost) && Ordered(sorted, atMost) && sorted != [] && atMost(x, sorted[0])
    ensures InsertBy(x, Filter(sorted, keep), atMost) == [x] + Filter(sorted, keep)
  {
    FilterMembers(sorted, keep);
    var kept := Filter(sorted, keep);
    if kept != [] {
      assert kept[0] in sorted;
      var i :| 0 <= i < |sorted| && sorted[i] == kept[0];
      assert i > 0 ==> atMost(sorted[0], sorted[i]);
    }
  }

  /** Filtering commutes with the stable sort. */
  lemma {:induction false} FilterCommutesWithSort<T(!new)>(items: seq<T>, atMost: (T, T) -> bool, keep: T -> bool)
    requires TotalPreorder(atMost)
    ensures Filter(SortBy(items, atMost), keep) == SortBy(Filter(items, keep), atMost)
  {
    if items != [] {
      FilterCommutesWithSort(items[1..], atMost, keep);
      SortByOrders(items[1..], atMost);
      FilterInsert(items[0], SortBy(items[1..], atMost), atMost, keep);
      if keep(items[0]) {
        assert Filter(items, keep)[1..] == Filter(items[1..], keep);
      }
    }
  }

  /** A stable sort keeps the order of the items that tie with `pivot`. */
  lemma SortIsStable<T(!new)>(items: seq<T>, atMost: (T, T) -> bool, pivot: T)
    requires TotalPreorder(atMost)
    ensures var ties := x => atMost(x, pivot) && atMost(pivot, x);
            Filter(SortBy(items, atMost), ties) == Filter(items, ties)
  {
    var ties := x => atMost(x, pivot) && atMost(pivot, x);
    FilterCommutesWithSort(items, atMost, ties);
    FilterMembers(items, ties);
    SortedAlready(Filter(items, ties), atMost);
  }

  lemma {:induction false} SortedAlready<T>(items: seq<T>, atMost: (T, T) -> bool)
    requires forall i, j | 0 <= i < |items| && 0 <= j < |items| :: atMost(items[i], items[j])
    ensures SortBy(items, atMost) == items
  {
    if items != [] {
      SortedAlready(items[1..], atMost);
    }
  }

  // ----- permutations -----

  /** Two permutations of each other stay so without one common element. */
  lemma PermutationWithoutLast<T>(a: seq<T>, b: seq<T>) returns (j: nat)
    requires a != [] && multiset(a) == multiset(b)
    ensures j < |b| && b[j] == a[|a| - 1]
    ensures multiset(a[..|a| - 1]) == multiset(b[..j] + b[j + 1..])
  {
    var n := |a| - 1;
    assert a == a[..n] + [a[n]];
    assert a[n] in multiset(a);
    j :| 0 <= j < |b| && b[j] == a[n];
    WithoutOne(a, n);
    WithoutOne(b, j);
    assert a[..n] + a[n + 1..] == a[..n];
  }

  lemma WithoutOne<T>(s: seq<T>, j: nat)
    requires j < |s|
    ensures multiset(s[..j] + s[j + 1..]) == multiset(s) - multiset{s[j]}
  {
    assert s == s[..j] + [s[j]] + s[j + 1..];
    assert multiset(s) == multiset(s[..j]) + multiset{s[j]} + multiset(s[j + 1..]);
  }
}
