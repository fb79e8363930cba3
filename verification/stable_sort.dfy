/**
 * Rust's `slice::sort_by_key`, which `cut_at` in `p06/src/main.rs` and `run` in
 * `p15/src/main.rs` call: a stable sort by a natural-number key, written here as an
 * insertion sort.
 */
module StableSort {

  /** `x` in front of the first element of `sorted` whose key is at least as large. */
  function Insert<T>(key: T -> nat, x: T, sorted: seq<T>): (r: seq<T>)
    ensures |r| == |sorted| + 1
    decreases |sorted|
  {
    if sorted == [] || key(x) <= key(sorted[0]) then [x] + sorted
    else [sorted[0]] + Insert(key, x, sorted[1..])
  }

  /** The elements of `xs` by ascending key; elements with equal keys keep their order. */
  function SortByKey<T>(key: T -> nat, xs: seq<T>): (r: seq<T>)
    ensures |r| == |xs|
    decreases |xs|
  {
    if xs == [] then [] else Insert(key, xs[0], SortByKey(key, xs[1..]))
  }

  /** Each element's key is at least the one before it. */
  predicate SortedBy<T>(key: T -> nat, xs: seq<T>)
  {
    forall i :: 0 <= i < |xs| - 1 ==> key(xs[i]) <= key(xs[i + 1])
  }

  lemma {:induction false} InsertKeeps<T>(key: T -> nat, x: T, sorted: seq<T>)
    ensures multiset(Insert(key, x, sorted)) == multiset(sorted) + multiset{x}
    ensures sorted == [] || key(x) <= key(sorted[0]) ==> Insert(key, x, sorted)[0] == x
    ensures sorted != [] && key(x) > key(sorted[0]) ==> Insert(key, x, sorted)[0] == sorted[0]
    decreases |sorted|
  {
    if sorted != [] && key(x) > key(sorted[0]) {
      InsertKeeps(key, x, sorted[1..]);
      assert sorted == [sorted[0]] + sorted[1..];
    }
  }

  lemma {:induction false} InsertSorted<T>(key: T -> nat, x: T, sorted: seq<T>)
    requires SortedBy(key, sorted)
    ensures SortedBy(key, Insert(key, x, sorted))
    decreases |sorted|
  {
    if sorted != [] && key(x) > key(sorted[0]) {
      var rest := Insert(key, x, sorted[1..]);
      InsertSorted(key, x, sorted[1..]);
      InsertKeeps(key, x, sorted[1..]);
      var r := [sorted[0]] + rest;
      assert forall i :: 1 <= i < |r| - 1 ==> r[i] == rest[i - 1] && r[i + 1] == rest[i];
    }
  }

  /** The sort orders by key and keeps every element as often as it came. */
  lemma {:induction false} SortByKeyMeaning<T>(key: T -> nat, xs: seq<T>)
    ensures SortedBy(key, SortByKey(key, xs))
    ensures multiset(SortByKey(key, xs)) == multiset(xs)
    decreases |xs|
  {
    if xs != [] {
      SortByKeyMeaning(key, xs[1..]);
      InsertKeeps(key, xs[0], SortByKey(key, xs[1..]));
      InsertSorted(key, xs[0], SortByKey(key, xs[1..]));
      assert xs == [xs[0]] + xs[1..];
    }
  }

  /** Element `i` has the least key, and every element before it a larger one. */
  predicate FirstLeast<T>(key: T -> nat, xs: seq<T>, i: int)
  {
    0 <= i < |xs|
    && (forall j :: 0 <= j < |xs| ==> key(xs[i]) <= key(xs[j]))
    && (forall j :: 0 <= j < i ==> key(xs[i]) < key(xs[j]))
  }

  /** The first least element of `xs` from the first least element of its tail. */
  lemma FirstLeastStep<T>(key: T -> nat, xs: seq<T>, k: int)
    requires |xs| >= 2 && FirstLeast(key, xs[1..], k)
    ensures key(xs[0]) <= key(xs[k + 1]) ==> FirstLeast(key, xs, 0)
    ensures key(xs[0]) > key(xs[k + 1]) ==> FirstLeast(key, xs, k + 1)
  {
    assert forall j :: 1 <= j < |xs| ==> xs[j] == xs[1..][j - 1];
  }

  /** Because the sort is stable, it puts first the first element with the least key. */
  lemma {:induction false} SortByKeyHead<T>(key: T -> nat, xs: seq<T>)
    requires xs != []
    ensures exists i :: FirstLeast(key, xs, i) && SortByKey(key, xs)[0] == xs[i]
    decreases |xs|
  {
    var rest := xs[1..];
    InsertKeeps(key, xs[0], SortByKey(key, rest));
    if rest == [] {
      assert FirstLeast(key, xs, 0);
    } else {
      SortByKeyHead(key, rest);
      var k :| FirstLeast(key, rest, k) && SortByKey(key, rest)[0] == rest[k];
      FirstLeastStep(key, xs, k);
      assert rest[k] == xs[k + 1];
    }
  }
}
