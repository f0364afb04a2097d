/** Python's stable `sorted` by a real key, and counting keys under a threshold. */
module Sorting {

  function Insert<T>(x: T, sorted: seq<T>, key: T -> real): seq<T> {
    if sorted == [] || key(x) <= key(sorted[0]) then [x] + sorted
    else [sorted[0]] + Insert(x, sorted[1..], key)
  }

  function SortBy<T>(items: seq<T>, key: T -> real): seq<T> {
    if items == [] then [] else Insert(items[0], SortBy(items[1..], key), key)
  }

  ghost predicate Ascending<T>(items: seq<T>, key: T -> real) {
    forall i, j :: 0 <= i < j < |items| ==> key(items[i]) <= key(items[j])
  }

  lemma {:induction false} InsertStaysAbove<T>(x: T, sorted: seq<T>, key: T -> real, low: real)
    requires low <= key(x) && forall i :: 0 <= i < |sorted| ==> low <= key(sorted[i])
    ensures forall i :: 0 <= i < |Insert(x, sorted, key)| ==> low <= key(Insert(x, sorted, key)[i])
  {
    if sorted != [] && key(x) > key(sorted[0]) {
      InsertStaysAbove(x, sorted[1..], key, low);
    }
  }

  lemma {:induction false} InsertKeeps<T>(x: T, sorted: seq<T>, key: T -> real)
    requires Ascending(sorted, key)
    ensures Ascending(Insert(x, sorted, key), key)
    ensures forall y :: y in Insert(x, sorted, key) <==> y == x || y in sorted
    ensures |Insert(x, sorted, key)| == |sorted| + 1
  {
    if sorted != [] && key(x) > key(sorted[0]) {
      InsertKeeps(x, sorted[1..], key);
      InsertStaysAbove(x, sorted[1..], key, key(sorted[0]));
      assert sorted == [sorted[0]] + sorted[1..];
    }
  }

  /** Sorting orders the items and keeps every one of them. */
  lemma {:induction false} SortSorts<T>(items: seq<T>, key: T -> real)
    ensures Ascending(SortBy(items, key), key) && |SortBy(items, key)| == |items|
    ensures forall y :: y in SortBy(items, key) <==> y in items
  {
    if items != [] {
      SortSorts(items[1..], key);
      InsertKeeps(items[0], SortBy(items[1..], key), key);
      assert items == [items[0]] + items[1..];
    }
  }

  /** How many items have a key of at most `t`. */
  function CountAtMost<T>(items: seq<T>, key: T -> real, t: real): (n: nat)
    ensures n <= |items|
  {
    if items == [] then 0
    else (if key(items[0]) <= t then 1 else 0) + CountAtMost(items[1..], key, t)
  }

  lemma {:induction false} CountGrows<T>(items: seq<T>, key: T -> real, t: real, u: real)
    requires t <= u
    ensures CountAtMost(items, key, t) <= CountAtMost(items, key, u)
  {
    if items != [] {
      CountGrows(items[1..], key, t, u);
    }
  }

  lemma {:induction false} CountOfConcat<T>(a: seq<T>, b: seq<T>, key: T -> real, t: real)
    ensures CountAtMost(a + b, key, t) == CountAtMost(a, key, t) + CountAtMost(b, key, t)
  {
    if a == [] {
      assert a + b == b;
    } else {
      assert (a + b)[1..] == a[1..] + b;
      CountOfConcat(a[1..], b, key, t);
    }
  }

  lemma {:induction false} CountOfInsert<T>(x: T, sorted: seq<T>, key: T -> real, t: real)
    ensures CountAtMost(Insert(x, sorted, key), key, t) == CountAtMost([x], key, t) + CountAtMost(sorted, key, t)
  {
    if sorted == [] || key(x) <= key(sorted[0]) {
      CountOfConcat([x], sorted, key, t);
    } else {
      CountOfInsert(x, sorted[1..], key, t);
    }
  }

  lemma {:induction false} CountOfSorted<T>(items: seq<T>, key: T -> real, t: real)
    ensures CountAtMost(SortBy(items, key), key, t) == CountAtMost(items, key, t)
  {
    if items != [] {
      CountOfSorted(items[1..], key, t);
      CountOfInsert(items[0], SortBy(items[1..], key), key, t);
    }
  }

  lemma {:induction false} CountWithout<T>(b: seq<T>, i: nat, key: T -> real, t: real)
    requires i < |b|
    ensures CountAtMost(b, key, t) == (if key(b[i]) <= t then 1 else 0) + CountAtMost(b[..i] + b[i + 1..], key, t)
    ensures multiset(b) == multiset{b[i]} + multiset(b[..i] + b[i + 1..])
  {
    assert b == b[..i] + ([b[i]] + b[i + 1..]);
    assert b[i..] == [b[i]] + b[i + 1..];
    assert multiset(b) == multiset(b[..i]) + multiset([b[i]]) + multiset(b[i + 1..]);
    CountOfConcat(b[..i], b[i..], key, t);
    CountOfConcat(b[..i], b[i + 1..], key, t);
  }

  lemma {:induction false} Cancel<T>(x: T, a: multiset<T>, b: multiset<T>)
    requires multiset{x} + a == multiset{x} + b
    ensures a == b
  {
    assert a == multiset{x} + a - multiset{x} && b == multiset{x} + b - multiset{x};
  }

  /** Counting sees only the multiset. */
  lemma {:induction false} CountOfPermutation<T>(a: seq<T>, b: seq<T>, key: T -> real, t: real)
    requires multiset(a) == multiset(b)
    ensures CountAtMost(a, key, t) == CountAtMost(b, key, t)
  {
    if a == [] {
      assert |multiset(a)| == |multiset(b)|;
    } else {
      assert a[0] in multiset(b);
      var i :| 0 <= i < |b| && b[i] == a[0];
      CountWithout(b, i, key, t);
      assert a == [a[0]] + a[1..];
      Cancel(a[0], multiset(a[1..]), multiset(b[..i] + b[i + 1..]));
      CountOfPermutation(a[1..], b[..i] + b[i + 1..], key, t);
    }
  }

  lemma {:induction false} NoneAtMost<T>(items: seq<T>, key: T -> real, t: real)
    requires forall i :: 0 <= i < |items| ==> key(items[i]) > t
    ensures CountAtMost(items, key, t) == 0
  {
    if items != [] {
      NoneAtMost(items[1..], key, t);
    }
  }

  lemma {:induction false} CountOnAscending<T>(sorted: seq<T>, key: T -> real, t: real, j: nat)
    requires Ascending(sorted, key) && 0 < j <= |sorted|
    ensures key(sorted[j - 1]) <= t <==> CountAtMost(sorted, key, t) >= j
  {
    if j > 1 {
      CountOnAscending(sorted[1..], key, t, j - 1);
    }
    if key(sorted[0]) > t {
      NoneAtMost(sorted, key, t);
    }
  }

  /** The order statistic: the j-th smallest key is at most `t` exactly when at least `j` keys are. */
  lemma {:induction false} RankedAtMost<T>(items: seq<T>, key: T -> real, t: real, j: nat)
    requires 0 < j <= |items|
    ensures |SortBy(items, key)| == |items|
    ensures key(SortBy(items, key)[j - 1]) <= t <==> CountAtMost(items, key, t) >= j
  {
    SortSorts(items, key);
    CountOnAscending(SortBy(items, key), key, t, j);
    CountOfSorted(items, key, t);
  }

  // ----- counting, said with sets

  /** The positions of a sequence whose key is at most `t`. */
  ghost function PositionsAtMost<T>(items: seq<T>, key: T -> real, t: real): set<nat> {
    set i: nat | i < |items| && key(items[i]) <= t
  }

  lemma {:induction false} CountIsCardinality<T>(items: seq<T>, key: T -> real, t: real)
    ensures CountAtMost(items, key, t) == |PositionsAtMost(items, key, t)|
  {
    if items == [] {
      assert PositionsAtMost(items, key, t) == {};
    } else {
      var front, last := items[..|items| - 1], items[|items| - 1];
      assert items == front + [last];
      CountIsCardinality(front, key, t);
      CountOfConcat(front, [last], key, t);
      assert CountAtMost([last][1..], key, t) == 0;
      var fewer: set<nat> := PositionsAtMost(front, key, t);
      assert |front| !in fewer;
      assert PositionsAtMost(items, key, t) == if key(last) <= t then fewer + {|front|} else fewer;
    }
  }
}
