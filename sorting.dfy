/** `Array.prototype.sort` with a comparator, which is stable: elements the
    comparator ranks equal keep their original order. `leq(a, b)` stands
    for `compare(a, b) <= 0`. The model is an insertion sort that places
    each element before the first later-sorted element it is not greater
    than, which is the unique stable ordering. */
module Sorting {

  /** `leq` is total and transitive, as `compare(a, b) <= 0` is when the
      comparator subtracts numeric keys. */
  ghost predicate TotalPreorder<T(!new)>(leq: (T, T) -> bool)
  {
    (forall a, b :: leq(a, b) || leq(b, a)) &&
    (forall a, b, c :: leq(a, b) && leq(b, c) ==> leq(a, c))
  }

  /** Every element is `leq` every later element. */
  ghost predicate SortedBy<T>(xs: seq<T>, leq: (T, T) -> bool)
  {
    forall i, j :: 0 <= i < j < |xs| ==> leq(xs[i], xs[j])
  }

  /** `ys` with `x` placed before its first element `y` with `leq(x, y)`. */
  function Insert<T(==)>(x: T, ys: seq<T>, leq: (T, T) -> bool): (r: seq<T>)
    ensures multiset(r) == multiset(ys) + multiset{x}
    ensures |r| == |ys| + 1
  {
    if ys == [] then [x]
    else if leq(x, ys[0]) then [x] + ys
    else
      assert ys == [ys[0]] + ys[1..];
      [ys[0]] + Insert(x, ys[1..], leq)
  }

  /** `[...xs].sort(compare)`. */
  function Sort<T(==)>(xs: seq<T>, leq: (T, T) -> bool): (r: seq<T>)
    ensures multiset(r) == multiset(xs)
    ensures |r| == |xs|
  {
    if xs == [] then []
    else
      assert xs == [xs[0]] + xs[1..];
      Insert(xs[0], Sort(xs[1..], leq), leq)
  }

  lemma {:induction false} InsertSorted<T(!new)>(x: T, ys: seq<T>, leq: (T, T) -> bool)
    requires TotalPreorder(leq) && SortedBy(ys, leq)
    ensures SortedBy(Insert(x, ys, leq), leq)
  {
    if ys != [] && !leq(x, ys[0]) {
      var rest := Insert(x, ys[1..], leq);
      InsertSorted(x, ys[1..], leq);
      forall j | 0 <= j < |rest| ensures leq(ys[0], rest[j]) {
        assert rest[j] in multiset(rest);
        if rest[j] != x {
          assert rest[j] in multiset(ys[1..]);
          var k :| 0 <= k < |ys[1..]| && ys[1..][k] == rest[j];
          assert ys[k + 1] == rest[j];
        }
      }
    }
  }

  /** With a comparator that is a total preorder the result is ordered. */
  lemma {:induction false} SortSorted<T(!new)>(xs: seq<T>, leq: (T, T) -> bool)
    requires TotalPreorder(leq)
    ensures SortedBy(Sort(xs, leq), leq)
  {
    if xs != [] {
      SortSorted(xs[1..], leq);
      InsertSorted(xs[0], Sort(xs[1..], leq), leq);
    }
  }

  /** Every element of the sorted list comes from the input. */
  lemma SortMembers<T(!new)>(xs: seq<T>, leq: (T, T) -> bool, i: nat)
    requires i < |xs|
    ensures Sort(xs, leq)[i] in xs
  {
    var r := Sort(xs, leq);
    assert r[i] in multiset(r);
  }
}
