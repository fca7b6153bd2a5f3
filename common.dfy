/** Shared vocabulary of the model: optional values and error results,
    the list combinators the source applies everywhere (`filter`,
    `slice(0, n)`, `reduce` into a sum), and `Math.round` of a quotient
    of non-negative integers. */
module Common {

  /** A value that may be absent (`null` / `undefined` in the source). */
  datatype Option<T> = None | Some(value: T)

  /** The outcome of an operation that may throw: `Err` carries the
      message of the `Error` the source throws. */
  datatype Result<T> = Ok(value: T) | Err(message: string)

  /** `xs.filter(p)`: the elements satisfying `p`, in order. */
  function Filter<T>(xs: seq<T>, p: T -> bool): (r: seq<T>)
    ensures |r| <= |xs|
    ensures forall i :: 0 <= i < |r| ==> p(r[i]) && r[i] in xs
    ensures forall i :: 0 <= i < |xs| && p(xs[i]) ==> xs[i] in r
  {
    if xs == [] then []
    else (if p(xs[0]) then [xs[0]] else []) + Filter(xs[1..], p)
  }

  /** `xs` occurs in `ys` in the same order, possibly with gaps. */
  predicate IsSubseq<T(==)>(xs: seq<T>, ys: seq<T>)
    decreases |ys|
  {
    if xs == [] then true
    else if ys == [] then false
    else if xs[0] == ys[0] then IsSubseq(xs[1..], ys[1..])
    else IsSubseq(xs, ys[1..])
  }

  /** An element is kept iff it is in the list and satisfies the test. */
  lemma FilterMember<T>(xs: seq<T>, p: T -> bool, x: T)
    ensures x in Filter(xs, p) <==> x in xs && p(x)
  {
    var r := Filter(xs, p);
    if x in r {
      var i :| 0 <= i < |r| && r[i] == x;
    }
    if x in xs && p(x) {
      var i :| 0 <= i < |xs| && xs[i] == x;
    }
  }

  /** A filter keeps the order of what it keeps. */
  lemma {:induction false} FilterIsSubseq<T>(xs: seq<T>, p: T -> bool)
    ensures IsSubseq(Filter(xs, p), xs)
  {
    if xs != [] {
      FilterIsSubseq(xs[1..], p);
      var rest := Filter(xs[1..], p);
      if p(xs[0]) {
        assert Filter(xs, p) == [xs[0]] + rest;
        assert ([xs[0]] + rest)[1..] == rest;
      } else {
        assert Filter(xs, p) == rest;
        if rest != [] {
          assert p(rest[0]);
        }
      }
    }
  }

  /** Filtering with a predicate every element satisfies changes nothing. */
  lemma {:induction false} FilterAll<T>(xs: seq<T>, p: T -> bool)
    requires forall i :: 0 <= i < |xs| ==> p(xs[i])
    ensures Filter(xs, p) == xs
  {
    if xs != [] {
      FilterAll(xs[1..], p);
      assert [xs[0]] + xs[1..] == xs;
    }
  }

  /** Filtering distributes over concatenation. */
  lemma {:induction false} FilterConcat<T>(xs: seq<T>, ys: seq<T>, p: T -> bool)
    ensures Filter(xs + ys, p) == Filter(xs, p) + Filter(ys, p)
  {
    if xs == [] {
      assert xs + ys == ys;
    } else {
      var head := if p(xs[0]) then [xs[0]] else [];
      calc {
        Filter(xs + ys, p);
      == { assert (xs + ys)[0] == xs[0]; assert (xs + ys)[1..] == xs[1..] + ys; }
        head + Filter(xs[1..] + ys, p);
      == { FilterConcat(xs[1..], ys, p); }
        head + (Filter(xs[1..], p) + Filter(ys, p));
      ==
        (head + Filter(xs[1..], p)) + Filter(ys, p);
      }
    }
  }

  /** Filtering one more element appends it iff it passes. */
  lemma FilterSnoc<T>(xs: seq<T>, x: T, p: T -> bool)
    ensures Filter(xs + [x], p) == Filter(xs, p) + (if p(x) then [x] else [])
  {
    FilterConcat(xs, [x], p);
    assert [x][1..] == [];
  }

  /** Filtering four elements of which only the last fails keeps the
      first three. */
  lemma FilterDropsFourth<T>(a: T, b: T, c: T, d: T, p: T -> bool)
    requires p(a) && p(b) && p(c) && !p(d)
    ensures Filter([a, b, c, d], p) == [a, b, c]
  {
    assert [a, b, c, d][1..] == [b, c, d];
    assert [b, c, d][1..] == [c, d];
    assert [c, d][1..] == [d];
    assert Filter([d], p) == [] by {
      assert [d][1..] == [];
    }
    assert Filter([c, d], p) == [c];
    assert Filter([b, c, d], p) == [b] + [c];
  }

  /** Two predicates that agree on the elements give the same filter. */
  lemma {:induction false} FilterCongruent<T>(xs: seq<T>, p: T -> bool, q: T -> bool)
    requires forall i :: 0 <= i < |xs| ==> p(xs[i]) == q(xs[i])
    ensures Filter(xs, p) == Filter(xs, q)
  {
    if xs != [] {
      FilterCongruent(xs[1..], p, q);
    }
  }

  /** Two mutually exclusive predicates split the list: their counts add up
      to at most its length. */
  lemma {:induction false} FilterDisjointCounts<T>(xs: seq<T>, p: T -> bool, q: T -> bool)
    requires forall i :: 0 <= i < |xs| ==> !(p(xs[i]) && q(xs[i]))
    ensures |Filter(xs, p)| + |Filter(xs, q)| <= |xs|
  {
    if xs != [] {
      FilterDisjointCounts(xs[1..], p, q);
    }
  }

  /** `xs.slice(0, n)`. */
  function Take<T>(xs: seq<T>, n: nat): (r: seq<T>)
    ensures |r| <= n && |r| <= |xs|
    ensures r <= xs
    ensures |xs| <= n ==> r == xs
    ensures n <= |xs| ==> |r| == n
  {
    if |xs| <= n then xs else xs[..n]
  }

  /** `xs.reduce((sum, x) => sum + f(x), 0)`. */
  function Sum<T>(xs: seq<T>, f: T -> nat): nat
  {
    if xs == [] then 0 else f(xs[0]) + Sum(xs[1..], f)
  }

  /** A sum of terms bounded by `m` is bounded by `m` times the count. */
  lemma {:induction false} SumBound<T>(xs: seq<T>, f: T -> nat, m: nat)
    requires forall i :: 0 <= i < |xs| ==> f(xs[i]) <= m
    ensures Sum(xs, f) <= m * |xs|
  {
    if xs != [] {
      SumBound(xs[1..], f, m);
    }
  }

  /** Sums of terms that agree termwise are equal. */
  lemma {:induction false} SumCongruent<T, U>(xs: seq<T>, f: T -> nat, ys: seq<U>, g: U -> nat)
    requires |xs| == |ys|
    requires forall i :: 0 <= i < |xs| ==> f(xs[i]) == g(ys[i])
    ensures Sum(xs, f) == Sum(ys, g)
  {
    if xs != [] {
      SumCongruent(xs[1..], f, ys[1..], g);
    }
  }

  /** `Math.round(a / b)` for non-negative integers: the integer nearest
      to a/b, halves rounded up. */
  function RoundDiv(a: nat, b: nat): (r: nat)
    requires b > 0
    ensures 2 * b * r <= 2 * a + b < 2 * b * r + 2 * b
  {
    var q := (2 * a + b) / (2 * b);
    assert (2 * b) * q <= 2 * a + b < (2 * b) * q + 2 * b by {
      DivBounds(2 * a + b, 2 * b);
    }
    q
  }

  lemma DivBounds(x: nat, y: nat)
    requires y > 0
    ensures y * (x / y) <= x < y * (x / y) + y
  {
  }

  /** `total > 0 ? Math.round((part / total) * 100) : 0`: the integer
      nearest to 100 × part / total, a half rounded up. */
  function Percent(part: nat, total: nat): (r: nat)
    ensures total == 0 ==> r == 0
    ensures total > 0 ==> 2 * total * r <= 200 * part + total < 2 * total * r + 2 * total
    ensures part <= total ==> r <= 100
    ensures total > 0 && part == total ==> r == 100
  {
    if total == 0 then 0
    else
      var r := RoundDiv(100 * part, total);
      PercentBounds(part, total, r);
      r
  }

  lemma PercentBounds(part: nat, total: nat, r: nat)
    requires total > 0
    requires 2 * total * r <= 2 * (100 * part) + total < 2 * total * r + 2 * total
    ensures part <= total ==> r <= 100
    ensures part == total ==> r == 100
  {
    if part <= total {
      assert 2 * (100 * part) <= 2 * (100 * total);
      // 2·total·r ≤ 200·total + total < 2·total·101
      MulCancel(2 * total, r, 101);
    }
    if part == total {
      // 200·total + total < 2·total·(r + 1), so r + 1 > 100
      assert 2 * total * 100 < 2 * total * (r + 1);
      MulCancel(2 * total, 100, r + 1);
    }
  }

  /** A larger part never gives a smaller percentage. */
  lemma PercentMonotone(a: nat, b: nat, total: nat)
    requires a <= b
    ensures Percent(a, total) <= Percent(b, total)
  {
    if total > 0 {
      var ra, rb := Percent(a, total), Percent(b, total);
      assert 2 * total * ra <= 2 * (100 * a) + total <= 2 * (100 * b) + total;
      assert 2 * total * rb + 2 * total == 2 * total * (rb + 1);
      MulCancel(2 * total, ra, rb + 1);
    }
  }

  /** Cancelling a positive factor preserves a strict inequality. */
  lemma MulCancel(a: nat, x: nat, y: nat)
    requires a > 0 && a * x < a * y
    ensures x < y
  {
  }
  /** The set of values `f` takes on the elements of `xs`. */
  function Image<T, U>(xs: seq<T>, f: T -> U): (r: set<U>)
    ensures forall i :: 0 <= i < |xs| ==> f(xs[i]) in r
    ensures forall y :: y in r ==> exists i :: 0 <= i < |xs| && f(xs[i]) == y
  {
    if xs == [] then {} else {f(xs[0])} + Image(xs[1..], f)
  }

  /** A sequence takes at most as many values as it has elements. */
  lemma {:induction false} ImageCard<T, U>(xs: seq<T>, f: T -> U)
    ensures |Image(xs, f)| <= |xs|
  {
    if xs != [] {
      ImageCard(xs[1..], f);
    }
  }

  /** When `f` is injective on the elements, it takes exactly `|xs|` values. */
  lemma {:induction false} DistinctImageCard<T, U>(xs: seq<T>, f: T -> U)
    requires forall i, j :: 0 <= i < j < |xs| ==> f(xs[i]) != f(xs[j])
    ensures |Image(xs, f)| == |xs|
  {
    if xs != [] {
      var rest := xs[1..];
      DistinctImageCard(rest, f);
      forall y | y in Image(rest, f) ensures y != f(xs[0]) {
        var i :| 0 <= i < |rest| && f(rest[i]) == y;
        assert rest[i] == xs[i + 1];
      }
    }
  }

  /** Two sets each within the other are as large as each other. */
  lemma MutualSubsetCard<T>(a: set<T>, b: set<T>)
    requires a <= b && b <= a
    ensures |a| == |b|
  {
    assert a == b;
  }

  /** A subset is no larger than the set. */
  lemma SubsetCard<T>(a: set<T>, b: set<T>)
    requires a <= b
    ensures |a| <= |b|
  {
    assert b == a + (b - a);
  }
  /** `xs.findIndex(p)`, with `|xs|` for "not found": the position of the
      first element satisfying `p`. */
  function FindIndex<T>(xs: seq<T>, p: T -> bool): (i: nat)
    ensures i <= |xs|
    ensures i < |xs| ==> p(xs[i])
    ensures forall j :: 0 <= j < i ==> !p(xs[j])
  {
    if xs == [] then 0
    else if p(xs[0]) then 0
    else
      var i := FindIndex(xs[1..], p);
      assert forall j :: 0 < j < |xs| ==> xs[j] == xs[1..][j - 1];
      i + 1
  }

  /** `xs.find(p)`: the first element satisfying `p`, if any. */
  function Find<T>(xs: seq<T>, p: T -> bool): (r: Option<T>)
    ensures r.None? <==> forall i :: 0 <= i < |xs| ==> !p(xs[i])
    ensures r.Some? ==> r.value in xs && p(r.value)
  {
    var i := FindIndex(xs, p);
    if i < |xs| then Some(xs[i]) else None
  }

  /** The negation of a test. */
  function Complement<T>(p: T -> bool): T -> bool
  {
    x => !p(x)
  }

  /** A test and its negation split the list. */
  lemma {:induction false} FilterComplementCounts<T>(xs: seq<T>, p: T -> bool)
    ensures |Filter(xs, p)| + |Filter(xs, Complement(p))| == |xs|
  {
    if xs != [] {
      FilterComplementCounts(xs[1..], p);
    }
  }
}
