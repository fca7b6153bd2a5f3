/** A JavaScript object used as a dictionary (`useState({})` keyed by id):
    its keys in insertion order and the value stored under each.
    `Object.values` and `Object.entries` follow the key order, which the
    application's filters and stable sorts inherit. Keys here are ids and
    names, never integer-like strings, so insertion order is the whole
    enumeration order. */
module Dicts {
  import opened Common

  datatype Dict<K(==), V> = Dict(keys: seq<K>, vals: map<K, V>)
  {
    /** Keys are distinct and are exactly the map's domain. */
    ghost predicate Valid()
    {
      (forall i, j :: 0 <= i < j < |keys| ==> keys[i] != keys[j]) &&
      (forall i :: 0 <= i < |keys| ==> keys[i] in vals) &&
      (forall k | k in vals :: k in keys)
    }

    /** `obj[k]`, or nothing when the key is absent. */
    function Get(k: K): (r: Option<V>)
      ensures r.Some? <==> k in vals
      ensures r.Some? ==> r.value == vals[k]
    {
      if k in vals then Some(vals[k]) else None
    }

    /** `{ ...obj, [k]: v }`: a new key goes last, an existing key keeps
        its place and gets the new value. */
    function Put(k: K, v: V): (d: Dict<K, V>)
      ensures d.vals == vals[k := v]
      ensures k in vals ==> d.keys == keys
      ensures k !in vals ==> d.keys == keys + [k]
    {
      Dict(if k in vals then keys else keys + [k], vals[k := v])
    }

    /** `delete obj[k]`: the other keys stay, in their order. */
    function Remove(k: K): (d: Dict<K, V>)
      ensures d.vals == vals - {k}
      ensures d.keys == Filter(keys, Other(k))
      ensures forall i :: 0 <= i < |d.keys| ==> d.keys[i] != k && d.keys[i] in keys
      ensures forall i :: 0 <= i < |keys| && keys[i] != k ==> keys[i] in d.keys
    {
      Dict(Filter(keys, Other(k)), vals - {k})
    }

    /** `Object.values(obj)`. */
    function Values(): (r: seq<V>)
      requires Valid()
      ensures |r| == |keys|
      ensures forall i :: 0 <= i < |keys| ==> r[i] == vals[keys[i]]
    {
      seq(|keys|, i requires 0 <= i < |keys| => vals[keys[i]])
    }
  }

  /** The test "is not `k`". */
  function Other<K(==)>(k: K): K -> bool
  {
    x => x != k
  }

  /** In a sequence of distinct elements, an element occurs neither
      before nor after its own position. */
  lemma OnlyOccurrence<K>(keys: seq<K>, i: nat)
    requires i < |keys| && forall m, n :: 0 <= m < n < |keys| ==> keys[m] != keys[n]
    ensures keys[i] !in keys[..i] && keys[i] !in keys[i + 1..]
  {
    forall j | 0 <= j < i ensures keys[..i][j] != keys[i] {
      assert keys[..i][j] == keys[j];
    }
    var after := keys[i + 1..];
    forall j | 0 <= j < |after| ensures after[j] != keys[i] {
      assert after[j] == keys[i + 1 + j];
    }
  }

  /** One step of filtering distinct keys in place: when the key at `i` fails
      `p`, removing it from the partly filtered sequence extends the filtered
      prefix by nothing. */
  lemma SweepDrops<K>(keys: seq<K>, i: nat, p: K -> bool)
    requires i < |keys| && forall m, n :: 0 <= m < n < |keys| ==> keys[m] != keys[n]
    requires !p(keys[i])
    ensures Filter(Filter(keys[..i], p) + keys[i..], Other(keys[i])) ==
            Filter(keys[..i + 1], p) + keys[i + 1..]
  {
    var k, a, b := keys[i], Filter(keys[..i], p), keys[i + 1..];
    assert keys[..i + 1] == keys[..i] + [k];
    assert keys[i..] == [k] + b;
    OnlyOccurrence(keys, i);
    FilterMember(keys[..i], p, k);
    calc {
      Filter(a + keys[i..], Other(k));
      Filter(a + ([k] + b), Other(k));
    == { RemoveAbsentAround(a, k, b); }
      a + b;
    == { FilterSnoc(keys[..i], k, p); }
      Filter(keys[..i + 1], p) + b;
    }
  }

  /** One step of filtering in place: when the key at `i` satisfies `p`,
      the filtered prefix grows by that key. */
  lemma SweepKeeps<K>(keys: seq<K>, i: nat, p: K -> bool)
    requires i < |keys| && p(keys[i])
    ensures Filter(keys[..i], p) + keys[i..] == Filter(keys[..i + 1], p) + keys[i + 1..]
  {
    var k, a, b := keys[i], Filter(keys[..i], p), keys[i + 1..];
    assert keys[..i + 1] == keys[..i] + [k];
    assert keys[i..] == [k] + b;
    FilterSnoc(keys[..i], k, p);
    calc {
      a + ([k] + b);
      (a + [k]) + b;
    }
  }

  /** Dropping a key that occurs once, between `a` and `b`, leaves `a`
      then `b`. */
  lemma RemoveAbsentAround<K>(a: seq<K>, k: K, b: seq<K>)
    requires k !in a && k !in b
    ensures Filter(a + ([k] + b), Other(k)) == a + b
  {
    var q := Other(k);
    assert Filter([k], q) == [] by {
      assert [k][1..] == [];
    }
    calc {
      Filter(a + ([k] + b), q);
    == { FilterConcat(a, [k] + b, q); FilterConcat([k], b, q); }
      Filter(a, q) + (Filter([k], q) + Filter(b, q));
    == { FilterAll(a, q); FilterAll(b, q); }
      a + ([] + b);
    ==
      a + b;
    }
  }

  /** `{}`. */
  function Empty<K(==), V>(): (d: Dict<K, V>)
    ensures d.Valid() && d.keys == [] && d.vals == map[]
  {
    Dict([], map[])
  }

  /** Storing keeps a dictionary well formed. */
  lemma PutValid<K, V>(d: Dict<K, V>, k: K, v: V)
    requires d.Valid()
    ensures d.Put(k, v).Valid()
  {
  }

  /** Deleting keeps a dictionary well formed. */
  lemma {:induction false} RemoveValid<K, V>(d: Dict<K, V>, k: K)
    requires d.Valid()
    ensures d.Remove(k).Valid()
  {
    FilterIsSubseq(d.keys, Other(k));
    SubseqDistinct(Filter(d.keys, Other(k)), d.keys);
  }

  /** A subsequence of a sequence of distinct elements has distinct elements. */
  lemma {:induction false} SubseqDistinct<T>(xs: seq<T>, ys: seq<T>)
    requires IsSubseq(xs, ys)
    requires forall i, j :: 0 <= i < j < |ys| ==> ys[i] != ys[j]
    ensures forall i, j :: 0 <= i < j < |xs| ==> xs[i] != xs[j]
    decreases |ys|
  {
    if xs != [] && ys != [] {
      if xs[0] == ys[0] {
        SubseqDistinct(xs[1..], ys[1..]);
        SubseqMember(xs[1..], ys[1..]);
        forall j | 0 < j < |xs| ensures xs[0] != xs[j] {
          assert xs[1..][j - 1] in ys[1..];
        }
      } else {
        SubseqDistinct(xs, ys[1..]);
      }
    }
  }

  /** Every element of a subsequence is an element of the sequence. */
  lemma {:induction false} SubseqMember<T>(xs: seq<T>, ys: seq<T>)
    requires IsSubseq(xs, ys)
    ensures forall i :: 0 <= i < |xs| ==> xs[i] in ys
    decreases |ys|
  {
    if xs != [] && ys != [] {
      if xs[0] == ys[0] {
        SubseqMember(xs[1..], ys[1..]);
        forall i | 0 < i < |xs| ensures xs[i] in ys {
          assert xs[1..][i - 1] in ys[1..];
        }
      } else {
        SubseqMember(xs, ys[1..]);
      }
    }
  }

  /** Storing under a new key appends its value to `Object.values`. */
  lemma PutNewValues<K, V>(d: Dict<K, V>, k: K, v: V)
    requires d.Valid() && k !in d.vals
    ensures d.Put(k, v).Valid()
    ensures d.Put(k, v).Values() == d.Values() + [v]
  {
    var e := d.Put(k, v);
    assert e.Valid();
    assert forall i :: 0 <= i < |d.keys| ==> d.keys[i] != k;
  }

  /** Storing under an existing key replaces its value in place. */
  lemma PutOldValues<K, V>(d: Dict<K, V>, k: K, v: V, i: nat)
    requires d.Valid() && i < |d.keys| && d.keys[i] == k
    ensures d.Put(k, v).Valid()
    ensures d.Put(k, v).Values() == d.Values()[i := v]
  {
    var e := d.Put(k, v);
    assert e.Valid();
    assert forall j :: 0 <= j < |d.keys| && j != i ==> d.keys[j] != k;
  }

  /** `xs.reduce((acc, x) => { (acc[key(x)] ||= []).push(x); return acc }, {})`:
      the elements grouped under their keys, keys in order of first
      appearance, each group in the order of `xs`. */
  function GroupBy<T, K(==)>(xs: seq<T>, key: T -> K): (d: Dict<K, seq<T>>)
    ensures d.Valid()
  {
    if xs == [] then Empty()
    else
      var g := GroupBy(xs[..|xs| - 1], key);
      var x := xs[|xs| - 1];
      var k := key(x);
      PutValid(g, k, if k in g.vals then g.vals[k] + [x] else [x]);
      g.Put(k, if k in g.vals then g.vals[k] + [x] else [x])
  }

  /** The test `key(x) === k`. */
  function KeyIs<T, K(==)>(key: T -> K, k: K): T -> bool
  {
    x => key(x) == k
  }

  /** `k` is a key of the grouping iff some element has key `k`. */
  lemma {:induction false} GroupByDomain<T, K>(xs: seq<T>, key: T -> K, k: K)
    ensures k in GroupBy(xs, key).vals <==> exists i :: 0 <= i < |xs| && key(xs[i]) == k
  {
    if xs != [] {
      var init, x := xs[..|xs| - 1], xs[|xs| - 1];
      GroupByDomain(init, key, k);
      if k in GroupBy(init, key).vals {
        var i :| 0 <= i < |init| && key(init[i]) == k;
        assert key(xs[i]) == k;
      }
      if exists i :: 0 <= i < |xs| && key(xs[i]) == k {
        var i :| 0 <= i < |xs| && key(xs[i]) == k;
        if i < |init| {
          assert key(init[i]) == k;
        }
      }
    }
  }

  /** The group of key `k` holds exactly the elements whose key is `k`, in
      the order of `xs`. */
  lemma {:induction false} GroupByGroup<T, K>(xs: seq<T>, key: T -> K, k: K)
    requires k in GroupBy(xs, key).vals
    ensures GroupBy(xs, key).vals[k] == Filter(xs, KeyIs(key, k))
  {
    var init, x := xs[..|xs| - 1], xs[|xs| - 1];
    var g := GroupBy(init, key);
    assert xs == init + [x];
    FilterConcat(init, [x], KeyIs(key, k));
    if k in g.vals {
      GroupByGroup(init, key, k);
    } else {
      GroupByDomain(init, key, k);
      FilterEmpty(init, KeyIs(key, k));
    }
  }

  /** Filtering by a predicate no element satisfies gives nothing. */
  lemma {:induction false} FilterEmpty<T>(xs: seq<T>, p: T -> bool)
    requires forall i :: 0 <= i < |xs| ==> !p(xs[i])
    ensures Filter(xs, p) == []
  {
    if xs != [] {
      FilterEmpty(xs[1..], p);
    }
  }
}
