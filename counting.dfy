/** The count dictionaries of the report scripts (`d[k] = d.get(k, 0) + v`), as maps from
    key to count, with their specification: a count map is the multiset of the keys that
    were counted. */
module Counting {

  /** `d.get(k, 0)` */
  function Get(m: map<string, nat>, k: string): nat
  {
    if k in m then m[k] else 0
  }

  /** `d[k] = d.get(k, 0) + v` */
  function Bump(m: map<string, nat>, k: string, v: nat): map<string, nat>
  {
    m[k := Get(m, k) + v]
  }

  /** The count map of a sequence of keys: every key that occurs, with the number of times it occurs. */
  function CountMap(s: seq<string>): map<string, nat>
  {
    map k | k in s :: multiset(s)[k]
  }

  /** Entry-wise sum of two count maps. */
  function AddCounts(a: map<string, nat>, b: map<string, nat>): map<string, nat>
  {
    map k | k in a.Keys + b.Keys :: Get(a, k) + Get(b, k)
  }

  /** `sum(d.values())`, as a sum of the values of the keys in `keys`. */
  ghost function SumOver(m: map<string, nat>, keys: set<string>): nat
    decreases keys
  {
    if keys == {} then 0
    else
      var k :| k in keys;
      Get(m, k) + SumOver(m, keys - {k})
  }

  ghost function SumValues(m: map<string, nat>): nat
  {
    SumOver(m, m.Keys)
  }

  /** The sum does not depend on which key is taken out first. */
  lemma {:induction false} SumOverRemove(m: map<string, nat>, keys: set<string>, k: string)
    requires k in keys
    ensures SumOver(m, keys) == Get(m, k) + SumOver(m, keys - {k})
    decreases keys
  {
    var k' :| k' in keys && SumOver(m, keys) == Get(m, k') + SumOver(m, keys - {k'});
    if k' != k {
      SumOverRemove(m, keys - {k'}, k);
      SumOverRemove(m, keys - {k}, k');
      assert keys - {k'} - {k} == keys - {k} - {k'};
    }
  }

  /** The sum over `keys` only reads the values of `keys`. */
  lemma {:induction false} SumOverFrame(m: map<string, nat>, m': map<string, nat>, keys: set<string>)
    requires forall k :: k in keys ==> Get(m, k) == Get(m', k)
    ensures SumOver(m, keys) == SumOver(m', keys)
    decreases keys
  {
    if keys != {} {
      var k :| k in keys && SumOver(m, keys) == Get(m, k) + SumOver(m, keys - {k});
      SumOverRemove(m', keys, k);
      SumOverFrame(m, m', keys - {k});
    }
  }

  /** Adding v to a key among those summed adds v to the sum. */
  lemma SumOverBumpIn(m: map<string, nat>, keys: set<string>, k: string, v: nat)
    requires k in keys
    ensures SumOver(Bump(m, k, v), keys) == SumOver(m, keys) + v
  {
    SumOverRemove(m, keys, k);
    SumOverRemove(Bump(m, k, v), keys, k);
    SumOverFrame(m, Bump(m, k, v), keys - {k});
  }

  /** Adding to a key outside those summed leaves the sum as it was. */
  lemma SumOverBumpOut(m: map<string, nat>, keys: set<string>, k: string, v: nat)
    requires k !in keys
    ensures SumOver(Bump(m, k, v), keys) == SumOver(m, keys)
  {
    SumOverFrame(m, Bump(m, k, v), keys);
  }

  /** Adding v to one key adds v to the sum of the values. */
  lemma SumValuesBump(m: map<string, nat>, k: string, v: nat)
    ensures SumValues(Bump(m, k, v)) == SumValues(m) + v
  {
    var m' := Bump(m, k, v);
    var rest := m.Keys - {k};
    SumOverFrame(m, m', rest);
    SumOverRemove(m', m'.Keys, k);
    assert m'.Keys - {k} == rest;
    if k in m {
      SumOverRemove(m, m.Keys, k);
    } else {
      assert m.Keys == rest;
    }
  }

  /** Counting one more key bumps its entry by one. */
  lemma CountMapSnoc(s: seq<string>, x: string)
    ensures CountMap(s + [x]) == Bump(CountMap(s), x, 1)
  {
    var m := CountMap(s + [x]);
    var b := Bump(CountMap(s), x, 1);
    assert multiset(s + [x]) == multiset(s) + multiset{x};
    forall k ensures k in m <==> k in b {
      assert k in s + [x] <==> k in s || k == x;
    }
  }

  /** The counts of a count map add up to the number of keys counted. */
  lemma {:induction false} SumCountMap(s: seq<string>)
    ensures SumValues(CountMap(s)) == |s|
    decreases |s|
  {
    if s == [] {
      assert CountMap(s) == map[];
    } else {
      var init := s[..|s| - 1];
      assert s == init + [s[|s| - 1]];
      SumCountMap(init);
      CountMapSnoc(init, s[|s| - 1]);
      SumValuesBump(CountMap(init), s[|s| - 1], 1);
    }
  }

  /** Counting two sequences one after the other is adding their count maps. */
  lemma CountMapAppend(s: seq<string>, t: seq<string>)
    ensures CountMap(s + t) == AddCounts(CountMap(s), CountMap(t))
  {
    assert multiset(s + t) == multiset(s) + multiset(t);
    forall k ensures k in s + t <==> k in s || k in t {
    }
  }

  /** Keys whose order alone differs give the same count map. */
  lemma CountMapPermutation(s: seq<string>, t: seq<string>)
    requires multiset(s) == multiset(t)
    ensures CountMap(s) == CountMap(t)
  {
    forall k ensures k in s <==> k in t {
      assert k in s <==> k in multiset(s);
      assert k in t <==> k in multiset(t);
    }
  }

  /** `sum(d.values())` */
  method SumCounts(m: map<string, nat>) returns (total: nat)
    ensures total == SumValues(m)
  {
    total := 0;
    var todo := m.Keys;
    while todo != {}
      invariant todo <= m.Keys
      invariant total + SumOver(m, todo) == SumValues(m)
      decreases |todo|
    {
      var k :| k in todo;
      SumOverRemove(m, todo, k);
      total := total + m[k];
      todo := todo - {k};
    }
  }

  /** `for k, v in src.items(): dst[k] = dst.get(k, 0) + v` */
  method MergeCounts(dst: map<string, nat>, src: map<string, nat>) returns (r: map<string, nat>)
    ensures r == AddCounts(dst, src)
  {
    r := dst;
    var todo := src.Keys;
    while todo != {}
      invariant todo <= src.Keys
      invariant r == AddCounts(dst, src - todo)
      decreases |todo|
    {
      var k :| k in todo;
      ghost var done := src - todo;
      assert src - (todo - {k}) == done[k := src[k]];
      r := Bump(r, k, src[k]);
      todo := todo - {k};
    }
    assert src - todo == src;
  }

  /** `f` applied to every element, the results concatenated in order. */
  function Flatten<T, U>(xs: seq<T>, f: T -> seq<U>): seq<U>
    decreases |xs|
  {
    if xs == [] then [] else Flatten(xs[..|xs| - 1], f) + f(xs[|xs| - 1])
  }

  lemma {:induction false} FlattenAppend<T, U>(xs: seq<T>, ys: seq<T>, f: T -> seq<U>)
    ensures Flatten(xs + ys, f) == Flatten(xs, f) + Flatten(ys, f)
    decreases |ys|
  {
    if ys == [] {
      assert xs + ys == xs;
    } else {
      var init := ys[..|ys| - 1];
      assert (xs + ys)[..|xs + ys| - 1] == xs + init;
      FlattenAppend(xs, init, f);
    }
  }

  /** Flattening a reordering of the input reorders the output. */
  lemma {:induction false} FlattenPermutation<T, U>(xs: seq<T>, ys: seq<T>, f: T -> seq<U>)
    requires multiset(xs) == multiset(ys)
    ensures multiset(Flatten(xs, f)) == multiset(Flatten(ys, f))
    decreases |xs|
  {
    if xs != [] {
      var n := |xs| - 1;
      assert xs[n] in multiset(ys);
      var j :| 0 <= j < |ys| && ys[j] == xs[n];
      var rest := ys[..j] + ys[j + 1..];
      MultisetRemoveLast(xs, ys, j);
      FlattenPermutation(xs[..n], rest, f);
      FlattenRemove(ys, j, f);
    } else {
      assert |multiset(ys)| == 0;
    }
  }

  /** Taking the last element off one of two reorderings and its copy off the other leaves
      two reorderings. */
  lemma MultisetRemoveLast<T>(xs: seq<T>, ys: seq<T>, j: nat)
    requires multiset(xs) == multiset(ys) && xs != []
    requires j < |ys| && ys[j] == xs[|xs| - 1]
    ensures multiset(xs[..|xs| - 1]) == multiset(ys[..j] + ys[j + 1..])
  {
    var n, x := |xs| - 1, xs[|xs| - 1];
    var rest := ys[..j] + ys[j + 1..];
    assert xs == xs[..n] + [x];
    assert ys == ys[..j] + [x] + ys[j + 1..];
    assert multiset(xs) == multiset(xs[..n]) + multiset{x};
    assert multiset(ys) == multiset(ys[..j]) + multiset{x} + multiset(ys[j + 1..]);
    assert multiset(rest) == multiset(ys[..j]) + multiset(ys[j + 1..]);
    forall e ensures multiset(xs[..n])[e] == multiset(rest)[e] {
      assert multiset(xs)[e] == multiset(xs[..n])[e] + multiset{x}[e];
      assert multiset(ys)[e] == multiset(rest)[e] + multiset{x}[e];
    }
  }

  /** Flattening with one element taken out loses exactly that element's output. */
  lemma FlattenRemove<T, U>(ys: seq<T>, j: nat, f: T -> seq<U>)
    requires j < |ys|
    ensures multiset(Flatten(ys, f)) == multiset(Flatten(ys[..j] + ys[j + 1..], f)) + multiset(f(ys[j]))
  {
    var before, x, after := ys[..j], ys[j], ys[j + 1..];
    assert ys == before + ([x] + after);
    FlattenAppend(before, [x] + after, f);
    FlattenAppend([x], after, f);
    FlattenAppend(before, after, f);
    assert [x][..0] == [];
    assert Flatten([x], f) == f(x);
  }

  /** Everything in the flattened output came from some element. */
  lemma {:induction false} FlattenElement<T, U>(xs: seq<T>, f: T -> seq<U>, y: U)
    requires y in Flatten(xs, f)
    ensures exists i :: 0 <= i < |xs| && y in f(xs[i])
    decreases |xs|
  {
    var n := |xs| - 1;
    if y in f(xs[n]) {
    } else {
      FlattenElement(xs[..n], f, y);
      var i :| 0 <= i < n && y in f(xs[..n][i]);
      assert xs[i] == xs[..n][i];
    }
  }

  /** Element-wise equal output lengths give equal flattened lengths. */
  lemma {:induction false} FlattenSameLength<T, U, V>(xs: seq<T>, f: T -> seq<U>, g: T -> seq<V>)
    requires forall x :: |f(x)| == |g(x)|
    ensures |Flatten(xs, f)| == |Flatten(xs, g)|
    decreases |xs|
  {
    if xs != [] {
      FlattenSameLength(xs[..|xs| - 1], f, g);
    }
  }
}
