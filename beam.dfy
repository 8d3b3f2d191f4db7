/** The Apache Beam primitives the pipeline uses, given their batch meaning
    as functions over sequences of key/value pairs: `GroupByKey`,
    `CombinePerKey(sum)`, `CoGroupByKey` over two tagged inputs, and `Filter`.
    Beam leaves the order of groups unspecified; here groups come in the
    order of the last occurrence of their key, and values inside a group in
    input order. */
module Beam {

  /** The keys occurring in a collection of pairs. */
  function KeysOf<V>(ps: seq<(string, V)>): (ks: set<string>)
    ensures forall i :: 0 <= i < |ps| ==> ps[i].0 in ks
    ensures forall k :: k in ks ==> exists i :: 0 <= i < |ps| && ps[i].0 == k
  {
    if ps == [] then {} else {ps[0].0} + KeysOf(ps[1..])
  }

  /** Every key occurs at most once. */
  predicate UniqueKeys<V>(ps: seq<(string, V)>)
  {
    forall i, j :: 0 <= i < j < |ps| ==> ps[i].0 != ps[j].0
  }

  predicate Distinct(ks: seq<string>)
  {
    forall i, j :: 0 <= i < j < |ks| ==> ks[i] != ks[j]
  }

  /** The values paired with `k`, in input order. */
  function ValuesOf<V>(ps: seq<(string, V)>, k: string): (vs: seq<V>)
  {
    if ps == [] then []
    else (if ps[0].0 == k then [ps[0].1] else []) + ValuesOf(ps[1..], k)
  }

  /** A key has values exactly when it occurs. */
  lemma {:induction false} ValuesOfPresent<V>(ps: seq<(string, V)>, k: string)
    ensures |ValuesOf(ps, k)| > 0 <==> k in KeysOf(ps)
    decreases |ps|
  {
    if ps != [] {
      ValuesOfPresent(ps[1..], k);
    }
  }

  /** Each key of the collection once. */
  function KeyOrder<V>(ps: seq<(string, V)>): (ks: seq<string>)
    ensures Distinct(ks)
    ensures forall k :: k in ks ==> k in KeysOf(ps)
    ensures forall k :: k in KeysOf(ps) ==> k in ks
  {
    if ps == [] then []
    else
      var rest := KeyOrder(ps[1..]);
      if ps[0].0 in rest then rest else [ps[0].0] + rest
  }

  /** Pairs whose keys are listed one by one have exactly those keys. */
  lemma KeysOfListed<V>(ps: seq<(string, V)>, ks: seq<string>)
    requires |ps| == |ks|
    requires forall i :: 0 <= i < |ps| ==> ps[i].0 == ks[i]
    ensures forall k :: k in KeysOf(ps) <==> k in ks
    ensures Distinct(ks) ==> UniqueKeys(ps)
  {
    forall k | k in ks
      ensures k in KeysOf(ps)
    {
      var i :| 0 <= i < |ks| && ks[i] == k;
      assert ps[i].0 == k;
    }
  }

  /** Each key with the list of its values, in the order `ks` gives. */
  function Collect<V>(ks: seq<string>, ps: seq<(string, V)>): (gs: seq<(string, seq<V>)>)
    ensures |gs| == |ks|
    ensures forall i :: 0 <= i < |ks| ==> gs[i] == (ks[i], ValuesOf(ps, ks[i]))
  {
    if ks == [] then [] else [(ks[0], ValuesOf(ps, ks[0]))] + Collect(ks[1..], ps)
  }

  /** `beam.GroupByKey()`: one group per key holding all of that key's values. */
  function GroupByKey<V>(ps: seq<(string, V)>): (gs: seq<(string, seq<V>)>)
    ensures UniqueKeys(gs)
    ensures KeysOf(gs) == KeysOf(ps)
    ensures forall i :: 0 <= i < |gs| ==> gs[i].1 == ValuesOf(ps, gs[i].0) && |gs[i].1| > 0
  {
    var ks := KeyOrder(ps);
    var gs := Collect(ks, ps);
    KeysOfListed(gs, ks);
    OccurringKeysHaveValues(ps, ks);
    gs
  }

  lemma OccurringKeysHaveValues<V>(ps: seq<(string, V)>, ks: seq<string>)
    requires forall k :: k in ks ==> k in KeysOf(ps)
    ensures forall i :: 0 <= i < |ks| ==> |ValuesOf(ps, ks[i])| > 0
  {
    forall i | 0 <= i < |ks| ensures |ValuesOf(ps, ks[i])| > 0 {
      ValuesOfPresent(ps, ks[i]);
    }
  }

  /** The same function applied to every value; keys are untouched. */
  function MapValues<V, W>(ps: seq<(string, V)>, f: V -> W): (qs: seq<(string, W)>)
    ensures |qs| == |ps|
    ensures forall i :: 0 <= i < |ps| ==> qs[i] == (ps[i].0, f(ps[i].1))
    ensures KeysOf(qs) == KeysOf(ps)
    ensures UniqueKeys(ps) ==> UniqueKeys(qs)
  {
    var qs := seq(|ps|, i requires 0 <= i < |ps| => (ps[i].0, f(ps[i].1)));
    var ks := seq(|ps|, i requires 0 <= i < |ps| => ps[i].0);
    KeysOfListed(qs, ks);
    KeysOfListed(ps, ks);
    qs
  }

  /** Python's `sum`, over exact reals. */
  function Sum(vs: seq<real>): real
  {
    if vs == [] then 0.0 else vs[0] + Sum(vs[1..])
  }

  /** The sum of all values paired with `k`. */
  function SumOf(ps: seq<(string, real)>, k: string): real
  {
    Sum(ValuesOf(ps, k))
  }

  /** `beam.CombinePerKey(sum)`: one pair per key, holding the sum of that
      key's values. */
  function CombinePerKey(ps: seq<(string, real)>): (qs: seq<(string, real)>)
    ensures UniqueKeys(qs)
    ensures KeysOf(qs) == KeysOf(ps)
    ensures forall i :: 0 <= i < |qs| ==> qs[i].1 == SumOf(ps, qs[i].0)
  {
    MapValues(GroupByKey(ps), Sum)
  }

  /** The two value lists `CoGroupByKey` gives each key: `left` holds the
      values from the first tagged input, `right` those from the second. */
  datatype CoGroup<V> = CoGroup(left: seq<V>, right: seq<V>)

  lemma {:induction false} KeysOfAppend<V>(a: seq<(string, V)>, b: seq<(string, V)>)
    ensures KeysOf(a + b) == KeysOf(a) + KeysOf(b)
    decreases |a|
  {
    if a == [] {
      assert a + b == b;
    } else {
      assert (a + b)[0] == a[0];
      assert (a + b)[1..] == a[1..] + b;
      KeysOfAppend(a[1..], b);
    }
  }

  /** `beam.CoGroupByKey()` over two inputs: one entry per key of either
      input, holding that key's values from each side (possibly none). */
  function CoGroupByKey<V>(a: seq<(string, V)>, b: seq<(string, V)>): (gs: seq<(string, CoGroup<V>)>)
    ensures UniqueKeys(gs)
    ensures KeysOf(gs) == KeysOf(a) + KeysOf(b)
    ensures forall i :: 0 <= i < |gs| ==>
              gs[i].1 == CoGroup(ValuesOf(a, gs[i].0), ValuesOf(b, gs[i].0))
  {
    var ks := KeyOrder(a + b);
    var gs := seq(|ks|, i requires 0 <= i < |ks| =>
                          (ks[i], CoGroup(ValuesOf(a, ks[i]), ValuesOf(b, ks[i]))));
    KeysOfListed(gs, ks);
    KeysOfAppend(a, b);
    gs
  }

  /** `beam.Filter(keep)`: the elements satisfying `keep`, in order. */
  function Filter<T>(xs: seq<T>, keep: T -> bool): (ys: seq<T>)
    ensures |ys| <= |xs|
    ensures forall x :: x in ys ==> x in xs && keep(x)
    ensures forall x :: x in xs && keep(x) ==> x in ys
  {
    if xs == [] then []
    else (if keep(xs[0]) then [xs[0]] else []) + Filter(xs[1..], keep)
  }

  /** Each kept element occurs as often as in the input; the others not at
      all. */
  lemma {:induction false} FilterMultiset<T>(xs: seq<T>, keep: T -> bool, x: T)
    ensures multiset(Filter(xs, keep))[x] == if keep(x) then multiset(xs)[x] else 0
    decreases |xs|
  {
    if xs != [] {
      FilterMultiset(xs[1..], keep, x);
      assert xs == [xs[0]] + xs[1..];
    }
  }

  /** Filtering never makes two entries share a key. */
  lemma {:induction false} FilterUniqueKeys<V>(ps: seq<(string, V)>, keep: ((string, V)) -> bool)
    requires UniqueKeys(ps)
    ensures UniqueKeys(Filter(ps, keep))
    decreases |ps|
  {
    if ps != [] {
      FilterUniqueKeys(ps[1..], keep);
      var rest := Filter(ps[1..], keep);
      forall j | 0 <= j < |rest|
        ensures rest[j].0 != ps[0].0
      {
        assert rest[j] in ps[1..];
        var m :| 0 <= m < |ps[1..]| && ps[1..][m] == rest[j];
        assert ps[m + 1] == rest[j];
      }
    }
  }

  // ---- Summation does not depend on the order of the input ----

  lemma {:induction false} SumAppend(a: seq<real>, b: seq<real>)
    ensures Sum(a + b) == Sum(a) + Sum(b)
    decreases |a|
  {
    if a == [] {
      assert a + b == b;
    } else {
      assert (a + b)[0] == a[0];
      assert (a + b)[1..] == a[1..] + b;
      SumAppend(a[1..], b);
    }
  }

  lemma {:induction false} ValuesOfAppend<V>(a: seq<(string, V)>, b: seq<(string, V)>, k: string)
    ensures ValuesOf(a + b, k) == ValuesOf(a, k) + ValuesOf(b, k)
    decreases |a|
  {
    if a == [] {
      assert a + b == b;
    } else {
      var ab := a + b;
      assert ab[0] == a[0];
      assert ab[1..] == a[1..] + b;
      ValuesOfAppend(a[1..], b, k);
      var head := if a[0].0 == k then [a[0].1] else [];
      assert ValuesOf(ab, k) == head + ValuesOf(ab[1..], k);
      assert ValuesOf(a, k) == head + ValuesOf(a[1..], k);
      assert head + (ValuesOf(a[1..], k) + ValuesOf(b, k))
          == (head + ValuesOf(a[1..], k)) + ValuesOf(b, k);
    }
  }

  /** The sum for a key is additive over concatenation. */
  lemma SumOfAppend(a: seq<(string, real)>, b: seq<(string, real)>, k: string)
    ensures SumOf(a + b, k) == SumOf(a, k) + SumOf(b, k)
  {
    ValuesOfAppend(a, b, k);
    SumAppend(ValuesOf(a, k), ValuesOf(b, k));
  }

  /** Two collections holding the same pairs (as a multiset) have the same
      keys. */
  lemma KeysOfPermutation<V>(ps: seq<(string, V)>, qs: seq<(string, V)>)
    requires multiset(ps) == multiset(qs)
    ensures KeysOf(ps) == KeysOf(qs)
  {
    forall k | k in KeysOf(ps) ensures k in KeysOf(qs) {
      var i :| 0 <= i < |ps| && ps[i].0 == k;
      assert ps[i] in multiset(qs);
      var j :| 0 <= j < |qs| && qs[j] == ps[i];
    }
    forall k | k in KeysOf(qs) ensures k in KeysOf(ps) {
      var i :| 0 <= i < |qs| && qs[i].0 == k;
      assert qs[i] in multiset(ps);
      var j :| 0 <= j < |ps| && ps[j] == qs[i];
    }
  }

  /** Two collections holding the same pairs (as a multiset) have the same
      sum for every key: the order in which records arrive does not matter. */
  lemma {:induction false} SumOfPermutation(ps: seq<(string, real)>, qs: seq<(string, real)>, k: string)
    requires multiset(ps) == multiset(qs)
    ensures SumOf(ps, k) == SumOf(qs, k)
    decreases |ps|
  {
    if ps == [] {
      assert qs == [];
    } else {
      var p := ps[0];
      assert p in multiset(qs);
      var j :| 0 <= j < |qs| && qs[j] == p;
      assert qs == qs[..j] + [p] + qs[j+1..];
      var rest := qs[..j] + qs[j+1..];
      assert ps == [p] + ps[1..];
      assert multiset(qs) == multiset(qs[..j]) + multiset{p} + multiset(qs[j+1..]);
      assert multiset(rest) == multiset(qs[..j]) + multiset(qs[j+1..]);
      assert multiset(rest) == multiset(qs) - multiset{p};
      assert multiset(ps[1..]) == multiset(ps) - multiset{p};
      assert multiset(ps[1..]) == multiset(rest);
      SumOfPermutation(ps[1..], rest, k);
      SumOfAppend([p], ps[1..], k);
      SumOfAppend(qs[..j] + [p], qs[j+1..], k);
      SumOfAppend(qs[..j], [p], k);
      SumOfAppend(qs[..j], qs[j+1..], k);
    }
  }

  /** `CombinePerKey(sum)` gives the same key set and the same total per key
      for any reordering of its input: every entry the one order produces
      holds the sum the other order gives its key. */
  lemma CombinePerKeyPermutation(ps: seq<(string, real)>, qs: seq<(string, real)>, k: string)
    requires multiset(ps) == multiset(qs)
    ensures KeysOf(CombinePerKey(ps)) == KeysOf(CombinePerKey(qs))
    ensures SumOf(ps, k) == SumOf(qs, k)
    ensures var agg := CombinePerKey(ps);
            forall i :: 0 <= i < |agg| ==> agg[i].1 == SumOf(qs, agg[i].0)
  {
    KeysOfPermutation(ps, qs);
    SumOfPermutation(ps, qs, k);
    var agg := CombinePerKey(ps);
    forall i | 0 <= i < |agg| ensures agg[i].1 == SumOf(qs, agg[i].0) {
      SumOfPermutation(ps, qs, agg[i].0);
    }
  }

  /** Sums of non-negative values are non-negative. */
  lemma {:induction false} SumOfNonNegative(ps: seq<(string, real)>, k: string)
    requires forall i :: 0 <= i < |ps| ==> ps[i].1 >= 0.0
    ensures SumOf(ps, k) >= 0.0
    decreases |ps|
  {
    if ps != [] {
      SumOfNonNegative(ps[1..], k);
      assert ps == [ps[0]] + ps[1..];
      SumOfAppend([ps[0]], ps[1..], k);
      assert ValuesOf([ps[0]], k) == (if ps[0].0 == k then [ps[0].1] else []) + ValuesOf([ps[0]][1..], k);
      assert [ps[0]][1..] == [];
    }
  }

  /** With unique keys a key's value list is that one value. */
  lemma {:induction false} ValuesOfUnique<V>(ps: seq<(string, V)>, i: nat)
    requires UniqueKeys(ps) && i < |ps|
    ensures ValuesOf(ps, ps[i].0) == [ps[i].1]
    decreases |ps|
  {
    var k := ps[i].0;
    if i == 0 {
      assert forall j :: 0 <= j < |ps[1..]| ==> ps[1..][j].0 != k by {
        forall j | 0 <= j < |ps[1..]| ensures ps[1..][j].0 != k {
          assert ps[1..][j] == ps[j + 1];
        }
      }
      ValuesOfPresent(ps[1..], k);
    } else {
      ValuesOfUnique(ps[1..], i - 1);
    }
  }

  /** With unique keys a key that has values has exactly one, at some
      position of the collection. */
  lemma SoleValue<V>(ps: seq<(string, V)>, k: string) returns (i: nat)
    requires UniqueKeys(ps) && |ValuesOf(ps, k)| > 0
    ensures i < |ps| && ps[i].0 == k && ValuesOf(ps, k) == [ps[i].1]
  {
    ValuesOfPresent(ps, k);
    var m :| 0 <= m < |ps| && ps[m].0 == k;
    ValuesOfUnique(ps, m);
    i := m;
  }

  /** A collection with unique keys has as many keys as entries. */
  lemma {:induction false} UniqueKeysCount<V>(ps: seq<(string, V)>)
    requires UniqueKeys(ps)
    ensures |KeysOf(ps)| == |ps|
    decreases |ps|
  {
    if ps != [] {
      UniqueKeysCount(ps[1..]);
    }
  }

  // ---- Grouping and then fanning out again only reorders the pairs ----

  /** `k` paired with each of `vs`. */
  function Pairs<V>(k: string, vs: seq<V>): (ps: seq<(string, V)>)
    ensures |ps| == |vs|
    ensures forall i :: 0 <= i < |vs| ==> ps[i] == (k, vs[i])
  {
    if vs == [] then [] else [(k, vs[0])] + Pairs(k, vs[1..])
  }

  /** The groups fanned out again into single pairs. */
  function Expand<V>(gs: seq<(string, seq<V>)>): seq<(string, V)>
  {
    if gs == [] then [] else Pairs(gs[0].0, gs[0].1) + Expand(gs[1..])
  }

  /** The pairs whose key is listed in `ks`, in order. */
  function WithKeyIn<V>(ps: seq<(string, V)>, ks: seq<string>): seq<(string, V)>
  {
    if ps == [] then [] else (if ps[0].0 in ks then [ps[0]] else []) + WithKeyIn(ps[1..], ks)
  }

  lemma {:induction false} PairsOfValues<V>(ps: seq<(string, V)>, k: string)
    ensures Pairs(k, ValuesOf(ps, k)) == WithKeyIn(ps, [k])
    decreases |ps|
  {
    if ps != [] {
      PairsOfValues(ps[1..], k);
      var head := if ps[0].0 == k then [ps[0].1] else [];
      var vs := head + ValuesOf(ps[1..], k);
      var lhs := Pairs(k, vs);
      var rhs := (if ps[0].0 in [k] then [ps[0]] else []) + WithKeyIn(ps[1..], [k]);
      assert |lhs| == |rhs|;
      forall i | 0 <= i < |lhs| ensures lhs[i] == rhs[i] {
        if ps[0].0 == k && i == 0 {
        } else if ps[0].0 == k {
          assert vs[i] == ValuesOf(ps[1..], k)[i - 1];
          assert rhs[i] == WithKeyIn(ps[1..], [k])[i - 1];
        } else {
          assert vs[i] == ValuesOf(ps[1..], k)[i];
        }
      }
    }
  }

  lemma {:induction false} WithKeyInCons<V>(ps: seq<(string, V)>, k: string, ks: seq<string>)
    requires k !in ks
    ensures multiset(WithKeyIn(ps, [k] + ks))
         == multiset(WithKeyIn(ps, [k])) + multiset(WithKeyIn(ps, ks))
    decreases |ps|
  {
    if ps != [] {
      WithKeyInCons(ps[1..], k, ks);
    }
  }

  lemma {:induction false} WithAllKeys<V>(ps: seq<(string, V)>, ks: seq<string>)
    requires forall i :: 0 <= i < |ps| ==> ps[i].0 in ks
    ensures WithKeyIn(ps, ks) == ps
    decreases |ps|
  {
    if ps != [] {
      WithAllKeys(ps[1..], ks);
      assert [ps[0]] + ps[1..] == ps;
    }
  }

  lemma {:induction false} ExpandCollect<V>(ks: seq<string>, ps: seq<(string, V)>)
    requires Distinct(ks)
    ensures multiset(Expand(Collect(ks, ps))) == multiset(WithKeyIn(ps, ks))
    decreases |ks|
  {
    if ks == [] {
      WithNoKeys(ps);
    } else {
      var gs := Collect(ks, ps);
      assert gs[1..] == Collect(ks[1..], ps);
      ExpandCollect(ks[1..], ps);
      PairsOfValues(ps, ks[0]);
      assert ks[0] !in ks[1..];
      WithKeyInCons(ps, ks[0], ks[1..]);
      assert [ks[0]] + ks[1..] == ks;
    }
  }

  lemma {:induction false} WithNoKeys<V>(ps: seq<(string, V)>)
    ensures WithKeyIn(ps, []) == []
    decreases |ps|
  {
    if ps != [] {
      WithNoKeys(ps[1..]);
    }
  }

  /** Grouping by key and fanning the groups out again yields the input
      pairs, reordered: the same multiset. */
  lemma GroupThenExpand<V>(ps: seq<(string, V)>)
    ensures multiset(Expand(GroupByKey(ps))) == multiset(ps)
  {
    var ks := KeyOrder(ps);
    ExpandCollect(ks, ps);
    WithAllKeys(ps, ks);
  }
}
