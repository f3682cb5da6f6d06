/** Python dictionaries as the report code uses them: insertion-ordered lists
    of entries.  The order matters because every loop of the report code walks
    its dictionaries in insertion order and the output follows it. */
module OrderedDict {
  import opened Wrappers

  /** A dictionary as its entries in insertion order. */
  type Dict<K, V> = seq<(K, V)>

  function Keys<K, V>(d: Dict<K, V>): (ks: seq<K>)
    ensures |ks| == |d|
  {
    if d == [] then [] else [d[0].0] + Keys(d[1..])
  }

  predicate Distinct<T(==)>(s: seq<T>) {
    forall i, j :: 0 <= i < j < |s| ==> s[i] != s[j]
  }

  /** What every Python dict satisfies: no key is stored twice. */
  predicate DistinctKeys<K(==), V>(d: Dict<K, V>) {
    Distinct(Keys(d))
  }

  /** `d.get(k)`: the value stored under `k`, `None` when `k` is no key. */
  function Get<K(==), V>(d: Dict<K, V>, k: K): (r: Option<V>)
    ensures r.Some? <==> k in Keys(d)
    ensures r.Some? ==> (k, r.value) in d
  {
    if d == [] then None
    else if d[0].0 == k then Some(d[0].1)
    else Get(d[1..], k)
  }

  /** `d[k] = d.get(k, 0) + 1` on a counter dictionary. */
  function Bump<K(==)>(d: Dict<K, int>, k: K): Dict<K, int> {
    if d == [] then [(k, 1)]
    else if d[0].0 == k then [(k, d[0].1 + 1)] + d[1..]
    else [d[0]] + Bump(d[1..], k)
  }

  /** Bumping a key adds one to its count (a missing key starts from 0) and
      leaves every other key's count alone. */
  lemma {:induction false} BumpGet<K(!new)>(d: Dict<K, int>, k: K, k': K)
    ensures Get(Bump(d, k), k') == if k' == k then Some(Get(d, k).GetOr(0) + 1) else Get(d, k')
  {
    if d != [] && d[0].0 != k {
      BumpGet(d[1..], k, k');
    }
  }

  /** An existing key keeps its place; a new key goes last. */
  lemma {:induction false} BumpKeys<K(!new)>(d: Dict<K, int>, k: K)
    ensures Keys(Bump(d, k)) == if k in Keys(d) then Keys(d) else Keys(d) + [k]
  {
    if d != [] && d[0].0 != k {
      BumpKeys(d[1..], k);
    }
  }

  /** The counter dictionary built by bumping each element of `xs` in turn,
      starting from `{}`. */
  function Tally<K(==)>(xs: seq<K>): Dict<K, int> {
    if xs == [] then [] else Bump(Tally(xs[..|xs| - 1]), xs[|xs| - 1])
  }

  /** `sum(d.values())` */
  function SumValues<K>(d: Dict<K, int>): int {
    if d == [] then 0 else d[0].1 + SumValues(d[1..])
  }

  lemma {:induction false} SumValuesBump<K>(d: Dict<K, int>, k: K)
    ensures SumValues(Bump(d, k)) == SumValues(d) + 1
  {
    if d != [] && d[0].0 != k {
      SumValuesBump(d[1..], k);
      assert Bump(d, k)[1..] == Bump(d[1..], k);
    }
  }

  /** Every element is counted once: the counts add up to the number of
      elements tallied. */
  lemma {:induction false} TallySum<K(!new)>(xs: seq<K>)
    ensures SumValues(Tally(xs)) == |xs|
  {
    if xs != [] {
      TallySum(xs[..|xs| - 1]);
      SumValuesBump(Tally(xs[..|xs| - 1]), xs[|xs| - 1]);
    }
  }

  /** The count stored under a key is the number of times it occurs in `xs`,
      and only keys that occur are stored. */
  lemma {:induction false} TallyCounts<K(!new)>(xs: seq<K>, k: K)
    ensures Get(Tally(xs), k) == if k in xs then Some(multiset(xs)[k]) else None
  {
    if xs != [] {
      var init, x := xs[..|xs| - 1], xs[|xs| - 1];
      assert xs == init + [x];
      TallyCounts(init, k);
      BumpGet(Tally(init), x, k);
      assert Tally(xs) == Bump(Tally(init), x);
      assert multiset(xs) == multiset(init) + multiset{x};
      assert k in xs <==> k in init || k == x;
      if k == x {
        assert Get(Tally(init), k).GetOr(0) == multiset(init)[k];
        assert multiset(xs)[k] == multiset(init)[k] + 1;
      } else {
        assert multiset(xs)[k] == multiset(init)[k];
      }
    }
  }

  /** The tally never stores a key twice. */
  lemma {:induction false} TallyDistinct<K(!new)>(xs: seq<K>)
    ensures DistinctKeys(Tally(xs))
  {
    if xs != [] {
      var init, x := xs[..|xs| - 1], xs[|xs| - 1];
      TallyDistinct(init);
      var d := Tally(init);
      BumpKeys(d, x);
      if x !in Keys(d) {
        var ks := Keys(d) + [x];
        forall i, j | 0 <= i < j < |ks| ensures ks[i] != ks[j] {
          if j == |ks| - 1 { assert ks[i] in Keys(d); }
        }
      }
    }
  }

  lemma {:induction false} DistinctCardinality<T>(s: seq<T>)
    requires Distinct(s)
    ensures |set x | x in s| == |s|
  {
    if s != [] {
      var init, x := s[..|s| - 1], s[|s| - 1];
      assert s == init + [x];
      DistinctCardinality(init);
      assert (set y | y in s) == (set y | y in init) + {x};
      assert x !in (set y | y in init);
    }
  }

  /** The tally has exactly one entry per distinct element of `xs`. */
  lemma TallySize<K(!new)>(xs: seq<K>)
    ensures |Tally(xs)| == |set k | k in xs|
  {
    var d := Tally(xs);
    TallyDistinct(xs);
    DistinctCardinality(Keys(d));
    forall k ensures k in Keys(d) <==> k in xs {
      TallyCounts(xs, k);
    }
    assert (set k | k in Keys(d)) == (set k | k in xs);
  }
}
