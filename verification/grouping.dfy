/** `groupby(...).size()`, per-group counts and `sort_values(ascending=False)`.
    A grouped series is a sequence of `(key, count)` pairs; pandas lists the
    groups of `groupby` in key order, this model in order of first occurrence. */
module Grouping {
  import Seqs

  /** Number of elements of `xs` whose key is `k`. */
  function CountKey<T, K(==,!new)>(xs: seq<T>, key: T -> K, k: K): (n: nat)
    ensures n <= |xs|
  {
    if xs == [] then 0
    else CountKey(xs[..|xs| - 1], key, k) + (if key(xs[|xs| - 1]) == k then 1 else 0)
  }

  /** A key is counted exactly when some element carries it. */
  lemma {:induction false} CountKeyPositive<T, K(!new)>(xs: seq<T>, key: T -> K, k: K)
    ensures CountKey(xs, key, k) > 0 <==> exists i :: 0 <= i < |xs| && key(xs[i]) == k
  {
    if xs != [] {
      CountKeyPositive(xs[..|xs| - 1], key, k);
      if exists i :: 0 <= i < |xs| - 1 && key(xs[i]) == k {
        var i :| 0 <= i < |xs| - 1 && key(xs[i]) == k;
        assert key(xs[..|xs| - 1][i]) == k;
      }
    }
  }

  /** Number of elements of `xs` whose key is `k` and that satisfy `p`. */
  function CountKeyWhere<T, K(==,!new)>(xs: seq<T>, key: T -> K, k: K, p: T -> bool): (n: nat)
    ensures n <= CountKey(xs, key, k)
  {
    if xs == [] then 0
    else
      CountKeyWhere(xs[..|xs| - 1], key, k, p)
      + (if key(xs[|xs| - 1]) == k && p(xs[|xs| - 1]) then 1 else 0)
  }

  /** Number of elements of `xs` that satisfy `p`. */
  function CountWhere<T>(xs: seq<T>, p: T -> bool): (n: nat)
    ensures n <= |xs|
    ensures n > 0 <==> exists i :: 0 <= i < |xs| && p(xs[i])
  {
    if xs == [] then 0
    else CountWhere(xs[..|xs| - 1], p) + (if p(xs[|xs| - 1]) then 1 else 0)
  }

  /** The number of positions selected by a mask is the number of elements passing it. */
  lemma {:induction false} IndicesCount<T>(xs: seq<T>, p: T -> bool)
    ensures |Seqs.Indices(xs, p)| == CountWhere(xs, p)
  {
    if xs != [] {
      IndicesCount(xs[..|xs| - 1], p);
    }
  }

  /** The keys of the groups listed in `g`. */
  function KeySet<K(==,!new)>(g: seq<(K, nat)>): set<K> {
    if g == [] then {} else {g[0].0} + KeySet(g[1..])
  }

  /** No group is listed twice. */
  predicate DistinctKeys<K(==,!new)>(g: seq<(K, nat)>) {
    g == [] || (g[0].0 !in KeySet(g[1..]) && DistinctKeys(g[1..]))
  }

  /** Every listed group has at least one member. */
  predicate Positive<K>(g: seq<(K, nat)>) {
    forall j :: 0 <= j < |g| ==> g[j].1 >= 1
  }

  /** Sum of all counts. */
  function Total<K>(g: seq<(K, nat)>): nat {
    if g == [] then 0 else g[0].1 + Total(g[1..])
  }

  /** Sum of the counts listed under key `k` (the count of `k` when keys are distinct). */
  function KeyTotal<K(==,!new)>(g: seq<(K, nat)>, k: K): nat {
    if g == [] then 0 else (if g[0].0 == k then g[0].1 else 0) + KeyTotal(g[1..], k)
  }

  /** Counts are non-increasing along the sequence. */
  predicate NonIncreasing<K>(g: seq<(K, nat)>) {
    forall i, j :: 0 <= i < j < |g| ==> g[i].1 >= g[j].1
  }

  /** A key is listed exactly when some position of `g` carries it. */
  lemma {:induction false} KeySetIndex<K(!new)>(g: seq<(K, nat)>, k: K)
    ensures k in KeySet(g) <==> exists j :: 0 <= j < |g| && g[j].0 == k
  {
    if g != [] {
      KeySetIndex(g[1..], k);
      if k in KeySet(g[1..]) {
        var j :| 0 <= j < |g[1..]| && g[1..][j].0 == k;
        assert g[j + 1].0 == k;
      }
      if exists j :: 0 <= j < |g| && g[j].0 == k {
        var j :| 0 <= j < |g| && g[j].0 == k;
        if j > 0 {
          assert g[1..][j - 1].0 == k;
        }
      }
    }
  }

  /** Distinct keys: two different positions never carry the same key. */
  lemma {:induction false} DistinctKeysIndex<K(!new)>(g: seq<(K, nat)>)
    requires DistinctKeys(g)
    ensures forall i, j :: 0 <= i < j < |g| ==> g[i].0 != g[j].0
  {
    if g != [] {
      DistinctKeysIndex(g[1..]);
      forall j | 0 < j < |g| ensures g[0].0 != g[j].0 {
        KeySetIndex(g[1..], g[0].0);
        assert g[1..][j - 1] == g[j];
      }
      forall i, j | 0 < i < j < |g| ensures g[i].0 != g[j].0 {
        assert g[1..][i - 1] == g[i] && g[1..][j - 1] == g[j];
      }
    }
  }

  /** With distinct keys, the count listed at position `j` is the key's total. */
  lemma {:induction false} KeyTotalAt<K(!new)>(g: seq<(K, nat)>, j: nat)
    requires DistinctKeys(g) && j < |g|
    ensures KeyTotal(g, g[j].0) == g[j].1
  {
    if j == 0 {
      KeyTotalAbsent(g[1..], g[0].0);
    } else {
      KeyTotalAt(g[1..], j - 1);
      DistinctKeysIndex(g);
    }
  }

  /** A key that is not listed has total zero. */
  lemma {:induction false} KeyTotalAbsent<K(!new)>(g: seq<(K, nat)>, k: K)
    requires k !in KeySet(g)
    ensures KeyTotal(g, k) == 0
  {
    if g != [] {
      KeyTotalAbsent(g[1..], k);
    }
  }

  /** Count one more element with key `k`: increment its group, or open a new one at the end. */
  function Bump<K(==,!new)>(g: seq<(K, nat)>, k: K): (r: seq<(K, nat)>)
    requires DistinctKeys(g) && Positive(g)
    ensures DistinctKeys(r) && Positive(r)
    ensures KeySet(r) == KeySet(g) + {k}
    ensures forall k' :: KeyTotal(r, k') == KeyTotal(g, k') + (if k' == k then 1 else 0)
    ensures Total(r) == Total(g) + 1
  {
    if g == [] then [(k, 1)]
    else if g[0].0 == k then
      var r := [(k, g[0].1 + 1)] + g[1..];
      assert r[1..] == g[1..];
      r
    else
      var rest := Bump(g[1..], k);
      var r := [g[0]] + rest;
      assert r[1..] == rest;
      r
  }

  /** `groupby(key).size()`: one group per distinct key with the number of its elements. */
  function Tally<T, K(==,!new)>(xs: seq<T>, key: T -> K): (g: seq<(K, nat)>)
    ensures DistinctKeys(g) && Positive(g)
    ensures forall k :: k in KeySet(g) <==> CountKey(xs, key, k) > 0
    ensures forall k :: KeyTotal(g, k) == CountKey(xs, key, k)
    ensures Total(g) == |xs|
  {
    if xs == [] then []
    else Bump(Tally(xs[..|xs| - 1], key), key(xs[|xs| - 1]))
  }

  /** The count listed for each group is the number of elements carrying its key. */
  lemma TallyCounts<T, K(!new)>(xs: seq<T>, key: T -> K)
    ensures forall j :: 0 <= j < |Tally(xs, key)| ==>
      Tally(xs, key)[j].1 == CountKey(xs, key, Tally(xs, key)[j].0)
  {
    var g := Tally(xs, key);
    forall j | 0 <= j < |g| ensures g[j].1 == CountKey(xs, key, g[j].0) {
      KeyTotalAt(g, j);
    }
  }

  /** A key that occurs has its group in the tally, with its count. */
  lemma TallyHas<T, K(!new)>(xs: seq<T>, key: T -> K, k: K)
    requires CountKey(xs, key, k) > 0
    ensures exists m :: 0 <= m < |Tally(xs, key)| && Tally(xs, key)[m] == (k, CountKey(xs, key, k))
  {
    var g := Tally(xs, key);
    assert k in KeySet(g);
    KeySetIndex(g, k);
    var m :| 0 <= m < |g| && g[m].0 == k;
    KeyTotalAt(g, m);
    assert g[m] == (k, CountKey(xs, key, k));
  }

  /** A key that occurs and whose group passes the mask is kept. */
  lemma FilterTallyComplete<T, K(!new)>(xs: seq<T>, key: T -> K, p: ((K, nat)) -> bool, k: K)
    requires CountKey(xs, key, k) > 0 && p((k, CountKey(xs, key, k)))
    ensures exists j :: 0 <= j < |Seqs.Filter(Tally(xs, key), p)| && Seqs.Filter(Tally(xs, key), p)[j].0 == k
  {
    var g := Tally(xs, key);
    TallyHas(xs, key, k);
    var m :| 0 <= m < |g| && g[m] == (k, CountKey(xs, key, k));
    Seqs.FilterKeeps(g, p, m);
  }

  lemma {:induction false} TotalAppend<K>(a: seq<(K, nat)>, b: seq<(K, nat)>)
    ensures Total(a + b) == Total(a) + Total(b)
  {
    if a != [] {
      TotalAppend(a[1..], b);
      assert (a + b)[1..] == a[1..] + b;
    } else {
      assert a + b == b;
    }
  }

  lemma {:induction false} KeyTotalAppend<K(!new)>(a: seq<(K, nat)>, b: seq<(K, nat)>, k: K)
    ensures KeyTotal(a + b, k) == KeyTotal(a, k) + KeyTotal(b, k)
  {
    if a != [] {
      KeyTotalAppend(a[1..], b, k);
      assert (a + b)[1..] == a[1..] + b;
    } else {
      assert a + b == b;
    }
  }

  /** Dropping the group of key `u` removes exactly its count: the other keys keep
      their totals. */
  lemma {:induction false} DropKeyTotals<K(!new)>(g: seq<(K, nat)>, u: K, keep: ((K, nat)) -> bool)
    requires forall x :: keep(x) == (x.0 != u)
    ensures Total(Seqs.Filter(g, keep)) + KeyTotal(g, u) == Total(g)
    ensures KeyTotal(Seqs.Filter(g, keep), u) == 0
    ensures forall k :: k != u ==> KeyTotal(Seqs.Filter(g, keep), k) == KeyTotal(g, k)
  {
    if g != [] {
      var init, last := g[..|g| - 1], g[|g| - 1];
      assert g == init + [last];
      DropKeyTotals(init, u, keep);
      var f := Seqs.Filter(init, keep);
      TotalAppend(init, [last]);
      forall k ensures KeyTotal(g, k) == KeyTotal(init, k) + KeyTotal([last], k) {
        KeyTotalAppend(init, [last], k);
      }
      if keep(last) {
        assert Seqs.Filter(g, keep) == f + [last];
        TotalAppend(f, [last]);
        forall k ensures KeyTotal(f + [last], k) == KeyTotal(f, k) + KeyTotal([last], k) {
          KeyTotalAppend(f, [last], k);
        }
      } else {
        assert Seqs.Filter(g, keep) == f;
        var one: seq<(K, nat)> := [last];
        assert one[1..] == [];
        assert KeyTotal(one, u) == last.1 == Total(one);
        forall k | k != u ensures KeyTotal(one, k) == 0 {
          assert one[1..] == [];
        }
      }
    }
  }

  /** Every element either has key `k` or passes `other`, the test for any other key. */
  lemma {:induction false} CountKeySplit<T, K(!new)>(xs: seq<T>, key: T -> K, k: K, other: T -> bool)
    requires forall x :: other(x) == (key(x) != k)
    ensures CountKey(xs, key, k) + CountWhere(xs, other) == |xs|
  {
    if xs != [] {
      CountKeySplit(xs[..|xs| - 1], key, k, other);
    }
  }

  /** Place one group into a count-sorted sequence, before the first smaller count. */
  function Insert<K(==,!new)>(x: (K, nat), s: seq<(K, nat)>): (r: seq<(K, nat)>)
    requires NonIncreasing(s)
    ensures NonIncreasing(r)
    ensures multiset(r) == multiset(s) + multiset{x}
    ensures r[0] == x || (s != [] && r[0] == s[0])
  {
    if s == [] || x.1 >= s[0].1 then [x] + s
    else
      var rest := Insert(x, s[1..]);
      assert s == [s[0]] + s[1..];
      assert multiset(s) == multiset{s[0]} + multiset(s[1..]);
      assert rest[0] == x || rest[0] == s[1];
      assert s[0].1 >= rest[0].1;
      ConsSorted(s[0], rest);
      [s[0]] + rest
  }

  /** A group no smaller than the head of a sorted sequence can go before it. */
  lemma ConsSorted<K>(a: (K, nat), rest: seq<(K, nat)>)
    requires NonIncreasing(rest)
    requires rest != [] ==> a.1 >= rest[0].1
    ensures NonIncreasing([a] + rest)
  {
    var r := [a] + rest;
    forall i, j | 0 <= i < j < |r| ensures r[i].1 >= r[j].1 {
      if i == 0 && j > 1 {
        assert rest[0].1 >= rest[j - 1].1;
      }
    }
  }

  /** Inserting a group adds its key, adds its count to the total and to its key's
      total, and keeps keys distinct when the key was new. */
  lemma {:induction false} InsertTotals<K(!new)>(x: (K, nat), s: seq<(K, nat)>)
    requires NonIncreasing(s)
    ensures KeySet(Insert(x, s)) == KeySet(s) + {x.0}
    ensures DistinctKeys(s) && x.0 !in KeySet(s) ==> DistinctKeys(Insert(x, s))
    ensures Total(Insert(x, s)) == Total(s) + x.1
    ensures forall k :: KeyTotal(Insert(x, s), k) == KeyTotal(s, k) + (if x.0 == k then x.1 else 0)
  {
    var r := Insert(x, s);
    if s == [] || x.1 >= s[0].1 {
      assert r[1..] == s;
    } else {
      InsertTotals(x, s[1..]);
      assert r[1..] == Insert(x, s[1..]);
    }
  }

  /** `sort_values(ascending=False)`: the same groups, largest count first. */
  function SortDesc<K(==,!new)>(g: seq<(K, nat)>): (r: seq<(K, nat)>)
    ensures NonIncreasing(r)
    ensures multiset(r) == multiset(g)
    ensures Total(r) == Total(g)
    ensures forall k :: KeyTotal(r, k) == KeyTotal(g, k)
    ensures KeySet(r) == KeySet(g)
    ensures DistinctKeys(g) ==> DistinctKeys(r)
  {
    if g == [] then []
    else
      var rest := SortDesc(g[1..]);
      assert multiset(g) == multiset(g[1..]) + multiset{g[0]} by {
        assert g == [g[0]] + g[1..];
      }
      InsertTotals(g[0], rest);
      Insert(g[0], rest)
  }

  /** Sorting keeps every count positive. */
  lemma SortPositive<K(!new)>(g: seq<(K, nat)>)
    requires Positive(g)
    ensures Positive(SortDesc(g))
  {
    var r := SortDesc(g);
    forall j | 0 <= j < |r| ensures r[j].1 >= 1 {
      assert r[j] in multiset(g);
    }
  }

  /** Filtering a count-sorted sequence keeps it sorted and keeps keys apart. */
  lemma FilterSorted<K(!new)>(g: seq<(K, nat)>, p: ((K, nat)) -> bool)
    requires NonIncreasing(g) && DistinctKeys(g)
    ensures NonIncreasing(Seqs.Filter(g, p))
    ensures Positive(g) ==> Positive(Seqs.Filter(g, p))
    ensures forall i, j :: 0 <= i < j < |Seqs.Filter(g, p)| ==> Seqs.Filter(g, p)[i].0 != Seqs.Filter(g, p)[j].0
  {
    DistinctKeysIndex(g);
  }
}
