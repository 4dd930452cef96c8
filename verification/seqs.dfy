/** Row selection: the boolean-mask indexing `df[mask]` of pandas, on sequences. */
module Seqs {
  import opened Base

  /** The positions of `xs` whose element satisfies `p`, in increasing order. */
  function Indices<T>(xs: seq<T>, p: T -> bool): (idx: seq<nat>)
    ensures |idx| <= |xs|
    ensures forall j :: 0 <= j < |idx| ==> idx[j] < |xs| && p(xs[idx[j]])
    ensures forall j, k :: 0 <= j < k < |idx| ==> idx[j] < idx[k]
    ensures forall i :: 0 <= i < |xs| && p(xs[i]) ==> i in idx
  {
    if xs == [] then []
    else
      var r := Indices(xs[..|xs| - 1], p);
      if p(xs[|xs| - 1]) then r + [|xs| - 1] else r
  }

  /** `xs[mask]`: the elements satisfying `p`, unchanged and in their original order. */
  function Filter<T>(xs: seq<T>, p: T -> bool): (ys: seq<T>)
    ensures |ys| == |Indices(xs, p)|
    ensures forall j :: 0 <= j < |ys| ==> ys[j] == xs[Indices(xs, p)[j]]
  {
    if xs == [] then []
    else Filter(xs[..|xs| - 1], p) + (if p(xs[|xs| - 1]) then [xs[|xs| - 1]] else [])
  }

  /** The values `f` yields on the elements passing `p`, in order; `p` marks exactly
      the elements on which `f` yields something. */
  function Collect<T(!new), U>(xs: seq<T>, p: T -> bool, f: T -> Option<U>): (r: seq<U>)
    requires forall x :: p(x) == f(x).Some?
    ensures |r| == |Indices(xs, p)|
    ensures forall j :: 0 <= j < |r| ==> f(xs[Indices(xs, p)[j]]) == Some(r[j])
  {
    if xs == [] then []
    else
      var init := xs[..|xs| - 1];
      var r := Collect(init, p, f);
      CollectStep(xs, p, f, r);
      match f(xs[|xs| - 1])
      case Some(y) => r + [y]
      case None => r
  }

  /** The step of `Collect`: the values for all but the last element, followed by
      the last element's value if it has one. */
  lemma CollectStep<T(!new), U>(xs: seq<T>, p: T -> bool, f: T -> Option<U>, r: seq<U>)
    requires forall x :: p(x) == f(x).Some?
    requires xs != []
    requires |r| == |Indices(xs[..|xs| - 1], p)|
    requires forall j :: 0 <= j < |r| ==> f(xs[..|xs| - 1][Indices(xs[..|xs| - 1], p)[j]]) == Some(r[j])
    ensures var last := f(xs[|xs| - 1]);
      var r' := if last.Some? then r + [last.value] else r;
      && |r'| == |Indices(xs, p)|
      && forall j :: 0 <= j < |r'| ==> f(xs[Indices(xs, p)[j]]) == Some(r'[j])
  {
    var init, idx0, idx := xs[..|xs| - 1], Indices(xs[..|xs| - 1], p), Indices(xs, p);
    var last := f(xs[|xs| - 1]);
    var r' := if last.Some? then r + [last.value] else r;
    assert idx == idx0 + (if p(xs[|xs| - 1]) then [|xs| - 1] else []);
    forall j | 0 <= j < |r'| ensures f(xs[idx[j]]) == Some(r'[j]) {
      if j < |r| {
        assert idx[j] == idx0[j] && xs[idx0[j]] == init[idx0[j]];
      }
    }
  }

  /** Every element of a filtered sequence comes from the input and passes the mask,
      and every passing element of the input is kept. */
  lemma FilterMembers<T>(xs: seq<T>, p: T -> bool)
    ensures forall y :: y in Filter(xs, p) ==> y in xs && p(y)
    ensures forall x :: x in xs && p(x) ==> x in Filter(xs, p)
  {
    var ys, idx := Filter(xs, p), Indices(xs, p);
    forall x | x in xs && p(x)
      ensures x in ys
    {
      var i :| 0 <= i < |xs| && xs[i] == x;
      var j :| 0 <= j < |idx| && idx[j] == i;
      assert ys[j] == x;
    }
  }

  /** Filtering twice with masks evaluated on the same rows is filtering once with
      their conjunction: the sequential `filtered_df = filtered_df[mask]` steps of the
      dashboard keep exactly the rows that pass every mask. */
  lemma {:induction false} FilterFilter<T>(xs: seq<T>, p: T -> bool, q: T -> bool, pq: T -> bool)
    requires forall x :: pq(x) == (p(x) && q(x))
    ensures Filter(Filter(xs, p), q) == Filter(xs, pq)
  {
    if xs != [] {
      var init, last := xs[..|xs| - 1], xs[|xs| - 1];
      FilterFilter(init, p, q, pq);
      var f := Filter(init, p);
      if p(last) {
        assert Filter(xs, p) == f + [last];
        assert (f + [last])[..|f|] == f;
      } else {
        assert Filter(xs, p) == f;
      }
    }
  }

  /** A mask that every element passes selects the whole sequence. */
  lemma {:induction false} FilterAll<T>(xs: seq<T>, p: T -> bool)
    requires forall i :: 0 <= i < |xs| ==> p(xs[i])
    ensures Filter(xs, p) == xs
  {
    if xs != [] {
      var init, last := xs[..|xs| - 1], xs[|xs| - 1];
      assert Filter(init, p) == init by {
        assert forall i :: 0 <= i < |init| ==> init[i] == xs[i];
        FilterAll(init, p);
      }
      assert Filter(xs, p) == Filter(init, p) + [last] by {
        assert p(last);
      }
      assert init + [last] == xs;
    }
  }

  /** An element passing the mask appears in the filtered sequence. */
  lemma FilterKeeps<T>(xs: seq<T>, p: T -> bool, m: nat)
    requires m < |xs| && p(xs[m])
    ensures exists j :: 0 <= j < |Filter(xs, p)| && Filter(xs, p)[j] == xs[m]
  {
    var idx := Indices(xs, p);
    assert m in idx;
    var j :| 0 <= j < |idx| && idx[j] == m;
    assert Filter(xs, p)[j] == xs[m];
  }
}
