/**
  Loops that keep some of their input rows: `for row in rows: ... if bad:
  continue ... out.append(clean(row))`, read as a filter-map.
*/
module Lists {
  import opened Domain

  function Kept<B>(r: Option<B>): seq<B>
  {
    match r
    case Some(b) => [b]
    case None => []
  }

  /** The outputs of `f` on `xs`, in order, skipping the rows where it gives `None`. */
  function FilterMap<A, B>(f: A -> Option<B>, xs: seq<A>): (ys: seq<B>)
    ensures |ys| <= |xs|
    ensures forall k | 0 <= k < |ys| :: exists i | 0 <= i < |xs| :: f(xs[i]) == Some(ys[k])
  {
    if xs == [] then []
    else
      var init := FilterMap(f, xs[..|xs| - 1]);
      var ys := init + Kept(f(xs[|xs| - 1]));
      assert forall i | 0 <= i < |xs| - 1 :: xs[..|xs| - 1][i] == xs[i];
      ys
  }

  /** The positions `FilterMap` keeps. */
  function KeptIndices<A, B>(f: A -> Option<B>, xs: seq<A>): (idx: seq<nat>)
    ensures forall k | 0 <= k < |idx| :: idx[k] < |xs|
  {
    if xs == [] then []
    else KeptIndices(f, xs[..|xs| - 1]) + (if f(xs[|xs| - 1]).Some? then [|xs| - 1] else [])
  }

  /**
    `FilterMap` keeps input order: the k-th output comes from the k-th kept
    position, positions increase, and a position is kept exactly when `f`
    accepts its row.
  */
  lemma FilterMapIsFilter<A, B>(f: A -> Option<B>, xs: seq<A>)
    ensures var ys := FilterMap(f, xs);
      var idx := KeptIndices(f, xs);
      && |ys| == |idx|
      && (forall k | 0 <= k < |idx| :: f(xs[idx[k]]) == Some(ys[k]))
      && (forall j, k | 0 <= j < k < |idx| :: idx[j] < idx[k])
      && (forall i | 0 <= i < |xs| :: i in idx <==> f(xs[i]).Some?)
  {
    FilterMapPairs(f, xs);
    KeptIndicesOrdered(f, xs);
  }

  lemma {:induction false} FilterMapPairs<A, B>(f: A -> Option<B>, xs: seq<A>)
    ensures |FilterMap(f, xs)| == |KeptIndices(f, xs)|
    ensures forall k | 0 <= k < |KeptIndices(f, xs)| :: f(xs[KeptIndices(f, xs)[k]]) == Some(FilterMap(f, xs)[k])
    decreases |xs|
  {
    if xs != [] {
      var init := xs[..|xs| - 1];
      FilterMapPairs(f, init);
      var ys := FilterMap(f, xs);
      var idx := KeptIndices(f, xs);
      var yi := FilterMap(f, init);
      var ii := KeptIndices(f, init);
      assert ys == yi + Kept(f(xs[|xs| - 1]));
      forall k | 0 <= k < |idx| ensures f(xs[idx[k]]) == Some(ys[k]) {
        if k < |ii| {
          assert idx[k] == ii[k] && ys[k] == yi[k] && xs[ii[k]] == init[ii[k]];
        }
      }
    }
  }

  lemma {:induction false} KeptIndicesOrdered<A, B>(f: A -> Option<B>, xs: seq<A>)
    ensures forall j, k | 0 <= j < k < |KeptIndices(f, xs)| :: KeptIndices(f, xs)[j] < KeptIndices(f, xs)[k]
    ensures forall i | 0 <= i < |xs| :: i in KeptIndices(f, xs) <==> f(xs[i]).Some?
    decreases |xs|
  {
    if xs != [] {
      var init := xs[..|xs| - 1];
      KeptIndicesOrdered(f, init);
      assert forall i | 0 <= i < |init| :: init[i] == xs[i];
    }
  }

  /** When `f` accepts every row nothing is dropped. */
  lemma {:induction false} FilterMapAll<A, B>(f: A -> Option<B>, xs: seq<A>)
    requires forall i | 0 <= i < |xs| :: f(xs[i]).Some?
    ensures |FilterMap(f, xs)| == |xs|
    ensures forall i | 0 <= i < |xs| :: Some(FilterMap(f, xs)[i]) == f(xs[i])
    decreases |xs|
  {
    if xs != [] {
      FilterMapAll(f, xs[..|xs| - 1]);
      assert forall i | 0 <= i < |xs| - 1 :: xs[..|xs| - 1][i] == xs[i];
    }
  }

  /** Every element that `f` keeps shows up in the output. */
  lemma {:induction false} FilterMapKeeps<A, B>(f: A -> Option<B>, xs: seq<A>, x: A)
    requires x in xs && f(x).Some?
    ensures f(x).value in FilterMap(f, xs)
    decreases |xs|
  {
    var init := xs[..|xs| - 1];
    if x != xs[|xs| - 1] {
      assert xs == init + [xs[|xs| - 1]];
      FilterMapKeeps(f, init, x);
    }
  }

  /** Appending is associative; stated generically so callers need not compare elements. */
  lemma AppendAssoc<T>(a: seq<T>, b: seq<T>, c: seq<T>)
    ensures a + b + c == a + (b + c)
  {
  }

  lemma FilterMapStep<A, B>(f: A -> Option<B>, xs: seq<A>, x: A)
    ensures FilterMap(f, xs + [x]) == FilterMap(f, xs) + Kept(f(x))
  {
    assert (xs + [x])[..|xs|] == xs;
  }

  /** `[f(x, y) for x, y in zip(xs, ys)]`. */
  function MapPairs<A, C, B>(f: (A, C) -> B, xs: seq<A>, ys: seq<C>): (r: seq<B>)
    requires |xs| == |ys|
    ensures |r| == |xs|
    ensures forall k | 0 <= k < |r| :: r[k] == f(xs[k], ys[k])
  {
    seq(|xs|, k requires 0 <= k < |xs| => f(xs[k], ys[k]))
  }

  lemma MapPairsStep<A, C, B>(f: (A, C) -> B, xs: seq<A>, ys: seq<C>, x: A, y: C)
    requires |xs| == |ys|
    ensures MapPairs(f, xs + [x], ys + [y]) == MapPairs(f, xs, ys) + [f(x, y)]
  {
  }

  /** Mapping two consecutive stretches of rows is mapping their concatenation. */
  lemma MapPairsConcat<A, C, B>(f: (A, C) -> B, xs: seq<A>, ys: seq<C>, xs': seq<A>, ys': seq<C>)
    requires |xs| == |ys| && |xs'| == |ys'|
    ensures MapPairs(f, xs, ys) + MapPairs(f, xs', ys') == MapPairs(f, xs + xs', ys + ys')
  {
    var l, r := MapPairs(f, xs, ys) + MapPairs(f, xs', ys'), MapPairs(f, xs + xs', ys + ys');
    forall k | 0 <= k < |r| ensures l[k] == r[k] {
      if k >= |xs| {
        assert (xs + xs')[k] == xs'[k - |xs|] && (ys + ys')[k] == ys'[k - |xs|];
      }
    }
  }
}
