/**
 * The two shapes every SQL statement of the model reduces to on a table held
 * as a sequence of rows: keeping the rows a predicate selects (`SELECT ...
 * WHERE`, and the complement of `DELETE ... WHERE`), and taking the first of
 * them (`rows[0]` of a query result).
 */
module Seqs {
  import opened Wrappers

  /** The rows of `xs` that `keep` selects, in their original order. */
  function Filter<T>(xs: seq<T>, keep: T -> bool): (r: seq<T>)
    ensures |r| <= |xs|
    ensures forall i :: 0 <= i < |r| ==> keep(r[i]) && r[i] in xs
    ensures forall i :: 0 <= i < |xs| && keep(xs[i]) ==> xs[i] in r
  {
    if xs == [] then []
    else (if keep(xs[0]) then [xs[0]] else []) + Filter(xs[1..], keep)
  }

  /** Filtering distributes over concatenation, so the kept rows stay in order. */
  lemma {:induction false} FilterAppend<T>(xs: seq<T>, ys: seq<T>, keep: T -> bool)
    ensures Filter(xs + ys, keep) == Filter(xs, keep) + Filter(ys, keep)
  {
    if xs == [] {
      assert xs + ys == ys;
    } else {
      assert (xs + ys)[0] == xs[0];
      assert (xs + ys)[1..] == xs[1..] + ys;
      FilterAppend(xs[1..], ys, keep);
    }
  }

  /** A filter that keeps every row is the identity. */
  lemma {:induction false} FilterKeepsAll<T>(xs: seq<T>, keep: T -> bool)
    requires forall i :: 0 <= i < |xs| ==> keep(xs[i])
    ensures Filter(xs, keep) == xs
  {
    if xs != [] {
      FilterKeepsAll(xs[1..], keep);
    }
  }

  /** A filter that selects no row leaves nothing. */
  lemma {:induction false} FilterNone<T>(xs: seq<T>, keep: T -> bool)
    requires forall i :: 0 <= i < |xs| ==> !keep(xs[i])
    ensures Filter(xs, keep) == []
  {
    if xs != [] {
      FilterNone(xs[1..], keep);
    }
  }

  /** Every row replaced by its image under `f`, in place. */
  function Map<T>(xs: seq<T>, f: T -> T): (r: seq<T>)
    ensures |r| == |xs|
    ensures forall i :: 0 <= i < |xs| ==> r[i] == f(xs[i])
  {
    if xs == [] then [] else [f(xs[0])] + Map(xs[1..], f)
  }

  /** The first row `p` selects, or `None`. */
  function FindFirst<T>(xs: seq<T>, p: T -> bool): (r: Option<T>)
    ensures r.None? <==> forall i :: 0 <= i < |xs| ==> !p(xs[i])
    ensures r.Some? ==> p(r.value) && r.value in xs
    ensures |xs| > 0 && p(xs[0]) ==> r == Some(xs[0])
  {
    if xs == [] then None
    else if p(xs[0]) then Some(xs[0])
    else FindFirst(xs[1..], p)
  }

  /** The first selected row is the head of the filtered rows. */
  lemma {:induction false} FindFirstIsFilterHead<T>(xs: seq<T>, p: T -> bool)
    ensures FindFirst(xs, p).Some? <==> Filter(xs, p) != []
    ensures Filter(xs, p) != [] ==> FindFirst(xs, p) == Some(Filter(xs, p)[0])
  {
    if xs != [] && !p(xs[0]) {
      FindFirstIsFilterHead(xs[1..], p);
    }
  }
}
