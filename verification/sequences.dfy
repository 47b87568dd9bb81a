/** Order-preserving sublists of sequences. */
module Sequences {

  /** `xs` is `ys` with some elements dropped, the rest in their order. */
  predicate IsSublist<T(==)>(xs: seq<T>, ys: seq<T>)
    decreases |ys|
  {
    if xs == [] then true
    else if ys == [] then false
    else (xs[0] == ys[0] && IsSublist(xs[1..], ys[1..])) || IsSublist(xs, ys[1..])
  }

  lemma {:induction false} SublistOfTail<T>(xs: seq<T>, ys: seq<T>, y: T)
    requires IsSublist(xs, ys)
    ensures IsSublist(xs, [y] + ys)
  {
    if xs != [] {
      assert ([y] + ys)[1..] == ys;
    }
  }

  lemma {:induction false} SublistReflexive<T>(xs: seq<T>)
    ensures IsSublist(xs, xs)
    decreases |xs|
  {
    if xs != [] {
      SublistReflexive(xs[1..]);
    }
  }

  lemma {:induction false} SublistTransitive<T>(xs: seq<T>, ys: seq<T>, zs: seq<T>)
    requires IsSublist(xs, ys) && IsSublist(ys, zs)
    ensures IsSublist(xs, zs)
    decreases |zs|
  {
    if xs != [] {
      assert ys != [] && zs != [];
      if ys[0] == zs[0] && IsSublist(ys[1..], zs[1..]) {
        if xs[0] == ys[0] && IsSublist(xs[1..], ys[1..]) {
          SublistTransitive(xs[1..], ys[1..], zs[1..]);
        } else {
          SublistTransitive(xs, ys[1..], zs[1..]);
        }
      } else {
        SublistTransitive(xs, ys, zs[1..]);
      }
    }
  }

  lemma SublistOfSingleton<T>(xs: seq<T>, x: T)
    requires xs != [] && IsSublist(xs, [x])
    ensures xs == [x]
  {
    assert [x][1..] == [];
    assert xs[0] == x && IsSublist(xs[1..], []);
  }
}
