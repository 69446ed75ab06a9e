/** Concatenation of a sequence of sequences, as Go's repeated `append(xs, ys...)` builds it. */
module Seqs {

  function Flatten<T>(xss: seq<seq<T>>): seq<T>
  {
    if |xss| == 0 then [] else Flatten(xss[..|xss| - 1]) + xss[|xss| - 1]
  }

  lemma FlattenAppend<T>(xss: seq<seq<T>>, ys: seq<T>)
    ensures Flatten(xss + [ys]) == Flatten(xss) + ys
  {
    assert (xss + [ys])[..|xss|] == xss;
  }

  /** Every element of every inner sequence occurs in the concatenation. */
  lemma FlattenContains<T>(xss: seq<seq<T>>)
    ensures forall k, j :: 0 <= k < |xss| && 0 <= j < |xss[k]| ==> xss[k][j] in Flatten(xss)
  {
    forall k, j | 0 <= k < |xss| && 0 <= j < |xss[k]| ensures xss[k][j] in Flatten(xss) {
      FlattenAt(xss, k, j);
    }
  }

  /** Sum of the lengths of `xss[..k]`: where the elements of `xss[k]` start in the concatenation. */
  function Offset<T>(xss: seq<seq<T>>, k: nat): nat
    requires k <= |xss|
  {
    if k == 0 then 0 else Offset(xss, k - 1) + |xss[k - 1]|
  }

  /** The concatenation holds `xss[k][j]` at position `Offset(xss, k) + j`, and nothing beyond the last one. */
  lemma {:induction false} FlattenAt<T>(xss: seq<seq<T>>, k: nat, j: nat)
    requires k < |xss| && j < |xss[k]|
    ensures |Flatten(xss)| == Offset(xss, |xss|)
    ensures Offset(xss, k) + j < |Flatten(xss)|
    ensures Flatten(xss)[Offset(xss, k) + j] == xss[k][j]
  {
    var n := |xss| - 1;
    var init := xss[..n];
    assert forall i :: 0 <= i <= n ==> Offset(init, i) == Offset(xss, i) by {
      forall i | 0 <= i <= n ensures Offset(init, i) == Offset(xss, i) {
        OffsetPrefix(xss, n, i);
      }
    }
    FlattenLength(init);
    if k < n {
      FlattenAt(init, k, j);
    }
  }

  lemma {:induction false} FlattenLength<T>(xss: seq<seq<T>>)
    ensures |Flatten(xss)| == Offset(xss, |xss|)
  {
    if |xss| > 0 {
      var init := xss[..|xss| - 1];
      FlattenLength(init);
      OffsetPrefix(xss, |xss| - 1, |xss| - 1);
    }
  }

  lemma {:induction false} OffsetPrefix<T>(xss: seq<seq<T>>, n: nat, i: nat)
    requires i <= n <= |xss|
    ensures Offset(xss[..n], i) == Offset(xss, i)
  {
    if i > 0 {
      OffsetPrefix(xss, n, i - 1);
    }
  }
}
