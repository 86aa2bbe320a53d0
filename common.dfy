/** Small wrappers shared by every module of the model. */
module Common {

  /** A value that may be absent (Python's `None`). */
  datatype Option<T> = None | Some(value: T) {
    function GetOr(default: T): T {
      match this
      case Some(v) => v
      case None => default
    }
  }

  /** The outcome of a Python call that either returns or raises an exception
      that nobody between the raise and the `except` inspects. */
  datatype Raising<T> = Returned(value: T) | Raised

  function Max(a: int, b: int): int { if a < b then b else a }

  function Min(a: int, b: int): int { if a < b then a else b }

  /** Concatenation regroups; stated once so that long proofs need not
      rediscover it. */
  lemma AppendAssoc<T>(a: seq<T>, b: seq<T>, c: seq<T>)
    ensures a + b + c == a + (b + c)
  {
  }

  /** `f` applied to each element of `xs`, in order; built one element at
      the end at a time, as a loop over `xs` builds it. */
  function MapSeq<A, B>(f: A --> B, xs: seq<A>): (r: seq<B>)
    requires forall k :: 0 <= k < |xs| ==> f.requires(xs[k])
    ensures |r| == |xs|
    decreases |xs|
  {
    if xs == [] then [] else MapSeq(f, xs[..|xs| - 1]) + [f(xs[|xs| - 1])]
  }

  /** Element i of the mapped sequence is `f` of element i, whatever the
      other elements are. */
  lemma {:induction false} MapSeqAt<A, B>(f: A --> B, xs: seq<A>, i: int)
    requires forall k :: 0 <= k < |xs| ==> f.requires(xs[k])
    requires 0 <= i < |xs|
    ensures MapSeq(f, xs)[i] == f(xs[i])
    decreases |xs|
  {
    var n := |xs| - 1;
    if i < n {
      MapSeqAt(f, xs[..n], i);
      assert xs[..n][i] == xs[i];
    }
  }

  /** Mapping one more element of a prefix appends its image. */
  lemma MapSeqSnoc<A, B>(f: A --> B, xs: seq<A>, i: int)
    requires forall k :: 0 <= k < |xs| ==> f.requires(xs[k])
    requires 0 <= i < |xs|
    ensures MapSeq(f, xs[..i + 1]) == MapSeq(f, xs[..i]) + [f(xs[i])]
  {
    assert xs[..i + 1][..i] == xs[..i];
  }

  /** `f` applied to the elements of `xs` and `ys` pairwise, in order. */
  function ZipWith<A, B, C>(f: (A, B) -> C, xs: seq<A>, ys: seq<B>): (r: seq<C>)
    requires |ys| == |xs|
    ensures |r| == |xs|
    decreases |xs|
  {
    if xs == [] then []
    else
      var n := |xs| - 1;
      ZipWith(f, xs[..n], ys[..n]) + [f(xs[n], ys[n])]
  }

  /** Element i of the result pairs element i of each input. */
  lemma {:induction false} ZipWithAt<A, B, C>(f: (A, B) -> C, xs: seq<A>, ys: seq<B>, i: int)
    requires |ys| == |xs| && 0 <= i < |xs|
    ensures ZipWith(f, xs, ys)[i] == f(xs[i], ys[i])
    decreases |xs|
  {
    var n := |xs| - 1;
    if i < n {
      ZipWithAt(f, xs[..n], ys[..n], i);
      assert xs[..n][i] == xs[i] && ys[..n][i] == ys[i];
    }
  }

  /** Zipping one more pair of a prefix appends its image. */
  lemma ZipWithSnoc<A, B, C>(f: (A, B) -> C, xs: seq<A>, ys: seq<B>, y: B, i: int)
    requires 0 <= i < |xs| && |ys| == i
    ensures ZipWith(f, xs[..i + 1], ys + [y]) == ZipWith(f, xs[..i], ys) + [f(xs[i], y)]
  {
    assert xs[..i + 1][..i] == xs[..i];
    assert (ys + [y])[..i] == ys;
  }
}
