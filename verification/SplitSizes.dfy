/**
 What split returns, piece by piece: how many pieces there are, how long each is and which entries of
 the tensor it shows. For factored weights the tensor is the product.
 */
module SplitSizes {
  import opened Wrappers
  import opened Tensors
  import opened Lora
  import opened LoraPieces

  /** The piece shows `count` entries of one axis of t, from `start`, and all of the others. */
  ghost predicate Shows(t: Tensor, axis: nat, start: nat, count: nat, piece: Tensor)
    requires axis < |t.shape|
  {
    && WellFormed(piece) && piece.shape == t.shape[axis := count]
    && start + count <= t.shape[axis]
    && forall idx: seq<nat> :: InBounds(piece.shape, idx) ==>
         |idx| == |t.shape| && At(piece, idx) == At(t, idx[axis := start + idx[axis]])
  }

  /** The i-th of as many pieces of one size as an axis of length n needs; the last may be shorter. */
  predicate Covers(pieces: nat, size: nat, n: nat) {
    if n == 0 then pieces == 1 else (pieces - 1) * size < n <= pieces * size
  }

  function PieceLength(size: nat, n: nat, i: nat): nat {
    var start := i * size;
    if n < start then 0 else if n - start < size then n - start else size
  }

  /** These are the pieces of one size of an axis, in order. */
  ghost predicate EachPiece(t: Tensor, axis: nat, size: nat, pieces: seq<Tensor>)
    requires axis < |t.shape|
  {
    && Covers(|pieces|, size, t.shape[axis])
    && forall i: nat :: i < |pieces| ==> Shows(t, axis, i * size, PieceLength(size, t.shape[axis], i), pieces[i])
  }

  /** Where listed pieces begin, and at the end where the last one stops. */
  predicate Begins(sizes: seq<nat>, starts: seq<nat>) {
    |starts| == |sizes| + 1 && starts[0] == 0 && forall i :: 0 <= i < |sizes| ==> starts[i + 1] == starts[i] + sizes[i]
  }

  lemma NarrowShows(t: Tensor, axis: nat, start: nat, count: nat)
    requires axis < |t.shape| && start + count <= t.shape[axis]
    ensures Shows(t, axis, start, count, Narrow(t, axis, start, count))
  {
    hide At;
    var p := Narrow(t, axis, start, count);
    forall idx: seq<nat> | InBounds(p.shape, idx)
      ensures |idx| == |t.shape| && At(p, idx) == At(t, idx[axis := start + idx[axis]])
    {
      NarrowAt(t, axis, start, count, idx);
    }
  }

  lemma {:induction false} EachSizesAre(size: nat, n: nat, i: nat)
    requires size > 0 && i < |EachSizes(size, n)|
    ensures i * size <= n && EachSizes(size, n)[i] == PieceLength(size, n, i)
    ensures Total(EachSizes(size, n)[..i]) == i * size
    decreases n
  {
    var sizes := EachSizes(size, n);
    if i == 0 {
      assert sizes[..0] == [];
    } else {
      EachSizesAre(size, n - size, i - 1);
      assert sizes[..i][1..] == sizes[1..][..i - 1];
      assert i * size == (i - 1) * size + size;
    }
  }

  lemma {:induction false} EachSizesCount(size: nat, n: nat)
    requires size > 0
    ensures Covers(|EachSizes(size, n)|, size, n)
    decreases n
  {
    var k := |EachSizes(size, n)|;
    if n > size {
      EachSizesCount(size, n - size);
      assert k * size == (k - 1) * size + size;
      assert (k - 1) * size == (k - 2) * size + size;
    }
  }

  lemma {:induction false} BeginsAt(sizes: seq<nat>, starts: seq<nat>, i: nat)
    requires Begins(sizes, starts) && i <= |sizes|
    ensures Total(sizes[..i]) == starts[i]
    decreases i
  {
    if i == 0 {
      assert sizes[..0] == [];
    } else {
      BeginsAt(sizes, starts, i - 1);
      TotalPush(sizes[..i - 1], sizes[i - 1]);
      assert sizes[..i] == sizes[..i - 1] + [sizes[i - 1]];
    }
  }

  lemma {:induction false} TotalPush(sizes: seq<nat>, last: nat)
    ensures Total(sizes + [last]) == Total(sizes) + last
    decreases sizes
  {
    if sizes == [] {
      assert sizes + [last] == [last] && [last][1..] == [];
    } else {
      TotalPush(sizes[1..], last);
      assert (sizes + [last])[1..] == sizes[1..] + [last];
    }
  }

  /** One size for all: ceil(n / size) pieces, an empty axis giving one empty piece. */
  lemma SplitEach(t: Tensor, size: nat, axis: nat)
    requires axis < |t.shape|
    ensures var n := t.shape[axis];
      && (Split(t, Each(size), axis).Ok? <==> size > 0 || n == 0)
      && (Split(t, Each(size), axis).Ok? ==> EachPiece(t, axis, size, Split(t, Each(size), axis).value))
  {
    hide Chunks, Narrow, Shows, Covers, EachSizes;
    var n := t.shape[axis];
    if size > 0 {
      var sizes := EachSizes(size, n);
      EachSizesCount(size, n);
      forall i: nat | i < |sizes|
        ensures Shows(t, axis, i * size, PieceLength(size, n, i), Chunks(t, axis, 0, sizes)[i])
      {
        EachSizesAre(size, n, i);
        ChunkIs(t, axis, 0, sizes, i);
        NarrowShows(t, axis, i * size, PieceLength(size, n, i));
      }
    } else if n == 0 {
      OneEmptyPiece(t, axis);
    }
  }

  lemma OneEmptyPiece(t: Tensor, axis: nat)
    requires axis < |t.shape| && t.shape[axis] == 0
    ensures var ts := Chunks(t, axis, 0, [0]);
            Covers(|ts|, 0, 0) && |ts| == 1 && Shows(t, axis, 0, PieceLength(0, 0, 0), ts[0])
  {
    hide Narrow, Shows;
    var sizes: seq<nat> := [0];
    ChunkIs(t, axis, 0, sizes, 0);
    assert sizes[..0] == [];
    NarrowShows(t, axis, 0, 0);
  }

  /** Listed sizes: they must fill the axis, and the i-th piece has the i-th. */
  lemma SplitListed(t: Tensor, sizes: seq<nat>, starts: seq<nat>, axis: nat)
    requires axis < |t.shape| && Begins(sizes, starts)
    ensures Split(t, Sizes(sizes), axis).Ok? <==> starts[|sizes|] == t.shape[axis]
    ensures Split(t, Sizes(sizes), axis).Ok? ==>
              var ts := Split(t, Sizes(sizes), axis).value;
              && |ts| == |sizes|
              && forall i :: 0 <= i < |sizes| ==> Shows(t, axis, starts[i], sizes[i], ts[i])
  {
    hide Chunks, Narrow, Shows, Total;
    BeginsAt(sizes, starts, |sizes|);
    assert sizes[..|sizes|] == sizes;
    if Total(sizes) == t.shape[axis] {
      forall i | 0 <= i < |sizes| ensures Shows(t, axis, starts[i], sizes[i], Chunks(t, axis, 0, sizes)[i]) {
        BeginsAt(sizes, starts, i);
        ChunkIs(t, axis, 0, sizes, i);
        TotalBound(sizes, i);
        NarrowShows(t, axis, starts[i], sizes[i]);
      }
    }
  }

  // ----- factored weights -----

  lemma PiecesAre(l: Lora, spec: SplitSize, dim: int)
    requires Valid(l) && 0 <= dim + |l.b.shape| < 2 * |l.b.shape|
    ensures var axis := AxisOf(dim, |l.b.shape|);
      && axis < |Materialise(l).shape|
      && (SplitLora(l, spec, dim).Ok? <==> Split(Materialise(l), spec, axis).Ok?)
      && (SplitLora(l, spec, dim).Ok? ==>
            && (forall p :: p in SplitLora(l, spec, dim).value ==> Valid(p))
            && Products(SplitLora(l, spec, dim).value) == Split(Materialise(l), spec, axis).value)
  {
    hide Materialise, Split, SplitLora, Valid, Cat;
    MaterialiseShape(l);
    SplitCommutes(l, spec, dim);
  }

  /** A factored weight split into pieces of one size: the same number of pieces, with those entries of W. */
  lemma LoraSplitEach(l: Lora, size: nat, dim: int)
    requires Valid(l) && 0 <= dim + |l.b.shape| < 2 * |l.b.shape|
    ensures var w, axis := Materialise(l), if dim < 0 then dim + |l.b.shape| else dim;
      && 0 <= axis < |w.shape|
      && (SplitLora(l, Each(size), dim).Ok? <==> size > 0 || w.shape[axis] == 0)
      && (SplitLora(l, Each(size), dim).Ok? ==>
            var ls := SplitLora(l, Each(size), dim).value;
            (forall p :: p in ls ==> Valid(p)) && EachPiece(w, axis, size, Products(ls)))
  {
    hide Materialise, Split, SplitLora, Valid, EachPiece;
    PiecesAre(l, Each(size), dim);
    SplitEach(Materialise(l), size, AxisOf(dim, |l.b.shape|));
  }

  /** And into pieces of listed sizes. */
  lemma LoraSplitListed(l: Lora, sizes: seq<nat>, starts: seq<nat>, dim: int)
    requires Valid(l) && 0 <= dim + |l.b.shape| < 2 * |l.b.shape| && Begins(sizes, starts)
    ensures var w, axis := Materialise(l), if dim < 0 then dim + |l.b.shape| else dim;
      && 0 <= axis < |w.shape|
      && (SplitLora(l, Sizes(sizes), dim).Ok? <==> starts[|sizes|] == w.shape[axis])
      && (SplitLora(l, Sizes(sizes), dim).Ok? ==>
            var ls := SplitLora(l, Sizes(sizes), dim).value;
            && |ls| == |sizes| && (forall p :: p in ls ==> Valid(p))
            && forall i :: 0 <= i < |ls| ==> Shows(w, axis, starts[i], sizes[i], Products(ls)[i]))
  {
    hide Materialise, Split, SplitLora, Valid, Shows, Begins;
    PiecesAre(l, Sizes(sizes), dim);
    SplitListed(Materialise(l), sizes, starts, AxisOf(dim, |l.b.shape|));
  }
}
