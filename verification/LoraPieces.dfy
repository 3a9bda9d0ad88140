/** split of LoraTorchTensor: a weight taken apart by splitting one of its factors, or both. */
module LoraPieces {
  import opened Wrappers
  import opened Tensors
  import opened Lora

  /** Two pairs with equal factors at every summand have equal entries. */
  lemma Reindexed(l: Lora, r: Lora, idx: seq<nat>, idx': seq<nat>)
    requires |idx| == |r.a.shape| == |r.b.shape| >= 2 && |idx'| == |l.a.shape| == |l.b.shape| >= 2
    requires l.Rank() == r.Rank()
    requires forall k: nat :: k < l.Rank() ==>
               && At(r.b, RowIndex(idx, k)) == At(l.b, RowIndex(idx', k))
               && At(r.a, ColIndex(r.a.shape, idx, k)) == At(l.a, ColIndex(l.a.shape, idx', k))
    ensures Entry(r, idx) == Entry(l, idx')
  {
    SumCongruent(l.Rank(), Term(r, idx), Term(l, idx'));
  }

  // ----- split -----

  function NarrowCols(l: Lora, start: nat, count: nat): Lora
    requires Valid(l)
  {
    Lora(Narrow(l.a, |l.a.shape| - 1, start, count), l.b)
  }

  function NarrowRows(l: Lora, axis: nat, start: nat, count: nat): Lora
    requires Valid(l) && axis < |l.b.shape| - 1
  {
    Lora(l.a, Narrow(l.b, axis, start, count))
  }

  function NarrowBoth(l: Lora, axis: nat, start: nat, count: nat): (r: Lora)
    requires Valid(l) && axis < |l.b.shape| - 2
    ensures r.a.shape == l.a.shape[axis := count] && r.b.shape == l.b.shape[axis := count]
    ensures r.Rank() == l.Rank()
  {
    Lora(Narrow(l.a, axis, start, count), Narrow(l.b, axis, start, count))
  }

  lemma NarrowColsAt(l: Lora, start: nat, count: nat, idx: seq<nat>)
    requires Valid(l) && start + count <= l.Cols()
    requires InBounds(l.Shape()[|l.Shape()| - 1 := count], idx)
    ensures Entry(NarrowCols(l, start, count), idx) == Entry(l, Shift(idx, |idx| - 1, start))
  {
    hide At, Narrow;
    var n := |l.a.shape|;
    var r := NarrowCols(l, start, count);
    var idx' := Shift(idx, n - 1, start);
    forall k: nat | k < l.Rank()
      ensures At(r.b, RowIndex(idx, k)) == At(l.b, RowIndex(idx', k))
      ensures At(r.a, ColIndex(r.a.shape, idx, k)) == At(l.a, ColIndex(l.a.shape, idx', k))
    {
      assert RowIndex(idx, k) == RowIndex(idx', k);
      assert r.a.shape[..n - 2] == l.a.shape[..n - 2] && idx[..n - 2] == idx'[..n - 2];
      var c := ColIndex(r.a.shape, idx, k);
      assert InBounds(l.a.shape[n - 1 := count], c);
      NarrowAt(l.a, n - 1, start, count, c);
      assert Shift(c, n - 1, start) == ColIndex(l.a.shape, idx', k);
    }
    Reindexed(l, r, idx, idx');
  }

  lemma NarrowRow(l: Lora, axis: nat, start: nat, count: nat, idx: seq<nat>, k: nat)
    requires Valid(l) && axis < |l.b.shape| - 1 && k < l.Rank()
    requires InBounds(l.Shape()[axis := count], idx)
    ensures At(Narrow(l.b, axis, start, count), RowIndex(idx, k)) == At(l.b, RowIndex(Shift(idx, axis, start), k))
  {
    hide At, Narrow;
    var row := RowIndex(idx, k);
    assert InBounds(l.b.shape[axis := count], row);
    NarrowAt(l.b, axis, start, count, row);
    assert Shift(row, axis, start) == RowIndex(Shift(idx, axis, start), k);
  }

  lemma NarrowRowsAt(l: Lora, axis: nat, start: nat, count: nat, idx: seq<nat>)
    requires Valid(l) && axis < |l.b.shape| - 1 && start + count <= l.b.shape[axis]
    requires axis == |l.b.shape| - 2 || l.a.shape[axis] == 1
    requires InBounds(l.Shape()[axis := count], idx)
    ensures Entry(NarrowRows(l, axis, start, count), idx) == Entry(l, Shift(idx, axis, start))
  {
    hide At, Narrow;
    var n := |l.a.shape|;
    var r := NarrowRows(l, axis, start, count);
    var idx' := Shift(idx, axis, start);
    forall k: nat | k < l.Rank()
      ensures At(r.b, RowIndex(idx, k)) == At(l.b, RowIndex(idx', k))
      ensures At(r.a, ColIndex(r.a.shape, idx, k)) == At(l.a, ColIndex(l.a.shape, idx', k))
    {
      NarrowRow(l, axis, start, count, idx, k);
      assert Project(l.a.shape[..n - 2], idx[..n - 2]) == Project(l.a.shape[..n - 2], idx'[..n - 2]);
    }
    Reindexed(l, r, idx, idx');
  }

  lemma NarrowColumn(l: Lora, axis: nat, start: nat, count: nat, idx: seq<nat>, k: nat)
    requires Valid(l) && axis < |l.b.shape| - 2 && k < l.Rank()
    requires l.a.shape[axis] == l.b.shape[axis] && l.a.shape[axis] != 1
    requires InBounds(l.Shape()[axis := count], idx)
    ensures var shape := l.a.shape[axis := count];
            At(Narrow(l.a, axis, start, count), ColIndex(shape, idx, k))
            == At(l.a, ColIndex(l.a.shape, Shift(idx, axis, start), k))
  {
    hide At, Narrow;
    var c := ColIndex(l.a.shape[axis := count], idx, k);
    forall i | 0 <= i < |c| ensures c[i] < l.a.shape[axis := count][i] {
      if i < |c| - 2 { assert c[i] <= idx[i]; }
    }
    NarrowAt(l.a, axis, start, count, c);
    var c' := ColIndex(l.a.shape, Shift(idx, axis, start), k);
    forall i | 0 <= i < |c| ensures Shift(c, axis, start)[i] == c'[i] {
      if i < |c| - 2 { assert c'[i] == Project(l.a.shape[..|c| - 2], Shift(idx, axis, start)[..|c| - 2])[i]; }
    }
    assert Shift(c, axis, start) == c';
  }

  lemma NarrowBothAt(l: Lora, axis: nat, start: nat, count: nat, idx: seq<nat>)
    requires Valid(l) && axis < |l.b.shape| - 2 && start + count <= l.b.shape[axis]
    requires l.a.shape[axis] == l.b.shape[axis] && l.a.shape[axis] != 1
    requires InBounds(l.Shape()[axis := count], idx)
    ensures Entry(NarrowBoth(l, axis, start, count), idx) == Entry(l, Shift(idx, axis, start))
  {
    var r := NarrowBoth(l, axis, start, count);
    var idx' := Shift(idx, axis, start);
    assert r == Lora(Narrow(l.a, axis, start, count), Narrow(l.b, axis, start, count));
    assert |idx| == |r.a.shape| == |r.b.shape| == |idx'| == |l.a.shape| == |l.b.shape|;
    hide *;
    forall k: nat | k < l.Rank()
      ensures At(r.b, RowIndex(idx, k)) == At(l.b, RowIndex(idx', k))
      ensures At(r.a, ColIndex(r.a.shape, idx, k)) == At(l.a, ColIndex(l.a.shape, idx', k))
    {
      NarrowRow(l, axis, start, count, idx, k);
      NarrowColumn(l, axis, start, count, idx, k);
    }
    Reindexed(l, r, idx, idx');
  }

  lemma NarrowCommutes(l: Lora, r: Lora, axis: nat, start: nat, count: nat)
    requires Valid(l) && Valid(r) && axis < |l.b.shape| && start + count <= l.Shape()[axis]
    requires r.Shape() == l.Shape()[axis := count]
    requires forall idx :: InBounds(l.Shape()[axis := count], idx) ==> Entry(r, idx) == Entry(l, Shift(idx, axis, start))
    ensures Materialise(r) == Narrow(Materialise(l), axis, start, count)
  {
    hide Materialise, Entry, At, Narrow, WellFormed, Shift;
    MaterialiseShape(l);
    var p := Narrow(Materialise(l), axis, start, count);
    forall idx | InBounds(p.shape, idx) ensures At(p, idx) == Entry(r, idx) {
      ShiftInBounds(l.Shape(), axis, start, count, idx);
      NarrowAt(Materialise(l), axis, start, count, idx);
      MaterialiseAt(l, Shift(idx, axis, start));
    }
    ProductIs(r, p);
  }

  lemma NarrowColsCommutes(l: Lora, start: nat, count: nat)
    requires Valid(l) && start + count <= l.Cols()
    ensures Valid(NarrowCols(l, start, count))
    ensures Materialise(NarrowCols(l, start, count)) == Narrow(Materialise(l), |l.a.shape| - 1, start, count)
  {
    hide At, Entry, Materialise, WellFormed, Narrow;
    var r := NarrowCols(l, start, count);
    assert r.Shape() == l.Shape()[|l.a.shape| - 1 := count];
    assert Valid(r);
    forall idx | InBounds(l.Shape()[|l.a.shape| - 1 := count], idx) ensures Entry(r, idx) == Entry(l, Shift(idx, |l.a.shape| - 1, start)) {
      NarrowColsAt(l, start, count, idx);
    }
    NarrowCommutes(l, r, |l.a.shape| - 1, start, count);
  }

  lemma NarrowRowsCommutes(l: Lora, axis: nat, start: nat, count: nat)
    requires Valid(l) && axis < |l.b.shape| - 1 && start + count <= l.b.shape[axis]
    requires axis == |l.b.shape| - 2 || l.a.shape[axis] == 1
    ensures Valid(NarrowRows(l, axis, start, count))
    ensures Materialise(NarrowRows(l, axis, start, count)) == Narrow(Materialise(l), axis, start, count)
  {
    hide At, Entry, Materialise, WellFormed, Narrow;
    var r := NarrowRows(l, axis, start, count);
    assert r.Shape() == l.Shape()[axis := count];
    assert Valid(r);
    forall idx | InBounds(l.Shape()[axis := count], idx) ensures Entry(r, idx) == Entry(l, Shift(idx, axis, start)) {
      NarrowRowsAt(l, axis, start, count, idx);
    }
    NarrowCommutes(l, r, axis, start, count);
  }

  lemma NarrowBothCommutes(l: Lora, axis: nat, start: nat, count: nat)
    requires Valid(l) && axis < |l.b.shape| - 2 && start + count <= l.b.shape[axis]
    requires l.a.shape[axis] == l.b.shape[axis] && l.a.shape[axis] != 1
    ensures Valid(NarrowBoth(l, axis, start, count))
    ensures Materialise(NarrowBoth(l, axis, start, count)) == Narrow(Materialise(l), axis, start, count)
  {
    hide At, Entry, Materialise, WellFormed, Narrow;
    var r := NarrowBoth(l, axis, start, count);
    assert r.Shape() == l.Shape()[axis := count];
    assert Valid(r);
    forall idx | InBounds(l.Shape()[axis := count], idx) ensures Entry(r, idx) == Entry(l, Shift(idx, axis, start)) {
      NarrowBothAt(l, axis, start, count, idx);
    }
    NarrowCommutes(l, r, axis, start, count);
  }

  function AxisOf(dim: int, n: nat): (axis: nat)
    requires 0 <= dim + n < 2 * n
    ensures axis < n
  {
    if dim < 0 then dim + n else dim
  }

  /** split along any axis torch accepts: one of the factors, or both, is split. */
  function SplitLora(l: Lora, spec: SplitSize, dim: int): Result<seq<Lora>, TensorError>
    requires Valid(l) && 0 <= dim + |l.b.shape| < 2 * |l.b.shape|
  {
    var n := |l.b.shape|;
    var axis := AxisOf(dim, n);
    if axis == n - 1 then
      var aChunks :- Split(l.a, spec, axis);
      Ok(seq(|aChunks|, i requires 0 <= i < |aChunks| => Lora(aChunks[i], l.b)))
    else
      var bChunks :- Split(l.b, spec, axis);
      if axis == n - 2 || l.a.shape[axis] == 1 then
        Ok(seq(|bChunks|, i requires 0 <= i < |bChunks| => Lora(l.a, bChunks[i])))
      else
        var aChunks :- Split(l.a, spec, axis);
        var m := if |aChunks| < |bChunks| then |aChunks| else |bChunks|;
        Ok(seq(m, i requires 0 <= i < m => Lora(aChunks[i], bChunks[i])))
  }

  lemma {:induction false} TotalBound(sizes: seq<nat>, i: nat)
    requires i < |sizes|
    ensures Total(sizes[..i]) + sizes[i] <= Total(sizes)
  {
    if i == 0 {
      assert sizes[..0] == [];
    } else {
      TotalBound(sizes[1..], i - 1);
      assert sizes[..i][1..] == sizes[1..][..i - 1];
    }
  }

  /** The i-th pair that chunking one factor, or both, produces. */
  function Piece(l: Lora, axis: nat, sizes: seq<nat>, i: nat): Lora
    requires Valid(l) && axis < |l.b.shape| && i < |sizes|
  {
    if axis == |l.b.shape| - 1 then Lora(Chunks(l.a, axis, 0, sizes)[i], l.b)
    else if axis == |l.b.shape| - 2 || l.a.shape[axis] == 1 then Lora(l.a, Chunks(l.b, axis, 0, sizes)[i])
    else Lora(Chunks(l.a, axis, 0, sizes)[i], Chunks(l.b, axis, 0, sizes)[i])
  }

  lemma PieceCommutes(l: Lora, axis: nat, sizes: seq<nat>, i: nat)
    requires Valid(l) && axis < |l.b.shape| && i < |sizes| && Total(sizes) == l.Shape()[axis]
    ensures Valid(Piece(l, axis, sizes, i))
    ensures Materialise(Piece(l, axis, sizes, i)) == Narrow(Materialise(l), axis, Total(sizes[..i]), sizes[i])
  {
    hide Narrow, At, Chunks, Materialise, WellFormed, Total;
    TotalBound(sizes, i);
    var start := Total(sizes[..i]);
    if axis == |l.b.shape| - 1 {
      ChunkIs(l.a, axis, 0, sizes, i);
      NarrowColsCommutes(l, start, sizes[i]);
    } else {
      ChunkIs(l.b, axis, 0, sizes, i);
      if axis == |l.b.shape| - 2 || l.a.shape[axis] == 1 {
        NarrowRowsCommutes(l, axis, start, sizes[i]);
      } else {
        ChunkIs(l.a, axis, 0, sizes, i);
        NarrowBothCommutes(l, axis, start, sizes[i]);
      }
    }
  }

  lemma SplitPieces(l: Lora, spec: SplitSize, dim: int)
    requires Valid(l) && 0 <= dim + |l.b.shape| < 2 * |l.b.shape|
    ensures var axis := AxisOf(dim, |l.b.shape|);
            && (SplitLora(l, spec, dim).Ok? <==> ChunkSizes(spec, l.Shape()[axis]).Ok?)
            && (SplitLora(l, spec, dim).Ok? ==>
                  var sizes := ChunkSizes(spec, l.Shape()[axis]).value;
                  && |SplitLora(l, spec, dim).value| == |sizes|
                  && forall i :: 0 <= i < |sizes| ==> SplitLora(l, spec, dim).value[i] == Piece(l, axis, sizes, i))
  {
    hide Narrow, At, Chunks, WellFormed;
  }

  function Products(ls: seq<Lora>): (ws: seq<Tensor>)
    requires forall l :: l in ls ==> Valid(l)
    ensures |ws| == |ls| && forall i :: 0 <= i < |ls| ==> ws[i] == Materialise(ls[i])
  {
    seq(|ls|, i requires 0 <= i < |ls| => Materialise(ls[i]))
  }

  /** The pairs are factored forms of the chunks of W, and those rebuild W. */
  predicate PiecesOf(l: Lora, pieces: seq<Lora>, ws: seq<Tensor>, axis: nat)
    requires Valid(l)
  {
    && (forall p :: p in pieces ==> Valid(p))
    && Products(pieces) == ws
    && (pieces != [] ==> Cat(ws, axis) == Ok(Materialise(l)))
  }

  lemma PiecesOfIs(l: Lora, pieces: seq<Lora>, ws: seq<Tensor>, axis: nat)
    requires Valid(l) && (forall p :: p in pieces ==> Valid(p)) && Products(pieces) == ws
    requires pieces != [] ==> Cat(ws, axis) == Ok(Materialise(l))
    ensures PiecesOf(l, pieces, ws, axis)
  {
  }

  lemma SplitIs(t: Tensor, spec: SplitSize, axis: nat)
    requires axis < |t.shape|
    ensures Split(t, spec, axis).Ok? <==> ChunkSizes(spec, t.shape[axis]).Ok?
    ensures Split(t, spec, axis).Ok? ==>
              Split(t, spec, axis).value == Chunks(t, axis, 0, ChunkSizes(spec, t.shape[axis]).value)
  {
  }

  lemma PieceIsChunk(l: Lora, axis: nat, sizes: seq<nat>, i: nat)
    requires Valid(l) && axis < |l.b.shape| && Total(sizes) == l.Shape()[axis] && i < |sizes|
    ensures Valid(Piece(l, axis, sizes, i)) && axis < |Materialise(l).shape|
    ensures Materialise(Piece(l, axis, sizes, i)) == Chunks(Materialise(l), axis, 0, sizes)[i]
  {
    hide *;
    MaterialiseShape(l);
    PieceCommutes(l, axis, sizes, i);
    ChunkIs(Materialise(l), axis, 0, sizes, i);
  }

  lemma PiecesAreChunks(l: Lora, axis: nat, sizes: seq<nat>, pieces: seq<Lora>)
    requires Valid(l) && axis < |l.b.shape| && Total(sizes) == l.Shape()[axis]
    requires |pieces| == |sizes| && forall i :: 0 <= i < |sizes| ==> pieces[i] == Piece(l, axis, sizes, i)
    ensures forall p :: p in pieces ==> Valid(p)
    ensures axis < |Materialise(l).shape| && Products(pieces) == Chunks(Materialise(l), axis, 0, sizes)
  {
    hide *;
    MaterialiseShape(l);
    forall i | 0 <= i < |sizes|
      ensures Valid(pieces[i]) && Materialise(pieces[i]) == Chunks(Materialise(l), axis, 0, sizes)[i]
    {
      PieceIsChunk(l, axis, sizes, i);
    }
  }

  /**
   Splitting the factors splits the product: the code succeeds exactly when splitting W
   would, its pieces are the factored pieces of W, and they concatenate back to W.
   */
  lemma SplitCommutes(l: Lora, spec: SplitSize, dim: int)
    requires Valid(l) && 0 <= dim + |l.b.shape| < 2 * |l.b.shape|
    ensures var axis := AxisOf(dim, |l.b.shape|);
            && (SplitLora(l, spec, dim).Ok? <==> Split(Materialise(l), spec, axis).Ok?)
            && (SplitLora(l, spec, dim).Ok? ==>
                  PiecesOf(l, SplitLora(l, spec, dim).value, Split(Materialise(l), spec, axis).value, axis))
  {
    hide *;
    MaterialiseShape(l);
    SplitPieces(l, spec, dim);
    var w, axis := Materialise(l), AxisOf(dim, |l.b.shape|);
    SplitIs(w, spec, axis);
    if SplitLora(l, spec, dim).Ok? {
      var sizes := ChunkSizes(spec, w.shape[axis]).value;
      ChunkSizesTotal(spec, w.shape[axis]);
      PiecesAreChunks(l, axis, sizes, SplitLora(l, spec, dim).value);
      if sizes != [] { CatOfSplit(w, spec, axis); }
      PiecesOfIs(l, SplitLora(l, spec, dim).value, Split(w, spec, axis).value, axis);
    }
  }
}
