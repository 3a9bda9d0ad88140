/** LoraTorchTensor.split for any axis number, those that torch refuses included. */
module LoraSplitAxis {
  import opened Wrappers
  import opened Tensors
  import opened Lora
  import opened LoraPieces

  predicate TorchAxis(dim: int, n: nat) {
    0 <= dim + n < 2 * n
  }

  /** The constructor applied to each pair; zip stops at the shorter list. */
  function MakeAll(aChunks: seq<Tensor>, bChunks: seq<Tensor>): Result<seq<Lora>, TensorError>
    decreases |aChunks|
  {
    if aChunks == [] || bChunks == [] then Ok([])
    else
      var first :- Make(aChunks[0], bChunks[0]);
      var rest :- MakeAll(aChunks[1..], bChunks[1..]);
      Ok([first] + rest)
  }

  function SplitAny(l: Lora, spec: SplitSize, dim: int): Result<seq<Lora>, TensorError>
    requires Valid(l)
  {
    var n := |l.b.shape|;
    if TorchAxis(dim, n) then SplitLora(l, spec, dim)
    else
      // The last branch, with an axis that one correction did not bring into range.
      var d := if dim < 0 then dim + n else dim;
      if !TorchAxis(d, n) then Err(IndexError)
      else
        var axis := AxisOf(d, n);
        var bChunks :- Split(l.b, spec, axis);
        if l.a.shape[axis] == 1 then MakeAll(seq(|bChunks|, _ => l.a), bChunks)
        else
          var aChunks :- Split(l.a, spec, axis);
          MakeAll(aChunks, bChunks)
  }

  function SplitDense(t: Tensor, spec: SplitSize, dim: int): Result<seq<Tensor>, TensorError> {
    if TorchAxis(dim, |t.shape|) then Split(t, spec, AxisOf(dim, |t.shape|)) else Err(IndexError)
  }

  /** The pieces are those of W, which concatenate back to it. */
  predicate Right(l: Lora, spec: SplitSize, dim: int, pieces: seq<Lora>)
    requires Valid(l)
  {
    && SplitDense(Materialise(l), spec, dim).Ok?
    && TorchAxis(dim, |l.b.shape|)
    && PiecesOf(l, pieces, SplitDense(Materialise(l), spec, dim).value, AxisOf(dim, |l.b.shape|))
  }

  /**
   Splitting the factors is refused wherever splitting W is, for axis numbers torch accepts; an accepted
   split is right exactly for those numbers.
   */
  lemma SplitExactlyWhen(l: Lora, spec: SplitSize, dim: int)
    requires Valid(l)
    ensures TorchAxis(dim, |l.b.shape|) ==>
              (SplitAny(l, spec, dim).Ok? <==> SplitDense(Materialise(l), spec, dim).Ok?)
    ensures SplitAny(l, spec, dim).Ok? ==>
              (Right(l, spec, dim, SplitAny(l, spec, dim).value) <==> TorchAxis(dim, |l.b.shape|))
  {
    hide Materialise, Valid, SplitLora, Split, PiecesOf, MakeAll;
    MaterialiseShape(l);
    if TorchAxis(dim, |l.b.shape|) {
      SplitCommutes(l, spec, dim);
    }
  }
}
