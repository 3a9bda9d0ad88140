/**
 Chains of operations: however reshape, permute, transpose, scaling, taking one chunk of a split and
 indexing are composed, working on the factors agrees with working on W as long as each step is fair.
 */
module LoraChain {
  import opened Wrappers
  import opened Tensors
  import opened Selections
  import opened Lora
  import opened LoraPieces
  import opened LoraSplitAxis
  import opened LoraJoin
  import opened LoraIndex
  import opened LoraGetitem
  import opened LoraTuples
  import opened LoraEllipsis

  datatype Op =
    | OpReshape(shape: seq<int>)
    | OpPermute(dims: seq<int>)
    | OpTranspose(dim0: int, dim1: int)
    | OpScale(other: Tensor)
    | OpChunk(spec: SplitSize, dim: int, which: nat)
    | OpIndex(ixs: seq<Ix>)

  function Pick<T>(pieces: seq<T>, i: nat): Result<T, TensorError> {
    if i < |pieces| then Ok(pieces[i]) else Err(IndexError)
  }

  function StepLora(l: Lora, op: Op): Result<Lora, TensorError>
    requires Valid(l)
  {
    match op
    case OpReshape(shape) => ReshapeLora(l, shape)
    case OpPermute(dims) => PermuteLora(l, dims)
    case OpTranspose(dim0, dim1) => TransposeLora(l, dim0, dim1)
    case OpScale(other) => ScaleLora(l, other)
    case OpChunk(spec, dim, which) =>
      var pieces :- SplitAny(l, spec, dim);
      Pick(pieces, which)
    case OpIndex(ixs) => GetTuple(l, ixs)
  }

  function StepDense(t: Tensor, op: Op): Result<Tensor, TensorError> {
    match op
    case OpReshape(shape) => ReshapeDense(t, shape)
    case OpPermute(dims) => PermuteDense(t, dims)
    case OpTranspose(dim0, dim1) => TransposeDense(t, dim0, dim1)
    case OpScale(other) => MultiplyDense(t, other)
    case OpChunk(spec, dim, which) =>
      var pieces :- SplitDense(t, spec, dim);
      Pick(pieces, which)
    case OpIndex(ixs) => DenseTuple(t, ixs)
  }

  predicate TorchAxes(dims: seq<int>, n: nat) {
    forall i :: 0 <= i < |dims| ==> 0 <= dims[i] + n < 2 * n
  }

  /** Where the first ellipsis is. */
  function DotsAt(ixs: seq<Ix>): (p: nat)
    requires Dots in ixs
    ensures p < |ixs| && ixs[p] == Dots && Dots !in ixs[..p]
  {
    if ixs[0] == Dots then 0
    else
      assert ixs == [ixs[0]] + ixs[1..];
      var p := DotsAt(ixs[1..]);
      assert ixs[..p + 1] == [ixs[0]] + ixs[1..][..p];
      p + 1
  }

  function Front(ixs: seq<Ix>): seq<Ix> {
    if Dots in ixs then ixs[..DotsAt(ixs)] else ixs
  }

  function Back(ixs: seq<Ix>): seq<Ix> {
    if Dots in ixs then ixs[DotsAt(ixs) + 1..] else []
  }

  /** The subscripts used are faithful, and with an ellipsis they select what the ones meant select. */
  predicate FairTuple(l: Lora, ixs: seq<Ix>)
    requires Valid(l)
  {
    var front, back, n := Front(ixs), Back(ixs), |l.b.shape|;
    && |front| + |back| <= n && (back != [] ==> 2 * (|front| + |back|) <= n)
    && Faithful(l, Applied(front, back, n))
    && (back != [] ==>
          Index(Materialise(l), Meant(front, back, n)) == Index(Materialise(l), Applied(front, back, n)))
  }

  /** What decides before an operation: axis numbers, entry counts and subscripts. */
  predicate Fair(l: Lora, op: Op)
    requires Valid(l)
  {
    match op
    case OpReshape(shape) =>
      var s := Resolve(shape, Numel(l.Shape()));
      OneInferred(shape) && (l.Rank() > 0 || (s.Ok? && Numel(s.value) == Numel(l.Shape())))
    case OpPermute(dims) => TorchAxes(dims, |l.Shape()|)
    case OpChunk(_, dim, _) => TorchAxis(dim, |l.b.shape|)
    case OpIndex(ixs) => FairTuple(l, ixs)
    case _ => true
  }

  /** A tuple of subscripts has one ellipsis at most. */
  predicate OneDots(op: Op) {
    op.OpIndex? ==> Plain(Back(op.ixs))
  }

  /** The factors r are those of what the operation makes of W. */
  ghost predicate Stands(l: Lora, op: Op, r: Lora)
    requires Valid(l)
  {
    Valid(r) && StepDense(Materialise(l), op) == Ok(Materialise(r))
  }

  lemma ReshapeStep(l: Lora, shape: seq<int>)
    requires Valid(l) && ReshapeLora(l, shape).Ok?
    ensures var r := ReshapeLora(l, shape).value;
      Valid(r) && (Stands(l, OpReshape(shape), r) <==> Fair(l, OpReshape(shape))) && r.Rank() == l.Rank()
  {
    hide Materialise, Valid, ReshapeLora, Numel, WellFormed, Resolve, ReshapeDense;
    ReshapeCommutes(l, shape);
    ReshapeParts(l, shape);
  }

  lemma PermuteStep(l: Lora, dims: seq<int>)
    requires Valid(l) && PermuteLora(l, dims).Ok?
    ensures var r := PermuteLora(l, dims).value;
      Valid(r) && (Stands(l, OpPermute(dims), r) <==> Fair(l, OpPermute(dims))) && r.Rank() == l.Rank()
  {
    hide Materialise, Valid, PermuteLora, PermuteDense;
    PermuteCommutes(l, dims);
    PermuteKeepsRank(l, dims);
  }

  lemma PermuteKeepsRank(l: Lora, dims: seq<int>)
    requires Valid(l) && PermuteLora(l, dims).Ok? && Valid(PermuteLora(l, dims).value)
    ensures PermuteLora(l, dims).value.Rank() == l.Rank()
  {
    hide Materialise, PermuteLora, WellFormed, IsPermutation, At, Permuted, FromEnd;
    ValidSizes(l);
    PermuteCases(l, dims);
    var r := PermuteLora(l, dims).value;
    ValidSizes(r);
    var d := FromEnd(dims, |l.Shape()|);
    if d[|d| - 1] != -1 {
      TransposedValid(l);
      SwapFind();
    }
  }

  lemma TransposeStep(l: Lora, dim0: int, dim1: int)
    requires Valid(l) && TransposeLora(l, dim0, dim1).Ok?
    ensures var r := TransposeLora(l, dim0, dim1).value;
      Valid(r) && Stands(l, OpTranspose(dim0, dim1), r) && r.Rank() == l.Rank()
  {
    hide Materialise, Valid, PermuteLora, PermuteDense, TransposeDense, SwappedDims;
    ValidSizes(l);
    TransposeCommutes(l, dim0, dim1);
    PermuteKeepsRank(l, SwappedDims(|l.Shape()|, dim0, dim1).value);
  }

  lemma ScaleStep(l: Lora, other: Tensor)
    requires Valid(l) && ScaleLora(l, other).Ok?
    ensures var r := ScaleLora(l, other).value;
      Valid(r) && Stands(l, OpScale(other), r) && r.Rank() == l.Rank()
  {
    hide Materialise, Valid, MultiplyDense;
    ScaleCommutes(l, other);
    ValidSizes(l);
    ValidSizes(ScaleLora(l, other).value);
  }

  lemma ChunkStep(l: Lora, spec: SplitSize, dim: int, which: nat)
    requires Valid(l) && StepLora(l, OpChunk(spec, dim, which)).Ok?
    ensures var r := StepLora(l, OpChunk(spec, dim, which)).value;
      Stands(l, OpChunk(spec, dim, which), r) <==> Fair(l, OpChunk(spec, dim, which))
  {
    hide Materialise, Valid, SplitLora, Split, WellFormed, At, Cat, Products, MakeAll;
    MaterialiseShape(l);
    if TorchAxis(dim, |l.b.shape|) {
      SplitCommutes(l, spec, dim);
      var pieces := SplitLora(l, spec, dim).value;
      assert pieces[which] in pieces;
      assert Products(pieces)[which] == Materialise(pieces[which]);
    }
  }

  lemma ChunkKeepsRank(l: Lora, spec: SplitSize, dim: int, which: nat)
    requires Valid(l) && StepLora(l, OpChunk(spec, dim, which)).Ok? && TorchAxis(dim, |l.b.shape|)
    requires Valid(StepLora(l, OpChunk(spec, dim, which)).value)
    ensures StepLora(l, OpChunk(spec, dim, which)).value.Rank() == l.Rank()
  {
    hide SplitLora, ChunkSizes, Valid, Piece;
    ValidSizes(l);
    var axis := AxisOf(dim, |l.b.shape|);
    SplitPieces(l, spec, dim);
    PieceKeepsRank(l, axis, ChunkSizes(spec, l.Shape()[axis]).value, which);
  }

  lemma PieceKeepsRank(l: Lora, axis: nat, sizes: seq<nat>, i: nat)
    requires Valid(l) && axis < |l.b.shape| && i < |sizes|
    ensures |Piece(l, axis, sizes, i).b.shape| == |l.b.shape| && Piece(l, axis, sizes, i).Rank() == l.Rank()
  {
    hide Chunks, WellFormed, Narrow, Total, Valid, Numel;
    ValidSizes(l);
    if axis < |l.b.shape| - 1 {
      ChunkIs(l.b, axis, 0, sizes, i);
      assert Chunks(l.b, axis, 0, sizes)[i].shape == l.b.shape[axis := sizes[i]];
    }
  }

  lemma FrontAndBack(ixs: seq<Ix>)
    ensures Plain(Front(ixs))
    ensures Dots in ixs ==> ixs == Front(ixs) + [Dots] + Back(ixs)
    ensures Dots !in ixs ==> Front(ixs) == ixs && Back(ixs) == []
  {
  }

  lemma AppliedTrailing(front: seq<Ix>, n: nat)
    requires |front| <= n
    ensures Applied(front, [], n) == Meant(front, [], n) == front + Fulls(n - |front|)
  {
  }

  lemma IndexStep(l: Lora, ixs: seq<Ix>)
    requires Valid(l) && Plain(Back(ixs)) && GetTuple(l, ixs).Ok?
    ensures var r := GetTuple(l, ixs).value;
      Stands(l, OpIndex(ixs), r) <==> Fair(l, OpIndex(ixs))
  {
    hide Materialise, Valid, GetTuple, DenseTuple, Faithful, Plain, Applied, Meant, Index, Fulls, Front, Back;
    FrontAndBack(ixs);
    var front, back, n := Front(ixs), Back(ixs), |l.b.shape|;
    if Dots in ixs {
      DotsTupleExactlyWhen(l, front, back);
      if back == [] { AppliedTrailing(front, n); }
    } else {
      PlainIs(ixs);
      PlainTupleExactlyWhen(l, ixs);
      AppliedTrailing(front, n);
    }
  }

  lemma PlainIs(ixs: seq<Ix>)
    ensures Plain(ixs) <==> Dots !in ixs
  {
  }

  /** An accepted tuple is the full list of subscripts that it is read as. */
  lemma TupleApplied(l: Lora, ixs: seq<Ix>)
    requires Valid(l) && Plain(Back(ixs)) && GetTuple(l, ixs).Ok?
    ensures var front, back, n := Front(ixs), Back(ixs), |l.b.shape|;
      && |front| + |back| <= n && (back != [] ==> 2 * (|front| + |back|) <= n)
      && Plain(Applied(front, back, n)) && GetTuple(l, ixs) == GetFull(l, Applied(front, back, n))
  {
    hide Materialise, Valid, GetTuple, GetFull, Plain, Applied, Used, Meant, Fulls, Front, Back;
    FrontAndBack(ixs);
    var front, back, n := Front(ixs), Back(ixs), |l.b.shape|;
    if Dots in ixs && back != [] {
      AcceptedFits(l, front, back);
      AppliedIs(front, back, n);
      UsedWhenDotsInside(l, front, back);
    } else {
      if Dots in ixs {
        assert ixs == front + [Dots];
        TrailingDots(l, front);
      }
      assert GetTuple(l, ixs) == GetTuple(l, front);
      PlainTupleExactlyWhen(l, front);
      PlainTupleIsFull(l, front);
      AppliedTrailing(front, n);
    }
  }

  lemma PlainTupleIsFull(l: Lora, ixs: seq<Ix>)
    requires Valid(l) && Plain(ixs) && GetTuple(l, ixs).Ok? && |ixs| <= |l.b.shape|
    ensures Plain(ixs + Fulls(|l.b.shape| - |ixs|)) && GetTuple(l, ixs) == GetFull(l, ixs + Fulls(|l.b.shape| - |ixs|))
  {
    hide Valid, GetTuple, GetFull, Expand, Plain, Fulls;
    NothingGiven(l, ixs);
    NotDots(ixs, |ixs| - 1);
    GetTupleUnfolds(l, ixs);
    ExpandOfPlain(ixs, |ixs| - 1);
  }

  lemma FullKeepsRank(l: Lora, full: seq<Ix>)
    requires Valid(l) && |full| == |l.b.shape| && Plain(full) && GetFull(l, full).Ok? && Faithful(l, full)
    requires Valid(GetFull(l, full).value)
    ensures GetFull(l, full).value.Rank() == l.Rank()
  {
    hide Valid, GetFull, Selected, Kept, Fits, SelOf, LeadSels, Plain;
    ValidSizes(l);
    ValidSizes(GetFull(l, full).value);
    var lead, rows, cols := FullParts(l, full);
    KindsAgree(full[|lead|], l.b.shape[|lead|]);
    KeptTwo(lead, rows, All(l.Rank()));
  }

  lemma IndexKeepsRank(l: Lora, ixs: seq<Ix>)
    requires Valid(l) && Plain(Back(ixs)) && GetTuple(l, ixs).Ok? && FairTuple(l, ixs)
    requires Valid(GetTuple(l, ixs).value)
    ensures GetTuple(l, ixs).value.Rank() == l.Rank()
  {
    hide Valid, GetTuple, GetFull, Plain, Applied, Meant, Index, Faithful, Materialise, Front, Back;
    TupleApplied(l, ixs);
    FullKeepsRank(l, Applied(Front(ixs), Back(ixs), |l.b.shape|));
  }

  /** An accepted step stands for the same step on W exactly when it is fair. */
  lemma StepExactlyWhen(l: Lora, op: Op)
    requires Valid(l) && StepLora(l, op).Ok? && OneDots(op)
    ensures Stands(l, op, StepLora(l, op).value) <==> Fair(l, op)
  {
    hide Materialise, Valid, ReshapeLora, PermuteLora, TransposeLora, ScaleLora, SplitAny, GetTuple, Fair, Stands, Plain;
    match op
    case OpReshape(shape) => ReshapeStep(l, shape);
    case OpPermute(dims) => PermuteStep(l, dims);
    case OpTranspose(dim0, dim1) =>
      TransposeStep(l, dim0, dim1);
      AlwaysFair(l, op);
    case OpScale(other) =>
      ScaleStep(l, other);
      AlwaysFair(l, op);
    case OpChunk(spec, dim, which) => ChunkStep(l, spec, dim, which);
    case OpIndex(ixs) => IndexStep(l, ixs);
  }

  lemma AlwaysFair(l: Lora, op: Op)
    requires Valid(l) && (op.OpTranspose? || op.OpScale?)
    ensures Fair(l, op)
  {
  }

  /** Reshape, permute, transpose and scaling leave a weight even where they are not fair. */
  lemma StepKeepsWeight(l: Lora, op: Op)
    requires Valid(l) && StepLora(l, op).Ok? && OneDots(op) && (Fair(l, op) || !(op.OpChunk? || op.OpIndex?))
    ensures Valid(StepLora(l, op).value)
  {
    hide Materialise, Valid, ReshapeLora, PermuteLora, TransposeLora, ScaleLora, SplitAny, GetTuple, Fair, Plain;
    StepExactlyWhen(l, op);
    match op
    case OpReshape(shape) => ReshapeStep(l, shape);
    case OpPermute(dims) => PermuteStep(l, dims);
    case _ =>
      if op.OpTranspose? || op.OpScale? {
        AlwaysFair(l, op);
      }
  }

  /** The rank never changes. */
  lemma StepKeepsRank(l: Lora, op: Op)
    requires Valid(l) && StepLora(l, op).Ok? && OneDots(op) && Fair(l, op)
    ensures Valid(StepLora(l, op).value) && StepLora(l, op).value.Rank() == l.Rank()
  {
    hide Materialise, Valid, ReshapeLora, PermuteLora, TransposeLora, ScaleLora, SplitAny, GetTuple, Stands, Plain;
    StepKeepsWeight(l, op);
    match op
    case OpReshape(shape) => ReshapeStep(l, shape);
    case OpPermute(dims) => PermuteStep(l, dims);
    case OpTranspose(dim0, dim1) => TransposeStep(l, dim0, dim1);
    case OpScale(other) => ScaleStep(l, other);
    case OpChunk(spec, dim, which) => ChunkKeepsRank(l, spec, dim, which);
    case OpIndex(ixs) => IndexKeepsRank(l, ixs);
  }

  function RunDense(t: Tensor, ops: seq<Op>): Result<Tensor, TensorError>
    decreases ops
  {
    if ops == [] then Ok(t)
    else
      var t' :- StepDense(t, ops[0]);
      RunDense(t', ops[1..])
  }

  /** A chain on the factors, which goes on only from a weight. */
  function RunLora(l: Lora, ops: seq<Op>): Result<Lora, TensorError>
    requires Valid(l)
    decreases ops
  {
    if ops == [] then Ok(l)
    else
      var l' :- StepLora(l, ops[0]);
      if Valid(l') then RunLora(l', ops[1..]) else Err(ShapeMismatch)
  }

  /** Every step of the chain is fair where it is taken. */
  predicate FairRun(l: Lora, ops: seq<Op>)
    requires Valid(l)
    decreases ops
  {
    ops == [] ||
    (OneDots(ops[0]) && Fair(l, ops[0]) &&
     (StepLora(l, ops[0]).Ok? && Valid(StepLora(l, ops[0]).value) ==> FairRun(StepLora(l, ops[0]).value, ops[1..])))
  }

  /**
   Every chain of fair steps that the factors support is accepted by W too, and ends in factors whose
   product is the result of the chain on W.
   */
  lemma {:induction false} ChainCommutes(l: Lora, ops: seq<Op>)
    requires Valid(l) && FairRun(l, ops) && RunLora(l, ops).Ok?
    ensures var r := RunLora(l, ops).value;
            Valid(r) && RunDense(Materialise(l), ops) == Ok(Materialise(r))
    decreases ops
  {
    hide Materialise, Valid, StepLora, StepDense, Fair, OneDots;
    if ops != [] {
      StepExactlyWhen(l, ops[0]);
      ChainCommutes(StepLora(l, ops[0]).value, ops[1..]);
    }
  }

  /** The subscripts used are faithful, and on these shapes show the same entries as the ones meant. */
  ghost predicate KnownTuple(l: Lora, ixs: seq<Ix>)
    requires Valid(l)
  {
    var front, back, n := Front(ixs), Back(ixs), |l.b.shape|;
    && |front| + |back| <= n && (back != [] ==> 2 * (|front| + |back|) <= n)
    && Faithful(l, Applied(front, back, n))
    && (back != [] ==>
          && SameForm(l.Shape(), Meant(front, back, n), Applied(front, back, n))
          && SameEntries(l.Shape(), Meant(front, back, n), Applied(front, back, n)))
  }

  /**
   What the shapes alone can tell: the axis numbers are torch's, reshapes leave one length open at
   most, and subscripts mean what they are read as. Nothing is asked of entries or entry counts.
   */
  ghost predicate Known(l: Lora, op: Op)
    requires Valid(l)
  {
    OneDots(op) &&
    match op
    case OpReshape(shape) => OneInferred(shape)
    case OpPermute(dims) => TorchAxes(dims, |l.Shape()|)
    case OpChunk(_, dim, _) => TorchAxis(dim, |l.b.shape|)
    case OpIndex(ixs) => KnownTuple(l, ixs)
    case _ => true
  }

  ghost predicate KnownRun(l: Lora, ops: seq<Op>)
    requires Valid(l)
    decreases ops
  {
    ops == [] ||
    (Known(l, ops[0]) &&
     (StepLora(l, ops[0]).Ok? && Valid(StepLora(l, ops[0]).value) ==> KnownRun(StepLora(l, ops[0]).value, ops[1..])))
  }

  lemma KnownIsFair(l: Lora, op: Op)
    requires Valid(l) && l.Rank() > 0 && Known(l, op)
    ensures Fair(l, op)
  {
    hide Materialise, Valid, SameEntries, SameForm, Faithful, Applied, Meant, Index, Resolve, Numel, Front, Back;
    if op.OpIndex? {
      var front, back, n := Front(op.ixs), Back(op.ixs), |l.b.shape|;
      if back != [] {
        MaterialiseShape(l);
        SameResults(Materialise(l), Meant(front, back, n), Applied(front, back, n));
      }
    }
  }

  /** With positive rank every such chain is fair: what the factors accept, W accepts. */
  lemma {:induction false} RankMakesFair(l: Lora, ops: seq<Op>)
    requires Valid(l) && l.Rank() > 0 && KnownRun(l, ops)
    ensures FairRun(l, ops)
    decreases ops
  {
    hide Materialise, Valid, StepLora, Fair;
    if ops != [] {
      KnownIsFair(l, ops[0]);
      if StepLora(l, ops[0]).Ok? && Valid(StepLora(l, ops[0]).value) {
        StepKeepsRank(l, ops[0]);
        RankMakesFair(StepLora(l, ops[0]).value, ops[1..]);
      }
    }
  }
}
