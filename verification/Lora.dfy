/**
 LoraTorchTensor: a weight W = B @ A kept as its two factors. Every operation works on
 the factors only; the lemmas show that it commutes with forming the product.
 */
module Lora {
  import opened Wrappers
  import opened Tensors

  datatype Lora = Lora(a: Tensor, b: Tensor) {
    function Rank(): nat
      requires |b.shape| > 0
    {
      b.shape[|b.shape| - 1]
    }

    function Cols(): nat
      requires |a.shape| > 0
    {
      a.shape[|a.shape| - 1]
    }

    /** The shape property: B's axes but the last, then A's last. */
    function Shape(): seq<nat>
      requires |a.shape| > 0 && |b.shape| > 0
    {
      b.shape[..|b.shape| - 1] + [Cols()]
    }
  }

  /** The constructor with its two assertions. */
  function Make(a: Tensor, b: Tensor): Result<Lora, TensorError> {
    if |a.shape| != |b.shape| then Err(AssertionFailed)
    else if |a.shape| < 2 then Err(IndexError)
    else if a.shape[|a.shape| - 2] != b.shape[|b.shape| - 1] then Err(AssertionFailed)
    else Ok(Lora(a, b))
  }

  /**
   The product exists and has the shape the shape property reports: the leading axes of A
   are those of B or have length one (and then broadcast).
   */
  predicate Valid(l: Lora) {
    && WellFormed(l.a) && WellFormed(l.b)
    && |l.a.shape| == |l.b.shape| >= 2
    && l.a.shape[|l.a.shape| - 2] == l.Rank()
    && forall i :: 0 <= i < |l.a.shape| - 2 ==> l.a.shape[i] == 1 || l.a.shape[i] == l.b.shape[i]
  }

  /** Index of the k-th factor of an entry in B: the row of the entry. */
  function RowIndex(idx: seq<nat>, k: nat): (r: seq<nat>)
    requires |idx| > 0
  {
    idx[..|idx| - 1] + [k]
  }

  /** Index of the k-th factor of an entry in A: the column of the entry. */
  function ColIndex(shape: seq<nat>, idx: seq<nat>, k: nat): (r: seq<nat>)
    requires |shape| == |idx| >= 2
  {
    var n := |idx| - 2;
    Project(shape[..n], idx[..n]) + [k, idx[n + 1]]
  }

  function Term(l: Lora, idx: seq<nat>): nat -> real
    requires |idx| == |l.a.shape| >= 2
  {
    (k: nat) => At(l.b, RowIndex(idx, k)) * At(l.a, ColIndex(l.a.shape, idx, k))
  }

  /** One entry of B @ A. */
  function Entry(l: Lora, idx: seq<nat>): real
    requires |idx| == |l.a.shape| == |l.b.shape| >= 2
  {
    Sum(l.Rank(), Term(l, idx))
  }

  function EntryFn(l: Lora): seq<nat> -> real {
    (idx: seq<nat>) => if |idx| == |l.a.shape| == |l.b.shape| >= 2 then Entry(l, idx) else 0.0
  }

  /** W = B @ A, with the leading axes of A broadcast against those of B. */
  function Materialise(l: Lora): (w: Tensor)
    requires Valid(l)
  {
    Build(l.Shape(), EntryFn(l))
  }

  lemma MaterialiseShape(l: Lora)
    requires Valid(l)
    ensures WellFormed(Materialise(l)) && Materialise(l).shape == l.Shape()
    ensures |Materialise(l).shape| == |l.b.shape| == |l.a.shape|
  {
  }

  lemma MaterialiseAt(l: Lora, idx: seq<nat>)
    requires Valid(l) && InBounds(l.Shape(), idx)
    ensures At(Materialise(l), idx) == Entry(l, idx)
  {
    BuildAt(l.Shape(), EntryFn(l), idx);
  }

  lemma FactorsInBounds(l: Lora, idx: seq<nat>, k: nat)
    requires Valid(l) && InBounds(l.Shape(), idx) && k < l.Rank()
    ensures InBounds(l.b.shape, RowIndex(idx, k)) && InBounds(l.a.shape, ColIndex(l.a.shape, idx, k))
  {
    var n := |idx| - 2;
    var c := ColIndex(l.a.shape, idx, k);
    forall i | 0 <= i < |c| ensures c[i] < l.a.shape[i] {
      if i < n { assert c[i] == Project(l.a.shape[..n], idx[..n])[i]; }
    }
  }

  /** A tensor whose entries are those of the product is the product. */
  lemma ProductIs(l: Lora, w: Tensor)
    requires Valid(l) && WellFormed(w) && w.shape == l.Shape()
    requires forall idx :: InBounds(w.shape, idx) ==> At(w, idx) == Entry(l, idx)
    ensures Materialise(l) == w
  {
    MaterialiseShape(l);
    hide Materialise, Entry, Valid, At;
    forall idx | InBounds(w.shape, idx) ensures At(Materialise(l), idx) == At(w, idx) {
      MaterialiseAt(l, idx);
    }
    Extensional(Materialise(l), w);
  }

  // ----- reshape -----

  function Resolve(shape: seq<int>, elements: nat): Result<seq<nat>, TensorError> {
    if -1 in shape then
      var known := ProductOfKnown(shape);
      if known == 0 then Err(DivisionByZero)
      else if elements % known != 0 then Err(AssertionFailed)
      else Checked(seq(|shape|, i requires 0 <= i < |shape| =>
                                  if shape[i] != -1 then shape[i] else elements / known))
    else Checked(shape)
  }

  function ProductOfKnown(shape: seq<int>): int {
    if shape == [] then 1
    else ProductOfKnown(shape[..|shape| - 1]) * (if shape[|shape| - 1] != -1 then shape[|shape| - 1] else 1)
  }

  /** torch refuses a shape with a negative length. */
  function Checked(shape: seq<int>): (r: Result<seq<nat>, TensorError>)
    ensures r.Ok? ==> r.value == shape
  {
    if forall i :: 0 <= i < |shape| ==> shape[i] >= 0 then
      Ok(seq(|shape|, i requires 0 <= i < |shape| => shape[i] as nat))
    else Err(ShapeMismatch)
  }

  function ReshapeLora(l: Lora, requested: seq<int>): Result<Lora, TensorError>
    requires Valid(l)
  {
    if |requested| < 2 then Err(NotImplemented)
    else
      var shape :- Resolve(requested, Numel(l.Shape()));
      if shape[|shape| - 1] != l.Cols() then Err(NotImplemented)
      else
        var a :- Reshape(l.a, Ones(|shape| - 2) + [l.Rank(), l.Cols()]);
        var b :- Reshape(l.b, shape[..|shape| - 1] + [l.Rank()]);
        Make(a, b)
  }

  /** At most one length is left to be inferred. */
  predicate OneInferred(requested: seq<int>) {
    forall i, j :: 0 <= i < j < |requested| ==> requested[i] != -1 || requested[j] != -1
  }

  /** torch infers one length and refuses a second -1, which the factored form resolves like the first. */
  function ReshapeDense(t: Tensor, requested: seq<int>): Result<Tensor, TensorError> {
    if !OneInferred(requested) then Err(ShapeMismatch)
    else
      var shape :- Resolve(requested, Numel(t.shape));
      Reshape(t, shape)
  }

  lemma NumelAppend(shape: seq<nat>, c: nat)
    ensures Numel(shape + [c]) == Numel(shape) * c
  {
    assert (shape + [c])[..|shape|] == shape;
  }

  lemma FlatAppend(shape: seq<nat>, c: nat, idx: seq<nat>, j: nat)
    requires |idx| == |shape|
    ensures Flat(shape + [c], idx + [j]) == Flat(shape, idx) * c + j
  {
    assert (shape + [c])[..|shape|] == shape && (idx + [j])[..|idx|] == idx;
  }

  lemma {:induction false} NumelOfOnes(shape: seq<nat>)
    ensures Numel(shape) == 1 <==> forall i :: 0 <= i < |shape| ==> shape[i] == 1
  {
    if shape != [] {
      var n := |shape| - 1;
      NumelOfOnes(shape[..n]);
      ProductIsOne(Numel(shape[..n]), shape[n]);
      assert shape == shape[..n] + [shape[n]];
    }
  }

  lemma ProductIsOne(x: nat, y: nat)
    ensures x * y == 1 <==> x == 1 && y == 1
  {
    if x > 1 && y > 0 { MulMonotone(1, y, x); }
    if y > 1 && x > 0 { MulMonotone(1, x, y); }
  }

  lemma {:induction false} FlatOfZeros(shape: seq<nat>, idx: seq<nat>)
    requires |shape| == |idx| && forall i :: 0 <= i < |idx| ==> idx[i] == 0
    ensures Flat(shape, idx) == 0
  {
    if shape != [] { FlatOfZeros(shape[..|shape| - 1], idx[..|idx| - 1]); }
  }

  predicate UnitLead(a: Tensor) {
    |a.shape| >= 2 && forall i :: 0 <= i < |a.shape| - 2 ==> a.shape[i] == 1
  }

  function Datum(data: seq<real>, p: nat): real {
    if p < |data| then data[p] else 0.0
  }

  function Packed(q: nat, r: nat, k: nat): nat {
    q * r + k
  }

  function FlatTerm(b: seq<real>, a: seq<real>, r: nat, c: nat, p: nat): nat -> real
    requires c > 0
  {
    (k: nat) => Datum(b, Packed(p / c, r, k)) * Datum(a, Packed(k, c, p % c))
  }

  lemma AtFlat(t: Tensor, idx: seq<nat>)
    requires WellFormed(t) && InBounds(t.shape, idx)
    ensures At(t, idx) == Datum(t.data, Flat(t.shape, idx))
  {
    FlatInRange(t.shape, idx);
  }

  lemma ColsPositive(l: Lora, p: nat)
    requires Valid(l) && p < Numel(l.Shape())
    ensures l.Cols() > 0
    ensures var rows := l.b.shape[..|l.b.shape| - 1];
      p / l.Cols() < Numel(rows)
      && Unflat(l.Shape(), p) == Unflat(rows, p / l.Cols()) + [p % l.Cols()]
  {
    var rows := l.b.shape[..|l.b.shape| - 1];
    assert l.Shape()[..|rows|] == rows;
    DivInRange(p, Numel(rows), l.Cols());
  }

  lemma RowDatum(l: Lora, p: nat, k: nat)
    requires Valid(l) && p < Numel(l.Shape()) && k < l.Rank() && l.Cols() > 0
    ensures At(l.b, RowIndex(Unflat(l.Shape(), p), k)) == Datum(l.b.data, Packed(p / l.Cols(), l.Rank(), k))
  {
    hide At, Datum, Flat, Numel, Unflat;
    var rows := l.b.shape[..|l.b.shape| - 1];
    ColsPositive(l, p);
    UnflatInBounds(rows, p / l.Cols());
    var row := Unflat(rows, p / l.Cols());
    assert RowIndex(Unflat(l.Shape(), p), k) == row + [k];
    assert l.b.shape == rows + [l.Rank()];
    FlatAppend(rows, l.Rank(), row, k);
    assert InBounds(l.b.shape, row + [k]);
    AtFlat(l.b, row + [k]);
  }

  lemma ColDatum(l: Lora, p: nat, k: nat)
    requires Valid(l) && UnitLead(l.a) && p < Numel(l.Shape()) && k < l.Rank() && l.Cols() > 0
    ensures At(l.a, ColIndex(l.a.shape, Unflat(l.Shape(), p), k)) == Datum(l.a.data, Packed(k, l.Cols(), p % l.Cols()))
  {
    hide At, Datum, Flat, Numel, Unflat;
    var n := |l.a.shape| - 2;
    var lead := l.a.shape[..n];
    ColsPositive(l, p);
    var idx, j := Unflat(l.Shape(), p), p % l.Cols();
    assert |idx| == n + 2 && idx[n + 1] == j;
    var zeros := Project(lead, idx[..n]);
    ColFlat(lead, zeros, l.Rank(), l.Cols(), k, j);
    assert l.a.shape == lead + [l.Rank(), l.Cols()];
    assert ColIndex(l.a.shape, idx, k) == zeros + [k, j];
    assert InBounds(l.a.shape, zeros + [k, j]);
    AtFlat(l.a, zeros + [k, j]);
  }

  lemma ColFlat(lead: seq<nat>, zeros: seq<nat>, r: nat, c: nat, k: nat, j: nat)
    requires |lead| == |zeros| && forall i :: 0 <= i < |zeros| ==> zeros[i] == 0
    ensures Flat(lead + [r, c], zeros + [k, j]) == Packed(k, c, j)
  {
    hide Flat;
    FlatOfZeros(lead, zeros);
    FlatAppend(lead, r, zeros, k);
    FlatAppend(lead + [r], c, zeros + [k], j);
    assert lead + [r, c] == lead + [r] + [c] && zeros + [k, j] == zeros + [k] + [j];
  }

  lemma MaterialiseDatum(l: Lora, p: nat)
    requires Valid(l) && p < Numel(l.Shape())
    ensures InBounds(l.Shape(), Unflat(l.Shape(), p))
    ensures Materialise(l).data[p] == Entry(l, Unflat(l.Shape(), p))
  {
    hide Entry, Flat, Numel, Unflat;
    UnflatInBounds(l.Shape(), p);
  }

  /** With unit leading axes on A, the buffer of W depends on the two buffers alone. */
  lemma ProductOfBuffers(l: Lora, p: nat)
    requires Valid(l) && (UnitLead(l.a) || l.Rank() == 0) && p < Numel(l.Shape())
    ensures l.Cols() > 0
    ensures Materialise(l).data[p] == Sum(l.Rank(), FlatTerm(l.b.data, l.a.data, l.Rank(), l.Cols(), p))
  {
    hide Datum, At, Flat, Numel, Unflat;
    ColsPositive(l, p);
    UnflatInBounds(l.Shape(), p);
    MaterialiseDatum(l, p);
    var idx := Unflat(l.Shape(), p);
    forall k: nat | k < l.Rank()
      ensures Term(l, idx)(k) == FlatTerm(l.b.data, l.a.data, l.Rank(), l.Cols(), p)(k)
    {
      RowDatum(l, p, k);
      ColDatum(l, p, k);
    }
    SumCongruent(l.Rank(), Term(l, idx), FlatTerm(l.b.data, l.a.data, l.Rank(), l.Cols(), p));
  }

  lemma UnitLeadFromNumel(a: Tensor, n: nat)
    requires |a.shape| >= 2
    requires Numel(a.shape) == Numel(Ones(n) + [a.shape[|a.shape| - 2], a.shape[|a.shape| - 1]])
    ensures UnitLead(a) || a.shape[|a.shape| - 2] == 0 || a.shape[|a.shape| - 1] == 0
  {
    var m := |a.shape| - 2;
    var r, c := a.shape[m], a.shape[m + 1];
    var lead := a.shape[..m];
    assert a.shape == lead + [r] + [c];
    assert Ones(n) + [r, c] == Ones(n) + [r] + [c];
    NumelAppend(lead, r);
    NumelAppend(lead + [r], c);
    NumelAppend(Ones(n), r);
    NumelAppend(Ones(n) + [r], c);
    NumelOfOnes(Ones(n));
    NumelOfOnes(lead);
    if r > 0 && c > 0 {
      CancelTwice(Numel(lead), r, c);
    }
  }

  lemma CancelTwice(x: nat, r: nat, c: nat)
    requires r > 0 && c > 0 && x * r * c == 1 * r * c
    ensures x == 1
  {
    assert (x * r) * c == r * c;
    if x * r > r {
      MulMonotone(r + 1, x * r, c);
    }
    if x * r < r {
      MulMonotone(x * r + 1, r, c);
    }
    assert x * r == r;
    if x > 1 { MulMonotone(2, x, r); }
  }

  /** What a successful factored reshape looks like. */
  lemma ReshapeParts(l: Lora, requested: seq<int>)
    requires Valid(l) && ReshapeLora(l, requested).Ok?
    ensures var r := ReshapeLora(l, requested).value;
            && Resolve(requested, Numel(l.Shape())) == Ok(r.Shape())
            && Valid(r) && UnitLead(r.a)
            && r.a.data == l.a.data && r.b.data == l.b.data
            && r.Rank() == l.Rank() && r.Cols() == l.Cols()
            && (UnitLead(l.a) || l.Rank() == 0 || l.Cols() == 0)
            && (l.Rank() > 0 ==> Numel(r.Shape()) == Numel(l.Shape()))
  {
    hide At;
    var r := ReshapeLora(l, requested).value;
    var shape := Resolve(requested, Numel(l.Shape())).value;
    var n := |shape|;
    assert r.Shape() == shape;
    UnitLeadFromNumel(l.a, n - 2);
    var rows, rows' := l.b.shape[..|l.b.shape| - 1], shape[..n - 1];
    NumelAppend(rows', l.Rank());
    NumelAppend(rows', l.Cols());
    NumelAppend(rows, l.Rank());
    NumelAppend(rows, l.Cols());
    assert l.b.shape == rows + [l.Rank()] && shape == rows' + [l.Cols()];
    if l.Rank() > 0 { CancelRight(Numel(rows), Numel(rows'), l.Rank()); }
  }

  lemma SameDatum(l: Lora, r: Lora, p: nat)
    requires Valid(l) && Valid(r) && UnitLead(r.a)
    requires UnitLead(l.a) || l.Rank() == 0
    requires r.a.data == l.a.data && r.b.data == l.b.data
    requires r.Rank() == l.Rank() && r.Cols() == l.Cols()
    requires p < Numel(l.Shape()) && p < Numel(r.Shape())
    ensures Materialise(l).data[p] == Materialise(r).data[p]
  {
    ProductOfBuffers(l, p);
    ProductOfBuffers(r, p);
  }

  /** Equal buffers, rank and row length give equal product buffers. */
  lemma SameBuffers(l: Lora, r: Lora)
    requires Valid(l) && Valid(r) && UnitLead(r.a)
    requires UnitLead(l.a) || l.Rank() == 0 || l.Cols() == 0
    requires r.a.data == l.a.data && r.b.data == l.b.data
    requires r.Rank() == l.Rank() && r.Cols() == l.Cols() && Numel(r.Shape()) == Numel(l.Shape())
    ensures Materialise(l).data == Materialise(r).data
  {
    MaterialiseShape(l);
    MaterialiseShape(r);
    hide Materialise, Valid;
    var n := Numel(l.Shape());
    forall p | 0 <= p < n ensures Materialise(l).data[p] == Materialise(r).data[p] {
      assert l.Cols() > 0 by { DivInRange(p, Numel(l.Shape()[..|l.Shape()| - 1]), l.Cols()); }
      SameDatum(l, r, p);
    }
  }

  /**
   Reshaping the factors reshapes the product: the product of a successful factored reshape is W's
   buffer under the requested shape. The code accepts a shape that W refuses in two cases: with
   several -1, and with rank 0, when the factors have empty buffers and a wrong element count
   goes unseen.
   */
  lemma ReshapeCommutes(l: Lora, requested: seq<int>)
    requires Valid(l) && ReshapeLora(l, requested).Ok?
    ensures var r := ReshapeLora(l, requested).value;
            && Valid(r)
            && (ReshapeDense(Materialise(l), requested) == Ok(Materialise(r))
                <==> OneInferred(requested) && (l.Rank() > 0 || Numel(r.Shape()) == Numel(l.Shape())))
  {
    ReshapeParts(l, requested);
    var r := ReshapeLora(l, requested).value;
    MaterialiseShape(l);
    MaterialiseShape(r);
    hide Materialise, Valid, Numel, UnitLead, ReshapeLora;
    if Numel(r.Shape()) == Numel(l.Shape()) {
      SameBuffers(l, r);
    }
  }

  lemma CancelRight(x: nat, y: nat, r: nat)
    requires r > 0 && x * r == y * r
    ensures x == y
  {
  }

  // ----- permute and transpose -----

  /** torch's reading of axis numbers: negative ones count from the end. */
  function Axes(dims: seq<int>, n: nat): Result<seq<nat>, TensorError> {
    if forall i :: 0 <= i < |dims| ==> 0 <= dims[i] + n < 2 * n then
      Ok(seq(|dims|, i requires 0 <= i < |dims| => if dims[i] < 0 then dims[i] + n else dims[i]))
    else Err(IndexError)
  }

  function PermuteDense(t: Tensor, dims: seq<int>): Result<Tensor, TensorError> {
    var perm :- Axes(dims, |t.shape|);
    Permute(t, perm)
  }

  function FromEnd(dims: seq<int>, n: nat): (r: seq<int>)
    ensures |r| == |dims|
  {
    seq(|dims|, i requires 0 <= i < |dims| => if dims[i] >= 0 then dims[i] - n else dims[i])
  }

  function PermuteLora(l: Lora, dims: seq<int>): Result<Lora, TensorError>
    requires Valid(l)
  {
    var n, m := |l.Shape()|, |dims|;
    var d := FromEnd(dims, n);
    if m == 0 then Err(IndexError)
    else if d[m - 1] == -1 then
      if !UnitLead(l.a) then Err(AssertionFailed)
      else
        var b :- PermuteDense(l.b, d);
        Make(l.a, b)
    else if n == 2 && d[m - 1] == -2 && m < 2 then Err(IndexError)
    else if n == 2 && d[m - 1] == -2 && d[m - 2] == -1 then
      var a :- PermuteDense(l.b, d);
      var b :- PermuteDense(l.a, d);
      Make(a, b)
    else Err(NotImplemented)
  }

  /** Python's list indexing with a possibly negative position. */
  function PyIndex(i: int, n: nat): Result<nat, TensorError> {
    if 0 <= i < n then Ok(i) else if i < 0 <= i + n then Ok(i + n) else Err(IndexError)
  }

  function SwappedDims(n: nat, dim0: int, dim1: int): Result<seq<int>, TensorError> {
    var i :- PyIndex(dim0, n);
    var j :- PyIndex(dim1, n);
    var dims: seq<int> := seq(n, k => k);
    Ok(dims[i := j][j := i])
  }

  function TransposeLora(l: Lora, dim0: int, dim1: int): Result<Lora, TensorError>
    requires Valid(l)
  {
    var dims :- SwappedDims(|l.Shape()|, dim0, dim1);
    PermuteLora(l, dims)
  }

  function TransposeDense(t: Tensor, dim0: int, dim1: int): Result<Tensor, TensorError> {
    var dims :- SwappedDims(|t.shape|, dim0, dim1);
    PermuteDense(t, dims)
  }

  lemma SourceOfRow(perm: seq<nat>, idx: seq<nat>, k: nat)
    requires IsPermutation(perm, |idx|) && |idx| > 0 && perm[|idx| - 1] == |idx| - 1
    ensures Source(perm, RowIndex(idx, k)) == RowIndex(Source(perm, idx), k)
    ensures Source(perm, idx)[|idx| - 1] == idx[|idx| - 1]
  {
    var n := |idx|;
    var s, s' := Source(perm, idx), Source(perm, RowIndex(idx, k));
    assert Find(perm, perm[n - 1]) == n - 1;
    forall x | 0 <= x < n - 1 ensures s'[x] == s[x] {
      assert perm[Find(perm, x)] == x;
    }
    assert s' == RowIndex(s, k);
  }

  lemma UnitColumn(shape: seq<nat>, idx: seq<nat>, idx': seq<nat>, k: nat)
    requires |idx| == |idx'| == |shape| >= 2 && idx[|idx| - 1] == idx'[|idx| - 1]
    requires forall i :: 0 <= i < |shape| - 2 ==> shape[i] == 1
    ensures ColIndex(shape, idx, k) == ColIndex(shape, idx', k)
  {
  }

  lemma PermuteTerm(l: Lora, perm: seq<nat>, idx: seq<nat>, k: nat)
    requires Valid(l) && UnitLead(l.a) && k < l.Rank()
    requires IsPermutation(perm, |l.b.shape|) && perm[|perm| - 1] == |perm| - 1
    requires InBounds(PermutedShape(l.Shape(), perm), idx)
    ensures Term(Lora(l.a, Permuted(l.b, perm)), idx)(k) == Term(l, Source(perm, idx))(k)
  {
    hide At, Permuted;
    PermutedRow(l, perm, idx, k);
    PermuteAt(l.b, perm, RowIndex(idx, k));
    SourceOfRow(perm, idx, k);
    UnitColumn(l.a.shape, idx, Source(perm, idx), k);
  }

  lemma EntryIs(l: Lora, idx: seq<nat>)
    requires |idx| == |l.a.shape| == |l.b.shape| >= 2
    ensures Entry(l, idx) == Sum(l.Rank(), Term(l, idx))
  {
  }

  /** Permuting the axes of B that W shares with it, row axis included, permutes W. */
  lemma PermuteRowsAt(l: Lora, perm: seq<nat>, idx: seq<nat>)
    requires Valid(l) && UnitLead(l.a)
    requires IsPermutation(perm, |l.b.shape|) && perm[|perm| - 1] == |perm| - 1
    requires InBounds(PermutedShape(l.Shape(), perm), idx)
    ensures Entry(Lora(l.a, Permuted(l.b, perm)), idx) == Entry(l, Source(perm, idx))
  {
    var r := Lora(l.a, Permuted(l.b, perm));
    assert r.Rank() == l.Rank() && |idx| == |perm|;
    hide *;
    forall k: nat | k < l.Rank() ensures Term(r, idx)(k) == Term(l, Source(perm, idx))(k) {
      PermuteTerm(l, perm, idx, k);
    }
    SumCongruent(l.Rank(), Term(r, idx), Term(l, Source(perm, idx)));
    EntryIs(r, idx);
    EntryIs(l, Source(perm, idx));
  }

  lemma PermutedRow(l: Lora, perm: seq<nat>, idx: seq<nat>, k: nat)
    requires Valid(l) && k < l.Rank()
    requires IsPermutation(perm, |l.b.shape|) && perm[|perm| - 1] == |perm| - 1
    requires InBounds(PermutedShape(l.Shape(), perm), idx)
    ensures InBounds(PermutedShape(l.b.shape, perm), RowIndex(idx, k))
  {
    var n := |perm|;
    forall i | 0 <= i < n ensures RowIndex(idx, k)[i] < PermutedShape(l.b.shape, perm)[i] {
      if i < n - 1 {
        assert perm[i] != perm[n - 1];
        assert PermutedShape(l.Shape(), perm)[i] == l.b.shape[perm[i]];
      }
    }
  }

  const SWAP: seq<nat> := [1, 0]

  function Transposed(l: Lora): Lora
    requires Valid(l) && |l.a.shape| == 2
  {
    SwapIsPermutation();
    Lora(Permuted(l.b, SWAP), Permuted(l.a, SWAP))
  }

  lemma SwapFind()
    ensures Find(SWAP, 0) == 1 && Find(SWAP, 1) == 0
  {
    assert SWAP[0] == 1 && SWAP[1..] == [0];
    assert Find([0], 0) == 0;
  }

  lemma SwapIsPermutation()
    ensures IsPermutation(SWAP, 2)
  {
    SwapFind();
    forall a: nat | a < 2 ensures Find(SWAP, a) < 2 {
      assert a == 0 || a == 1;
    }
  }

  lemma SwapAt(t: Tensor, i: nat, j: nat)
    requires |t.shape| == 2 && i < t.shape[1] && j < t.shape[0]
    ensures IsPermutation(SWAP, 2) && At(Permuted(t, SWAP), [i, j]) == At(t, [j, i])
  {
    hide At, Permuted;
    SwapIsPermutation();
    assert PermutedShape(t.shape, SWAP) == [t.shape[1], t.shape[0]];
    PermuteAt(t, SWAP, [i, j]);
    var s := Source(SWAP, [i, j]);
    SwapFind();
    assert s[0] == j && s[1] == i;
    assert s == [j, i];
  }

  lemma TransposeTerm(l: Lora, i: nat, j: nat, k: nat)
    requires Valid(l) && |l.a.shape| == 2
    requires i < l.Cols() && j < l.b.shape[0] && k < l.Rank()
    ensures Term(Transposed(l), [i, j])(k) == Term(l, [j, i])(k)
  {
    hide At, Permuted;
    SwapAt(l.a, i, k);
    SwapAt(l.b, k, j);
    var shape := Permuted(l.b, SWAP).shape;
    assert shape[..0] == [] && [i, j][..0] == [] && l.a.shape[..0] == [] && [j, i][..0] == [];
    assert RowIndex([i, j], k) == [i, k] && RowIndex([j, i], k) == [j, k];
    assert ColIndex(shape, [i, j], k) == [k, j] && ColIndex(l.a.shape, [j, i], k) == [k, i];
  }

  /** (B A)^T = A^T B^T, entry by entry. */
  lemma TransposeAt(l: Lora, i: nat, j: nat)
    requires Valid(l) && |l.a.shape| == 2
    requires i < l.Cols() && j < l.b.shape[0]
    ensures Entry(Transposed(l), [i, j]) == Entry(l, [j, i])
  {
    hide Term, Permuted;
    var r := Transposed(l);
    forall k: nat | k < l.Rank() ensures Term(r, [i, j])(k) == Term(l, [j, i])(k) {
      TransposeTerm(l, i, j, k);
    }
    SumCongruent(l.Rank(), Term(r, [i, j]), Term(l, [j, i]));
  }

  lemma RowsPermutedValid(l: Lora, perm: seq<nat>)
    requires Valid(l) && UnitLead(l.a)
    requires IsPermutation(perm, |l.b.shape|) && perm[|perm| - 1] == |perm| - 1
    ensures var r := Lora(l.a, Permuted(l.b, perm));
            Valid(r) && r.Shape() == PermutedShape(l.Shape(), perm)
  {
    hide At, Permuted, WellFormed, Find;
    var r := Lora(l.a, Permuted(l.b, perm));
    var n := |perm|;
    assert r.b.shape == PermutedShape(l.b.shape, perm);
    forall i | 0 <= i < n ensures r.Shape()[i] == PermutedShape(l.Shape(), perm)[i] {
      assert Find(perm, perm[i]) == i && Find(perm, n - 1) == n - 1;
      if i < n - 1 {
        assert perm[i] < n - 1;
        assert r.Shape()[i] == l.b.shape[perm[i]] == l.Shape()[perm[i]];
      }
    }
    assert r.Shape() == PermutedShape(l.Shape(), perm);
    assert r.Rank() == l.Rank();
  }

  lemma RowsPermutedAt(l: Lora, perm: seq<nat>, idx: seq<nat>)
    requires Valid(l) && UnitLead(l.a)
    requires IsPermutation(perm, |l.b.shape|) && perm[|perm| - 1] == |perm| - 1
    requires InBounds(PermutedShape(l.Shape(), perm), idx)
    ensures At(Permuted(Materialise(l), perm), idx) == Entry(Lora(l.a, Permuted(l.b, perm)), idx)
  {
    MaterialiseShape(l);
    hide Materialise, At, Permuted, Entry;
    SourceInBounds(l.Shape(), perm, idx);
    PermuteAt(Materialise(l), perm, idx);
    MaterialiseAt(l, Source(perm, idx));
    PermuteRowsAt(l, perm, idx);
  }

  lemma RowsPermuted(l: Lora, perm: seq<nat>)
    requires Valid(l) && UnitLead(l.a)
    requires IsPermutation(perm, |l.b.shape|) && perm[|perm| - 1] == |perm| - 1
    ensures |Materialise(l).shape| == |l.b.shape| && Valid(Lora(l.a, Permuted(l.b, perm)))
    ensures Materialise(Lora(l.a, Permuted(l.b, perm))) == Permuted(Materialise(l), perm)
  {
    RowsPermutedValid(l, perm);
    MaterialiseShape(l);
    var r, p := Lora(l.a, Permuted(l.b, perm)), Permuted(Materialise(l), perm);
    assert p.shape == r.Shape();
    forall idx | InBounds(p.shape, idx) ensures At(p, idx) == Entry(r, idx) {
      RowsPermutedAt(l, perm, idx);
    }
    ProductIs(r, p);
  }

  lemma TransposedValid(l: Lora)
    requires Valid(l) && |l.a.shape| == 2
    ensures var r := Transposed(l);
            Valid(r) && r.Shape() == [l.Cols(), l.b.shape[0]] && IsPermutation(SWAP, 2)
    ensures |Transposed(l).a.shape| == |Transposed(l).b.shape| == 2
    ensures PermutedShape(l.Shape(), SWAP) == [l.Cols(), l.b.shape[0]]
  {
    hide At;
    SwapIsPermutation();
    var r := Transposed(l);
    assert r.a.shape == [l.b.shape[1], l.b.shape[0]] && r.b.shape == [l.a.shape[1], l.a.shape[0]];
  }

  lemma ProductTransposed(l: Lora)
    requires Valid(l) && |l.a.shape| == 2
    ensures Valid(Transposed(l)) && IsPermutation(SWAP, 2)
    ensures Materialise(Transposed(l)) == Permuted(Materialise(l), SWAP)
  {
    hide Materialise, Permuted, Entry, Transposed, Valid, At;
    TransposedValid(l);
    MaterialiseShape(l);
    var r, w := Transposed(l), Materialise(l);
    var p := Permuted(w, SWAP);
    forall idx | InBounds(p.shape, idx) ensures At(p, idx) == Entry(r, idx) {
      assert idx == [idx[0], idx[1]];
      MaterialiseAt(l, [idx[1], idx[0]]);
      SwapAt(w, idx[0], idx[1]);
      TransposeAt(l, idx[0], idx[1]);
    }
    ProductIs(r, p);
  }

  lemma AxesFromEnd(dims: seq<int>, n: nat)
    requires forall i :: 0 <= i < |dims| ==> 0 <= dims[i] + n < 2 * n
    ensures Axes(FromEnd(dims, n), n) == Axes(dims, n)
  {
    var d := FromEnd(dims, n);
    assert forall i :: 0 <= i < |d| ==> 0 <= d[i] + n < 2 * n;
    assert Axes(d, n).value == Axes(dims, n).value;
  }

  /** The two ways in which the code permutes. */
  lemma PermuteCases(l: Lora, dims: seq<int>)
    requires Valid(l) && PermuteLora(l, dims).Ok?
    ensures var r, n, d := PermuteLora(l, dims).value, |l.Shape()|, FromEnd(dims, |l.Shape()|);
            && |d| == n && Axes(d, n).Ok?
            && var perm := Axes(d, n).value;
               && IsPermutation(perm, n)
               && (d[n - 1] == -1 ==>
                     UnitLead(l.a) && perm[n - 1] == n - 1 && r == Lora(l.a, Permuted(l.b, perm)))
               && (d[n - 1] != -1 ==> n == 2 && perm == SWAP && r == Transposed(l))
  {
    hide Materialise, Permuted, WellFormed, At, IsPermutation, FromEnd, UnitLead;
    SwapIsPermutation();
    var n, d := |l.Shape()|, FromEnd(dims, |l.Shape()|);
    PermutedOk(l.b, d);
    if d[|d| - 1] != -1 {
      PermutedOk(l.a, d);
      SwapAxes(d);
    }
  }

  lemma SwapAxes(d: seq<int>)
    requires |d| == 2 && d[0] == -1 && d[1] == -2
    ensures Axes(d, 2) == Ok(SWAP)
  {
    assert Axes(d, 2).value == [1, 0];
  }

  lemma PermutedOk(t: Tensor, d: seq<int>)
    requires PermuteDense(t, d).Ok? && |d| > 0
    ensures |d| == |t.shape| && Axes(d, |t.shape|).Ok? && IsPermutation(Axes(d, |t.shape|).value, |t.shape|)
    ensures PermuteDense(t, d).value == Permuted(t, Axes(d, |t.shape|).value)
    ensures d[|d| - 1] == -1 ==> Axes(d, |t.shape|).value[|d| - 1] == |d| - 1
  {
    hide Permuted;
  }

  /**
   Permuting the factors permutes the product: leading and row axes through B, and a
   matrix transposed as (BA)^T = A^T B^T. The code also accepts an axis number in
   [ndim, 2 ndim), which W refuses; on every axis number W accepts the two agree.
   */
  lemma PermuteCommutes(l: Lora, dims: seq<int>)
    requires Valid(l) && PermuteLora(l, dims).Ok?
    ensures var r := PermuteLora(l, dims).value;
            && Valid(r)
            && (PermuteDense(Materialise(l), dims) == Ok(Materialise(r))
                <==> forall i :: 0 <= i < |dims| ==> 0 <= dims[i] + |l.Shape()| < 2 * |l.Shape()|)
  {
    hide Materialise, Permuted, Transposed, WellFormed, At, IsPermutation;
    var n := |l.Shape()|;
    MaterialiseShape(l);
    PermuteCases(l, dims);
    var d := FromEnd(dims, n);
    var perm := Axes(d, n).value;
    if d[|d| - 1] == -1 {
      RowsPermuted(l, perm);
    } else {
      ProductTransposed(l);
    }
    if forall i :: 0 <= i < |dims| ==> 0 <= dims[i] + n < 2 * n {
      AxesFromEnd(dims, n);
    }
  }

  lemma TransposeCommutes(l: Lora, dim0: int, dim1: int)
    requires Valid(l) && TransposeLora(l, dim0, dim1).Ok?
    ensures var r := TransposeLora(l, dim0, dim1).value;
            Valid(r) && TransposeDense(Materialise(l), dim0, dim1) == Ok(Materialise(r))
  {
    hide Materialise, PermuteLora, PermuteDense, Valid, At;
    MaterialiseShape(l);
    var dims := SwappedDims(|l.Shape()|, dim0, dim1).value;
    PermuteCommutes(l, dims);
  }
}
