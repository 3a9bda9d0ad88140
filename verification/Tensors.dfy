/**
 Dense tensors as a flat row-major buffer with a shape, and the torch operations the
 LoRA converter applies to them. Arithmetic is exact (`real`).
 */
module Tensors {
  import opened Wrappers

  datatype Tensor = Tensor(shape: seq<nat>, data: seq<real>)

  datatype TensorError = NotImplemented | AssertionFailed | DivisionByZero | ShapeMismatch | IndexError

  function Numel(shape: seq<nat>): nat {
    if shape == [] then 1 else Numel(shape[..|shape| - 1]) * shape[|shape| - 1]
  }

  predicate WellFormed(t: Tensor) {
    |t.data| == Numel(t.shape)
  }

  predicate InBounds(shape: seq<nat>, idx: seq<nat>) {
    |idx| == |shape| && forall i :: 0 <= i < |idx| ==> idx[i] < shape[i]
  }

  /** Row-major position of an index: the last axis varies fastest. */
  function Flat(shape: seq<nat>, idx: seq<nat>): nat
    requires |idx| == |shape|
  {
    if shape == [] then 0
    else Flat(shape[..|shape| - 1], idx[..|idx| - 1]) * shape[|shape| - 1] + idx[|idx| - 1]
  }

  lemma DivInRange(p: nat, a: nat, b: nat)
    requires p < a * b
    ensures b > 0 && p / b < a
  {
    if b > 0 && p / b >= a { MulMonotone(a, p / b, b); }
  }

  lemma MulMonotone(a: nat, b: nat, c: nat)
    requires a <= b
    ensures a * c <= b * c
  {
  }

  lemma PackedInRange(q: nat, a: nat, c: nat, j: nat)
    requires q < a && j < c
    ensures q * c + j < a * c
  {
    MulMonotone(q + 1, a, c);
  }

  lemma DivModOfPacked(q: nat, c: nat, j: nat)
    requires j < c
    ensures (q * c + j) / c == q && (q * c + j) % c == j
  {
    var p := q * c + j;
    assert p == (p / c) * c + p % c;
    var d := p / c - q;
    assert d * c == j - p % c;
    if d >= 1 { MulMonotone(1, d, c); }
    if d <= -1 {
      assert (-d) * c == p % c - j;
      MulMonotone(1, -d, c);
    }
  }

  /** The index at a row-major position; inverse of `Flat`. */
  function Unflat(shape: seq<nat>, p: nat): (idx: seq<nat>)
    requires p < Numel(shape)
    ensures |idx| == |shape|
  {
    if shape == [] then []
    else
      var last := shape[|shape| - 1];
      DivInRange(p, Numel(shape[..|shape| - 1]), last);
      Unflat(shape[..|shape| - 1], p / last) + [p % last]
  }

  lemma {:induction false} UnflatInBounds(shape: seq<nat>, p: nat)
    requires p < Numel(shape)
    ensures InBounds(shape, Unflat(shape, p)) && Flat(shape, Unflat(shape, p)) == p
  {
    if shape == [] {
    } else {
      var n := |shape| - 1;
      DivInRange(p, Numel(shape[..n]), shape[n]);
      UnflatInBounds(shape[..n], p / shape[n]);
      var idx := Unflat(shape, p);
      assert idx[..n] == Unflat(shape[..n], p / shape[n]);
      InBoundsPush(shape, idx);
    }
  }

  lemma InBoundsPush(shape: seq<nat>, idx: seq<nat>)
    requires |idx| == |shape| > 0
    requires InBounds(shape[..|shape| - 1], idx[..|shape| - 1]) && idx[|shape| - 1] < shape[|shape| - 1]
    ensures InBounds(shape, idx)
  {
    var n := |shape| - 1;
    forall i | 0 <= i < |idx| ensures idx[i] < shape[i] {
      if i < n {
        assert idx[i] == idx[..n][i] && shape[i] == shape[..n][i];
      }
    }
  }

  lemma {:induction false} FlatInRange(shape: seq<nat>, idx: seq<nat>)
    requires InBounds(shape, idx)
    ensures Flat(shape, idx) < Numel(shape) && Unflat(shape, Flat(shape, idx)) == idx
  {
    if shape == [] {
    } else {
      var n := |shape| - 1;
      FlatInRange(shape[..n], idx[..n]);
      var q := Flat(shape[..n], idx[..n]);
      PackedInRange(q, Numel(shape[..n]), shape[n], idx[n]);
      DivModOfPacked(q, shape[n], idx[n]);
      assert Flat(shape, idx) / shape[n] == q && Flat(shape, idx) % shape[n] == idx[n];
      assert idx == idx[..n] + [idx[n]];
    }
  }

  /** Element at an index; 0.0 outside the shape, so that it can stand under a lambda. */
  function At(t: Tensor, idx: seq<nat>): real {
    if InBounds(t.shape, idx) && Flat(t.shape, idx) < |t.data| then t.data[Flat(t.shape, idx)] else 0.0
  }

  /** The tensor whose element at every index is given by f. */
  function Build(shape: seq<nat>, f: seq<nat> -> real): (t: Tensor)
    ensures WellFormed(t) && t.shape == shape
  {
    Tensor(shape, seq(Numel(shape), p requires 0 <= p < Numel(shape) => f(Unflat(shape, p))))
  }

  lemma BuildAt(shape: seq<nat>, f: seq<nat> -> real, idx: seq<nat>)
    requires InBounds(shape, idx)
    ensures At(Build(shape, f), idx) == f(idx)
  {
    FlatInRange(shape, idx);
  }

  lemma Extensional(t: Tensor, u: Tensor)
    requires WellFormed(t) && WellFormed(u) && t.shape == u.shape
    requires forall idx :: InBounds(t.shape, idx) ==> At(t, idx) == At(u, idx)
    ensures t == u
  {
    forall p | 0 <= p < |t.data| ensures t.data[p] == u.data[p] {
      UnflatInBounds(t.shape, p);
      assert At(t, Unflat(t.shape, p)) == At(u, Unflat(t.shape, p));
    }
    assert t.data == u.data;
  }

  /** Sum of f(0), ..., f(n - 1). */
  function Sum(n: nat, f: nat -> real): real {
    if n == 0 then 0.0 else Sum(n - 1, f) + f(n - 1)
  }

  lemma {:induction false} SumCongruent(n: nat, f: nat -> real, g: nat -> real)
    requires forall k :: 0 <= k < n ==> f(k) == g(k)
    ensures Sum(n, f) == Sum(n, g)
  {
    if n > 0 { SumCongruent(n - 1, f, g); }
  }

  lemma {:induction false} SumScaled(n: nat, f: nat -> real, g: nat -> real, c: real)
    requires forall k :: 0 <= k < n ==> g(k) == f(k) * c
    ensures Sum(n, g) == Sum(n, f) * c
  {
    if n > 0 { SumScaled(n - 1, f, g, c); }
  }

  // ----- torch operations -----

  /** reshape: same buffer, new shape. */
  function Reshape(t: Tensor, shape: seq<nat>): Result<Tensor, TensorError> {
    if Numel(shape) == Numel(t.shape) then Ok(Tensor(shape, t.data)) else Err(ShapeMismatch)
  }

  /** First position of axis a in perm, |perm| if it is absent. */
  function Find(perm: seq<nat>, a: nat): (r: nat)
    ensures r <= |perm| && (r < |perm| ==> perm[r] == a)
  {
    if perm == [] || perm[0] == a then 0 else 1 + Find(perm[1..], a)
  }

  /** Every axis below n occurs, and occurs once. */
  predicate IsPermutation(perm: seq<nat>, n: nat) {
    && |perm| == n
    && (forall a: nat :: a < n ==> Find(perm, a) < n)
    && (forall i :: 0 <= i < n ==> perm[i] < n && Find(perm, perm[i]) == i)
  }

  /** The index of the source element that a permuted tensor shows at idx. */
  function Source(perm: seq<nat>, idx: seq<nat>): (s: seq<nat>)
    requires IsPermutation(perm, |idx|)
    ensures |s| == |idx|
  {
    seq(|idx|, a requires 0 <= a < |idx| => idx[Find(perm, a)])
  }

  function PermutedShape(shape: seq<nat>, perm: seq<nat>): (r: seq<nat>)
    requires IsPermutation(perm, |shape|)
  {
    seq(|perm|, i requires 0 <= i < |perm| => shape[perm[i]])
  }

  function PermuteFn(t: Tensor, perm: seq<nat>): seq<nat> -> real {
    (idx: seq<nat>) => if IsPermutation(perm, |idx|) then At(t, Source(perm, idx)) else 0.0
  }

  function Permuted(t: Tensor, perm: seq<nat>): (r: Tensor)
    requires IsPermutation(perm, |t.shape|)
    ensures WellFormed(r) && r.shape == PermutedShape(t.shape, perm)
  {
    Build(PermutedShape(t.shape, perm), PermuteFn(t, perm))
  }

  function Permute(t: Tensor, perm: seq<nat>): Result<Tensor, TensorError> {
    if IsPermutation(perm, |t.shape|) then Ok(Permuted(t, perm)) else Err(ShapeMismatch)
  }

  lemma SourceInBounds(shape: seq<nat>, perm: seq<nat>, idx: seq<nat>)
    requires IsPermutation(perm, |shape|) && InBounds(PermutedShape(shape, perm), idx)
    ensures InBounds(shape, Source(perm, idx))
  {
    var s := Source(perm, idx);
    forall a | 0 <= a < |s| ensures s[a] < shape[a] {
      assert idx[Find(perm, a)] < PermutedShape(shape, perm)[Find(perm, a)];
    }
  }

  lemma PermuteAt(t: Tensor, perm: seq<nat>, idx: seq<nat>)
    requires IsPermutation(perm, |t.shape|) && InBounds(PermutedShape(t.shape, perm), idx)
    ensures At(Permuted(t, perm), idx) == At(t, Source(perm, idx))
  {
    BuildAt(PermutedShape(t.shape, perm), PermuteFn(t, perm), idx);
  }

  /** The index moved by start along one axis. */
  function Shift(idx: seq<nat>, axis: nat, start: nat): (r: seq<nat>)
    requires axis < |idx|
    ensures |r| == |idx|
  {
    var moved: nat := idx[axis] + start;
    idx[axis := moved]
  }

  function NarrowFn(t: Tensor, axis: nat, start: nat): seq<nat> -> real {
    (idx: seq<nat>) => if axis < |idx| then At(t, Shift(idx, axis, start)) else 0.0
  }

  /** The slice of t that keeps `count` entries of one axis, from `start`. */
  function Narrow(t: Tensor, axis: nat, start: nat, count: nat): (r: Tensor)
    requires axis < |t.shape|
    ensures WellFormed(r) && r.shape == t.shape[axis := count]
  {
    Build(t.shape[axis := count], NarrowFn(t, axis, start))
  }

  /** Second argument of torch.split: one size for every chunk, or a list of sizes. */
  datatype SplitSize = Each(size: nat) | Sizes(sizes: seq<nat>)

  function EachSizes(size: nat, total: nat): seq<nat>
    requires size > 0
    decreases total
  {
    if total <= size then [total] else [size] + EachSizes(size, total - size)
  }

  function Total(sizes: seq<nat>): nat {
    if sizes == [] then 0 else sizes[0] + Total(sizes[1..])
  }

  function ChunkSizes(spec: SplitSize, total: nat): Result<seq<nat>, TensorError> {
    match spec
    case Each(size) =>
      if size > 0 then Ok(EachSizes(size, total))
      else if total == 0 then Ok([0])
      else Err(ShapeMismatch)
    case Sizes(sizes) =>
      if Total(sizes) == total then Ok(sizes) else Err(ShapeMismatch)
  }

  function Chunks(t: Tensor, axis: nat, start: nat, sizes: seq<nat>): (ts: seq<Tensor>)
    requires axis < |t.shape|
    ensures |ts| == |sizes|
    decreases sizes
  {
    if sizes == [] then []
    else [Narrow(t, axis, start, sizes[0])] + Chunks(t, axis, start + sizes[0], sizes[1..])
  }

  function Split(t: Tensor, spec: SplitSize, axis: nat): Result<seq<Tensor>, TensorError>
    requires axis < |t.shape|
  {
    var sizes :- ChunkSizes(spec, t.shape[axis]);
    Ok(Chunks(t, axis, 0, sizes))
  }

  /** Whether every tensor of ts has the shape of the first one away from the axis. */
  predicate Aligned(ts: seq<Tensor>, axis: nat) {
    && |ts| > 0
    && axis < |ts[0].shape|
    && forall i :: 0 <= i < |ts| ==>
         |ts[i].shape| == |ts[0].shape| && ts[i].shape[axis := 0] == ts[0].shape[axis := 0]
  }

  function AxisLen(t: Tensor, axis: nat): nat {
    if axis < |t.shape| then t.shape[axis] else 0
  }

  function AxisTotal(ts: seq<Tensor>, axis: nat): nat {
    if ts == [] then 0 else AxisLen(ts[0], axis) + AxisTotal(ts[1..], axis)
  }

  /** The index with `amount` taken off one axis. */
  function Unshift(idx: seq<nat>, axis: nat, amount: nat): (r: seq<nat>)
    requires axis < |idx| && amount <= idx[axis]
    ensures |r| == |idx|
  {
    var moved: nat := idx[axis] - amount;
    idx[axis := moved]
  }

  /** The element of a concatenation at idx: found in the piece that covers idx[axis]. */
  function CatAt(ts: seq<Tensor>, axis: nat, idx: seq<nat>): real
    decreases ts
  {
    if ts == [] || axis >= |idx| then 0.0
    else if idx[axis] < AxisLen(ts[0], axis) then At(ts[0], idx)
    else CatAt(ts[1..], axis, Unshift(idx, axis, AxisLen(ts[0], axis)))
  }

  function CatFn(ts: seq<Tensor>, axis: nat): seq<nat> -> real {
    (idx: seq<nat>) => CatAt(ts, axis, idx)
  }

  function Cat(ts: seq<Tensor>, axis: nat): Result<Tensor, TensorError> {
    if Aligned(ts, axis) then
      Ok(Build(ts[0].shape[axis := AxisTotal(ts, axis)], CatFn(ts, axis)))
    else Err(ShapeMismatch)
  }

  function StackFn(ts: seq<Tensor>): seq<nat> -> real {
    (idx: seq<nat>) => if |idx| > 0 && idx[0] < |ts| then At(ts[idx[0]], idx[1..]) else 0.0
  }

  function Stack(ts: seq<Tensor>): Result<Tensor, TensorError> {
    if |ts| > 0 && forall i :: 0 <= i < |ts| ==> ts[i].shape == ts[0].shape then
      Ok(Build([|ts|] + ts[0].shape, StackFn(ts)))
    else Err(ShapeMismatch)
  }

  lemma StackShape(ts: seq<Tensor>)
    ensures Stack(ts).Ok? <==> |ts| > 0 && forall i :: 0 <= i < |ts| ==> ts[i].shape == ts[0].shape
    ensures Stack(ts).Ok? ==> WellFormed(Stack(ts).value) && Stack(ts).value.shape == [|ts|] + ts[0].shape
  {
  }

  lemma StackAt(ts: seq<Tensor>, i: nat, idx: seq<nat>)
    requires Stack(ts).Ok? && i < |ts| && InBounds(ts[i].shape, idx)
    ensures At(Stack(ts).value, [i] + idx) == At(ts[i], idx)
  {
    assert InBounds([|ts|] + ts[0].shape, [i] + idx);
    BuildAt([|ts|] + ts[0].shape, StackFn(ts), [i] + idx);
    assert ([i] + idx)[1..] == idx;
  }

  /** The index that broadcasting reads: position 0 on every axis of length one. */
  function Project(shape: seq<nat>, idx: seq<nat>): (r: seq<nat>)
    requires |idx| == |shape|
    ensures |r| == |idx|
  {
    seq(|idx|, i requires 0 <= i < |idx| => if shape[i] == 1 then 0 else idx[i])
  }

  predicate Broadcastable(s: seq<nat>, t: seq<nat>) {
    |s| == |t| && forall i :: 0 <= i < |s| ==> s[i] == t[i] || s[i] == 1 || t[i] == 1
  }

  function BroadcastShape(s: seq<nat>, t: seq<nat>): (r: seq<nat>)
    requires Broadcastable(s, t)
    ensures |r| == |s|
  {
    seq(|s|, i requires 0 <= i < |s| => if s[i] == 1 then t[i] else s[i])
  }

  /** Left-pads a shape with ones, as broadcasting does for a shorter operand. */
  function Ones(n: nat): (s: seq<nat>)
    ensures |s| == n && forall i :: 0 <= i < n ==> s[i] == 1
  {
    seq(n, _ => 1)
  }

  function TimesAt(t: Tensor, u: Tensor, idx: seq<nat>): real
    requires |idx| == |t.shape| == |u.shape|
  {
    At(t, Project(t.shape, idx)) * At(u, Project(u.shape, idx))
  }

  function ProductAt(t: Tensor, u: Tensor): seq<nat> -> real {
    (idx: seq<nat>) => if |idx| == |t.shape| == |u.shape| then TimesAt(t, u, idx) else 0.0
  }

  function Multiplied(t: Tensor, u: Tensor): (r: Tensor)
    requires Broadcastable(t.shape, u.shape)
    ensures WellFormed(r) && r.shape == BroadcastShape(t.shape, u.shape)
  {
    Build(BroadcastShape(t.shape, u.shape), ProductAt(t, u))
  }

  /** Elementwise product of operands of equal rank, with broadcasting. */
  function Multiply(t: Tensor, u: Tensor): Result<Tensor, TensorError> {
    if Broadcastable(t.shape, u.shape) then Ok(Multiplied(t, u)) else Err(ShapeMismatch)
  }

  lemma MultiplyAt(t: Tensor, u: Tensor, idx: seq<nat>)
    requires Broadcastable(t.shape, u.shape) && InBounds(BroadcastShape(t.shape, u.shape), idx)
    ensures At(Multiplied(t, u), idx) == TimesAt(t, u, idx)
  {
    hide At, TimesAt, Build, BroadcastShape;
    BuildAt(BroadcastShape(t.shape, u.shape), ProductAt(t, u), idx);
  }

  // ----- lemmas on split and cat -----

  lemma {:induction false} EachSizesTotal(size: nat, total: nat)
    requires size > 0
    ensures Total(EachSizes(size, total)) == total
    decreases total
  {
    if total > size {
      EachSizesTotal(size, total - size);
      assert EachSizes(size, total)[1..] == EachSizes(size, total - size);
    }
  }

  lemma ChunkSizesTotal(spec: SplitSize, total: nat)
    ensures ChunkSizes(spec, total).Ok? ==> Total(ChunkSizes(spec, total).value) == total
  {
    if spec.Each? && spec.size > 0 { EachSizesTotal(spec.size, total); }
  }

  lemma ShiftInBounds(shape: seq<nat>, axis: nat, start: nat, count: nat, idx: seq<nat>)
    requires axis < |shape| && start + count <= shape[axis] && InBounds(shape[axis := count], idx)
    ensures axis < |idx| && InBounds(shape, Shift(idx, axis, start))
  {
  }

  lemma NarrowAt(t: Tensor, axis: nat, start: nat, count: nat, idx: seq<nat>)
    requires axis < |t.shape| && InBounds(t.shape[axis := count], idx)
    ensures At(Narrow(t, axis, start, count), idx) == At(t, Shift(idx, axis, start))
  {
    BuildAt(t.shape[axis := count], NarrowFn(t, axis, start), idx);
  }

  /** Where each chunk starts: the sizes before it. */
  lemma {:induction false} ChunkIs(t: Tensor, axis: nat, start: nat, sizes: seq<nat>, i: nat)
    requires axis < |t.shape| && i < |sizes|
    ensures Chunks(t, axis, start, sizes)[i] == Narrow(t, axis, start + Total(sizes[..i]), sizes[i])
    decreases i
  {
    hide Narrow;
    if i == 0 {
      assert sizes[..0] == [];
    } else {
      ChunkIs(t, axis, start + sizes[0], sizes[1..], i - 1);
      assert sizes[..i][1..] == sizes[1..][..i - 1];
    }
  }

  lemma {:induction false} ChunksTotal(t: Tensor, axis: nat, start: nat, sizes: seq<nat>)
    requires axis < |t.shape|
    ensures AxisTotal(Chunks(t, axis, start, sizes), axis) == Total(sizes)
    decreases sizes
  {
    if sizes != [] {
      ChunksTotal(t, axis, start + sizes[0], sizes[1..]);
      var ts := Chunks(t, axis, start, sizes);
      assert ts[1..] == Chunks(t, axis, start + sizes[0], sizes[1..]);
      assert ts[0].shape == t.shape[axis := sizes[0]];
    }
  }

  lemma {:induction false} CatOfChunksAt(t: Tensor, axis: nat, start: nat, sizes: seq<nat>, idx: seq<nat>)
    requires axis < |t.shape| == |idx|
    requires idx[axis] < Total(sizes)
    requires forall i :: 0 <= i < |idx| && i != axis ==> idx[i] < t.shape[i]
    ensures CatAt(Chunks(t, axis, start, sizes), axis, idx) == At(t, Shift(idx, axis, start))
    decreases sizes
  {
    hide Narrow, At;
    var ts := Chunks(t, axis, start, sizes);
    assert ts[0] == Narrow(t, axis, start, sizes[0]);
    if idx[axis] < sizes[0] {
      NarrowAt(t, axis, start, sizes[0], idx);
    } else {
      assert ts[1..] == Chunks(t, axis, start + sizes[0], sizes[1..]);
      var rest := Unshift(idx, axis, sizes[0]);
      CatOfChunksAt(t, axis, start + sizes[0], sizes[1..], rest);
      assert Shift(rest, axis, start + sizes[0]) == Shift(idx, axis, start);
    }
  }

  lemma ChunksAligned(t: Tensor, axis: nat, sizes: seq<nat>)
    requires axis < |t.shape| && sizes != []
    ensures Aligned(Chunks(t, axis, 0, sizes), axis)
    ensures Chunks(t, axis, 0, sizes)[0].shape == t.shape[axis := sizes[0]]
  {
    hide Narrow;
    var ts := Chunks(t, axis, 0, sizes);
    forall i | 0 <= i < |ts| ensures ts[i].shape == t.shape[axis := sizes[i]] {
      ChunkIs(t, axis, 0, sizes, i);
    }
  }

  lemma CatAtIs(ts: seq<Tensor>, axis: nat, idx: seq<nat>)
    requires Cat(ts, axis).Ok? && InBounds(Cat(ts, axis).value.shape, idx)
    ensures At(Cat(ts, axis).value, idx) == CatAt(ts, axis, idx)
  {
    BuildAt(Cat(ts, axis).value.shape, CatFn(ts, axis), idx);
  }

  lemma CatShape(ts: seq<Tensor>, axis: nat)
    requires Aligned(ts, axis)
    ensures Cat(ts, axis).Ok? && WellFormed(Cat(ts, axis).value)
    ensures Cat(ts, axis).value.shape == ts[0].shape[axis := AxisTotal(ts, axis)]
  {
  }

  /** Concatenating the chunks of a split gives the tensor back. */
  lemma CatOfSplit(t: Tensor, spec: SplitSize, axis: nat)
    requires WellFormed(t) && axis < |t.shape|
    requires Split(t, spec, axis).Ok? && Split(t, spec, axis).value != []
    ensures Cat(Split(t, spec, axis).value, axis) == Ok(t)
  {
    hide At, Chunks, Cat, CatAt, WellFormed, AxisTotal, Aligned;
    var sizes := ChunkSizes(spec, t.shape[axis]).value;
    ChunkSizesTotal(spec, t.shape[axis]);
    var ts := Chunks(t, axis, 0, sizes);
    ChunksAligned(t, axis, sizes);
    ChunksTotal(t, axis, 0, sizes);
    CatShape(ts, axis);
    var u := Cat(ts, axis).value;
    assert u.shape == t.shape;
    forall idx | InBounds(t.shape, idx) ensures At(u, idx) == At(t, idx) {
      CatAtIs(ts, axis, idx);
      CatOfChunksAt(t, axis, 0, sizes, idx);
      assert Shift(idx, axis, 0) == idx;
    }
    Extensional(u, t);
  }
}
