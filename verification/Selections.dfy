/** Indexing a dense tensor with one number or range for each axis. */
module Selections {
  import opened Wrappers
  import opened Tensors

  datatype Sel = One(pos: nat) | Many(start: nat, count: nat, step: nat)

  function All(n: nat): Sel {
    Many(0, n, 1)
  }

  predicate Fits(s: Sel, n: nat) {
    match s
    case One(pos) => pos < n
    case Many(start, count, step) => step > 0 && (count > 0 ==> start + step * (count - 1) < n)
  }

  predicate AllFit(sels: seq<Sel>, shape: seq<nat>) {
    |sels| == |shape| && forall i :: 0 <= i < |sels| ==> Fits(sels[i], shape[i])
  }

  /** The axes that stay, with their new lengths. */
  function Kept(sels: seq<Sel>): (r: seq<nat>)
    ensures |r| <= |sels|
    decreases |sels|
  {
    if sels == [] then []
    else
      var last := sels[|sels| - 1];
      Kept(sels[..|sels| - 1]) + if last.Many? then [last.count] else []
  }

  /** The source position of entry x of a range. */
  function Pos(s: Sel, x: nat): nat
    requires s.Many?
  {
    s.start + s.step * x
  }

  /** The index of the source element shown at idx. */
  function Lift(sels: seq<Sel>, idx: seq<nat>): (r: seq<nat>)
    requires |idx| == |Kept(sels)|
    ensures |r| == |sels|
    decreases |sels|
  {
    if sels == [] then []
    else
      var front, last := sels[..|sels| - 1], sels[|sels| - 1];
      if last.One? then Lift(front, idx) + [last.pos]
      else Lift(front, idx[..|idx| - 1]) + [Pos(last, idx[|idx| - 1])]
  }

  lemma KeptPush(front: seq<Sel>, s: Sel)
    ensures Kept(front + [s]) == Kept(front) + if s.Many? then [s.count] else []
  {
    assert (front + [s])[..|front|] == front;
  }

  lemma LiftPush(front: seq<Sel>, s: Sel, idx: seq<nat>, x: nat)
    requires |idx| == |Kept(front)| && s.Many?
    ensures |idx + [x]| == |Kept(front + [s])|
    ensures Lift(front + [s], idx + [x]) == Lift(front, idx) + [Pos(s, x)]
  {
    KeptPush(front, s);
    assert (front + [s])[..|front|] == front && (idx + [x])[..|idx|] == idx;
  }

  lemma PosInBounds(s: Sel, n: nat, x: nat)
    requires s.Many? && Fits(s, n) && x < s.count
    ensures Pos(s, x) < n
  {
    MulMonotone(x, s.count - 1, s.step);
  }

  lemma {:induction false} LiftInBounds(sels: seq<Sel>, shape: seq<nat>, idx: seq<nat>)
    requires AllFit(sels, shape) && InBounds(Kept(sels), idx)
    ensures InBounds(shape, Lift(sels, idx))
    decreases |sels|
  {
    hide Fits, Kept, Lift, InBounds;
    if sels == [] {
      LiftNothing(sels, shape, idx);
    } else {
      var n := |sels| - 1;
      var front, last := sels[..n], sels[n];
      var inner := InnerIndex(sels, idx);
      LiftInBounds(front, shape[..n], inner);
      LastInBounds(last, shape[n], idx);
      InBoundsPush(shape, Lift(sels, idx));
    }
  }

  lemma LiftNothing(sels: seq<Sel>, shape: seq<nat>, idx: seq<nat>)
    requires sels == [] && AllFit(sels, shape) && InBounds(Kept(sels), idx)
    ensures |idx| == |Kept(sels)| && InBounds(shape, Lift(sels, idx))
  {
  }

  /** The part of an index that belongs to all selections but the last. */
  lemma InnerIndex(sels: seq<Sel>, idx: seq<nat>) returns (inner: seq<nat>)
    requires sels != [] && InBounds(Kept(sels), idx)
    ensures |idx| == |Kept(sels)|
    ensures var n := |sels| - 1;
      && InBounds(Kept(sels[..n]), inner) && |inner| == |Kept(sels[..n])|
      && |Lift(sels, idx)| == n + 1 && Lift(sels, idx)[..n] == Lift(sels[..n], inner)
      && (sels[n].Many? ==> idx != [] && idx[|idx| - 1] < sels[n].count)
      && Lift(sels, idx)[n] == if sels[n].One? then sels[n].pos else Pos(sels[n], idx[|idx| - 1])
  {
    hide Pos;
    var n := |sels| - 1;
    inner := if sels[n].One? then idx else idx[..|idx| - 1];
    assert Kept(sels)[..|inner|] == Kept(sels[..n]);
  }

  lemma LastInBounds(s: Sel, n: nat, idx: seq<nat>)
    requires Fits(s, n) && (s.Many? ==> idx != [] && idx[|idx| - 1] < s.count)
    ensures (if s.One? then s.pos else Pos(s, idx[|idx| - 1])) < n
  {
    if s.Many? {
      PosInBounds(s, n, idx[|idx| - 1]);
    }
  }

  function SelectedFn(t: Tensor, sels: seq<Sel>): seq<nat> -> real {
    (idx: seq<nat>) => if |idx| == |Kept(sels)| then At(t, Lift(sels, idx)) else 0.0
  }

  function Selected(t: Tensor, sels: seq<Sel>): (r: Tensor)
    ensures WellFormed(r) && r.shape == Kept(sels)
  {
    Build(Kept(sels), SelectedFn(t, sels))
  }

  lemma SelectedAt(t: Tensor, sels: seq<Sel>, idx: seq<nat>)
    requires InBounds(Kept(sels), idx)
    ensures At(Selected(t, sels), idx) == At(t, Lift(sels, idx))
  {
    BuildAt(Kept(sels), SelectedFn(t, sels), idx);
  }

  // ---------- subscripts as they are written

  datatype Ix = Int(i: int) | Range(start: Option<int>, stop: Option<int>, step: Option<int>) | Dots

  /** [:] */
  const FULL: Ix := Range(None, None, None)

  /** A slice bound as Python clips it to 0..n. */
  function Clip(x: int, n: nat): (r: nat)
    ensures r <= n
  {
    if x < 0 then (if x + n < 0 then 0 else x + n) else if x > n then n else x
  }

  /** The entries a subscript selects from an axis of length n; torch refuses steps below one. */
  function SelOf(ix: Ix, n: nat): (r: Result<Sel, TensorError>)
    ensures r.Ok? ==> Fits(r.value, n)
    ensures r.Ok? ==> (ix.Range? <==> r.value.Many?)
  {
    match ix
    case Int(i) => if 0 <= i + n < 2 * n then Ok(One(if i < 0 then i + n else i)) else Err(IndexError)
    case Range(start, stop, step) =>
      var st := step.GetOr(1);
      if st <= 0 then Err(IndexError)
      else
        var from, to := Clip(start.GetOr(0), n), Clip(stop.GetOr(n), n);
        if from >= to then Ok(Many(from, 0, st))
        else
          LastOfRange(from, to, st);
          Ok(Many(from, (to - from + st - 1) / st, st))
    case Dots => Err(IndexError)
  }

  lemma LastOfRange(from: nat, to: nat, st: nat)
    requires from < to && st > 0
    ensures var c := (to - from + st - 1) / st; c > 0 && from + st * (c - 1) < to
  {
    var x := to - from + st - 1;
    assert x / st * st <= x;
    assert x / st >= 1 by { MulMonotone(1, x / st, st); }
  }

  function SelsOf(ixs: seq<Ix>, shape: seq<nat>): (r: Result<seq<Sel>, TensorError>)
    requires |ixs| == |shape|
    ensures r.Ok? <==> forall i :: 0 <= i < |ixs| ==> SelOf(ixs[i], shape[i]).Ok?
    ensures r.Ok? ==> AllFit(r.value, shape)
    ensures r.Ok? ==> forall i :: 0 <= i < |ixs| ==> r.value[i] == SelOf(ixs[i], shape[i]).value
    decreases |ixs|
  {
    if ixs == [] then Ok([])
    else
      var n := |ixs| - 1;
      var front := SelsOf(ixs[..n], shape[..n]);
      var last := SelOf(ixs[n], shape[n]);
      if front.Ok? && last.Ok? then Ok(front.value + [last.value]) else Err(IndexError)
  }

  function Fulls(n: nat): (r: seq<Ix>)
    ensures |r| == n && forall i :: 0 <= i < n ==> r[i] == FULL
  {
    if n == 0 then [] else Fulls(n - 1) + [FULL]
  }

  /** Indexing without an ellipsis: axes not mentioned stay whole. */
  function Index(t: Tensor, ixs: seq<Ix>): Result<Tensor, TensorError> {
    if |ixs| > |t.shape| then Err(IndexError)
    else
      var sels :- SelsOf(ixs + Fulls(|t.shape| - |ixs|), t.shape);
      Ok(Selected(t, sels))
  }
}
