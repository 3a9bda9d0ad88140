/**
 LoraTorchTensor under scaling, torch.stack and torch.cat along the first axis.
 */
module LoraJoin {
  import opened Wrappers
  import opened Tensors
  import opened Lora
  import opened LoraPieces

  // ----- scaling -----

  /** A number is a tensor without axes; a shorter operand is padded with axes of length one. */
  function Padded(t: Tensor, n: nat): Tensor {
    if |t.shape| < n then Tensor(Ones(n - |t.shape|) + t.shape, t.data) else t
  }

  function MultiplyDense(t: Tensor, other: Tensor): Result<Tensor, TensorError> {
    Multiply(Padded(t, |other.shape|), Padded(other, |t.shape|))
  }

  function ScaleLora(l: Lora, other: Tensor): Result<Lora, TensorError>
    requires Valid(l)
  {
    if other.shape != [] && other.shape[|other.shape| - 1] != 1 then Err(NotImplemented)
    else
      var b :- MultiplyDense(l.b, other);
      Make(l.a, b)
  }

  /** Broadcasting a column-shaped operand reads the same element for every k. */
  lemma ColumnOperand(shape: seq<nat>, idx: seq<nat>, k: nat)
    requires |shape| == |idx| > 0 && shape[|shape| - 1] == 1
    ensures Project(shape, RowIndex(idx, k)) == Project(shape, idx)
  {
  }

  lemma ProjectedRow(l: Lora, idx: seq<nat>, k: nat)
    requires Valid(l) && |idx| == |l.b.shape| && k < l.Rank()
    ensures Project(l.b.shape, RowIndex(idx, k)) == RowIndex(Project(l.Shape(), idx), k)
  {
  }

  lemma ProjectedColumn(l: Lora, idx: seq<nat>, k: nat)
    requires Valid(l) && |idx| == |l.b.shape| && idx[|idx| - 1] < l.Cols()
    ensures ColIndex(l.a.shape, idx, k) == ColIndex(l.a.shape, Project(l.Shape(), idx), k)
  {
    var n := |idx| - 2;
    var idx' := Project(l.Shape(), idx);
    assert Project(l.a.shape[..n], idx[..n]) == Project(l.a.shape[..n], idx'[..n]);
  }

  lemma ScaleShapes(l: Lora, u: Tensor)
    requires Valid(l) && |u.shape| == |l.b.shape| && u.shape[|u.shape| - 1] == 1
    requires Broadcastable(l.b.shape, u.shape)
    ensures var r := Lora(l.a, Multiplied(l.b, u));
            && Valid(r) && r.Rank() == l.Rank()
            && Broadcastable(l.Shape(), u.shape) && r.Shape() == BroadcastShape(l.Shape(), u.shape)
  {
    hide Multiplied, WellFormed, At;
  }

  lemma ScaleTerm(l: Lora, u: Tensor, idx: seq<nat>, k: nat)
    requires Valid(l) && |u.shape| == |l.b.shape| && u.shape[|u.shape| - 1] == 1
    requires Broadcastable(l.b.shape, u.shape) && Broadcastable(l.Shape(), u.shape)
    requires InBounds(BroadcastShape(l.Shape(), u.shape), idx) && k < l.Rank()
    ensures Term(Lora(l.a, Multiplied(l.b, u)), idx)(k)
            == Term(l, Project(l.Shape(), idx))(k) * At(u, Project(u.shape, idx))
  {
    hide Multiplied, WellFormed, At, Project, ColIndex;
    MultiplyAt(l.b, u, RowIndex(idx, k));
    ColumnOperand(u.shape, idx, k);
    ProjectedRow(l, idx, k);
    assert idx[|idx| - 1] < BroadcastShape(l.Shape(), u.shape)[|idx| - 1];
    ProjectedColumn(l, idx, k);
  }

  lemma ProjectInBounds(s: seq<nat>, t: seq<nat>, idx: seq<nat>)
    requires Broadcastable(s, t) && InBounds(BroadcastShape(s, t), idx)
    ensures InBounds(s, Project(s, idx))
  {
  }

  lemma ScaleAt(l: Lora, u: Tensor, idx: seq<nat>)
    requires Valid(l) && |u.shape| == |l.b.shape| && u.shape[|u.shape| - 1] == 1
    requires Broadcastable(l.b.shape, u.shape) && Broadcastable(l.Shape(), u.shape)
    requires InBounds(BroadcastShape(l.Shape(), u.shape), idx)
    ensures Valid(Lora(l.a, Multiplied(l.b, u)))
    ensures At(Multiplied(Materialise(l), u), idx) == Entry(Lora(l.a, Multiplied(l.b, u)), idx)
  {
    hide Multiplied, WellFormed, At, Project, Term, BroadcastShape, Broadcastable, Materialise;
    var r := Lora(l.a, Multiplied(l.b, u));
    MaterialiseShape(l);
    ScaleShapes(l, u);
    var idx' := Project(l.Shape(), idx);
    forall k: nat | k < l.Rank()
      ensures Term(r, idx)(k) == Term(l, idx')(k) * At(u, Project(u.shape, idx))
    {
      ScaleTerm(l, u, idx, k);
    }
    SumScaled(l.Rank(), Term(l, idx'), Term(r, idx), At(u, Project(u.shape, idx)));
    ProjectInBounds(l.Shape(), u.shape, idx);
    MaterialiseAt(l, idx');
    MultiplyAt(Materialise(l), u, idx);
  }

  lemma ScaleWithPadded(l: Lora, u: Tensor)
    requires Valid(l) && |u.shape| == |l.b.shape| && u.shape[|u.shape| - 1] == 1
    requires Broadcastable(l.b.shape, u.shape)
    ensures Valid(Lora(l.a, Multiplied(l.b, u)))
    ensures Multiply(Materialise(l), u) == Ok(Materialise(Lora(l.a, Multiplied(l.b, u))))
  {
    hide Multiplied, WellFormed, At, Project, Entry, BroadcastShape, Broadcastable, Materialise;
    MaterialiseShape(l);
    ScaleShapes(l, u);
    var r, p := Lora(l.a, Multiplied(l.b, u)), Multiplied(Materialise(l), u);
    forall idx | InBounds(p.shape, idx) ensures At(p, idx) == Entry(r, idx) {
      ScaleAt(l, u, idx);
    }
    ProductIs(r, p);
  }

  /** Scaling B by a number or by a column-shaped factor scales W by it. */
  lemma ScaleCommutes(l: Lora, other: Tensor)
    requires Valid(l) && ScaleLora(l, other).Ok?
    ensures var r := ScaleLora(l, other).value;
            Valid(r) && MultiplyDense(Materialise(l), other) == Ok(Materialise(r))
  {
    hide Multiplied, WellFormed, At, Project, Materialise;
    MaterialiseShape(l);
    var n := |l.b.shape|;
    var u := Padded(other, n);
    assert |other.shape| <= n && Padded(l.b, |other.shape|) == l.b;
    assert u.shape[|u.shape| - 1] == 1;
    ScaleWithPadded(l, u);
  }

  // ----- stack -----

  function As(ls: seq<Lora>): (ts: seq<Tensor>)
    ensures |ts| == |ls| && forall i :: 0 <= i < |ls| ==> ts[i] == ls[i].a
  {
    seq(|ls|, i requires 0 <= i < |ls| => ls[i].a)
  }

  function Bs(ls: seq<Lora>): (ts: seq<Tensor>)
    ensures |ts| == |ls| && forall i :: 0 <= i < |ls| ==> ts[i] == ls[i].b
  {
    seq(|ls|, i requires 0 <= i < |ls| => ls[i].b)
  }

  function StackLora(ls: seq<Lora>): Result<Lora, TensorError> {
    var a :- Stack(As(ls));
    var b :- Stack(Bs(ls));
    Make(a, b)
  }

  lemma StackTerms(ls: seq<Lora>, i: nat, idx: seq<nat>, k: nat)
    requires Stack(As(ls)).Ok? && Stack(Bs(ls)).Ok? && i < |ls| && Valid(ls[i])
    requires InBounds(ls[i].Shape(), idx) && k < ls[i].Rank()
    ensures At(Stack(Bs(ls)).value, RowIndex([i] + idx, k)) == At(ls[i].b, RowIndex(idx, k))
    ensures var shape := [|ls|] + ls[i].a.shape;
            At(Stack(As(ls)).value, ColIndex(shape, [i] + idx, k)) == At(ls[i].a, ColIndex(ls[i].a.shape, idx, k))
  {
    hide At, Stack, WellFormed, ColIndex;
    FactorsInBounds(ls[i], idx, k);
    assert RowIndex([i] + idx, k) == [i] + RowIndex(idx, k);
    StackAt(Bs(ls), i, RowIndex(idx, k));
    StackColumn([|ls|] + ls[i].a.shape, ls[i].a.shape, |ls|, i, idx, k);
    StackAt(As(ls), i, ColIndex(ls[i].a.shape, idx, k));
  }

  lemma StackParts(ls: seq<Lora>, i: nat)
    requires StackLora(ls).Ok? && i < |ls| && Valid(ls[i])
    ensures Stack(As(ls)).Ok? && Stack(Bs(ls)).Ok?
    ensures var r := StackLora(ls).value;
            && r == Lora(Stack(As(ls)).value, Stack(Bs(ls)).value) && Valid(r)
            && r.a.shape == [|ls|] + ls[i].a.shape && r.b.shape == [|ls|] + ls[i].b.shape
            && r.Rank() == ls[i].Rank() && r.Shape() == [|ls|] + ls[i].Shape()
  {
    hide Stack, WellFormed;
    StackShape(As(ls));
    StackShape(Bs(ls));
    assert As(ls)[i].shape == As(ls)[0].shape && Bs(ls)[i].shape == Bs(ls)[0].shape;
  }

  lemma StackEntry(ls: seq<Lora>, i: nat, idx: seq<nat>)
    requires StackLora(ls).Ok? && i < |ls| && Valid(ls[i]) && InBounds(ls[i].Shape(), idx)
    ensures var r := StackLora(ls).value;
            |r.a.shape| == |r.b.shape| == |idx| + 1 >= 2 && Entry(r, [i] + idx) == Entry(ls[i], idx)
  {
    hide At, Stack, WellFormed, StackLora, RowIndex, ColIndex, Entry;
    StackParts(ls, i);
    var l, r := ls[i], StackLora(ls).value;
    forall k: nat | k < l.Rank()
      ensures At(r.b, RowIndex([i] + idx, k)) == At(l.b, RowIndex(idx, k))
      ensures At(r.a, ColIndex(r.a.shape, [i] + idx, k)) == At(l.a, ColIndex(l.a.shape, idx, k))
    {
      StackTerms(ls, i, idx, k);
    }
    Reindexed(l, r, [i] + idx, idx);
  }

  lemma StackProductAt(ls: seq<Lora>, idx: seq<nat>)
    requires (forall l :: l in ls ==> Valid(l)) && StackLora(ls).Ok? && Stack(Products(ls)).Ok?
    requires InBounds(Stack(Products(ls)).value.shape, idx)
    ensures var r := StackLora(ls).value;
            Valid(r) && |idx| == |r.a.shape| && At(Stack(Products(ls)).value, idx) == Entry(r, idx)
  {
    hide At, Stack, WellFormed, StackLora, Entry, Materialise, Products;
    StackShape(Products(ls));
    StackShape(As(ls));
    var i := idx[0];
    assert ls[i] in ls;
    StackParts(ls, i);
    MaterialiseShape(ls[i]);
    assert Products(ls)[i].shape == Products(ls)[0].shape;
    var rest := idx[1..];
    assert idx == [i] + rest && InBounds(ls[i].Shape(), rest);
    StackAt(Products(ls), i, rest);
    MaterialiseAt(ls[i], rest);
    StackEntry(ls, i, rest);
  }

  /** Stacking the factors stacks the products. */
  lemma StackCommutes(ls: seq<Lora>)
    requires (forall l :: l in ls ==> Valid(l)) && StackLora(ls).Ok?
    ensures Valid(StackLora(ls).value)
    ensures Stack(Products(ls)) == Ok(Materialise(StackLora(ls).value))
  {
    hide At, Stack, WellFormed, StackLora, Entry, Materialise, Products, Valid;
    StackOkNonEmpty(ls);
    assert ls[0] in ls;
    StackParts(ls, 0);
    MaterialiseShape(ls[0]);
    forall i | 0 <= i < |ls| ensures Products(ls)[i].shape == Products(ls)[0].shape {
      assert ls[i] in ls;
      StackParts(ls, i);
      MaterialiseShape(ls[i]);
      SameTail(|ls|, ls[0].Shape(), ls[i].Shape());
    }
    StackShape(Products(ls));
    var r, p := StackLora(ls).value, Stack(Products(ls)).value;
    forall idx | InBounds(p.shape, idx) ensures At(p, idx) == Entry(r, idx) {
      StackProductAt(ls, idx);
    }
    ProductIs(r, p);
  }

  lemma SameTail(c: nat, s: seq<nat>, t: seq<nat>)
    requires [c] + s == [c] + t
    ensures s == t
  {
    assert s == ([c] + s)[1..] == ([c] + t)[1..] == t;
  }

  lemma StackOkNonEmpty(ls: seq<Lora>)
    requires StackLora(ls).Ok?
    ensures |ls| > 0
  {
    StackShape(As(ls));
  }

  lemma StackColumn(shape: seq<nat>, inner: seq<nat>, count: nat, i: nat, idx: seq<nat>, k: nat)
    requires |inner| == |idx| >= 2 && shape == [count] + inner && i < count
    ensures ColIndex(shape, [i] + idx, k) == [i] + ColIndex(inner, idx, k)
  {
    var n := |idx| - 2;
    assert shape[..n + 1] == [count] + inner[..n] && ([i] + idx)[..n + 1] == [i] + idx[..n];
    assert Project([count] + inner[..n], [i] + idx[..n]) == [i] + Project(inner[..n], idx[..n]);
  }

  // ----- torch.cat along axis 0 -----

  function CatLora(ls: seq<Lora>): Result<Lora, TensorError> {
    if ls == [] then Err(IndexError)
    else if |ls[0].b.shape| > 2 then
      var a :- Cat(As(ls), 0);
      var b :- Cat(Bs(ls), 0);
      Make(a, b)
    else if forall i :: 0 <= i < |ls| ==> ls[i].a == ls[0].a then
      var b :- Cat(Bs(ls), 0);
      Make(ls[0].a, b)
    else Err(NotImplemented)
  }

  /** First-axis lengths of the B factors: where each part of the concatenation lies. */
  function Heights(ls: seq<Lora>): (hs: seq<nat>)
    ensures |hs| == |ls| && forall i :: 0 <= i < |ls| ==> hs[i] == AxisLen(ls[i].b, 0)
  {
    seq(|ls|, i requires 0 <= i < |ls| => AxisLen(ls[i].b, 0))
  }

  /** The part that covers position x, given the lengths of the parts. */
  function Part(sizes: seq<nat>, x: nat): (j: nat)
    requires x < Total(sizes)
    ensures j < |sizes|
    decreases sizes
  {
    if x < sizes[0] then 0 else 1 + Part(sizes[1..], x - sizes[0])
  }

  /** Position x within its part. */
  function Offset(sizes: seq<nat>, x: nat): (o: nat)
    requires x < Total(sizes)
    ensures o <= x && o < sizes[Part(sizes, x)]
    decreases sizes
  {
    if x < sizes[0] then x else Offset(sizes[1..], x - sizes[0])
  }

  function Moved(idx: seq<nat>, o: nat): (r: seq<nat>)
    requires |idx| > 0
  {
    idx[0 := o]
  }

  lemma {:induction false} CatAtPart(ts: seq<Tensor>, sizes: seq<nat>, idx: seq<nat>)
    requires |ts| == |sizes| && forall j :: 0 <= j < |ts| ==> AxisLen(ts[j], 0) == sizes[j]
    requires |idx| > 0 && idx[0] < Total(sizes)
    ensures CatAt(ts, 0, idx) == At(ts[Part(sizes, idx[0])], Moved(idx, Offset(sizes, idx[0])))
    decreases ts
  {
    hide At;
    if idx[0] < sizes[0] {
      assert Moved(idx, idx[0]) == idx;
    } else {
      var idx' := Unshift(idx, 0, sizes[0]);
      CatAtPart(ts[1..], sizes[1..], idx');
      assert Moved(idx', Offset(sizes[1..], idx'[0])) == Moved(idx, Offset(sizes, idx[0]));
    }
  }

  lemma {:induction false} AxisTotalIs(ts: seq<Tensor>, sizes: seq<nat>)
    requires |ts| == |sizes| && forall j :: 0 <= j < |ts| ==> AxisLen(ts[j], 0) == sizes[j]
    ensures AxisTotal(ts, 0) == Total(sizes)
  {
    if ts != [] { AxisTotalIs(ts[1..], sizes[1..]); }
  }

  /** Every A factor has the first-axis length of its B, rather than broadcasting there. */
  predicate Unbroadcast(ls: seq<Lora>) {
    forall i :: 0 <= i < |ls| ==> AxisLen(ls[i].a, 0) == AxisLen(ls[i].b, 0)
  }

  predicate AllValid(ls: seq<Lora>) {
    forall i :: 0 <= i < |ls| ==> Valid(ls[i])
  }

  predicate CatAccepted(ls: seq<Lora>) {
    AllValid(ls) && CatLora(ls).Ok?
  }

  function AHeights(ls: seq<Lora>): (hs: seq<nat>)
    ensures |hs| == |ls| && forall i :: 0 <= i < |ls| ==> hs[i] == AxisLen(ls[i].a, 0)
  {
    seq(|ls|, i requires 0 <= i < |ls| => AxisLen(ls[i].a, 0))
  }

  /** The condition under which the code's concatenation is meaningful. */
  predicate CatApplies(ls: seq<Lora>) {
    AllValid(ls) && CatLora(ls).Ok? && (|ls[0].b.shape| > 2 ==> Unbroadcast(ls))
  }

  /** What each part shares with the pair that the code makes. */
  lemma CatShared(ls: seq<Lora>, j: nat)
    requires CatAccepted(ls) && j < |ls|
    ensures var r := CatLora(ls).value;
            && WellFormed(r.a) && WellFormed(r.b)
            && Cat(Bs(ls), 0) == Ok(r.b)
            && (|ls[0].b.shape| > 2 ==> Cat(As(ls), 0) == Ok(r.a))
            && |r.b.shape| == |ls[j].b.shape| == |ls[j].a.shape| == |r.a.shape| == |ls[0].b.shape|
            && r.b.shape == ls[j].b.shape[0 := Total(Heights(ls))]
            && r.Rank() == ls[j].Rank() && r.Shape() == ls[j].Shape()[0 := Total(Heights(ls))]
            && (|ls[0].b.shape| > 2 ==> r.a.shape == ls[j].a.shape[0 := Total(AHeights(ls))])
            && (|ls[0].b.shape| == 2 ==> r.a == ls[j].a)
  {
    hide WellFormed, Total, AxisTotal;
    var r := CatLora(ls).value;
    AxisTotalIs(Bs(ls), Heights(ls));
    CatShape(Bs(ls), 0);
    SameButAxis(Bs(ls)[j].shape, Bs(ls)[0].shape, Total(Heights(ls)));
    if |ls[0].b.shape| > 2 {
      AxisTotalIs(As(ls), AHeights(ls));
      CatShape(As(ls), 0);
      SameButAxis(As(ls)[j].shape, As(ls)[0].shape, Total(AHeights(ls)));
    }
  }

  lemma CatParts(ls: seq<Lora>, j: nat)
    requires CatApplies(ls) && j < |ls|
    ensures var r := CatLora(ls).value;
            && Valid(r)
            && Cat(Bs(ls), 0) == Ok(r.b)
            && r.a == (if |ls[0].b.shape| > 2 then Cat(As(ls), 0).value else ls[0].a)
            && (|ls[0].b.shape| > 2 ==> Cat(As(ls), 0).Ok?)
            && |r.b.shape| == |ls[j].b.shape| == |ls[j].a.shape| == |r.a.shape| == |ls[0].b.shape|
            && r.b.shape == ls[j].b.shape[0 := Total(Heights(ls))]
            && r.Rank() == ls[j].Rank() && r.Shape() == ls[j].Shape()[0 := Total(Heights(ls))]
            && (|ls[0].b.shape| > 2 ==> r.a.shape == ls[j].a.shape[0 := Total(Heights(ls))])
            && (|ls[0].b.shape| == 2 ==> r.a == ls[j].a)
  {
    hide WellFormed, Total, AxisTotal, CatLora, Cat;
    CatShared(ls, j);
    CatShared(ls, 0);
    if |ls[0].b.shape| > 2 {
      assert AHeights(ls) == Heights(ls);
    }
    SharedValid(ls[j], CatLora(ls).value, Total(Heights(ls)));
  }

  lemma SharedValid(l: Lora, r: Lora, h: nat)
    requires Valid(l) && WellFormed(r.a) && WellFormed(r.b)
    requires |r.b.shape| == |l.b.shape| == |l.a.shape| == |r.a.shape|
    requires r.b.shape == l.b.shape[0 := h] && (if |l.b.shape| > 2 then r.a.shape == l.a.shape[0 := h] else r.a == l.a)
    requires r.Rank() == l.Rank()
    ensures Valid(r)
  {
  }

  lemma SameButAxis(s: seq<nat>, t: seq<nat>, c: nat)
    requires |s| == |t| > 0 && s[0 := 0] == t[0 := 0]
    ensures s[0 := c] == t[0 := c]
  {
    forall i | 0 < i < |s| ensures s[i] == t[i] {
      assert s[i] == s[0 := 0][i] && t[i] == t[0 := 0][i];
    }
  }

  lemma CatRow(ls: seq<Lora>, idx: seq<nat>, k: nat)
    requires CatAccepted(ls) && |idx| > 0 && idx[0] < Total(Heights(ls))
    requires var r := CatLora(ls).value; Valid(r) && InBounds(r.Shape(), idx) && k < r.Rank()
    ensures var j := Part(Heights(ls), idx[0]);
            At(CatLora(ls).value.b, RowIndex(idx, k))
            == At(ls[j].b, RowIndex(Moved(idx, Offset(Heights(ls), idx[0])), k))
  {
    hide At, WellFormed, Cat, CatAt, CatLora, Valid, AxisLen, Part, Offset, Heights, ColIndex;
    var r, j, o := CatLora(ls).value, Part(Heights(ls), idx[0]), Offset(Heights(ls), idx[0]);
    CatShared(ls, j);
    FactorsInBounds(r, idx, k);
    CatAtIs(Bs(ls), 0, RowIndex(idx, k));
    assert RowIndex(idx, k)[0] == idx[0] by { assert |idx| == |r.b.shape|; ValidRank(r); }
    CatAtPart(Bs(ls), Heights(ls), RowIndex(idx, k));
    ValidRank(r);
    assert Moved(RowIndex(idx, k), o) == RowIndex(Moved(idx, o), k);
  }

  lemma ValidRank(l: Lora)
    requires Valid(l)
    ensures |l.a.shape| == |l.b.shape| == |l.Shape()| >= 2
  {
  }

  lemma CatColumnIndex(shape: seq<nat>, inner: seq<nat>, idx: seq<nat>, o: nat, k: nat)
    requires |shape| == |inner| == |idx| >= 3 && shape[0 := inner[0]] == inner
    requires idx[0] < shape[0] && o < inner[0]
    ensures ColIndex(shape, idx, k)[0] == idx[0]
    ensures Moved(ColIndex(shape, idx, k), o) == ColIndex(inner, Moved(idx, o), k)
  {
    var n := |idx| - 2;
    var c, c' := Project(shape[..n], idx[..n]), Project(inner[..n], Moved(idx, o)[..n]);
    forall i | 0 <= i < n ensures c'[i] == Moved(c, o)[i] {
      assert shape[0 := inner[0]][i] == inner[i];
    }
    assert c' == Moved(c, o);
  }

  lemma CatColumn(ls: seq<Lora>, idx: seq<nat>, k: nat)
    requires CatApplies(ls) && |idx| > 0 && idx[0] < Total(Heights(ls))
    requires var r := CatLora(ls).value; Valid(r) && InBounds(r.Shape(), idx) && k < r.Rank()
    ensures var r, j := CatLora(ls).value, Part(Heights(ls), idx[0]);
            && |r.a.shape| == |ls[j].a.shape| == |idx| >= 2
            && At(r.a, ColIndex(r.a.shape, idx, k))
               == At(ls[j].a, ColIndex(ls[j].a.shape, Moved(idx, Offset(Heights(ls), idx[0])), k))
  {
    hide At, WellFormed, Cat, CatAt, CatLora, Valid, Part, Offset, Total, ColIndex;
    var r, j, o := CatLora(ls).value, Part(Heights(ls), idx[0]), Offset(Heights(ls), idx[0]);
    CatParts(ls, j);
    ValidRank(r);
    if |ls[0].b.shape| > 2 {
      FactorsInBounds(r, idx, k);
      var c := ColIndex(r.a.shape, idx, k);
      CatAtIs(As(ls), 0, c);
      assert ls[j].a.shape[0] == Heights(ls)[j];
      assert r.a.shape[0 := ls[j].a.shape[0]] == ls[j].a.shape;
      CatColumnIndex(r.a.shape, ls[j].a.shape, idx, o, k);
      CatAtPart(As(ls), Heights(ls), c);
    } else {
      FlatColumn(r.a.shape, idx, o, k);
    }
  }

  lemma FlatColumn(shape: seq<nat>, idx: seq<nat>, o: nat, k: nat)
    requires |shape| == |idx| == 2
    ensures ColIndex(shape, idx, k) == ColIndex(shape, Moved(idx, o), k)
  {
    assert idx[..0] == Moved(idx, o)[..0];
  }

  lemma CatEntry(ls: seq<Lora>, idx: seq<nat>)
    requires CatApplies(ls) && |idx| > 0 && idx[0] < Total(Heights(ls))
    requires Valid(CatLora(ls).value) && InBounds(CatLora(ls).value.Shape(), idx)
    ensures var r, j := CatLora(ls).value, Part(Heights(ls), idx[0]);
            && |r.a.shape| == |r.b.shape| == |ls[j].a.shape| == |ls[j].b.shape| == |idx| >= 2
            && Entry(r, idx) == Entry(ls[j], Moved(idx, Offset(Heights(ls), idx[0])))
  {
    hide At, WellFormed, Cat, CatAt, CatLora, Part, Offset, Heights, Total, ColIndex, RowIndex, Entry;
    var r, j, o := CatLora(ls).value, Part(Heights(ls), idx[0]), Offset(Heights(ls), idx[0]);
    CatParts(ls, j);
    forall k: nat | k < r.Rank()
      ensures At(r.b, RowIndex(idx, k)) == At(ls[j].b, RowIndex(Moved(idx, o), k))
      ensures At(r.a, ColIndex(r.a.shape, idx, k)) == At(ls[j].a, ColIndex(ls[j].a.shape, Moved(idx, o), k))
    {
      CatRow(ls, idx, k);
      CatColumn(ls, idx, k);
    }
    Reindexed(ls[j], r, idx, Moved(idx, o));
  }

  lemma ProductHeights(ls: seq<Lora>, j: nat)
    requires (forall l :: l in ls ==> Valid(l)) && j < |ls|
    ensures AxisLen(Products(ls)[j], 0) == Heights(ls)[j]
  {
    MaterialiseShape(ls[j]);
  }

  /** An entry of the concatenated products is one of its part's product. */
  lemma CatProductAt(ls: seq<Lora>, idx: seq<nat>)
    requires CatAccepted(ls) && (forall l :: l in ls ==> Valid(l)) && Cat(Products(ls), 0).Ok?
    requires |CatLora(ls).value.a.shape| == |CatLora(ls).value.b.shape| >= 2
    requires Cat(Products(ls), 0).value.shape == CatLora(ls).value.Shape()
    requires InBounds(CatLora(ls).value.Shape(), idx) && |idx| == |CatLora(ls).value.a.shape|
    requires idx[0] < Total(Heights(ls))
    ensures var j, m := Part(Heights(ls), idx[0]), Moved(idx, Offset(Heights(ls), idx[0]));
            && |ls[j].a.shape| == |ls[j].b.shape| == |m| == |idx| && InBounds(ls[j].Shape(), m)
            && At(Cat(Products(ls), 0).value, idx) == Entry(ls[j], m)
  {
    hide At, WellFormed, Cat, CatAt, CatLora, Part, Offset, Heights, Total, Entry, Materialise, AxisLen;
    var j, o := Part(Heights(ls), idx[0]), Offset(Heights(ls), idx[0]);
    forall i | 0 <= i < |ls| ensures AxisLen(Products(ls)[i], 0) == Heights(ls)[i] {
      ProductHeights(ls, i);
    }
    CatAtIs(Products(ls), 0, idx);
    CatAtPart(Products(ls), Heights(ls), idx);
    CatShared(ls, j);
    assert InBounds(ls[j].Shape(), Moved(idx, o)) by {
      HeightIs(ls, j);
    }
    MaterialiseAt(ls[j], Moved(idx, o));
  }

  lemma CatProductsShape(ls: seq<Lora>)
    requires CatAccepted(ls) && (forall l :: l in ls ==> Valid(l))
    ensures Cat(Products(ls), 0).Ok? && WellFormed(Cat(Products(ls), 0).value)
    ensures var r := CatLora(ls).value;
            && |r.a.shape| == |r.b.shape| == |r.Shape()| >= 2
            && Cat(Products(ls), 0).value.shape == r.Shape() && r.Shape()[0] == Total(Heights(ls))
  {
    hide At, WellFormed, Cat, CatAt, CatLora, Materialise, Total, AxisTotal;
    var ws := Products(ls);
    CatNonEmpty(ls);
    CatShared(ls, 0);
    MaterialiseShape(ls[0]);
    ValidRank(ls[0]);
    forall i | 0 <= i < |ls|
      ensures AxisLen(ws[i], 0) == Heights(ls)[i]
      ensures |ws[i].shape| == |ws[0].shape| && ws[i].shape[0 := 0] == ws[0].shape[0 := 0]
    {
      ProductHeights(ls, i);
      MaterialiseShape(ls[i]);
      MaterialiseShape(ls[0]);
      CatShared(ls, i);
      TailsAgree(ls[i].Shape(), ls[0].Shape(), Total(Heights(ls)));
    }
    AxisTotalIs(ws, Heights(ls));
    CatShape(ws, 0);
    assert Cat(ws, 0).value.shape == ws[0].shape[0 := Total(Heights(ls))];
  }

  lemma CatNonEmpty(ls: seq<Lora>)
    requires CatLora(ls).Ok?
    ensures |ls| > 0
  {
  }

  lemma TailsAgree(s: seq<nat>, t: seq<nat>, c: nat)
    requires |s| > 0 && |t| > 0 && s[0 := c] == t[0 := c]
    ensures |s| == |t| && s[0 := 0] == t[0 := 0]
  {
    assert |s| == |s[0 := c]| == |t|;
    forall i | 0 < i < |s| ensures s[i] == t[i] {
      assert s[i] == s[0 := c][i] && t[i] == t[0 := c][i];
    }
  }

  /**
   Concatenating the factors along the first axis concatenates the products: matrices that
   share one A through their B factors, higher tensors through both factors when A does not
   broadcast along that axis.
   */
  lemma CatCommutes(ls: seq<Lora>)
    requires CatApplies(ls) && (forall l :: l in ls ==> Valid(l))
    ensures Valid(CatLora(ls).value)
    ensures Cat(Products(ls), 0) == Ok(Materialise(CatLora(ls).value))
  {
    hide At, WellFormed, Cat, CatLora, Materialise, Entry, Valid, Total, Products, InBounds;
    CatProductsShape(ls);
    CatNonEmpty(ls);
    CatParts(ls, 0);
    var r, p := CatLora(ls).value, Cat(Products(ls), 0).value;
    forall idx | InBounds(p.shape, idx) ensures |idx| == |r.a.shape| == |r.b.shape| >= 2 && At(p, idx) == Entry(r, idx) {
      FirstInBounds(p.shape, idx);
      ValidRank(r);
      CatProductAt(ls, idx);
      CatEntry(ls, idx);
    }
    ProductIs(r, p);
  }

  lemma FirstInBounds(shape: seq<nat>, idx: seq<nat>)
    requires InBounds(shape, idx)
    ensures |idx| == |shape| && (|shape| > 0 ==> idx[0] < shape[0])
  {
  }

  lemma HeightIs(ls: seq<Lora>, j: nat)
    requires j < |ls| && Valid(ls[j])
    ensures Heights(ls)[j] == ls[j].Shape()[0]
  {
  }

  lemma {:induction false} TotalsCompare(low: seq<nat>, high: seq<nat>)
    requires |low| == |high| && forall i :: 0 <= i < |low| ==> 1 <= low[i] <= high[i]
    ensures |low| <= Total(low) <= Total(high)
    ensures Total(low) == Total(high) <==> low == high
  {
    if low != [] {
      TotalsCompare(low[1..], high[1..]);
      assert low == [low[0]] + low[1..] && high == [high[0]] + high[1..];
    }
  }

  /**
   With three or more axes the concatenated pair is a weight exactly when the first axis of the
   concatenated A has length one or that of the concatenated B; for two or more non-empty parts, that
   is when no A factor broadcasts there.
   */
  lemma CatExactlyWhen(ls: seq<Lora>)
    requires AllValid(ls) && CatLora(ls).Ok? && |ls[0].b.shape| > 2
    ensures Valid(CatLora(ls).value) <==> Total(AHeights(ls)) == 1 || Total(AHeights(ls)) == Total(Heights(ls))
    ensures |ls| >= 2 && (forall i :: 0 <= i < |ls| ==> Heights(ls)[i] >= 1) ==>
              (Valid(CatLora(ls).value) <==> Unbroadcast(ls))
  {
    hide At, WellFormed, Total, AxisTotal, Valid;
    CatShapes(ls);
    if |ls| >= 2 && forall i :: 0 <= i < |ls| ==> Heights(ls)[i] >= 1 {
      forall i | 0 <= i < |ls| ensures 1 <= AHeights(ls)[i] <= Heights(ls)[i] {
        LeadHeights(ls, i);
      }
      TotalsCompare(AHeights(ls), Heights(ls));
    }
  }

  lemma LeadHeights(ls: seq<Lora>, i: nat)
    requires AllValid(ls) && CatLora(ls).Ok? && |ls[0].b.shape| > 2 && i < |ls|
    ensures AHeights(ls)[i] == 1 || AHeights(ls)[i] == Heights(ls)[i]
  {
    assert Valid(ls[i]);
    assert |Bs(ls)[i].shape| == |Bs(ls)[0].shape|;
  }

  lemma CatShapes(ls: seq<Lora>)
    requires AllValid(ls) && CatLora(ls).Ok? && |ls[0].b.shape| > 2
    ensures Valid(CatLora(ls).value) <==> Total(AHeights(ls)) == 1 || Total(AHeights(ls)) == Total(Heights(ls))
  {
    hide At, WellFormed, Total, AxisTotal;
    AxisTotalIs(Bs(ls), Heights(ls));
    AxisTotalIs(As(ls), AHeights(ls));
    CatShape(Bs(ls), 0);
    CatShape(As(ls), 0);
    var r := CatLora(ls).value;
    assert Valid(ls[0]);
    ValidAtFirstAxis(ls[0], r, Total(AHeights(ls)), Total(Heights(ls)));
  }

  lemma ValidAtFirstAxis(l: Lora, r: Lora, x: nat, y: nat)
    requires Valid(l) && |l.b.shape| > 2 && WellFormed(r.a) && WellFormed(r.b)
    requires r.a.shape == l.a.shape[0 := x] && r.b.shape == l.b.shape[0 := y]
    ensures Valid(r) <==> x == 1 || x == y
  {
    hide WellFormed;
    assert r.a.shape[0] == x && r.b.shape[0] == y;
  }
}
