/** Exactly which operations the factored weight accepts, and what a resolved shape is. */
module LoraAccepts {
  import opened Wrappers
  import opened Tensors
  import opened Selections
  import opened Lora
  import opened LoraJoin
  import opened LoraIndex
  import opened LoraGetitem
  import opened TorchLaws

  // ----- reshape

  /** The shape has the lengths asked for, where they are not left open. */
  predicate Answers(requested: seq<int>, shape: seq<nat>) {
    |shape| == |requested| && forall i :: 0 <= i < |shape| ==> requested[i] == shape[i] || requested[i] == -1
  }

  /** A shape without an open length, or with one and no length of zero beside it. */
  predicate Settled(requested: seq<int>) {
    OneInferred(requested) && (-1 in requested ==> 0 !in requested)
  }

  lemma {:induction false} KnownOfMatch(requested: seq<int>, shape: seq<nat>)
    requires Answers(requested, shape) && -1 !in requested
    ensures ProductOfKnown(requested) == Numel(shape)
  {
    if requested != [] {
      var n := |requested| - 1;
      assert requested == requested[..n] + [requested[n]];
      KnownOfMatch(requested[..n], shape[..n]);
    }
  }

  lemma MulSwap(a: nat, b: nat, c: nat)
    ensures a * b * c == a * c * b
  {
  }

  /** With one open length, the number of entries is that length times the others. */
  lemma {:induction false} KnownTimesOpen(requested: seq<int>, shape: seq<nat>, p: nat)
    requires Answers(requested, shape) && OneInferred(requested) && p < |shape| && requested[p] == -1
    ensures ProductOfKnown(requested) >= 0 && Numel(shape) == ProductOfKnown(requested) * shape[p]
  {
    var n := |requested| - 1;
    var front := requested[..n];
    assert requested == front + [requested[n]];
    if p == n {
      assert -1 !in front;
      KnownOfMatch(front, shape[..n]);
    } else {
      KnownTimesOpen(front, shape[..n], p);
      MulSwap(ProductOfKnown(front), shape[p], shape[n]);
    }
  }

  lemma {:induction false} KnownIsZero(requested: seq<int>)
    ensures ProductOfKnown(requested) == 0 <==> 0 in requested
  {
    if requested != [] {
      var n := |requested| - 1;
      KnownIsZero(requested[..n]);
      assert requested == requested[..n] + [requested[n]];
      var x := if requested[n] != -1 then requested[n] else 1;
      ZeroProduct(ProductOfKnown(requested[..n]), x);
    }
  }

  lemma ZeroProduct(x: int, y: int)
    ensures x * y == 0 <==> x == 0 || y == 0
  {
  }

  /** A dense reshape keeps the buffer, and takes the one shape that matches and has as many entries. */
  lemma ReshapeDenseMeans(t: Tensor, requested: seq<int>, shape: seq<nat>)
    ensures ReshapeDense(t, requested) == Ok(Tensor(shape, t.data))
       <==> Settled(requested) && Answers(requested, shape) && Numel(shape) == Numel(t.shape)
    ensures ReshapeDense(t, requested).Ok? ==> ReshapeDense(t, requested).value.data == t.data
  {
    hide Numel;
    if OneInferred(requested) {
      ResolveMeans(requested, Numel(t.shape), shape);
      KnownIsZero(requested);
    }
  }

  lemma ResolveMeans(requested: seq<int>, elements: nat, shape: seq<nat>)
    requires OneInferred(requested)
    ensures Settled(requested) && Answers(requested, shape) && Numel(shape) == elements
       <==> Resolve(requested, elements) == Ok(shape) && Numel(shape) == elements
  {
    hide Numel, ProductOfKnown;
    KnownIsZero(requested);
    if -1 !in requested {
      if Answers(requested, shape) {
        forall i | 0 <= i < |shape| ensures requested[i] == shape[i] { assert requested[i] in requested; }
        assert Checked(requested).value == shape;
      }
    } else {
      var p :| 0 <= p < |requested| && requested[p] == -1;
      var known := ProductOfKnown(requested);
      if Answers(requested, shape) {
        KnownTimesOpen(requested, shape, p);
        if known != 0 && Numel(shape) == elements {
          Divides(known, shape[p]);
          OpenIsQuotient(requested, shape, p, elements / known);
        }
      }
    }
  }

  lemma Divides(x: nat, y: nat)
    requires x > 0
    ensures x * y % x == 0 && x * y / x == y
  {
    DivModOfPacked(y, x, 0);
  }

  lemma OpenIsQuotient(requested: seq<int>, shape: seq<nat>, p: nat, x: nat)
    requires Answers(requested, shape) && OneInferred(requested)
    requires p < |requested| && requested[p] == -1 && shape[p] == x
    ensures Checked(seq(|requested|, i requires 0 <= i < |requested| => if requested[i] != -1 then requested[i] else x)) == Ok(shape)
  {
    var full := seq(|requested|, i requires 0 <= i < |requested| => if requested[i] != -1 then requested[i] else x);
    forall i | 0 <= i < |shape| ensures full[i] == shape[i] {
      if i != p { assert requested[i] != -1; }
    }
    assert Checked(full).value == shape;
  }

  lemma NumelSplit(l: Lora)
    requires Valid(l)
    ensures var rows := Numel(l.b.shape[..|l.b.shape| - 1]);
      Numel(l.b.shape) == rows * l.Rank() && Numel(l.Shape()) == rows * l.Cols()
    ensures Numel(l.a.shape) == Numel(l.a.shape[..|l.a.shape| - 2]) * l.Rank() * l.Cols()
  {
    hide Numel;
    var n := |l.b.shape|;
    assert l.b.shape == l.b.shape[..n - 1] + [l.Rank()];
    NumelAppend(l.b.shape[..n - 1], l.Rank());
    NumelAppend(l.b.shape[..n - 1], l.Cols());
    assert l.a.shape == l.a.shape[..n - 2] + [l.Rank()] + [l.Cols()];
    NumelAppend(l.a.shape[..n - 2], l.Rank());
    NumelAppend(l.a.shape[..n - 2] + [l.Rank()], l.Cols());
  }

  lemma NumelOfUnits(n: nat, r: nat, c: nat)
    ensures Numel(Ones(n) + [r, c]) == r * c
  {
    hide Numel;
    assert Ones(n) + [r, c] == Ones(n) + [r] + [c];
    NumelAppend(Ones(n), r);
    NumelAppend(Ones(n) + [r], c);
    NumelOfOnes(Ones(n));
  }

  /**
   With entries in both factors and one open length at most: the factors accept just the shapes that W
   accepts, of two or more axes, that leave W's last axis alone; and none when A has leading axes.
   */
  lemma ReshapeAccepts(l: Lora, requested: seq<int>)
    requires Valid(l) && l.Rank() > 0 && l.Cols() > 0 && OneInferred(requested)
    ensures ReshapeLora(l, requested).Ok? <==>
      && |requested| >= 2 && UnitLead(l.a)
      && ReshapeDense(Materialise(l), requested).Ok?
      && ReshapeDense(Materialise(l), requested).value.shape[|requested| - 1] == l.Cols()
  {
    hide Materialise, Numel, Resolve;
    MaterialiseShape(l);
    var resolved := Resolve(requested, Numel(l.Shape()));
    if |requested| >= 2 && resolved.Ok? && |resolved.value| == |requested| && resolved.value[|requested| - 1] == l.Cols() {
      ShapeAccepts(l, resolved.value);
    }
    ResolvedLength(requested, Numel(l.Shape()));
  }

  lemma ResolvedLength(requested: seq<int>, elements: nat)
    ensures Resolve(requested, elements).Ok? ==> |Resolve(requested, elements).value| == |requested|
  {
  }

  lemma ShapeAccepts(l: Lora, shape: seq<nat>)
    requires Valid(l) && l.Rank() > 0 && l.Cols() > 0 && |shape| >= 2 && shape[|shape| - 1] == l.Cols()
    ensures var a := Reshape(l.a, Ones(|shape| - 2) + [l.Rank(), l.Cols()]);
      var b := Reshape(l.b, shape[..|shape| - 1] + [l.Rank()]);
      && (a.Ok? <==> UnitLead(l.a))
      && (b.Ok? <==> Numel(shape) == Numel(l.Shape()))
  {
    hide Numel;
    AAccepts(l, |shape| - 2);
    BAccepts(l, shape);
  }

  lemma AAccepts(l: Lora, n: nat)
    requires Valid(l) && l.Rank() > 0 && l.Cols() > 0
    ensures Numel(Ones(n) + [l.Rank(), l.Cols()]) == Numel(l.a.shape) <==> UnitLead(l.a)
  {
    hide Numel;
    var lead := l.a.shape[..|l.a.shape| - 2];
    NumelSplit(l);
    NumelOfUnits(n, l.Rank(), l.Cols());
    NumelOfOnes(lead);
    assert UnitLead(l.a) <==> Numel(lead) == 1;
    if Numel(l.a.shape) == l.Rank() * l.Cols() { CancelTwice(Numel(lead), l.Rank(), l.Cols()); }
  }

  lemma BAccepts(l: Lora, shape: seq<nat>)
    requires Valid(l) && l.Rank() > 0 && l.Cols() > 0 && |shape| >= 2 && shape[|shape| - 1] == l.Cols()
    ensures Numel(shape[..|shape| - 1] + [l.Rank()]) == Numel(l.b.shape) <==> Numel(shape) == Numel(l.Shape())
  {
    hide Numel;
    var n, r, c := |shape|, l.Rank(), l.Cols();
    NumelSplit(l);
    assert shape == shape[..n - 1] + [c];
    NumelAppend(shape[..n - 1], c);
    NumelAppend(shape[..n - 1], r);
    SameRows(Numel(shape[..n - 1]), Numel(l.b.shape[..|l.b.shape| - 1]), r, c);
  }

  lemma SameRows(x: nat, y: nat, r: nat, c: nat)
    requires r > 0 && c > 0
    ensures x * r == y * r <==> x * c == y * c
  {
    if x * c == y * c { CancelRight(x, y, c); }
    if x * r == y * r { CancelRight(x, y, r); }
  }

  // ----- permute and transpose

  /** Of the permutations W accepts, the factors accept those that leave the last axis, if A has no leading axes, and the transpose of a matrix. */
  lemma PermuteAccepts(l: Lora, dims: seq<int>)
    requires Valid(l) && forall i :: 0 <= i < |dims| ==> 0 <= Axis(dims[i], |l.Shape()|) < |l.Shape()|
    ensures PermuteLora(l, dims).Ok? <==>
      var n := |l.Shape()|;
      && |dims| == n >= 2 && PermuteDense(Materialise(l), dims).Ok?
      && if Axis(dims[n - 1], n) == n - 1 then UnitLead(l.a) else n == 2
  {
    hide *;
    MaterialiseShape(l);
    ValidAxes(l);
    DenseAccepts(Materialise(l), l.b, dims);
    DenseAccepts(Materialise(l), l.a, dims);
    if PermuteLora(l, dims).Ok? {
      AcceptedSo(l, dims);
    } else if PermuteDense(Materialise(l), dims).Ok? {
      AcceptsOtherwise(l, dims);
    }
  }

  lemma ValidAxes(l: Lora)
    requires Valid(l)
    ensures |l.a.shape| == |l.b.shape| == |l.Shape()| >= 2
  {
  }

  lemma AcceptedSo(l: Lora, dims: seq<int>)
    requires Valid(l) && forall i :: 0 <= i < |dims| ==> 0 <= Axis(dims[i], |l.Shape()|) < |l.Shape()|
    requires PermuteLora(l, dims).Ok?
    ensures var n := |l.Shape()|;
      && PermuteDense(l.b, FromEnd(dims, n)).Ok? && |dims| == n
      && if Axis(dims[n - 1], n) == n - 1 then UnitLead(l.a) else n == 2
  {
    hide IsPermutation, WellFormed, Permuted, At;
    PermuteCases(l, dims);
  }

  /** Whether a permutation is accepted depends on the number of axes, and not on whether they are counted from the end. */
  lemma DenseAccepts(t: Tensor, u: Tensor, dims: seq<int>)
    requires |t.shape| == |u.shape| && forall i :: 0 <= i < |dims| ==> 0 <= Axis(dims[i], |t.shape|) < |t.shape|
    ensures PermuteDense(u, FromEnd(dims, |t.shape|)).Ok? <==> PermuteDense(t, dims).Ok?
    ensures PermuteDense(t, dims).Ok? ==> |dims| == |t.shape|
  {
    hide Permuted, IsPermutation;
    AxesFromEnd(dims, |t.shape|);
    RangeOf(if Axes(dims, |t.shape|).Ok? then Axes(dims, |t.shape|).value else []);
  }

  lemma AcceptsOtherwise(l: Lora, dims: seq<int>)
    requires Valid(l) && |dims| == |l.Shape()| && PermuteLora(l, dims).Err?
    requires PermuteDense(l.a, FromEnd(dims, |dims|)).Ok? && PermuteDense(l.b, FromEnd(dims, |dims|)).Ok?
    requires forall i :: 0 <= i < |dims| ==> 0 <= Axis(dims[i], |dims|) < |dims|
    ensures if Axis(dims[|dims| - 1], |dims|) == |dims| - 1 then !UnitLead(l.a) else |dims| != 2
  {
    hide PermuteDense, IsPermutation, WellFormed, At;
    var n := |dims|;
    var d := FromEnd(dims, n);
    PermutedShapes(l.b, d);
    PermutedShapes(l.a, d);
  }

  lemma PermutedShapes(t: Tensor, d: seq<int>)
    requires |d| == |t.shape| >= 2 && PermuteDense(t, d).Ok?
    ensures var u := PermuteDense(t, d).value;
      && |u.shape| == |d|
      && (d[|d| - 1] == -1 ==> u.shape[|d| - 1] == t.shape[|d| - 1])
      && (|d| == 2 && d[1] == -2 ==> d[0] != -2 && (d[0] == -1 ==> u.shape == [t.shape[1], t.shape[0]]))
  {
    PermuteMeans(t, d);
    hide PermuteDense, At;
  }

  /** Whatever W accepts on a matrix; with more axes the last one must stay, and A have no leading axes. */
  lemma TransposeAccepts(l: Lora, dim0: int, dim1: int)
    requires Valid(l)
    ensures var n := |l.Shape()|;
      TransposeLora(l, dim0, dim1).Ok? <==>
        && 0 <= Axis(dim0, n) < n && 0 <= Axis(dim1, n) < n
        && (n > 2 ==> UnitLead(l.a) && (Axis(dim0, n) == n - 1 <==> Axis(dim1, n) == n - 1))
  {
    hide Materialise, PermuteLora, PermuteDense, WellFormed, UnitLead;
    MaterialiseShape(l);
    var n := |l.Shape()|;
    SwappedDimsAre(n, dim0, dim1);
    if SwappedDims(n, dim0, dim1).Ok? {
      var dims := SwappedDims(n, dim0, dim1).value;
      PermuteAccepts(l, dims);
      PermuteMeans(Materialise(l), dims);
      if n == 2 { UnitLeadOfMatrix(l); }
    }
  }

  lemma UnitLeadOfMatrix(l: Lora)
    requires Valid(l) && |l.Shape()| == 2
    ensures UnitLead(l.a)
  {
  }

  lemma SwappedDimsAre(n: nat, dim0: int, dim1: int)
    ensures SwappedDims(n, dim0, dim1).Ok? <==> 0 <= Axis(dim0, n) < n && 0 <= Axis(dim1, n) < n
    ensures SwappedDims(n, dim0, dim1).Ok? ==>
              var dims, i, j := SwappedDims(n, dim0, dim1).value, Axis(dim0, n), Axis(dim1, n);
              |dims| == n && forall k :: 0 <= k < n ==> dims[k] == if k == j then i else if k == i then j else k
  {
  }

  /** A transposed tensor: the two axes change places, in the shape and for every entry. */
  lemma TransposeMeans(t: Tensor, dim0: int, dim1: int)
    ensures var n := |t.shape|;
      TransposeDense(t, dim0, dim1).Ok? <==> 0 <= Axis(dim0, n) < n && 0 <= Axis(dim1, n) < n
    ensures TransposeDense(t, dim0, dim1).Ok? ==>
      var n, u := |t.shape|, TransposeDense(t, dim0, dim1).value;
      var i, j := Axis(dim0, n), Axis(dim1, n);
      && 0 <= i < n && 0 <= j < n
      && u.shape == t.shape[i := t.shape[j]][j := t.shape[i]]
      && forall idx: seq<nat> :: InBounds(u.shape, idx) ==> |idx| == n && At(u, idx) == At(t, idx[i := idx[j]][j := idx[i]])
  {
    hide At, PermuteDense;
    var n := |t.shape|;
    if SwappedDims(n, dim0, dim1).Ok? {
      var dims := SwappedDims(n, dim0, dim1).value;
      PermuteMeans(t, dims);
      var i, j := Axis(dim0, n), Axis(dim1, n);
      SwapMeans(t, dims, i, j, PermuteDense(t, dims).value);
    }
  }

  lemma SwapMeans(t: Tensor, dims: seq<int>, i: nat, j: nat, u: Tensor)
    requires i < |t.shape| == |dims| && j < |dims|
    requires forall k :: 0 <= k < |dims| ==> dims[k] == if k == j then i else if k == i then j else k
    requires Rearranged(t, dims, u)
    ensures u.shape == t.shape[i := t.shape[j]][j := t.shape[i]]
    ensures forall idx: seq<nat> :: InBounds(u.shape, idx) ==> |idx| == |dims| && At(u, idx) == At(t, idx[i := idx[j]][j := idx[i]])
  {
    hide At;
    assert u.shape == t.shape[i := t.shape[j]][j := t.shape[i]];
    forall idx: seq<nat> | InBounds(u.shape, idx)
      ensures |idx| == |dims| && At(u, idx) == At(t, idx[i := idx[j]][j := idx[i]])
    {
      var src := idx[i := idx[j]][j := idx[i]];
      assert forall k :: 0 <= k < |dims| ==> src[Axis(dims[k], |dims|)] == idx[k];
    }
  }

  // ----- scaling and joining

  /** The operand is a number or column-shaped, has no more axes than B, and its axes are those of B or of length one on either side. */
  lemma ScaleAccepts(l: Lora, other: Tensor)
    requires Valid(l)
    ensures ScaleLora(l, other).Ok? <==>
      var m, n := |other.shape|, |l.b.shape|;
      && (m > 0 ==> other.shape[m - 1] == 1) && m <= n
      && forall i :: n - m <= i < n - 1 ==> var o := other.shape[i - (n - m)]; o == l.b.shape[i] || o == 1 || l.b.shape[i] == 1
  {
    hide WellFormed, Multiplied;
  }

  lemma StackAccepts(ls: seq<Lora>)
    requires AllValid(ls)
    ensures StackLora(ls).Ok? <==>
      ls != [] && forall i :: 0 <= i < |ls| ==> ls[i].a.shape == ls[0].a.shape && ls[i].b.shape == ls[0].b.shape
  {
    hide WellFormed, At;
    StackShape(As(ls));
    StackShape(Bs(ls));
    hide Stack;
  }

  /** All axes but the first agree, and for matrices all of A. */
  lemma CatAccepts(ls: seq<Lora>)
    requires AllValid(ls)
    ensures CatLora(ls).Ok? <==>
      && ls != []
      && forall i :: 0 <= i < |ls| ==>
           && ls[i].b.shape[1..] == ls[0].b.shape[1..]
           && (if |ls[0].b.shape| > 2 then ls[i].a.shape[1..] == ls[0].a.shape[1..] else ls[i].a == ls[0].a)
  {
    hide WellFormed, At, Aligned, Cat;
    if ls != [] {
      CatAligned(As(ls));
      CatAligned(Bs(ls));
      if |ls[0].b.shape| > 2 {
        assert forall i :: 0 <= i < |ls| ==> As(ls)[i] == ls[i].a && Bs(ls)[i] == ls[i].b;
      }
      SameAxes(ls);
    }
  }

  lemma SameAxes(ls: seq<Lora>)
    requires AllValid(ls) && ls != []
    ensures (forall i :: 0 <= i < |ls| ==> ls[i].a.shape[1..] == ls[0].a.shape[1..]) ==> |ls[0].a.shape| == |ls[0].b.shape|
  {
  }

  lemma CatAligned(ts: seq<Tensor>)
    requires ts != [] && |ts[0].shape| > 0
    ensures Cat(ts, 0).Ok? <==> forall i :: 0 <= i < |ts| ==> |ts[i].shape| > 0 && ts[i].shape[1..] == ts[0].shape[1..]
    ensures Cat(ts, 0).Ok? ==> |Cat(ts, 0).value.shape| == |ts[0].shape| && Cat(ts, 0).value.shape[1..] == ts[0].shape[1..]
  {
    hide At, CatAt;
    forall i | 0 <= i < |ts|
      ensures |ts[i].shape| == |ts[0].shape| && ts[i].shape[0 := 0] == ts[0].shape[0 := 0]
         <==> |ts[i].shape| > 0 && ts[i].shape[1..] == ts[0].shape[1..]
    {
      TailSame(ts[i].shape, ts[0].shape);
    }
  }

  lemma TailSame(s: seq<nat>, t: seq<nat>)
    requires t != []
    ensures |s| == |t| && s[0 := 0] == t[0 := 0] <==> |s| > 0 && s[1..] == t[1..]
  {
    if |s| == |t| {
      assert s[0 := 0] == [0] + s[1..] && t[0 := 0] == [0] + t[1..];
      assert ([0] + s[1..])[1..] == s[1..] && ([0] + t[1..])[1..] == t[1..];
    }
  }

  // ----- indexing

  /** The last leading subscript that is a range meets an axis of A of length n. */
  predicate LastRangeMeets(ixs: seq<Ix>, aLead: seq<nat>, n: nat)
    requires |ixs| == |aLead|
  {
    exists i :: 0 <= i < |ixs| && ixs[i].Range? && aLead[i] == n && forall j :: i < j < |ixs| ==> !ixs[j].Range?
  }

  /**
   Every subscript is one that torch takes for its axis of W, and rows and columns are both ranges. Two
   numbers are accepted only where a kept leading axis of A happens to have the length of the rank.
   */
  lemma FullAccepts(l: Lora, ixs: seq<Ix>)
    requires Valid(l) && |ixs| == |l.b.shape| && Plain(ixs)
    ensures var n := |ixs| - 2;
      GetFull(l, ixs).Ok? <==>
        && (forall i :: 0 <= i < |ixs| ==> SelOf(ixs[i], l.Shape()[i]).Ok?)
        && (if ixs[n].Range? then ixs[n + 1].Range?
            else !ixs[n + 1].Range? && LastRangeMeets(ixs[..n], l.a.shape[..n], l.Rank()))
  {
    hide SelOf, Selected, GetFull, Kept, LeadSels, LastRangeMeets, Valid, Fits;
    ValidSizes(l);
    var n := |ixs| - 2;
    if GetFull(l, ixs).Ok? {
      var lead, rows, cols := FullParts(l, ixs);
    }
    if forall i :: 0 <= i < |ixs| ==> SelOf(ixs[i], l.Shape()[i]).Ok? {
      assert forall i :: 0 <= i <= n ==> l.Shape()[i] == l.b.shape[i];
      var lead := LeadOf(ixs[..n], l.b.shape[..n]);
      FullIs(l, ixs, lead, SelOf(ixs[n], l.b.shape[n]).value, SelOf(ixs[n + 1], l.Cols()).value);
    }
  }

  lemma FullIs(l: Lora, ixs: seq<Ix>, lead: seq<Sel>, rows: Sel, cols: Sel)
    requires Valid(l) && |ixs| == |l.b.shape| && Plain(ixs) && |lead| == |ixs| - 2
    requires forall i :: 0 <= i < |lead| ==> SelOf(ixs[i], l.b.shape[i]) == Ok(lead[i])
    requires SelOf(ixs[|lead|], l.b.shape[|lead|]) == Ok(rows) && SelOf(ixs[|lead| + 1], l.Cols()) == Ok(cols)
    ensures var n := |ixs| - 2;
      GetFull(l, ixs).Ok? <==>
        if ixs[n].Range? then ixs[n + 1].Range?
        else !ixs[n + 1].Range? && LastRangeMeets(ixs[..n], l.a.shape[..n], l.Rank())
  {
    hide SelOf, Selected, Kept, LeadSels, LastRangeMeets, Valid, Fits, Index, ASubscripts, BroadcastsInto;
    ValidSizes(l);
    var n := |lead|;
    var aLead := l.a.shape[..n];
    LeadBroadcasts(l, n);
    LeadBroadcast(l);
    SubscriptsOk(ixs[..n], aLead, l.b.shape[..n]);
    var aIxs := ASubscripts(ixs[..n], aLead).value;
    FactorA(l, ixs, aIxs, lead, cols);
    FactorB(l, ixs, lead, rows);
    LeadShapes(lead, aLead, l.b.shape[..n]);
    KindsAgree(ixs[n], l.b.shape[n]);
    KindsAgree(ixs[n + 1], l.Cols());
    LastKept(ixs[..n], lead, aLead, l.b.shape[..n], l.Rank());
    MakeAccepts(l, LeadSels(lead, aLead), lead, rows, cols);
  }

  lemma LeadBroadcast(l: Lora)
    requires Valid(l)
    ensures forall i :: 0 <= i < |l.a.shape| - 2 ==> l.a.shape[i] == 1 || l.a.shape[i] == l.b.shape[i]
  {
  }

  lemma {:induction false} SubscriptsOk(ixs: seq<Ix>, aLead: seq<nat>, bLead: seq<nat>)
    requires |ixs| == |aLead| == |bLead|
    requires forall i :: 0 <= i < |ixs| ==> (aLead[i] == 1 || aLead[i] == bLead[i]) && SelOf(ixs[i], bLead[i]).Ok?
    ensures ASubscripts(ixs, aLead).Ok?
    decreases |ixs|
  {
    hide Clip;
    if ixs != [] {
      var n := |ixs| - 1;
      SubscriptsOk(ixs[..n], aLead[..n], bLead[..n]);
      assert SelOf(ixs[n], bLead[n]).Ok?;
    }
  }

  lemma {:induction false} LastKept(ixs: seq<Ix>, lead: seq<Sel>, aLead: seq<nat>, bLead: seq<nat>, r: nat)
    requires |ixs| == |lead| == |aLead| == |bLead|
    requires forall i :: 0 <= i < |ixs| ==> SelOf(ixs[i], bLead[i]) == Ok(lead[i])
    ensures var ks := Kept(LeadSels(lead, aLead)); LastRangeMeets(ixs, aLead, r) <==> |ks| > 0 && ks[|ks| - 1] == r
    decreases |ixs|
  {
    hide SelOf;
    if ixs != [] {
      var n := |ixs| - 1;
      LastKept(ixs[..n], lead[..n], aLead[..n], bLead[..n], r);
      KindsAgree(ixs[n], bLead[n]);
      assert LeadSels(lead, aLead) == LeadSels(lead[..n], aLead[..n]) + [LeadSel(lead[n], aLead[n])];
      KeptPush(LeadSels(lead[..n], aLead[..n]), LeadSel(lead[n], aLead[n]));
      RangePush(ixs, aLead, r);
    }
  }

  lemma RangePush(ixs: seq<Ix>, aLead: seq<nat>, r: nat)
    requires |ixs| == |aLead| > 0
    ensures var n := |ixs| - 1;
      LastRangeMeets(ixs, aLead, r) <==> if ixs[n].Range? then aLead[n] == r else LastRangeMeets(ixs[..n], aLead[..n], r)
  {
    var n := |ixs| - 1;
    if LastRangeMeets(ixs[..n], aLead[..n], r) {
      var i :| 0 <= i < n && ixs[..n][i].Range? && aLead[..n][i] == r && forall j :: i < j < n ==> !ixs[..n][j].Range?;
      assert forall j :: i < j < n ==> ixs[..n][j] == ixs[j];
    }
    if LastRangeMeets(ixs, aLead, r) {
      var i :| 0 <= i < |ixs| && ixs[i].Range? && aLead[i] == r && forall j :: i < j < |ixs| ==> !ixs[j].Range?;
      if i < n { assert ixs[..n][i] == ixs[i]; }
    }
  }

  lemma MakeAccepts(l: Lora, aSels: seq<Sel>, lead: seq<Sel>, rows: Sel, cols: Sel)
    requires Valid(l) && |Kept(aSels)| == |Kept(lead)|
    ensures var ks := Kept(aSels);
      Make(Selected(l.a, aSels + [All(l.Rank())] + [cols]), Selected(l.b, lead + [rows] + [All(l.Rank())])).Ok? <==>
        if rows.Many? then cols.Many? else cols.One? && |ks| > 0 && ks[|ks| - 1] == l.Rank()
  {
    hide Selected, Kept, Valid;
    ValidSizes(l);
    var all := All(l.Rank());
    KeptPush(aSels, all);
    KeptPush(aSels + [all], cols);
    KeptPush(lead, rows);
    KeptPush(lead + [rows], all);
  }
}
