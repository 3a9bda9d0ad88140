/** Accepted calls on factors whose result is not what the same call on W gives. */
module LoraWitnesses {
  import opened Wrappers
  import opened Tensors
  import opened Selections
  import opened Lora
  import opened LoraPieces
  import opened LoraSplitAxis
  import opened LoraJoin
  import opened LoraIndex
  import opened LoraGetitem
  import opened LoraEllipsis

  lemma TwoAxes(c: nat, d: nat)
    ensures Numel([c, d]) == c * d
  {
    assert [c, d][..1] == [c] && [c][..0] == [];
    var none: seq<nat> := [];
    assert Numel(none) == 1;
    assert Numel([c]) == Numel(none) * c;
  }

  lemma ThreeAxes(c: nat, d: nat, e: nat)
    ensures Numel([c, d, e]) == c * d * e
  {
    assert [c, d, e][..2] == [c, d];
    TwoAxes(c, d);
  }

  /** Two rows of nothing are taken for three: neither buffer has an entry to count. */
  lemma EmptyRankReshapes()
    ensures var l := Lora(Tensor([0, 1], []), Tensor([2, 0], []));
      && Valid(l) && ReshapeLora(l, [3, 1]).Ok? && ReshapeDense(Materialise(l), [3, 1]).Err?
  {
    hide Materialise;
    var l := Lora(Tensor([0, 1], []), Tensor([2, 0], []));
    TwoAxes(0, 1);
    TwoAxes(2, 0);
    TwoAxes(2, 1);
    TwoAxes(3, 1);
    TwoAxes(3, 0);
    MaterialiseShape(l);
    assert l.Shape() == [2, 1];
    assert Resolve([3, 1], 2) == Ok([3, 1]);
    assert Ones(0) + [0, 1] == [0, 1] && [3, 1][..1] + [0] == [3, 0];
  }

  function Units(): Lora {
    Lora(Tensor([1, 1, 1], [1.0]), Tensor([1, 1, 1], [1.0]))
  }

  lemma UnitsValid()
    ensures Valid(Units()) && Units().Shape() == [1, 1, 1]
  {
    ThreeAxes(1, 1, 1);
  }

  /** Two lengths left open are both taken for the one that is missing. */
  lemma SeveralInferredReshape()
    ensures Valid(Units())
    ensures ReshapeLora(Units(), [-1, -1, 1]).Ok? && ReshapeDense(Materialise(Units()), [-1, -1, 1]).Err?
  {
    hide Materialise;
    UnitsValid();
    var requested := [-1, -1, 1];
    assert requested[0] == requested[1] == -1;
    KnownOfThree(-1, -1, 1);
    assert Numel([1, 1, 1]) == 1 by { ThreeAxes(1, 1, 1); }
    assert Resolve(requested, 1) == Ok([1, 1, 1]) by {
      assert Resolve(requested, 1).value == [1, 1, 1];
    }
    assert Ones(1) + [1, 1] == [1, 1, 1] && [1, 1, 1][..2] + [1] == [1, 1, 1];
  }

  lemma KnownOfThree(x: int, y: int, z: int)
    requires x == y == -1 && z != -1
    ensures ProductOfKnown([x, y, z]) == z
  {
    assert [x, y, z][..2] == [x, y] && [x, y][..1] == [x] && [x][..0] == [];
    assert ProductOfKnown([x]) == 1;
    assert ProductOfKnown([x, y]) == 1;
  }

  /** Axis 4 of three axes is read as axis 1. */
  lemma WrongAxisPermutes()
    ensures Valid(Units())
    ensures PermuteLora(Units(), [4, 0, -1]).Ok? && PermuteDense(Materialise(Units()), [4, 0, -1]).Err?
  {
    hide Materialise, Permuted;
    UnitsValid();
    MaterialiseShape(Units());
    assert FromEnd([4, 0, -1], 3) == [1, -3, -1];
    assert Axes([1, -3, -1], 3) == Ok([1, 0, 2]) by {
      assert Axes([1, -3, -1], 3).value == [1, 0, 2];
    }
    SwapOfThree();
  }

  lemma SwapOfThree()
    ensures IsPermutation([1, 0, 2], 3)
    ensures Find([1, 0, 2], 0) == 1 && Find([1, 0, 2], 1) == 0 && Find([1, 0, 2], 2) == 2
  {
    assert [1, 0, 2][1..] == [0, 2] && [0, 2][1..] == [2];
  }

  lemma OneChunk(t: Tensor)
    requires |t.shape| > 0 && t.shape[0] == 1
    ensures Split(t, Each(1), 0) == Ok([Narrow(t, 0, 0, 1)])
  {
    hide Narrow;
    var sizes := EachSizes(1, 1);
    assert |sizes| == 1 && sizes == [1];
    assert sizes[1..] == [];
    assert Chunks(t, 0, 0, sizes) == [Narrow(t, 0, 0, 1)] + Chunks(t, 0, 1, sizes[1..]);
    assert Chunks(t, 0, 1, sizes[1..]) == [];
    assert Chunks(t, 0, 0, sizes) == [Narrow(t, 0, 0, 1)];
    assert ChunkSizes(Each(1), t.shape[0]) == Ok(sizes);
  }

  lemma OnePair(aChunks: seq<Tensor>, bChunks: seq<Tensor>)
    requires |aChunks| == |bChunks| == 1 && Make(aChunks[0], bChunks[0]).Ok?
    ensures MakeAll(aChunks, bChunks).Ok?
  {
    hide Make;
    assert aChunks[1..] == [] && MakeAll(aChunks[1..], bChunks[1..]) == Ok([]);
  }

  /** Axis -6 of three axes is corrected once, to -3, which names the first axis. */
  lemma WrongAxisSplits()
    ensures Valid(Units())
    ensures SplitAny(Units(), Each(1), -6).Ok? && SplitDense(Materialise(Units()), Each(1), -6).Err?
  {
    hide Materialise, Narrow, Split, MakeAll;
    UnitsValid();
    MaterialiseShape(Units());
    var l := Units();
    OneChunk(l.b);
    var chunks := [Narrow(l.b, 0, 0, 1)];
    assert chunks[0].shape == [1, 1, 1][0 := 1] == [1, 1, 1];
    OnePair(seq(|chunks|, _ => l.a), chunks);
  }

  /** The first of two leading entries is taken of B, and both of A: the factors no longer belong together. */
  lemma LeadingRangeIsDropped()
    ensures var l := Lora(Tensor([2, 1, 1], [1.0, 1.0]), Tensor([2, 1, 1], [1.0, 1.0]));
      var ixs := [Range(None, Some(1), None), FULL, FULL];
      && Valid(l) && Plain(ixs) && GetFull(l, ixs).Ok? && !Faithful(l, ixs) && !Valid(GetFull(l, ixs).value)
  {
    hide Index, Selected, Kept, SelOf;
    var l := Lora(Tensor([2, 1, 1], [1.0, 1.0]), Tensor([2, 1, 1], [1.0, 1.0]));
    var s := Range(None, Some(1), None);
    ThreeAxes(2, 1, 1);
    assert Valid(l);
    FullIs(1);
    FullIs(2);
    FirstEntry(s, 2);
    LeadSubscript([2], [s]);
    var ixs := [s, FULL, FULL];
    assert ixs[..1] == [s] && ixs[..2] == [s, FULL] && l.a.shape[..1] == [2];
    assert [FULL] + [FULL, FULL] == [FULL, FULL, FULL];
    IndexIs(l.a, [FULL, FULL, FULL], [All(2), All(1), All(1)]);
    IndexIs(l.b, [s, FULL], [Many(0, 1, 1), All(1), All(1)]);
    KeptThree(All(2), All(1), All(1));
    KeptThree(Many(0, 1, 1), All(1), All(1));
    var r := GetFull(l, ixs).value;
    assert r.a.shape == [2, 1, 1] && r.b.shape == [1, 1, 1];
    assert !(r.a.shape[0] == 1 || r.a.shape[0] == r.b.shape[0]);
  }

  function EmptyPart(): Lora {
    Lora(Tensor([1, 1, 1], [1.0]), Tensor([0, 1, 1], []))
  }

  function TwoRowPart(): Lora {
    Lora(Tensor([1, 1, 1], [2.0]), Tensor([2, 1, 1], [1.0, 1.0]))
  }

  lemma PartsValid()
    ensures Valid(EmptyPart()) && EmptyPart().Shape() == [0, 1, 1]
    ensures Valid(TwoRowPart()) && TwoRowPart().Shape() == [2, 1, 1]
  {
    ThreeAxes(1, 1, 1);
    ThreeAxes(0, 1, 1);
    ThreeAxes(2, 1, 1);
  }

  lemma FirstDatum(t: Tensor)
    requires |t.shape| == 3 && InBounds(t.shape, [0, 0, 0]) && t.data != []
    ensures At(t, [0, 0, 0]) == t.data[0]
  {
    FlatOfZeros(t.shape, [0, 0, 0]);
  }

  /** Two columns put one below the other. */
  lemma CatOfTwo(t: Tensor, u: Tensor, x: nat, y: nat)
    requires t.shape == [x, 1, 1] && u.shape == [y, 1, 1]
    ensures Cat([t, u], 0).Ok? && WellFormed(Cat([t, u], 0).value) && Cat([t, u], 0).value.shape == [x + y, 1, 1]
    ensures x + y > 0 ==> At(Cat([t, u], 0).value, [0, 0, 0]) == At(if x > 0 then t else u, [0, 0, 0])
  {
    hide At, WellFormed, Cat;
    var ts := [t, u];
    assert ts[1..] == [u] && [u][1..] == [];
    assert AxisTotal(ts, 0) == x + AxisTotal([u], 0) && AxisTotal([u], 0) == y + AxisTotal([], 0);
    CatShape(ts, 0);
    if x + y > 0 {
      CatAtIs(ts, 0, [0, 0, 0]);
      assert Unshift([0, 0, 0], 0, 0) == [0, 0, 0];
      assert CatAt(ts, 0, [0, 0, 0]) == if x > 0 then At(t, [0, 0, 0]) else CatAt([u], 0, [0, 0, 0]);
    }
  }

  /** The pair that the code makes of the two parts. */
  lemma CatOfParts() returns (r: Lora)
    ensures var ls := [EmptyPart(), TwoRowPart()];
      && CatLora(ls) == Ok(r) && Valid(r) && r.Shape() == [2, 1, 1] && r.Rank() == 1
      && At(r.b, [0, 0, 0]) == 1.0 && At(r.a, [0, 0, 0]) == 1.0
  {
    hide At, Cat, WellFormed;
    var x, y := EmptyPart(), TwoRowPart();
    var ls := [x, y];
    assert As(ls) == [x.a, y.a] && Bs(ls) == [x.b, y.b];
    CatOfTwo(x.a, y.a, 1, 1);
    CatOfTwo(x.b, y.b, 0, 2);
    FirstDatum(x.a);
    FirstDatum(y.b);
    r := Lora(Cat(As(ls), 0).value, Cat(Bs(ls), 0).value);
  }

  /** Twice a part whose single row of A serves two rows: the concatenated A has two rows for four. */
  lemma BroadcastPartsMisfit()
    ensures Valid(TwoRowPart())
    ensures var ls := [TwoRowPart(), TwoRowPart()]; CatLora(ls).Ok? && !Valid(CatLora(ls).value)
  {
    hide At, Cat, WellFormed;
    PartsValid();
    var x := TwoRowPart();
    var ls := [x, x];
    assert As(ls) == [x.a, x.a] && Bs(ls) == [x.b, x.b];
    CatOfTwo(x.a, x.a, 1, 1);
    CatOfTwo(x.b, x.b, 2, 2);
    var r := CatLora(ls).value;
    assert r.a.shape[0] == 2 && r.b.shape[0] == 4;
  }

  /** An empty part lends its A to a row of the next one: a weight comes out, and not the concatenation. */
  lemma EmptyPartMisleadsCat()
    ensures Valid(EmptyPart()) && Valid(TwoRowPart())
    ensures var ls := [EmptyPart(), TwoRowPart()];
      && CatLora(ls).Ok? && Valid(CatLora(ls).value) && Cat(Products(ls), 0).Ok?
      && Cat(Products(ls), 0) != Ok(Materialise(CatLora(ls).value))
  {
    hide Materialise, Valid, At, Cat, CatLora;
    PartsValid();
    var x, y := EmptyPart(), TwoRowPart();
    var ls := [x, y];
    var r := CatOfParts();
    MaterialiseShape(x);
    MaterialiseShape(y);
    assert Products(ls) == [Materialise(x), Materialise(y)];
    CatOfTwo(Materialise(x), Materialise(y), 0, 2);
    FirstDatum(y.b);
    FirstDatum(y.a);
    UnitEntry(y, 1.0, 2.0);
    UnitEntry(r, 1.0, 1.0);
  }

  /** The only summand of an entry, for pairs of rank one with one column. */
  lemma UnitEntry(l: Lora, b: real, a: real)
    requires Valid(l) && l.Shape() == [2, 1, 1] && l.Rank() == 1
    requires At(l.b, [0, 0, 0]) == b && At(l.a, [0, 0, 0]) == a
    ensures At(Materialise(l), [0, 0, 0]) == b * a
  {
    hide At, Materialise;
    MaterialiseAt(l, [0, 0, 0]);
    assert RowIndex([0, 0, 0], 0) == [0, 0, 0];
    assert ColIndex(l.a.shape, [0, 0, 0], 0) == [0, 0, 0];
    assert Term(l, [0, 0, 0])(0) == b * a;
    assert Sum(1, Term(l, [0, 0, 0])) == Sum(0, Term(l, [0, 0, 0])) + Term(l, [0, 0, 0])(0);
  }
}
