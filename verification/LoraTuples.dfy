/** Tuples of subscripts on a factored weight, with the way the code expands an ellipsis. */
module LoraTuples {
  import opened Wrappers
  import opened Tensors
  import opened Selections
  import opened Lora
  import opened LoraGetitem

  /** Each ellipsis replaced by k whole axes. */
  function Expand(ixs: seq<Ix>, k: nat): seq<Ix>
    decreases |ixs|
  {
    if ixs == [] then [] else (if ixs[0].Dots? then Fulls(k) else [ixs[0]]) + Expand(ixs[1..], k)
  }

  lemma {:induction false} ExpandPlain(ixs: seq<Ix>, k: nat)
    ensures Plain(Expand(ixs, k))
    decreases |ixs|
  {
    if ixs != [] {
      ExpandPlain(ixs[1..], k);
    }
  }

  lemma PlainAppend(a: seq<Ix>, b: seq<Ix>)
    ensures Plain(a + b) <==> Plain(a) && Plain(b)
  {
  }

  /** A tuple: a trailing ellipsis is dropped, any other becomes as many axes as the tuple has other entries. */
  function GetTuple(l: Lora, ixs: seq<Ix>): Result<Lora, TensorError>
    requires Valid(l)
    decreases |ixs|
  {
    if ixs == [] then Err(AssertionFailed)
    else if ixs[|ixs| - 1].Dots? then GetTuple(l, ixs[..|ixs| - 1])
    else
      var full := Expand(ixs, |ixs| - 1);
      if |full| > |l.b.shape| then Err(IndexError)
      else
        var rest := Fulls(|l.b.shape| - |full|);
        ExpandPlain(ixs, |ixs| - 1);
        PlainAppend(full, rest);
        GetFull(l, full + rest)
  }

  function Count(ixs: seq<Ix>): nat
    decreases |ixs|
  {
    if ixs == [] then 0 else (if ixs[0].Dots? then 0 else 1) + Count(ixs[1..])
  }

  /** What the subscripts mean: the ellipsis stands for the axes that the others leave. */
  function DenseTuple(t: Tensor, ixs: seq<Ix>): Result<Tensor, TensorError> {
    if Count(ixs) > |t.shape| then Err(IndexError) else Index(t, Expand(ixs, |t.shape| - Count(ixs)))
  }

  lemma {:induction false} ExpandOfPlain(ixs: seq<Ix>, k: nat)
    requires Plain(ixs)
    ensures Expand(ixs, k) == ixs && Count(ixs) == |ixs|
    decreases |ixs|
  {
    if ixs != [] {
      assert ixs[0] in ixs;
      ExpandOfPlain(ixs[1..], k);
    }
  }

  lemma {:induction false} ExpandAppend(a: seq<Ix>, b: seq<Ix>, k: nat)
    ensures Expand(a + b, k) == Expand(a, k) + Expand(b, k)
    ensures Count(a + b) == Count(a) + Count(b)
    decreases |a|
  {
    hide Fulls;
    if a == [] {
      assert a + b == b;
    } else {
      assert (a + b)[1..] == a[1..] + b;
      ExpandAppend(a[1..], b, k);
      var head := if a[0].Dots? then Fulls(k) else [a[0]];
      assert head + (Expand(a[1..], k) + Expand(b, k)) == head + Expand(a[1..], k) + Expand(b, k);
    }
  }

  lemma ExpandOneDots(k: nat)
    ensures Expand([Dots], k) == Fulls(k) && Count([Dots]) == 0
  {
    assert [Dots][1..] == [];
    assert Fulls(k) + [] == Fulls(k);
  }

  lemma ExpandAround(front: seq<Ix>, back: seq<Ix>, k: nat)
    requires Plain(front) && Plain(back)
    ensures Expand(front + [Dots] + back, k) == front + Fulls(k) + back
    ensures Count(front + [Dots] + back) == |front| + |back|
  {
    hide Expand, Count, Fulls, Plain;
    ExpandOfPlain(front, k);
    ExpandOfPlain(back, k);
    ExpandOneDots(k);
    ExpandAppend(front, [Dots], k);
    ExpandAppend(front + [Dots], back, k);
  }

  /** The subscripts for all n axes that an ellipsis between front and back means. */
  function Meant(front: seq<Ix>, back: seq<Ix>, n: nat): (r: seq<Ix>)
    requires |front| + |back| <= n
    ensures |r| == n
    ensures Plain(front) && Plain(back) ==> Plain(r)
  {
    front + Fulls(n - |front| - |back|) + back
  }

  /** The ones the code uses. */
  function Used(front: seq<Ix>, back: seq<Ix>, n: nat): (r: seq<Ix>)
    requires 2 * (|front| + |back|) <= n
    ensures |r| == n
    ensures Plain(front) && Plain(back) ==> Plain(r)
  {
    var k := |front| + |back|;
    front + Fulls(k) + back + Fulls(n - 2 * k)
  }

  predicate AllFull(ixs: seq<Ix>) {
    forall i :: 0 <= i < |ixs| ==> ixs[i] == FULL
  }

  lemma FullsAppend(a: nat, b: nat)
    ensures Fulls(a) + Fulls(b) == Fulls(a + b)
  {
  }

  lemma FullsAre(ixs: seq<Ix>)
    requires AllFull(ixs)
    ensures ixs == Fulls(|ixs|)
  {
  }

  /** The code's expansion is the right one exactly when the count fits, or nothing but [:] follows the ellipsis. */
  lemma EllipsisExactlyWhen(front: seq<Ix>, back: seq<Ix>, n: nat)
    requires 2 * (|front| + |back|) <= n
    ensures Used(front, back, n) == Meant(front, back, n) <==> n == 2 * (|front| + |back|) || AllFull(back)
  {
    var k := |front| + |back|;
    var d: nat := n - 2 * k;
    FullsAppend(k, d);
    assert Fulls(n - k) == Fulls(k) + Fulls(d);
    assert Used(front, back, n) == (front + Fulls(k)) + (back + Fulls(d));
    assert Meant(front, back, n) == (front + Fulls(k)) + (Fulls(d) + back);
    if d == 0 {
      assert back + Fulls(0) == back == Fulls(0) + back;
    } else if AllFull(back) {
      FullsAre(back);
      FullsAppend(|back|, d);
      FullsAppend(d, |back|);
    } else if Used(front, back, n) == Meant(front, back, n) {
      SameTail(front + Fulls(k), back + Fulls(d), Fulls(d) + back);
      forall i | 0 <= i < |back| ensures back[i] == FULL {
        ShiftedFull(back, d, i);
      }
      assert false;
    }
  }

  lemma SameTail(a: seq<Ix>, x: seq<Ix>, y: seq<Ix>)
    requires a + x == a + y
    ensures x == y
  {
    assert (a + x)[|a|..] == x && (a + y)[|a|..] == y;
  }

  lemma {:induction false} ShiftedFull(back: seq<Ix>, d: nat, i: nat)
    requires d > 0 && i < |back| && back + Fulls(d) == Fulls(d) + back
    ensures back[i] == FULL
    decreases i
  {
    assert back[i] == (back + Fulls(d))[i] == (Fulls(d) + back)[i];
    if i >= d {
      ShiftedFull(back, d, i - d);
    }
  }

  lemma UsedWhenDotsInside(l: Lora, front: seq<Ix>, back: seq<Ix>)
    requires Valid(l) && Plain(front) && Plain(back) && back != []
    ensures var n := |l.b.shape|;
      GetTuple(l, front + [Dots] + back) ==
      if 2 * (|front| + |back|) > n then Err(IndexError)
      else GetFull(l, Used(front, back, n))
  {
    hide GetFull, Valid, GetTuple, Expand, Plain, Fulls;
    var n, k, ixs := |l.b.shape|, |front| + |back|, front + [Dots] + back;
    assert ixs[|ixs| - 1] == back[|back| - 1];
    NotDots(back, |back| - 1);
    GetTupleUnfolds(l, ixs);
    ExpandAround(front, back, k);
    assert |ixs| - 1 == k;
  }

  lemma NotDots(ixs: seq<Ix>, i: nat)
    requires Plain(ixs) && i < |ixs|
    ensures !ixs[i].Dots?
  {
    assert ixs[i] in ixs;
  }

  lemma GetTupleUnfolds(l: Lora, ixs: seq<Ix>)
    requires Valid(l) && ixs != [] && !ixs[|ixs| - 1].Dots?
    ensures var full, n := Expand(ixs, |ixs| - 1), |l.b.shape|;
      if |full| > n then GetTuple(l, ixs) == Err(IndexError)
      else Plain(full + Fulls(n - |full|)) && GetTuple(l, ixs) == GetFull(l, full + Fulls(n - |full|))
  {
    hide GetFull, Valid, Expand, Plain, Fulls;
    var full, n := Expand(ixs, |ixs| - 1), |l.b.shape|;
    ExpandPlain(ixs, |ixs| - 1);
    if |full| <= n {
      FullsPlain(n - |full|);
      PlainAppend(full, Fulls(n - |full|));
    }
  }

  lemma FullsPlain(n: nat)
    ensures Plain(Fulls(n))
  {
  }

  /** A tuple without an ellipsis: the axes it does not mention stay whole. */
  lemma PlainTupleExactlyWhen(l: Lora, ixs: seq<Ix>)
    requires Valid(l) && Plain(ixs) && GetTuple(l, ixs).Ok?
    ensures |ixs| <= |l.b.shape|
    ensures var r := GetTuple(l, ixs).value;
      (Valid(r) && DenseTuple(Materialise(l), ixs) == Ok(Materialise(r)))
      <==> Faithful(l, ixs + Fulls(|l.b.shape| - |ixs|))
  {
    hide GetFull, GetTuple, Valid, Materialise, Faithful, Index, Plain, Fulls, Expand;
    MaterialiseShape(l);
    NothingGiven(l, ixs);
    NotDots(ixs, |ixs| - 1);
    GetTupleUnfolds(l, ixs);
    ExpandOfPlain(ixs, |ixs| - 1);
    ExpandOfPlain(ixs, |l.b.shape| - |ixs|);
    FullExactlyWhen(l, ixs + Fulls(|l.b.shape| - |ixs|));
    PaddedIndex(Materialise(l), ixs);
  }

  lemma NothingGiven(l: Lora, ixs: seq<Ix>)
    requires Valid(l) && GetTuple(l, ixs).Ok?
    ensures ixs != []
  {
  }

  lemma PaddedIndex(t: Tensor, ixs: seq<Ix>)
    requires |ixs| <= |t.shape|
    ensures Index(t, ixs + Fulls(|t.shape| - |ixs|)) == Index(t, ixs)
  {
    hide Selected, SelsOf, SelOf;
    var full := ixs + Fulls(|t.shape| - |ixs|);
    assert full + Fulls(0) == full;
  }

  /** The subscripts the code uses for an accepted front, ellipsis and back. */
  function Applied(front: seq<Ix>, back: seq<Ix>, n: nat): (r: seq<Ix>)
    requires |front| + |back| <= n && (back != [] ==> 2 * (|front| + |back|) <= n)
    ensures |r| == n
    ensures Plain(front) && Plain(back) ==> Plain(r)
  {
    if back == [] then Meant(front, back, n) else Used(front, back, n)
  }

  lemma AcceptedFits(l: Lora, front: seq<Ix>, back: seq<Ix>)
    requires Valid(l) && Plain(front) && Plain(back) && GetTuple(l, front + [Dots] + back).Ok?
    ensures |front| + |back| <= |l.b.shape| && (back != [] ==> 2 * (|front| + |back|) <= |l.b.shape|)
  {
    hide GetFull, GetTuple, Valid, Plain;
    if back == [] {
      assert front + [Dots] + back == front + [Dots];
      TrailingDots(l, front);
      PlainTupleExactlyWhen(l, front);
    } else {
      UsedWhenDotsInside(l, front, back);
    }
  }

  /**
   Any accepted tuple with one ellipsis: it is right exactly when the subscripts used are faithful and
   select from W what the ones meant select.
   */
  lemma DotsTupleExactlyWhen(l: Lora, front: seq<Ix>, back: seq<Ix>)
    requires Valid(l) && Plain(front) && Plain(back) && GetTuple(l, front + [Dots] + back).Ok?
    ensures |front| + |back| <= |l.b.shape| && (back != [] ==> 2 * (|front| + |back|) <= |l.b.shape|)
    ensures var r, ixs, n := GetTuple(l, front + [Dots] + back).value, front + [Dots] + back, |l.b.shape|;
      (Valid(r) && DenseTuple(Materialise(l), ixs) == Ok(Materialise(r)))
      <==> Faithful(l, Applied(front, back, n)) &&
           Index(Materialise(l), Meant(front, back, n)) == Index(Materialise(l), Applied(front, back, n))
  {
    hide GetFull, Valid, Materialise, Faithful, Index, GetTuple, Plain, Fulls, Expand, Used, Meant, Applied;
    AcceptedFits(l, front, back);
    if back == [] {
      assert front + [Dots] + back == front + [Dots];
      AppliedIs(front, back, |l.b.shape|);
      TrailingDotsTuple(l, front);
    } else {
      InnerDotsTuple(l, front, back);
    }
  }

  lemma AppliedIs(front: seq<Ix>, back: seq<Ix>, n: nat)
    requires |front| + |back| <= n && (back != [] ==> 2 * (|front| + |back|) <= n)
    ensures Applied(front, back, n) == if back == [] then Meant(front, back, n) else Used(front, back, n)
  {
  }

  lemma InnerDotsTuple(l: Lora, front: seq<Ix>, back: seq<Ix>)
    requires Valid(l) && Plain(front) && Plain(back) && back != []
    requires 2 * (|front| + |back|) <= |l.b.shape|
    requires GetTuple(l, front + [Dots] + back).Ok?
    ensures var r, ixs, n := GetTuple(l, front + [Dots] + back).value, front + [Dots] + back, |l.b.shape|;
      (Valid(r) && DenseTuple(Materialise(l), ixs) == Ok(Materialise(r)))
      <==> Faithful(l, Applied(front, back, n)) &&
           Index(Materialise(l), Meant(front, back, n)) == Index(Materialise(l), Applied(front, back, n))
  {
    hide GetFull, Valid, Materialise, Faithful, Index, GetTuple, Plain, Fulls, Expand, Count, Used, Meant, Applied;
    var n, w := |l.b.shape|, Materialise(l);
    MaterialiseShape(l);
    AppliedIs(front, back, n);
    ExpandAround(front, back, n - |front| - |back|);
    UsedWhenDotsInside(l, front, back);
    MeantIs(front, back, n);
    var used, meant := Used(front, back, n), Meant(front, back, n);
    FullExactlyWhen(l, used);
    var r := GetFull(l, used).value;
    if Valid(r) && !Faithful(l, used) && Index(w, meant).Ok? {
      RangesAgree(front, back, n);
      IndexAxes(w, used);
      IndexAxes(w, meant);
      MaterialiseShape(r);
    }
  }

  /** How many axes a plain tuple keeps. */
  function Ranges(ixs: seq<Ix>): nat
    decreases |ixs|
  {
    if ixs == [] then 0 else Ranges(ixs[..|ixs| - 1]) + if ixs[|ixs| - 1].Range? then 1 else 0
  }

  lemma {:induction false} RangesAppend(a: seq<Ix>, b: seq<Ix>)
    ensures Ranges(a + b) == Ranges(a) + Ranges(b)
    decreases |b|
  {
    if b == [] {
      assert a + b == a;
    } else {
      var n := |b| - 1;
      assert (a + b)[..|a| + n] == a + b[..n];
      RangesAppend(a, b[..n]);
    }
  }

  /** Used and meant subscripts differ only in where the whole axes stand. */
  lemma RangesAgree(front: seq<Ix>, back: seq<Ix>, n: nat)
    requires 2 * (|front| + |back|) <= n
    ensures Ranges(Used(front, back, n)) == Ranges(Meant(front, back, n))
  {
    hide Ranges, Fulls;
    var k := |front| + |back|;
    RangesAppend(front + Fulls(k) + back, Fulls(n - 2 * k));
    RangesAppend(front + Fulls(k), back);
    RangesAppend(front, Fulls(k));
    RangesAppend(front + Fulls(n - k), back);
    RangesAppend(front, Fulls(n - k));
    FullsAppend(k, n - 2 * k);
    RangesAppend(Fulls(k), Fulls(n - 2 * k));
  }

  lemma {:induction false} KeptRanges(ixs: seq<Ix>, sels: seq<Sel>)
    requires |ixs| == |sels| && forall i :: 0 <= i < |ixs| ==> (ixs[i].Range? <==> sels[i].Many?)
    ensures |Kept(sels)| == Ranges(ixs)
    decreases |ixs|
  {
    if ixs != [] {
      KeptRanges(ixs[..|ixs| - 1], sels[..|ixs| - 1]);
    }
  }

  lemma IndexAxes(t: Tensor, ixs: seq<Ix>)
    requires |ixs| == |t.shape| && Index(t, ixs).Ok?
    ensures |Index(t, ixs).value.shape| == Ranges(ixs)
  {
    hide Kept, SelOf, Ranges;
    var all := ixs + Fulls(0);
    assert all == ixs;
    var sels := SelsOf(ixs, t.shape).value;
    forall i | 0 <= i < |ixs| ensures ixs[i].Range? <==> sels[i].Many? {
      KindsAgree(ixs[i], t.shape[i]);
    }
    KeptRanges(ixs, sels);
  }

  lemma MeantIs(front: seq<Ix>, back: seq<Ix>, n: nat)
    requires |front| + |back| <= n
    ensures Meant(front, back, n) == front + Fulls(n - |front| - |back|) + back
  {
  }

  lemma TrailingDotsTuple(l: Lora, front: seq<Ix>)
    requires Valid(l) && Plain(front) && |front| <= |l.b.shape|
    requires GetTuple(l, front + [Dots]).Ok?
    ensures var r, ixs := GetTuple(l, front + [Dots]).value, front + [Dots];
      (Valid(r) && DenseTuple(Materialise(l), ixs) == Ok(Materialise(r)))
      <==> Faithful(l, Meant(front, [], |l.b.shape|))
  {
    hide GetFull, Valid, Materialise, Faithful, Index, GetTuple, Plain, Fulls, Expand;
    var n := |l.b.shape|;
    MaterialiseShape(l);
    TrailingDots(l, front);
    PlainTupleExactlyWhen(l, front);
    assert front + [Dots] + [] == front + [Dots];
    EmptyIsPlain();
    ExpandAround(front, [], n - |front|);
    ExpandOfPlain(front, n - |front|);
    PaddedIndex(Materialise(l), front);
    assert front + Fulls(n - |front|) + [] == front + Fulls(n - |front|);
  }

  lemma EmptyIsPlain()
    ensures Plain([])
  {
  }

  lemma TrailingDots(l: Lora, front: seq<Ix>)
    requires Valid(l)
    ensures GetTuple(l, front + [Dots]) == GetTuple(l, front)
  {
    assert (front + [Dots])[..|front|] == front;
  }

  /** On three axes W[..., s] should slice columns; the code slices rows instead. */
  lemma LastAxisSliceTakesRows(l: Lora, s: Ix)
    requires Valid(l) && |l.b.shape| == 3 && s.Range?
    ensures Plain([FULL, s, FULL]) && GetTuple(l, [Dots, s]) == GetFull(l, [FULL, s, FULL])
    ensures DenseTuple(Materialise(l), [Dots, s]) == Index(Materialise(l), [FULL, FULL, s])
  {
    hide GetFull, Valid, Materialise, Index, GetTuple;
    MaterialiseShape(l);
    assert [] + [Dots] + [s] == [Dots, s];
    UsedWhenDotsInside(l, [], [s]);
    ExpandAround([], [s], 2);
    assert Fulls(1) == [FULL] && Fulls(2) == [FULL, FULL];
    assert Used([], [s], 3) == [FULL, s, FULL];
    assert [] + Fulls(2) + [s] == [FULL, FULL, s];
  }
}
