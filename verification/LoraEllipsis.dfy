/**
 When an inner ellipsis on a factored weight is right whatever the entries of the factors: a
 condition on the shapes and the subscripts alone.
 */
module LoraEllipsis {
  import opened Wrappers
  import opened Tensors
  import opened Selections
  import opened Lora
  import opened LoraIndex
  import opened LoraGetitem
  import opened LoraTuples

  predicate SameShapes(l: Lora, m: Lora) {
    l.a.shape == m.a.shape && l.b.shape == m.b.shape
  }

  ghost predicate Right(l: Lora, ixs: seq<Ix>)
    requires Valid(l)
  {
    && GetTuple(l, ixs).Ok?
    && Valid(GetTuple(l, ixs).value)
    && DenseTuple(Materialise(l), ixs) == Ok(Materialise(GetTuple(l, ixs).value))
  }

  /** The tuple is right for every weight with factors of these shapes. */
  ghost predicate AlwaysRight(l: Lora, ixs: seq<Ix>) {
    forall m: Lora :: Valid(m) && SameShapes(l, m) ==> Right(m, ixs)
  }

  /** Both lists of subscripts show the same entries of a tensor of this shape, in the same places. */
  ghost predicate SameEntries(shape: seq<nat>, u: seq<Ix>, v: seq<Ix>)
    requires |u| == |v| == |shape|
  {
    && SelsOf(u, shape).Ok? && SelsOf(v, shape).Ok?
    && Kept(SelsOf(u, shape).value) == Kept(SelsOf(v, shape).value)
    && forall idx :: InBounds(Kept(SelsOf(u, shape).value), idx) ==>
                       Lift(SelsOf(u, shape).value, idx) == Lift(SelsOf(v, shape).value, idx)
  }

  /** Both are accepted and give results of one shape. */
  predicate SameForm(shape: seq<nat>, u: seq<Ix>, v: seq<Ix>)
    requires |u| == |v| == |shape|
  {
    && SelsOf(u, shape).Ok? && SelsOf(v, shape).Ok?
    && Kept(SelsOf(u, shape).value) == Kept(SelsOf(v, shape).value)
  }

  // ---------- acceptance depends on shapes alone

  /** The shape of a part depends on the shape it is taken from and the subscripts alone. */
  lemma PartShape(t: Tensor, ixs: seq<Ix>)
    ensures Index(t, ixs).Ok? <==> |ixs| <= |t.shape| && SelsOf(ixs + Fulls(|t.shape| - |ixs|), t.shape).Ok?
    ensures Index(t, ixs).Ok? ==> Index(t, ixs).value.shape == Kept(SelsOf(ixs + Fulls(|t.shape| - |ixs|), t.shape).value)
  {
    hide SelsOf, Kept, Fulls, AllFit, WellFormed, SelectedFn, Build;
  }

  lemma IndexByShape(t: Tensor, u: Tensor, ixs: seq<Ix>)
    requires t.shape == u.shape
    ensures Index(t, ixs).Ok? <==> Index(u, ixs).Ok?
    ensures Index(t, ixs).Ok? ==> Index(t, ixs).value.shape == Index(u, ixs).value.shape
  {
    hide Index, SelsOf, Kept, Fulls;
    PartShape(t, ixs);
    PartShape(u, ixs);
  }

  lemma FullByShape(l: Lora, m: Lora, ixs: seq<Ix>)
    requires Valid(l) && Valid(m) && SameShapes(l, m) && |ixs| == |l.b.shape| && Plain(ixs)
    ensures GetFull(l, ixs).Ok? <==> GetFull(m, ixs).Ok?
    ensures Faithful(l, ixs) <==> Faithful(m, ixs)
  {
    hide Index, ASubscripts, SelOf, Plain;
    var n := |ixs|;
    var lead := ASubscripts(ixs[..n - 2], l.a.shape[..n - 2]);
    if lead.Ok? {
      IndexByShape(l.a, m.a, lead.value + [FULL, ixs[n - 1]]);
      IndexByShape(l.b, m.b, ixs[..n - 1]);
    }
  }

  lemma TupleByShape(l: Lora, m: Lora, front: seq<Ix>, back: seq<Ix>)
    requires Valid(l) && Valid(m) && SameShapes(l, m) && Plain(front) && Plain(back) && back != []
    requires GetTuple(l, front + [Dots] + back).Ok?
    ensures GetTuple(m, front + [Dots] + back).Ok?
  {
    hide GetFull, GetTuple, Valid, Plain, Used;
    UsedWhenDotsInside(l, front, back);
    UsedWhenDotsInside(m, front, back);
    FullByShape(l, m, Used(front, back, |l.b.shape|));
  }

  // ---------- weights that tell two entries apart

  function OneAtFn(p: seq<nat>): seq<nat> -> real {
    (idx: seq<nat>) => if idx == p then 1.0 else 0.0
  }

  function OnesFn(): seq<nat> -> real {
    (idx: seq<nat>) => 1.0
  }

  lemma {:induction false} SumOfZeros(n: nat, f: nat -> real)
    requires forall k: nat :: k < n ==> f(k) == 0.0
    ensures Sum(n, f) == 0.0
  {
    if n > 0 {
      SumOfZeros(n - 1, f);
    }
  }

  lemma {:induction false} SumOfFirst(n: nat, f: nat -> real)
    requires n > 0 && forall k: nat :: 0 < k < n ==> f(k) == 0.0
    ensures Sum(n, f) == f(0)
  {
    if n > 1 {
      SumOfFirst(n - 1, f);
    }
  }

  /** All ones but B, which is one at p's row for the first summand only. */
  function RowWeight(l: Lora, p: seq<nat>): Lora
    requires |p| > 0
  {
    Lora(Build(l.a.shape, OnesFn()), Build(l.b.shape, OneAtFn(RowIndex(p, 0))))
  }

  /** All ones but A, which is one at p's column for the first summand only. */
  function ColWeight(l: Lora, p: seq<nat>): Lora
    requires |p| == |l.a.shape| >= 2
  {
    Lora(Build(l.a.shape, OneAtFn(ColIndex(l.a.shape, p, 0))), Build(l.b.shape, OnesFn()))
  }

  lemma BuiltValid(l: Lora, f: seq<nat> -> real, g: seq<nat> -> real)
    requires Valid(l)
    ensures var m := Lora(Build(l.a.shape, f), Build(l.b.shape, g));
      Valid(m) && SameShapes(l, m) && m.Rank() == l.Rank() && m.Shape() == l.Shape()
  {
    hide Build;
  }

  lemma BuiltTerm(l: Lora, f: seq<nat> -> real, g: seq<nat> -> real, p: seq<nat>, k: nat)
    requires Valid(l) && InBounds(l.Shape(), p) && k < l.Rank()
    ensures |p| == |l.a.shape| >= 2
    ensures Term(Lora(Build(l.a.shape, f), Build(l.b.shape, g)), p)(k)
            == g(RowIndex(p, k)) * f(ColIndex(l.a.shape, p, k))
  {
    hide Build, At;
    FactorsInBounds(l, p, k);
    BuildAt(l.a.shape, f, ColIndex(l.a.shape, p, k));
    BuildAt(l.b.shape, g, RowIndex(p, k));
  }

  lemma RowTerm(l: Lora, p: seq<nat>, q: seq<nat>, k: nat)
    requires Valid(l) && InBounds(l.Shape(), p) && InBounds(l.Shape(), q) && k < l.Rank()
    ensures |p| == |q| == |l.a.shape| >= 2
    ensures Term(RowWeight(l, p), q)(k) == if q[..|p| - 1] == p[..|p| - 1] && k == 0 then 1.0 else 0.0
  {
    hide Build, At, Term, ColIndex;
    BuiltTerm(l, OnesFn(), OneAtFn(RowIndex(p, 0)), q, k);
    var n := |p| - 1;
    assert RowIndex(q, k)[..n] == q[..n] && RowIndex(q, k)[n] == k;
    assert RowIndex(p, 0)[..n] == p[..n] && RowIndex(p, 0)[n] == 0;
  }

  lemma ColTerm(l: Lora, p: seq<nat>, q: seq<nat>, k: nat)
    requires Valid(l) && InBounds(l.Shape(), p) && InBounds(l.Shape(), q) && k < l.Rank()
    ensures |p| == |q| == |l.a.shape| >= 2
    ensures (k != 0 || q[|p| - 1] != p[|p| - 1]) ==> Term(ColWeight(l, p), q)(k) == 0.0
    ensures q == p && k == 0 ==> Term(ColWeight(l, p), q)(k) == 1.0
  {
    hide Build, At, Term, RowIndex, Project;
    BuiltTerm(l, OneAtFn(ColIndex(l.a.shape, p, 0)), OnesFn(), q, k);
    var n := |p| - 2;
    assert ColIndex(l.a.shape, q, k)[n] == k && ColIndex(l.a.shape, q, k)[n + 1] == q[n + 1];
    assert ColIndex(l.a.shape, p, 0)[n] == 0 && ColIndex(l.a.shape, p, 0)[n + 1] == p[n + 1];
  }

  /** Some weight of these shapes is one at p and zero at another entry q. */
  lemma Separates(l: Lora, p: seq<nat>, q: seq<nat>) returns (m: Lora)
    requires Valid(l) && l.Rank() > 0 && p != q && InBounds(l.Shape(), p) && InBounds(l.Shape(), q)
    ensures Valid(m) && SameShapes(l, m)
    ensures At(Materialise(m), p) != At(Materialise(m), q)
  {
    hide Build, At, Term, Materialise, Valid;
    ValidSizes(l);
    var n := |p| - 1;
    if p[..n] != q[..n] {
      m := RowWeight(l, p);
      BuiltValid(l, OnesFn(), OneAtFn(RowIndex(p, 0)));
      forall k: nat | k < l.Rank() ensures Term(m, q)(k) == 0.0 && (Term(m, p)(k) == if k == 0 then 1.0 else 0.0) {
        RowTerm(l, p, q, k);
        RowTerm(l, p, p, k);
      }
    } else {
      assert p == p[..n] + [p[n]] && q == q[..n] + [q[n]];
      m := ColWeight(l, p);
      BuiltValid(l, OneAtFn(ColIndex(l.a.shape, p, 0)), OnesFn());
      forall k: nat | k < l.Rank() ensures Term(m, q)(k) == 0.0 && (Term(m, p)(k) == if k == 0 then 1.0 else 0.0) {
        ColTerm(l, p, q, k);
        ColTerm(l, p, p, k);
      }
    }
    SumOfZeros(l.Rank(), Term(m, q));
    SumOfFirst(l.Rank(), Term(m, p));
    EntriesAre(m, p, q);
  }

  lemma EntriesAre(m: Lora, p: seq<nat>, q: seq<nat>)
    requires Valid(m) && InBounds(m.Shape(), p) && InBounds(m.Shape(), q)
    ensures |p| == |q| == |m.a.shape| >= 2
    ensures At(Materialise(m), p) == Sum(m.Rank(), Term(m, p)) && At(Materialise(m), q) == Sum(m.Rank(), Term(m, q))
  {
    hide Term, Materialise;
    MaterialiseAt(m, p);
    MaterialiseAt(m, q);
  }

  // ---------- results

  lemma IndexOfSels(t: Tensor, ixs: seq<Ix>)
    requires |ixs| == |t.shape|
    ensures Index(t, ixs).Ok? <==> SelsOf(ixs, t.shape).Ok?
    ensures Index(t, ixs).Ok? ==> Index(t, ixs).value == Selected(t, SelsOf(ixs, t.shape).value)
  {
    hide SelsOf, Selected;
    assert ixs + Fulls(0) == ixs;
  }

  /** Equal entries give equal results for every tensor; with no summand all entries are zero. */
  lemma SameResults(w: Tensor, u: seq<Ix>, v: seq<Ix>)
    requires |u| == |v| == |w.shape| && SameForm(w.shape, u, v)
    requires SameEntries(w.shape, u, v) || (forall idx :: At(w, idx) == 0.0)
    ensures Index(w, u) == Index(w, v)
  {
    hide SelsOf, Selected, Index, Kept, Lift, At;
    IndexOfSels(w, u);
    IndexOfSels(w, v);
    var s, t := SelsOf(u, w.shape).value, SelsOf(v, w.shape).value;
    forall idx | InBounds(Kept(s), idx) ensures At(Selected(w, s), idx) == At(Selected(w, t), idx) {
      InBoundsLength(Kept(s), idx);
      SelectedAt(w, s, idx);
      SelectedAt(w, t, idx);
    }
    Extensional(Selected(w, s), Selected(w, t));
  }

  lemma InBoundsLength(shape: seq<nat>, idx: seq<nat>)
    requires InBounds(shape, idx)
    ensures |idx| == |shape|
  {
  }

  lemma NoRankIsZero(l: Lora)
    requires Valid(l) && l.Rank() == 0
    ensures forall idx :: At(Materialise(l), idx) == 0.0
  {
    MaterialiseShape(l);
    forall idx ensures At(Materialise(l), idx) == 0.0 {
      if InBounds(l.Shape(), idx) {
        MaterialiseAt(l, idx);
      }
    }
  }

  /** If the subscripts do not show the same entries, some weight gives different results. */
  lemma DifferentResults(l: Lora, u: seq<Ix>, v: seq<Ix>) returns (m: Lora)
    requires Valid(l) && l.Rank() > 0 && |u| == |v| == |l.b.shape|
    requires SelsOf(u, l.Shape()).Ok? && !SameEntries(l.Shape(), u, v)
    ensures Valid(m) && SameShapes(l, m) && Index(Materialise(m), u) != Index(Materialise(m), v)
  {
    hide SelsOf, Selected, Index, Kept, Lift, At, Materialise, Valid, AllFit;
    MaterialiseShape(l);
    m := l;
    IndexOfSels(Materialise(l), u);
    IndexOfSels(Materialise(l), v);
    if SameForm(l.Shape(), u, v) {
      var s, t := SelsOf(u, l.Shape()).value, SelsOf(v, l.Shape()).value;
      var idx :| InBounds(Kept(s), idx) && Lift(s, idx) != Lift(t, idx);
      SelsFit(u, l.Shape());
      SelsFit(v, l.Shape());
      LiftInBounds(s, l.Shape(), idx);
      LiftInBounds(t, l.Shape(), idx);
      m := Separates(l, Lift(s, idx), Lift(t, idx));
      MaterialiseShape(m);
      ShapeOf(l, m);
      IndexOfSels(Materialise(m), u);
      IndexOfSels(Materialise(m), v);
      SelectedAt(Materialise(m), s, idx);
      SelectedAt(Materialise(m), t, idx);
    }
  }

  lemma SelsFit(u: seq<Ix>, shape: seq<nat>)
    requires |u| == |shape| && SelsOf(u, shape).Ok?
    ensures AllFit(SelsOf(u, shape).value, shape)
  {
  }

  lemma ShapeOf(l: Lora, m: Lora)
    requires Valid(l) && Valid(m) && SameShapes(l, m)
    ensures m.Shape() == l.Shape() && m.Rank() == l.Rank()
  {
  }

  /**
   An accepted tuple with an inner ellipsis is right for every weight of these shapes exactly when the
   subscripts used are faithful and show the entries that the ones meant show; without summands, W is
   zero and only the form of the result matters.
   */
  lemma EllipsisRightExactlyWhen(l: Lora, front: seq<Ix>, back: seq<Ix>)
    requires Valid(l) && Plain(front) && Plain(back) && back != []
    requires GetTuple(l, front + [Dots] + back).Ok?
    ensures 2 * (|front| + |back|) <= |l.b.shape| == |l.Shape()|
    ensures var used, meant := Used(front, back, |l.b.shape|), Meant(front, back, |l.b.shape|);
      AlwaysRight(l, front + [Dots] + back) <==>
        Faithful(l, used) && SameForm(l.Shape(), used, meant) &&
        (l.Rank() == 0 || SameEntries(l.Shape(), used, meant))
  {
    hide GetFull, GetTuple, Valid, Plain, Used, Meant, Faithful, Materialise, SameEntries, SameForm, Index, Right, Applied;
    MaterialiseShape(l);
    DotsTupleExactlyWhen(l, front, back);
    var n, ixs := |l.b.shape|, front + [Dots] + back;
    var used, meant := Used(front, back, n), Meant(front, back, n);
    AppliedIs(front, back, n);
    if Faithful(l, used) && SameForm(l.Shape(), used, meant) && (l.Rank() == 0 || SameEntries(l.Shape(), used, meant)) {
      forall m: Lora | Valid(m) && SameShapes(l, m) ensures Right(m, ixs) {
        RightThen(l, m, front, back);
      }
    } else if AlwaysRight(l, ixs) {
      assert Right(l, ixs);
      RightGives(l, front, back);
      if l.Rank() > 0 && !SameEntries(l.Shape(), used, meant) {
        UsedAccepted(l, used);
        var m := DifferentResults(l, used, meant);
        assert Right(m, ixs);
        RightGives(m, front, back);
        assert false;
      }
      assert false;
    }
  }

  lemma UsedAccepted(l: Lora, used: seq<Ix>)
    requires Valid(l) && |used| == |l.b.shape| && Index(Materialise(l), used).Ok?
    ensures SelsOf(used, l.Shape()).Ok?
  {
    hide SelsOf, Index, Materialise;
    MaterialiseShape(l);
    IndexOfSels(Materialise(l), used);
  }

  lemma RightThen(l: Lora, m: Lora, front: seq<Ix>, back: seq<Ix>)
    requires Valid(l) && Valid(m) && SameShapes(l, m) && Plain(front) && Plain(back) && back != []
    requires GetTuple(l, front + [Dots] + back).Ok? && 2 * (|front| + |back|) <= |l.b.shape| == |l.Shape()|
    requires var used, meant := Used(front, back, |l.b.shape|), Meant(front, back, |l.b.shape|);
      Faithful(l, used) && SameForm(l.Shape(), used, meant) &&
      (l.Rank() == 0 || SameEntries(l.Shape(), used, meant))
    ensures Right(m, front + [Dots] + back)
  {
    hide GetFull, GetTuple, Valid, Plain, Used, Meant, Faithful, Materialise, SameEntries, SameForm, Index, Applied;
    var n := |l.b.shape|;
    var used, meant := Used(front, back, n), Meant(front, back, n);
    TupleByShape(l, m, front, back);
    DotsTupleExactlyWhen(m, front, back);
    AppliedIs(front, back, n);
    FullByShape(l, m, used);
    MaterialiseShape(m);
    ShapeOf(l, m);
    if m.Rank() == 0 {
      NoRankIsZero(m);
    }
    SameResults(Materialise(m), used, meant);
  }

  lemma RightGives(l: Lora, front: seq<Ix>, back: seq<Ix>)
    requires Valid(l) && Plain(front) && Plain(back) && back != []
    requires Right(l, front + [Dots] + back)
    ensures 2 * (|front| + |back|) <= |l.b.shape| == |l.Shape()|
    ensures var used, meant := Used(front, back, |l.b.shape|), Meant(front, back, |l.b.shape|);
      && Faithful(l, used) && Index(Materialise(l), meant) == Index(Materialise(l), used)
      && Index(Materialise(l), used).Ok? && SameForm(l.Shape(), used, meant)
  {
    hide GetFull, GetTuple, Valid, Plain, Used, Meant, Faithful, Materialise, Index, Applied, SelsOf, Kept;
    var n := |l.b.shape|;
    MaterialiseShape(l);
    DotsTupleExactlyWhen(l, front, back);
    var used, meant := Used(front, back, n), Meant(front, back, n);
    AppliedIs(front, back, n);
    UsedWhenDotsInside(l, front, back);
    FullExactlyWhen(l, used);
    IndexOfSels(Materialise(l), used);
    IndexOfSels(Materialise(l), meant);
  }

  // ---------- a wrong result

  /** Two rows and two columns of ones: W[..., :1] should keep one column, and the code keeps one row. */
  lemma LastAxisSliceIsWrong()
    ensures var l := Lora(Tensor([1, 1, 2], [1.0, 1.0]), Tensor([1, 2, 1], [1.0, 1.0]));
      var s := Range(None, Some(1), None);
      && Valid(l) && GetTuple(l, [Dots, s]).Ok? && Valid(GetTuple(l, [Dots, s]).value)
      && DenseTuple(Materialise(l), [Dots, s]).Ok?
      && DenseTuple(Materialise(l), [Dots, s]) != Ok(Materialise(GetTuple(l, [Dots, s]).value))
  {
    var l := Lora(Tensor([1, 1, 2], [1.0, 1.0]), Tensor([1, 2, 1], [1.0, 1.0]));
    var s := Range(None, Some(1), None);
    OnesValid(l);
    LastAxisSliceTakesRows(l, s);
    RowsAccepted(l, s);
    FullExactlyWhen(l, [FULL, s, FULL]);
    SlicedShapes(Materialise(l), s);
  }

  lemma OnesValid(l: Lora)
    requires l == Lora(Tensor([1, 1, 2], [1.0, 1.0]), Tensor([1, 2, 1], [1.0, 1.0]))
    ensures Valid(l) && Materialise(l).shape == [1, 2, 2]
  {
    hide Materialise;
    assert [1, 1, 2][..2] == [1, 1] && [1, 1][..1] == [1] && [1][..0] == [];
    assert [1, 2, 1][..2] == [1, 2] && [1, 2][..1] == [1];
    MaterialiseShape(l);
  }

  lemma KeptThree(p: Sel, q: Sel, r: Sel)
    requires p.Many? && q.Many? && r.Many?
    ensures Kept([p, q, r]) == [p.count, q.count, r.count]
  {
    hide Kept;
    NothingKept([], []);
    KeptPush([], p);
    KeptTwo([p], q, r);
    assert [] + [p] == [p] && [p] + [q] + [r] == [p, q, r];
  }

  /** [:1] takes the first entry of a non-empty axis. */
  lemma FirstEntry(s: Ix, n: nat)
    requires s == Range(None, Some(1), None) && n > 0
    ensures SelOf(s, n) == Ok(Many(0, 1, 1))
  {
  }

  lemma FullIs(n: nat)
    ensures SelOf(FULL, n) == Ok(All(n)) && FULL.Range?
  {
  }

  lemma RowsAccepted(l: Lora, s: Ix)
    requires l == Lora(Tensor([1, 1, 2], [1.0, 1.0]), Tensor([1, 2, 1], [1.0, 1.0])) && Valid(l)
    requires s == Range(None, Some(1), None)
    ensures Plain([FULL, s, FULL]) && GetFull(l, [FULL, s, FULL]).Ok? && Faithful(l, [FULL, s, FULL])
  {
    hide Index, SelOf, Valid, ASubscripts, WellFormed;
    var ixs := [FULL, s, FULL];
    LeadSubscript(l.a.shape[..1], ixs[..1]);
    assert [FULL] + [FULL, FULL] == [FULL, FULL, FULL] && ixs[..2] == [FULL, s];
    AllColumns(l.a);
    OneRow(l.b, s);
  }

  lemma AllColumns(a: Tensor)
    requires a.shape == [1, 1, 2]
    ensures Index(a, [FULL, FULL, FULL]).Ok? && Index(a, [FULL, FULL, FULL]).value.shape == [1, 1, 2]
  {
    hide Index, SelOf, Selected, Kept;
    FullIs(1);
    FullIs(2);
    IndexIs(a, [FULL, FULL, FULL], [All(1), All(1), All(2)]);
    KeptThree(All(1), All(1), All(2));
  }

  lemma OneRow(b: Tensor, s: Ix)
    requires b.shape == [1, 2, 1] && s == Range(None, Some(1), None)
    ensures Index(b, [FULL, s]).Ok? && Index(b, [FULL, s]).value.shape == [1, 1, 1]
  {
    hide Index, SelOf, Selected, Kept;
    FullIs(1);
    FirstEntry(s, 2);
    IndexIs(b, [FULL, s], [All(1), Many(0, 1, 1), All(1)]);
    KeptThree(All(1), Many(0, 1, 1), All(1));
  }

  lemma LeadSubscript(aLead: seq<nat>, ixs: seq<Ix>)
    requires |aLead| == |ixs| == 1 && !ixs[0].Int?
    ensures ASubscripts(ixs, aLead) == Ok([FULL])
  {
    assert ixs[..|ixs| - 1] == [] && aLead[..|aLead| - 1] == [];
    assert ASubscripts([], []) == Ok([]);
    assert ASubscript(ixs[|ixs| - 1], aLead[|aLead| - 1]) == Ok(FULL);
    assert ASubscripts(ixs, aLead).Ok?;
    assert ASubscripts(ixs, aLead).value == [FULL];
  }

  lemma SlicedShapes(w: Tensor, s: Ix)
    requires w.shape == [1, 2, 2] && s == Range(None, Some(1), None)
    ensures Index(w, [FULL, s, FULL]).Ok? && Index(w, [FULL, s, FULL]).value.shape == [1, 1, 2]
    ensures Index(w, [FULL, FULL, s]).Ok? && Index(w, [FULL, FULL, s]).value.shape == [1, 2, 1]
  {
    hide Index, SelOf, Selected, Kept;
    FullIs(1);
    FullIs(2);
    FirstEntry(s, 2);
    IndexIs(w, [FULL, s, FULL], [All(1), Many(0, 1, 1), All(2)]);
    IndexIs(w, [FULL, FULL, s], [All(1), All(2), Many(0, 1, 1)]);
    KeptThree(All(1), Many(0, 1, 1), All(2));
    KeptThree(All(1), All(2), Many(0, 1, 1));
  }
}
