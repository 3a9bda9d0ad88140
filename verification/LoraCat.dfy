/**
 When the concatenation of factored weights with three or more axes is right whatever the entries
 of the factors: a condition on their shapes alone.
 */
module LoraCat {
  import opened Wrappers
  import opened Tensors
  import opened Lora
  import opened LoraPieces
  import opened LoraJoin
  import opened LoraEllipsis

  predicate Members(ls: seq<Lora>) {
    forall l :: l in ls ==> Valid(l)
  }

  predicate Alike(ls: seq<Lora>, ms: seq<Lora>) {
    |ls| == |ms| && forall i :: 0 <= i < |ls| ==> SameShapes(ls[i], ms[i])
  }

  /** The pair is a weight, and stands for the concatenation of the products. */
  ghost predicate CatRight(ls: seq<Lora>)
    requires Members(ls)
  {
    && CatLora(ls).Ok? && Valid(CatLora(ls).value)
    && Cat(Products(ls), 0) == Ok(Materialise(CatLora(ls).value))
  }

  /** The concatenation is right for every list of weights with factors of these shapes. */
  ghost predicate AlwaysCatRight(ls: seq<Lora>) {
    forall ms: seq<Lora> :: Members(ms) && Alike(ls, ms) ==> CatRight(ms)
  }

  // ----- rows of the concatenated A -----

  /** Where part j begins. */
  function Start(sizes: seq<nat>, j: nat): nat
    requires j < |sizes|
    decreases sizes
  {
    if j == 0 then 0 else sizes[0] + Start(sizes[1..], j - 1)
  }

  lemma {:induction false} StartOfPart(sizes: seq<nat>, x: nat)
    requires x < Total(sizes)
    ensures Start(sizes, Part(sizes, x)) + Offset(sizes, x) == x
    decreases sizes
  {
    if x >= sizes[0] { StartOfPart(sizes[1..], x - sizes[0]); }
  }

  /** The row of the concatenated A that belongs to row x of the concatenated B. */
  function ARow(low: seq<nat>, high: seq<nat>, x: nat): nat
    requires |low| == |high| && x < Total(high)
  {
    var j := Part(high, x);
    Start(low, j) + (if low[j] == 1 then 0 else Offset(high, x))
  }

  predicate Broadcasts(low: seq<nat>, high: seq<nat>) {
    |low| == |high| && forall i :: 0 <= i < |low| ==> low[i] == 1 || low[i] == high[i]
  }

  lemma ARowTail(low: seq<nat>, high: seq<nat>, x: nat)
    requires |low| == |high| > 0 && x < Total(high[1..])
    ensures high[0] + x < Total(high) && ARow(low, high, high[0] + x) == low[0] + ARow(low[1..], high[1..], x)
  {
  }

  lemma ARowHead(low: seq<nat>, high: seq<nat>, x: nat)
    requires |low| == |high| > 0 && x < high[0]
    ensures x < Total(high) && ARow(low, high, x) == if low[0] == 1 then 0 else x
  {
  }

  /** Behind a surplus of rows every row is misplaced. */
  lemma {:induction false} RowBehind(low: seq<nat>, high: seq<nat>, surplus: nat) returns (x: nat)
    requires Broadcasts(low, high) && surplus > 0 && Total(high) > 0
    ensures x < Total(high) && surplus + ARow(low, high, x) != x
    decreases low
  {
    hide ARow;
    if high[0] > 0 {
      x := 0;
      ARowHead(low, high, 0);
    } else {
      var y := RowBehind(low[1..], high[1..], surplus + low[0]);
      ARowTail(low, high, y);
      x := y;
    }
  }

  /** Equally many rows in all, and not part by part: some row is misplaced. */
  lemma {:induction false} MisplacedRow(low: seq<nat>, high: seq<nat>) returns (x: nat)
    requires Broadcasts(low, high) && Total(low) == Total(high) && low != high
    ensures x < Total(high) && ARow(low, high, x) != x
    decreases low
  {
    hide ARow;
    assert low == [low[0]] + low[1..] && high == [high[0]] + high[1..];
    if low[0] == high[0] {
      var y := MisplacedRow(low[1..], high[1..]);
      ARowTail(low, high, y);
      x := high[0] + y;
    } else if high[0] > 1 {
      x := 1;
      ARowHead(low, high, 1);
    } else {
      var y := RowBehind(low[1..], high[1..], 1);
      ARowTail(low, high, y);
      x := y;
    }
  }

  lemma {:induction false} TotalAtLeast(sizes: seq<nat>, j: nat)
    requires j < |sizes|
    ensures Start(sizes, j) + sizes[j] <= Total(sizes)
    decreases sizes
  {
    if j > 0 { TotalAtLeast(sizes[1..], j - 1); }
  }

  lemma {:induction false} PartAt(sizes: seq<nat>, j: nat, o: nat)
    requires j < |sizes| && o < sizes[j]
    ensures Start(sizes, j) + o < Total(sizes)
    ensures Part(sizes, Start(sizes, j) + o) == j && Offset(sizes, Start(sizes, j) + o) == o
    decreases sizes
  {
    TotalAtLeast(sizes, j);
    if j > 0 { PartAt(sizes[1..], j - 1, o); }
  }

  /** With one row of A in all, that is the row of every row of B. */
  lemma OnlyRow(low: seq<nat>, high: seq<nat>, x: nat)
    requires Broadcasts(low, high) && Total(low) == 1 && x < Total(high)
    ensures Part(low, 0) == Part(high, x) && Offset(low, 0) == 0 && low[Part(high, x)] == 1
  {
    hide Part, Offset, Total, Start;
    var j := Part(high, x);
    TotalAtLeast(low, j);
    assert Offset(high, x) < high[j];
    PartAt(low, j, 0);
  }

  // ----- acceptance depends on shapes alone -----

  lemma AlikeAccepted(ls: seq<Lora>, ms: seq<Lora>)
    requires CatAccepted(ls) && Alike(ls, ms) && Members(ms)
    requires |ls[0].b.shape| > 2
    ensures CatAccepted(ms) && |ms[0].b.shape| > 2
    ensures CatLora(ms).value.a.shape == CatLora(ls).value.a.shape
    ensures CatLora(ms).value.b.shape == CatLora(ls).value.b.shape
    ensures Heights(ms) == Heights(ls) && AHeights(ms) == AHeights(ls)
  {
    hide AxisTotal, Total;
    AlikeTensors(As(ls), As(ms));
    AlikeTensors(Bs(ls), Bs(ms));
    hide Cat;
    forall i | 0 <= i < |ms| ensures Valid(ms[i]) {
      assert ms[i] in ms;
    }
  }

  lemma {:induction false} AlikeTotals(ts: seq<Tensor>, us: seq<Tensor>)
    requires |ts| == |us| && forall i :: 0 <= i < |ts| ==> ts[i].shape == us[i].shape
    ensures AxisTotal(ts, 0) == AxisTotal(us, 0)
    decreases ts
  {
    if ts != [] { AlikeTotals(ts[1..], us[1..]); }
  }

  lemma AlikeTensors(ts: seq<Tensor>, us: seq<Tensor>)
    requires |ts| == |us| && forall i :: 0 <= i < |ts| ==> ts[i].shape == us[i].shape
    ensures Cat(ts, 0).Ok? <==> Cat(us, 0).Ok?
    ensures Cat(ts, 0).Ok? ==> Cat(ts, 0).value.shape == Cat(us, 0).value.shape
  {
    AlikeTotals(ts, us);
    hide AxisTotal;
    if Aligned(ts, 0) { CatShape(ts, 0); }
    if Aligned(us, 0) { CatShape(us, 0); }
  }

  // ----- where it is right -----

  lemma HeightsBroadcast(ls: seq<Lora>)
    requires CatAccepted(ls) && |ls[0].b.shape| > 2
    ensures Broadcasts(AHeights(ls), Heights(ls))
  {
    forall i | 0 <= i < |ls| ensures AHeights(ls)[i] == 1 || AHeights(ls)[i] == Heights(ls)[i] {
      LeadHeights(ls, i);
    }
  }

  /** An entry of the concatenated A is one of its part's. */
  lemma AAt(ls: seq<Lora>, c: seq<nat>)
    requires CatAccepted(ls) && |ls[0].b.shape| > 2 && InBounds(CatLora(ls).value.a.shape, c)
    ensures |c| > 0 && c[0] < Total(AHeights(ls))
    ensures At(CatLora(ls).value.a, c) == At(ls[Part(AHeights(ls), c[0])].a, Moved(c, Offset(AHeights(ls), c[0])))
  {
    hide At, Cat, CatLora, CatAt, Total, WellFormed, Valid, Part, Offset;
    CatNonEmpty(ls);
    CatShared(ls, 0);
    CatAtIs(As(ls), 0, c);
    CatAtPart(As(ls), AHeights(ls), c);
  }

  /** Columns of the only row of A. */
  lemma OnlyColumn(shape: seq<nat>, inner: seq<nat>, idx: seq<nat>, o: nat, k: nat)
    requires |shape| == |inner| == |idx| >= 3 && shape[0 := inner[0]] == inner
    requires shape[0] == 1 && inner[0] == 1
    ensures ColIndex(shape, idx, k)[0] == 0
    ensures ColIndex(shape, idx, k) == ColIndex(inner, Moved(idx, o), k)
  {
    var n := |idx| - 2;
    assert shape == inner;
    var c, c' := Project(shape[..n], idx[..n]), Project(inner[..n], Moved(idx, o)[..n]);
    assert c == c';
  }

  lemma OnlyRowEntry(ls: seq<Lora>, idx: seq<nat>, k: nat)
    requires CatAccepted(ls) && |ls[0].b.shape| > 2 && Total(AHeights(ls)) == 1
    requires var r := CatLora(ls).value; Valid(r) && InBounds(r.Shape(), idx) && k < r.Rank()
    requires |idx| > 0 && idx[0] < Total(Heights(ls))
    ensures var r, j := CatLora(ls).value, Part(Heights(ls), idx[0]);
            && |r.a.shape| == |ls[j].a.shape| == |idx| >= 2
            && At(r.a, ColIndex(r.a.shape, idx, k))
               == At(ls[j].a, ColIndex(ls[j].a.shape, Moved(idx, Offset(Heights(ls), idx[0])), k))
  {
    hide At, Cat, CatLora, Total, WellFormed, Valid, Part, Offset, ColIndex;
    var r, j, o := CatLora(ls).value, Part(Heights(ls), idx[0]), Offset(Heights(ls), idx[0]);
    CatShared(ls, j);
    ValidRank(r);
    HeightsBroadcast(ls);
    OnlyRow(AHeights(ls), Heights(ls), idx[0]);
    assert ls[j].a.shape[0] == AHeights(ls)[j] == 1 && r.a.shape[0] == 1;
    assert r.a.shape[0 := ls[j].a.shape[0]] == ls[j].a.shape;
    OnlyColumn(r.a.shape, ls[j].a.shape, idx, o, k);
    FactorsInBounds(r, idx, k);
    var c := ColIndex(r.a.shape, idx, k);
    AAt(ls, c);
    assert Moved(c, 0) == c;
  }

  predicate NoEntry(shape: seq<nat>) {
    Numel(shape) == 0
  }

  /** The condition on the shapes of the parts. */
  predicate CatFair(ls: seq<Lora>)
    requires CatAccepted(ls)
  {
    var r := CatLora(ls).value;
    || Unbroadcast(ls)
    || Total(AHeights(ls)) == 1
    || (Total(AHeights(ls)) == Total(Heights(ls)) && |r.a.shape| > 0 && |r.b.shape| > 0 && (NoEntry(r.Shape()) || r.Rank() == 0))
  }

  lemma InBoundsHasEntry(shape: seq<nat>, idx: seq<nat>)
    requires InBounds(shape, idx)
    ensures !NoEntry(shape)
  {
    FlatInRange(shape, idx);
  }

  lemma SameEntry(ls: seq<Lora>, idx: seq<nat>)
    requires CatAccepted(ls) && |ls[0].b.shape| > 2 && Valid(CatLora(ls).value)
    requires var r := CatLora(ls).value; InBounds(r.Shape(), idx) && (Total(AHeights(ls)) == 1 || r.Rank() == 0)
    requires |idx| > 0 && idx[0] < Total(Heights(ls))
    ensures var r, j, m := CatLora(ls).value, Part(Heights(ls), idx[0]), Moved(idx, Offset(Heights(ls), idx[0]));
            && |r.a.shape| == |r.b.shape| == |idx| >= 2 && |ls[j].a.shape| == |ls[j].b.shape| == |m| >= 2
            && Entry(r, idx) == Entry(ls[j], m)
  {
    hide At, Cat, CatLora, Total, WellFormed, Valid, Part, Offset, ColIndex, RowIndex, Entry;
    var r, j := CatLora(ls).value, Part(Heights(ls), idx[0]);
    var m := Moved(idx, Offset(Heights(ls), idx[0]));
    CatShared(ls, j);
    ValidRank(r);
    forall k: nat | k < r.Rank()
      ensures At(r.b, RowIndex(idx, k)) == At(ls[j].b, RowIndex(m, k))
      ensures At(r.a, ColIndex(r.a.shape, idx, k)) == At(ls[j].a, ColIndex(ls[j].a.shape, m, k))
    {
      CatRow(ls, idx, k);
      OnlyRowEntry(ls, idx, k);
    }
    Reindexed(ls[j], r, idx, m);
  }

  /** Where the condition holds the concatenation is right. */
  lemma FairIsRight(ls: seq<Lora>)
    requires CatAccepted(ls) && |ls[0].b.shape| > 2 && Members(ls) && CatFair(ls)
    ensures CatRight(ls)
  {
    hide At, Cat, CatLora, Total, WellFormed, Valid, Entry, Materialise, Products, NoEntry, InBounds;
    if Unbroadcast(ls) {
      CatCommutes(ls);
    } else {
      CatExactlyWhen(ls);
      CatProductsShape(ls);
      var r, p := CatLora(ls).value, Cat(Products(ls), 0).value;
      forall idx | InBounds(p.shape, idx) ensures |idx| == |r.a.shape| == |r.b.shape| >= 2 && At(p, idx) == Entry(r, idx) {
        FirstInBounds(p.shape, idx);
        InBoundsHasEntry(p.shape, idx);
        CatProductAt(ls, idx);
        SameEntry(ls, idx);
      }
      ProductIs(r, p);
    }
  }

  // ----- where it is wrong -----

  function RowNumber(start: nat): seq<nat> -> real {
    (idx: seq<nat>) => if |idx| > 0 then (start + idx[0]) as real else 0.0
  }

  /** A weight of the same shapes: each entry of A is the number of its row, and B is all ones. */
  function Numbered(l: Lora, start: nat): Lora {
    Lora(Build(l.a.shape, RowNumber(start)), Build(l.b.shape, OnesFn()))
  }

  function AllNumbered(ls: seq<Lora>): (ms: seq<Lora>)
    ensures |ms| == |ls| && forall i :: 0 <= i < |ls| ==> ms[i] == Numbered(ls[i], Start(AHeights(ls), i))
  {
    seq(|ls|, i requires 0 <= i < |ls| => Numbered(ls[i], Start(AHeights(ls), i)))
  }

  lemma NumberedValid(ls: seq<Lora>)
    requires AllValid(ls)
    ensures Members(AllNumbered(ls)) && Alike(ls, AllNumbered(ls))
  {
    hide Build, Valid;
    var ms := AllNumbered(ls);
    forall i | 0 <= i < |ls| ensures Valid(ms[i]) && SameShapes(ls[i], ms[i]) {
      BuiltValid(ls[i], RowNumber(Start(AHeights(ls), i)), OnesFn());
    }
  }

  lemma {:induction false} SumOfSame(n: nat, f: nat -> real, c: real)
    requires forall k: nat :: k < n ==> f(k) == c
    ensures Sum(n, f) == n as real * c
    decreases n
  {
    if n > 0 {
      SumOfSame(n - 1, f, c);
      assert n as real * c == (n - 1) as real * c + c;
    }
  }

  lemma ColumnRow(shape: seq<nat>, idx: seq<nat>, k: nat)
    requires |shape| == |idx| >= 3
    ensures ColIndex(shape, idx, k)[0] == if shape[0] == 1 then 0 else idx[0]
  {
  }

  lemma NumberedEntry(l: Lora, start: nat, idx: seq<nat>)
    requires Valid(l) && InBounds(l.Shape(), idx) && |l.b.shape| > 2
    ensures var m := Numbered(l, start);
            && |idx| == |m.a.shape| == |m.b.shape| >= 3
            && Entry(m, idx) == l.Rank() as real * (start + (if l.a.shape[0] == 1 then 0 else idx[0])) as real
  {
    hide Build, At, Sum, Term;
    ValidRank(l);
    var m := Numbered(l, start);
    var row := start + (if l.a.shape[0] == 1 then 0 else idx[0]);
    forall k: nat | k < l.Rank() ensures Term(m, idx)(k) == row as real {
      BuiltTerm(l, RowNumber(start), OnesFn(), idx, k);
      ColumnRow(l.a.shape, idx, k);
    }
    SumOfSame(l.Rank(), Term(m, idx), row as real);
  }

  /** The concatenation of numbered A factors is numbered throughout. */
  lemma NumberedRows(ls: seq<Lora>, c: seq<nat>)
    requires CatAccepted(ls) && |ls[0].b.shape| > 2
    requires CatAccepted(AllNumbered(ls)) && |AllNumbered(ls)[0].b.shape| > 2
    requires AHeights(AllNumbered(ls)) == AHeights(ls)
    requires InBounds(CatLora(AllNumbered(ls)).value.a.shape, c)
    ensures |c| > 0 && At(CatLora(AllNumbered(ls)).value.a, c) == c[0] as real
  {
    hide At, Cat, CatLora, Total, WellFormed, Valid, Part, Offset, Build, Start;
    var ms := AllNumbered(ls);
    AAt(ms, c);
    var low := AHeights(ls);
    var j, o := Part(low, c[0]), Offset(low, c[0]);
    CatShared(ms, j);
    StartOfPart(low, c[0]);
    assert ms[j] == Numbered(ls[j], Start(low, j));
    assert o < low[j] == ls[j].a.shape[0];
    MovedInBounds(CatLora(ms).value.a.shape, ls[j].a.shape, c, o);
    BuildAt(ls[j].a.shape, RowNumber(Start(low, j)), Moved(c, o));
  }

  lemma MovedInBounds(shape: seq<nat>, inner: seq<nat>, c: seq<nat>, o: nat)
    requires |inner| > 0 && |shape| == |inner| && shape == inner[0 := shape[0]] && InBounds(shape, c) && o < inner[0]
    ensures InBounds(inner, Moved(c, o))
  {
    forall i | 0 < i < |c| ensures c[i] < inner[i] {
      assert shape[i] == inner[0 := shape[0]][i];
    }
  }

  lemma NumberedCatEntry(ls: seq<Lora>, idx: seq<nat>)
    requires CatAccepted(ls) && |ls[0].b.shape| > 2 && Total(AHeights(ls)) != 1
    requires var ms := AllNumbered(ls);
      && CatAccepted(ms) && |ms[0].b.shape| > 2 && AHeights(ms) == AHeights(ls) && Valid(CatLora(ms).value)
      && InBounds(CatLora(ms).value.Shape(), idx) && |idx| > 0 && idx[0] < Total(Heights(ms))
    ensures var r := CatLora(AllNumbered(ls)).value;
            && |idx| == |r.a.shape| == |r.b.shape| >= 3
            && Entry(r, idx) == r.Rank() as real * idx[0] as real
  {
    hide At, Cat, CatLora, Total, WellFormed, Valid, Part, Offset, Build, Start, ColIndex, RowIndex, Sum, Term;
    var ms := AllNumbered(ls);
    var r := CatLora(ms).value;
    CatNonEmpty(ms);
    CatShared(ms, 0);
    ValidRank(r);
    assert r.a.shape[0] == Total(AHeights(ms));
    forall k: nat | k < r.Rank() ensures Term(r, idx)(k) == idx[0] as real {
      FactorsInBounds(r, idx, k);
      ColumnRow(r.a.shape, idx, k);
      NumberedRows(ls, ColIndex(r.a.shape, idx, k));
      OnesInRow(ls, idx, k);
      TermIs(r, idx, k);
    }
    SumOfSame(r.Rank(), Term(r, idx), idx[0] as real);
  }

  lemma TermIs(l: Lora, idx: seq<nat>, k: nat)
    requires |idx| == |l.a.shape| >= 2
    ensures Term(l, idx)(k) == At(l.b, RowIndex(idx, k)) * At(l.a, ColIndex(l.a.shape, idx, k))
  {
    hide At, RowIndex, ColIndex;
  }

  lemma OnesInRow(ls: seq<Lora>, idx: seq<nat>, k: nat)
    requires CatAccepted(ls) && |ls[0].b.shape| > 2
    requires var ms := AllNumbered(ls);
      && CatAccepted(ms) && |ms[0].b.shape| > 2 && Valid(CatLora(ms).value)
      && InBounds(CatLora(ms).value.Shape(), idx) && |idx| > 0 && idx[0] < Total(Heights(ms))
      && k < CatLora(ms).value.Rank()
    ensures At(CatLora(AllNumbered(ls)).value.b, RowIndex(idx, k)) == 1.0
  {
    hide At, Cat, CatLora, Total, WellFormed, Valid, Part, Offset, Build, Start, ColIndex, RowIndex;
    var ms := AllNumbered(ls);
    var j, o := Part(Heights(ms), idx[0]), Offset(Heights(ms), idx[0]);
    CatRow(ms, idx, k);
    CatShared(ms, j);
    assert o < ms[j].b.shape[0] by { HeightIs(ms, j); }
    PartInBounds(ms, idx, j, o);
    FactorsInBounds(ms[j], Moved(idx, o), k);
    assert ms[j] == Numbered(ls[j], Start(AHeights(ls), j));
    BuildAt(ls[j].b.shape, OnesFn(), RowIndex(Moved(idx, o), k));
  }

  lemma PartInBounds(ms: seq<Lora>, idx: seq<nat>, j: nat, o: nat)
    requires CatAccepted(ms) && |ms[0].b.shape| > 2 && j < |ms| && Valid(CatLora(ms).value)
    requires InBounds(CatLora(ms).value.Shape(), idx) && o < ms[j].b.shape[0]
    ensures |idx| > 0 && InBounds(ms[j].Shape(), Moved(idx, o))
  {
    hide At, Cat, CatLora, Total, WellFormed, Valid;
    CatShared(ms, j);
    ValidRank(ms[j]);
    MovedInBounds(CatLora(ms).value.Shape(), ms[j].Shape(), idx, o);
  }

  /** Numbered factors tell a misplaced row. */
  lemma NumbersTell(ls: seq<Lora>, idx: seq<nat>)
    requires CatAccepted(ls) && |ls[0].b.shape| > 2 && Total(AHeights(ls)) != 1 && CatLora(ls).value.Rank() > 0
    requires Members(AllNumbered(ls)) && CatRight(AllNumbered(ls)) && CatAccepted(AllNumbered(ls))
    requires var ms := AllNumbered(ls);
      && |ms[0].b.shape| > 2 && AHeights(ms) == AHeights(ls) && Heights(ms) == Heights(ls)
      && CatLora(ms).value.b.shape == CatLora(ls).value.b.shape
      && InBounds(CatLora(ms).value.Shape(), idx) && |idx| > 0 && idx[0] < Total(Heights(ls))
    ensures ARow(AHeights(ls), Heights(ls), idx[0]) == idx[0]
  {
    hide At, Cat, CatLora, Total, WellFormed, Valid, Part, Offset, Build, Start, Entry, Materialise, Products;
    var ms := AllNumbered(ls);
    var r := CatLora(ms).value;
    var j, o := Part(Heights(ls), idx[0]), Offset(Heights(ls), idx[0]);
    CatProductsShape(ms);
    CatProductAt(ms, idx);
    MaterialiseAt(r, idx);
    NumberedCatEntry(ls, idx);
    CatShared(ms, j);
    CatShared(ls, j);
    var start := Start(AHeights(ls), j);
    assert ms[j] == Numbered(ls[j], start);
    assert ls[j].Shape() == ms[j].Shape();
    NumberedEntry(ls[j], start, Moved(idx, o));
    assert AHeights(ls)[j] == ls[j].a.shape[0];
    var row := ARow(AHeights(ls), Heights(ls), idx[0]);
    assert row == start + (if ls[j].a.shape[0] == 1 then 0 else Moved(idx, o)[0]);
    SameFactor(r.Rank(), idx[0], row, Entry(r, idx), Entry(ms[j], Moved(idx, o)));
  }

  lemma SameFactor(n: nat, x: nat, y: nat, p: real, q: real)
    requires n > 0 && p == n as real * x as real && q == n as real * y as real && p == q
    ensures x == y
  {
  }

  lemma FirstMoved(shape: seq<nat>, x: nat) returns (idx: seq<nat>)
    requires |shape| > 0 && !NoEntry(shape) && x < shape[0]
    ensures InBounds(shape, idx) && |idx| > 0 && idx[0] == x
  {
    UnflatInBounds(shape, 0);
    idx := Moved(Unflat(shape, 0), x);
  }

  /** Where the concatenation is right for all weights of these shapes, the condition holds. */
  lemma RightIsFair(ls: seq<Lora>)
    requires CatAccepted(ls) && |ls[0].b.shape| > 2 && Members(ls) && AlwaysCatRight(ls)
    ensures CatFair(ls)
  {
    hide At, Cat, CatLora, Total, WellFormed, Valid, Build, NoEntry, ARow, CatRight;
    assert Alike(ls, ls);
    assert CatRight(ls);
    RightIsValid(ls);
    CatExactlyWhen(ls);
    var r := CatLora(ls).value;
    ValidRank(r);
    if !CatFair(ls) {
      var low, high := AHeights(ls), Heights(ls);
      HeightsBroadcast(ls);
      var x := MisplacedRow(low, high);
      CatProductsShape(ls);
      var idx := FirstMoved(r.Shape(), x);
      NumberedValid(ls);
      var ms := AllNumbered(ls);
      AlikeAccepted(ls, ms);
      assert CatRight(ms);
      NumbersTell(ls, idx);
      assert false;
    }
  }

  lemma RightIsValid(ls: seq<Lora>)
    requires Members(ls) && CatRight(ls)
    ensures CatLora(ls).Ok? && Valid(CatLora(ls).value)
  {
  }

  /**
   An accepted concatenation of parts with three or more axes is right for all weights of these shapes
   exactly when no A factor broadcasts along the first axis, or the A factors have one row in all, or
   as many rows as the B factors while W has no entry or no summands.
   */
  lemma CatRightExactlyWhen(ls: seq<Lora>)
    requires CatAccepted(ls) && |ls[0].b.shape| > 2
    ensures AlwaysCatRight(ls) <==> CatFair(ls)
  {
    hide At, Cat, CatLora, Total, WellFormed, Valid, Build, NoEntry, CatRight;
    forall l | l in ls ensures Valid(l) {
      var i :| 0 <= i < |ls| && ls[i] == l;
    }
    if CatFair(ls) {
      forall ms: seq<Lora> | Members(ms) && Alike(ls, ms) ensures CatRight(ms) {
        AlikeFair(ls, ms);
        FairIsRight(ms);
      }
    }
    if AlwaysCatRight(ls) { RightIsFair(ls); }
  }

  lemma AlikeFair(ls: seq<Lora>, ms: seq<Lora>)
    requires CatAccepted(ls) && Alike(ls, ms) && Members(ms) && |ls[0].b.shape| > 2 && CatFair(ls)
    ensures CatAccepted(ms) && |ms[0].b.shape| > 2 && CatFair(ms)
  {
    hide At, Cat, CatLora, Total, WellFormed, Valid, NoEntry;
    AlikeAccepted(ls, ms);
  }
}
