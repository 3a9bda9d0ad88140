/** The subscript forms of LoraTorchTensor.__getitem__ and exactly when each of them is right. */
module LoraGetitem {
  import opened Wrappers
  import opened Tensors
  import opened Selections
  import opened Lora
  import opened LoraIndex

  // ---------- a subscript for every axis

  /** What A gets for a leading subscript: a number modulo its own length, anything else dropped. */
  function ASubscript(ix: Ix, aLen: nat): Result<Ix, TensorError> {
    if !ix.Int? then Ok(FULL) else if aLen == 0 then Err(DivisionByZero) else Ok(Int(ix.i % aLen))
  }

  function ASubscripts(ixs: seq<Ix>, aLead: seq<nat>): (r: Result<seq<Ix>, TensorError>)
    requires |ixs| == |aLead|
    ensures r.Ok? ==> |r.value| == |ixs| && forall i :: 0 <= i < |ixs| ==> ASubscript(ixs[i], aLead[i]) == Ok(r.value[i])
    decreases |ixs|
  {
    if ixs == [] then Ok([])
    else
      var n := |ixs| - 1;
      var front :- ASubscripts(ixs[..n], aLead[..n]);
      var last :- ASubscript(ixs[n], aLead[n]);
      Ok(front + [last])
  }

  predicate Plain(ixs: seq<Ix>) {
    Dots !in ixs
  }

  function GetFull(l: Lora, ixs: seq<Ix>): Result<Lora, TensorError>
    requires Valid(l) && |ixs| == |l.b.shape| && Plain(ixs)
  {
    var n := |ixs|;
    var lead :- ASubscripts(ixs[..n - 2], l.a.shape[..n - 2]);
    var a :- Index(l.a, lead + [FULL, ixs[n - 1]]);
    var b :- Index(l.b, ixs[..n - 1]);
    Make(a, b)
  }

  /** The range takes every entry of an axis of length n. */
  predicate KeepsAll(ix: Ix, n: nat) {
    SelOf(ix, n).Ok? && ix.Range? && SelOf(ix, n).value.count == n
  }

  /**
   Rows and columns are ranges, and a range on a leading axis either keeps all of it or meets an
   axis of length one in A.
   */
  predicate Faithful(l: Lora, ixs: seq<Ix>)
    requires Valid(l) && |ixs| == |l.b.shape|
  {
    var n := |ixs|;
    && ixs[n - 2].Range? && ixs[n - 1].Range?
    && forall i :: 0 <= i < n - 2 && ixs[i].Range? ==> l.a.shape[i] == 1 || KeepsAll(ixs[i], l.b.shape[i])
  }

  function LeadSel(s: Sel, aLen: nat): Sel {
    if s.One? then One(if aLen == 1 then 0 else s.pos) else All(aLen)
  }

  function LeadSels(lead: seq<Sel>, aLead: seq<nat>): (r: seq<Sel>)
    requires |lead| == |aLead|
    ensures |r| == |lead| && forall i :: 0 <= i < |r| ==> r[i] == LeadSel(lead[i], aLead[i])
  {
    seq(|lead|, i requires 0 <= i < |lead| => LeadSel(lead[i], aLead[i]))
  }

  lemma ModOfLength(i: int, n: nat)
    requires n > 0 && 0 <= i + n < 2 * n
    ensures i % n == if i < 0 then i + n else i
  {
    if i < 0 {
      assert i == n * -1 + (i + n);
      ModUnique(i, n, -1, i + n);
    } else {
      ModUnique(i, n, 0, i);
    }
  }

  lemma ModUnique(i: int, n: nat, q: int, r: nat)
    requires n > 0 && i == n * q + r && r < n
    ensures i % n == r
  {
    var d := i / n - q;
    assert n * d == r - i % n;
    if d > 0 {
      MulMonotone(1, d, n);
    } else if d < 0 {
      MulMonotone(1, -d, n);
    }
  }

  lemma FullRange(n: nat)
    ensures SelOf(FULL, n) == Ok(All(n))
  {
  }

  lemma ASubscriptSelects(ix: Ix, aLen: nat, bLen: nat)
    requires !ix.Dots? && (aLen == 1 || aLen == bLen)
    requires SelOf(ix, bLen).Ok? && ASubscript(ix, aLen).Ok?
    ensures SelOf(ASubscript(ix, aLen).value, aLen) == Ok(LeadSel(SelOf(ix, bLen).value, aLen))
  {
    if ix.Int? {
      var j := ix.i % aLen;
      assert 0 <= j < aLen;
      if aLen != 1 {
        ModOfLength(ix.i, bLen);
      }
    } else {
      FullRange(aLen);
    }
  }

  /** The selections that the subscripts of a W-shaped tensor stand for. */
  function LeadOf(ixs: seq<Ix>, shape: seq<nat>): (r: seq<Sel>)
    requires |ixs| <= |shape| && forall i :: 0 <= i < |ixs| ==> SelOf(ixs[i], shape[i]).Ok?
    ensures |r| == |ixs| && forall i :: 0 <= i < |r| ==> r[i] == SelOf(ixs[i], shape[i]).value
  {
    seq(|ixs|, i requires 0 <= i < |ixs| => SelOf(ixs[i], shape[i]).value)
  }

  lemma IndexIs(t: Tensor, ixs: seq<Ix>, sels: seq<Sel>)
    requires |ixs| <= |t.shape| == |sels|
    requires forall i :: 0 <= i < |ixs| ==> SelOf(ixs[i], t.shape[i]) == Ok(sels[i])
    requires forall i :: |ixs| <= i < |sels| ==> sels[i] == All(t.shape[i])
    ensures Index(t, ixs) == Ok(Selected(t, sels))
  {
    hide SelOf, Selected;
    var all := ixs + Fulls(|t.shape| - |ixs|);
    forall i | 0 <= i < |all| ensures SelOf(all[i], t.shape[i]) == Ok(sels[i]) {
      if i >= |ixs| {
        assert all[i] == Fulls(|t.shape| - |ixs|)[i - |ixs|];
        FullRange(t.shape[i]);
      }
    }
    assert SelsOf(all, t.shape).value == sels;
  }

  lemma IndexOk(t: Tensor, ixs: seq<Ix>)
    requires Index(t, ixs).Ok?
    ensures |ixs| <= |t.shape|
    ensures forall i :: 0 <= i < |ixs| ==> SelOf(ixs[i], t.shape[i]).Ok?
  {
    hide SelOf, Selected;
    var all := ixs + Fulls(|t.shape| - |ixs|);
    forall i | 0 <= i < |ixs| ensures SelOf(ixs[i], t.shape[i]).Ok? {
      assert all[i] == ixs[i];
    }
  }

  /** The selections behind an accepted subscript, and the two factors they give. */
  lemma FullParts(l: Lora, ixs: seq<Ix>) returns (lead: seq<Sel>, rows: Sel, cols: Sel)
    requires Valid(l) && |ixs| == |l.b.shape| && Plain(ixs) && GetFull(l, ixs).Ok?
    ensures var n := |ixs| - 2;
      && |lead| == n && AllFit(lead, l.b.shape[..n])
      && (forall i :: 0 <= i < n ==> SelOf(ixs[i], l.b.shape[i]) == Ok(lead[i]))
      && SelOf(ixs[n], l.b.shape[n]) == Ok(rows) && SelOf(ixs[n + 1], l.Cols()) == Ok(cols)
      && GetFull(l, ixs) == Make(Selected(l.a, LeadSels(lead, l.a.shape[..n]) + [All(l.Rank())] + [cols]),
                                 Selected(l.b, lead + [rows] + [All(l.Rank())]))
  {
    hide SelOf, Selected, Fits, Index, Make, LeadSel, LeadSels, Plain;
    var n := |ixs| - 2;
    var aIxs := ASubscripts(ixs[..n], l.a.shape[..n]).value;
    IndexOk(l.b, ixs[..n + 1]);
    IndexOk(l.a, aIxs + [FULL, ixs[n + 1]]);
    assert forall i :: 0 <= i <= n ==> ixs[..n + 1][i] == ixs[i];
    assert (aIxs + [FULL, ixs[n + 1]])[n + 1] == ixs[n + 1];
    lead := LeadOf(ixs[..n], l.b.shape[..n]);
    rows := SelOf(ixs[n], l.b.shape[n]).value;
    cols := SelOf(ixs[n + 1], l.Cols()).value;
    FactorA(l, ixs, aIxs, lead, cols);
    FactorB(l, ixs, lead, rows);
    LeadFits(ixs, l.b.shape, lead);
  }

  lemma LeadFits(ixs: seq<Ix>, shape: seq<nat>, lead: seq<Sel>)
    requires |lead| <= |ixs| && |lead| <= |shape|
    requires forall i :: 0 <= i < |lead| ==> SelOf(ixs[i], shape[i]) == Ok(lead[i])
    ensures AllFit(lead, shape[..|lead|])
  {
    hide SelOf, Fits;
    forall i | 0 <= i < |lead| ensures Fits(lead[i], shape[i]) {
      FitsOf(ixs[i], shape[i]);
    }
  }

  lemma FactorA(l: Lora, ixs: seq<Ix>, aIxs: seq<Ix>, lead: seq<Sel>, cols: Sel)
    requires Valid(l) && |ixs| == |l.b.shape| && Plain(ixs)
    requires var n := |ixs| - 2;
      && ASubscripts(ixs[..n], l.a.shape[..n]) == Ok(aIxs) && |lead| == n
      && (forall i :: 0 <= i < n ==> SelOf(ixs[i], l.b.shape[i]) == Ok(lead[i]))
      && SelOf(ixs[n + 1], l.Cols()) == Ok(cols)
    ensures var n := |ixs| - 2;
      Index(l.a, aIxs + [FULL, ixs[n + 1]]) ==
      Ok(Selected(l.a, LeadSels(lead, l.a.shape[..n]) + [All(l.Rank())] + [cols]))
  {
    hide SelOf, Selected, Fits, Index, LeadSel;
    var n := |ixs| - 2;
    var forA := aIxs + [FULL, ixs[n + 1]];
    var sels := LeadSels(lead, l.a.shape[..n]) + [All(l.Rank())] + [cols];
    forall i | 0 <= i < |forA| ensures SelOf(forA[i], l.a.shape[i]) == Ok(sels[i]) {
      if i < n {
        assert ASubscript(ixs[..n][i], l.a.shape[..n][i]) == Ok(aIxs[i]);
        assert ixs[i] in ixs;
        ASubscriptSelects(ixs[i], l.a.shape[i], l.b.shape[i]);
      } else if i == n {
        FullRange(l.Rank());
      }
    }
    IndexIs(l.a, forA, sels);
  }

  lemma FactorB(l: Lora, ixs: seq<Ix>, lead: seq<Sel>, rows: Sel)
    requires Valid(l) && |ixs| == |l.b.shape| && |lead| == |ixs| - 2
    requires forall i :: 0 <= i < |lead| ==> SelOf(ixs[i], l.b.shape[i]) == Ok(lead[i])
    requires SelOf(ixs[|lead|], l.b.shape[|lead|]) == Ok(rows)
    ensures Index(l.b, ixs[..|lead| + 1]) == Ok(Selected(l.b, lead + [rows] + [All(l.Rank())]))
  {
    hide SelOf, Selected, Fits, Index;
    var n, forB := |lead|, ixs[..|lead| + 1];
    var bSels := lead + [rows] + [All(l.Rank())];
    forall i | 0 <= i < |forB| ensures SelOf(forB[i], l.b.shape[i]) == Ok(bSels[i]) {
      if i < n {
        assert bSels[i] == lead[i];
      }
    }
    IndexIs(l.b, forB, bSels);
  }

  // ---------- when it is right

  predicate LeadOk(lead: seq<Sel>, aLead: seq<nat>, bLead: seq<nat>)
    requires |lead| == |aLead| == |bLead|
  {
    forall i :: 0 <= i < |lead| && lead[i].Many? ==> aLead[i] == 1 || lead[i].count == bLead[i]
  }

  lemma {:induction false} LeadShapes(lead: seq<Sel>, aLead: seq<nat>, bLead: seq<nat>)
    requires |lead| == |aLead| == |bLead| && BroadcastsInto(aLead, bLead)
    ensures |Kept(LeadSels(lead, aLead))| == |Kept(lead)|
    ensures BroadcastsInto(Kept(LeadSels(lead, aLead)), Kept(lead)) <==> LeadOk(lead, aLead, bLead)
    decreases |lead|
  {
    hide Kept, LeadOk, BroadcastsInto, LeadSels;
    if lead == [] {
      NoLead(lead, aLead, bLead);
    } else {
      var n := |lead| - 1;
      var front, last := lead[..n], lead[n];
      FrontBroadcasts(aLead, bLead);
      LeadShapes(front, aLead[..n], bLead[..n]);
      var s, t := Kept(LeadSels(front, aLead[..n])), Kept(front);
      LeadUnfolds(lead, aLead, bLead);
      assert lead == front + [last];
      KeptPush(LeadSels(front, aLead[..n]), LeadSel(last, aLead[n]));
      KeptPush(front, last);
      if last.Many? {
        BroadcastPush(s, t, aLead[n], last.count);
      } else {
        assert s + [] == s && t + [] == t;
      }
    }
  }

  lemma NoLead(lead: seq<Sel>, aLead: seq<nat>, bLead: seq<nat>)
    requires lead == [] && |aLead| == |bLead| == 0
    ensures Kept(LeadSels(lead, aLead)) == [] == Kept(lead)
    ensures BroadcastsInto([], []) && LeadOk(lead, aLead, bLead)
  {
  }

  lemma FrontBroadcasts(s: seq<nat>, t: seq<nat>)
    requires BroadcastsInto(s, t) && s != []
    ensures BroadcastsInto(s[..|s| - 1], t[..|s| - 1]) && (s[|s| - 1] == 1 || s[|s| - 1] == t[|s| - 1])
  {
  }

  lemma LeadUnfolds(lead: seq<Sel>, aLead: seq<nat>, bLead: seq<nat>)
    requires |lead| == |aLead| == |bLead| > 0
    ensures var n := |lead| - 1;
      && LeadSels(lead, aLead) == LeadSels(lead[..n], aLead[..n]) + [LeadSel(lead[n], aLead[n])]
      && (LeadOk(lead, aLead, bLead) <==>
          LeadOk(lead[..n], aLead[..n], bLead[..n]) && (lead[n].Many? ==> aLead[n] == 1 || lead[n].count == bLead[n]))
  {
  }

  /** A range that keeps a whole axis keeps every entry in place. */
  lemma WholeRange(s: Sel, n: nat, x: nat)
    requires s.Many? && Fits(s, n) && s.count == n && x < n
    ensures Pos(s, x) == x
  {
    if n > 1 {
      assert s.step == 1 by {
        if s.step > 1 {
          MulMonotone(2, s.step, n - 1);
        }
      }
    }
  }

  lemma PosOfAll(n: nat, x: nat)
    ensures Pos(All(n), x) == x
  {
  }

  lemma AxisMatches(sel: Sel, aLen: nat, bLen: nat)
    requires (aLen == 1 || aLen == bLen) && Fits(sel, bLen) && (sel.Many? ==> aLen == 1 || sel.count == bLen)
    ensures MatchAxis(LeadSel(sel, aLen), sel, aLen)
  {
    hide Pos, Fits;
    if sel.Many? {
      var aSel := LeadSel(sel, aLen);
      forall x: nat | x < sel.count
        ensures ShownAt(aSel, x) == NeededAt(sel, aLen, x)
      {
        PosOfAll(aLen, if aLen == 1 then 0 else x);
        if aLen != 1 {
          WholeRange(sel, bLen, x);
        }
      }
    }
  }

  lemma LeadMatches(lead: seq<Sel>, aLead: seq<nat>, bLead: seq<nat>)
    requires |lead| == |aLead| && BroadcastsInto(aLead, bLead) && AllFit(lead, bLead) && LeadOk(lead, aLead, bLead)
    ensures Matches(LeadSels(lead, aLead), lead, aLead)
  {
    hide Fits, MatchAxis, LeadSel;
    forall i | 0 <= i < |lead| ensures MatchAxis(LeadSels(lead, aLead)[i], lead[i], aLead[i]) {
      AxisMatches(lead[i], aLead[i], bLead[i]);
    }
  }

  lemma LeadBroadcasts(l: Lora, n: nat)
    requires Valid(l) && n + 2 == |l.a.shape|
    ensures BroadcastsInto(l.a.shape[..n], l.b.shape[..n])
  {
  }

  lemma FaithfulIs(l: Lora, ixs: seq<Ix>, lead: seq<Sel>)
    requires Valid(l) && |ixs| == |l.b.shape| && |lead| == |ixs| - 2
    requires forall i :: 0 <= i < |lead| ==> SelOf(ixs[i], l.b.shape[i]) == Ok(lead[i])
    ensures Faithful(l, ixs) <==> ixs[|lead|].Range? && ixs[|lead| + 1].Range? &&
                                  LeadOk(lead, l.a.shape[..|lead|], l.b.shape[..|lead|])
  {
    hide SelOf, Valid;
    ValidSizes(l);
    var n := |lead|;
    forall i | 0 <= i < n
      ensures (ixs[i].Range? ==> l.a.shape[i] == 1 || KeepsAll(ixs[i], l.b.shape[i]))
              <==> (lead[i].Many? ==> l.a.shape[..n][i] == 1 || lead[i].count == l.b.shape[..n][i])
    {
      assert SelOf(ixs[i], l.b.shape[i]) == Ok(lead[i]);
    }
  }

  lemma DenseIs(l: Lora, ixs: seq<Ix>, lead: seq<Sel>, rows: Sel, cols: Sel)
    requires Valid(l) && |ixs| == |l.b.shape| && |lead| == |ixs| - 2
    requires forall i :: 0 <= i < |lead| ==> SelOf(ixs[i], l.b.shape[i]) == Ok(lead[i])
    requires SelOf(ixs[|lead|], l.b.shape[|lead|]) == Ok(rows) && SelOf(ixs[|lead| + 1], l.Cols()) == Ok(cols)
    ensures Index(Materialise(l), ixs) == Ok(Selected(Materialise(l), lead + [rows] + [cols]))
  {
    hide SelOf, Selected, Index, Materialise;
    MaterialiseShape(l);
    var sels, shape, n := lead + [rows] + [cols], l.Shape(), |lead|;
    forall i | 0 <= i < |ixs| ensures SelOf(ixs[i], shape[i]) == Ok(sels[i]) {
      if i < n {
        assert sels[i] == lead[i];
      }
    }
    IndexIs(Materialise(l), ixs, sels);
  }

  /** With a number for rows or columns, an accepted result has the wrong number of axes. */
  lemma NumberedAxes(l: Lora, lead: seq<Sel>, aLead: seq<nat>, rows: Sel, cols: Sel, a: Tensor, b: Tensor)
    requires |lead| == |aLead| && |Kept(LeadSels(lead, aLead))| == |Kept(lead)| && (rows.One? || cols.One?)
    requires Valid(l)
    requires a == Selected(l.a, LeadSels(lead, aLead) + [All(l.Rank())] + [cols])
    requires b == Selected(l.b, lead + [rows] + [All(l.Rank())])
    ensures Make(a, b).Ok? ==> |a.shape| == |b.shape| != |Kept(lead + [rows] + [cols])|
  {
    hide Selected, Kept, Valid;
    ValidSizes(l);
    var s := LeadSels(lead, aLead);
    KeptPush(s, All(l.Rank()));
    KeptPush(s + [All(l.Rank())], cols);
    KeptPush(lead, rows);
    KeptPush(lead + [rows], All(l.Rank()));
    KeptPush(lead + [rows], cols);
  }

  /** An accepted subscript for every axis gives the factors of that part of W exactly when it is faithful. */
  lemma FullExactlyWhen(l: Lora, ixs: seq<Ix>)
    requires Valid(l) && |ixs| == |l.b.shape| && Plain(ixs) && GetFull(l, ixs).Ok?
    ensures var r := GetFull(l, ixs).value;
      (Valid(r) && Index(Materialise(l), ixs) == Ok(Materialise(r))) <==> Faithful(l, ixs)
    ensures Index(Materialise(l), ixs).Ok?
    ensures Valid(GetFull(l, ixs).value) && !Faithful(l, ixs) ==>
              |GetFull(l, ixs).value.b.shape| != |Index(Materialise(l), ixs).value.shape|
  {
    hide SelOf, Selected, Index, Materialise, Kept, Fits, Faithful, Valid, GetFull, Matches, BroadcastsInto, AllFit, LeadOk;
    ValidSizes(l);
    var lead, rows, cols := FullParts(l, ixs);
    var n := |lead|;
    var aLead, bLead := l.a.shape[..n], l.b.shape[..n];
    var r := GetFull(l, ixs).value;
    FaithfulIs(l, ixs, lead);
    DenseIs(l, ixs, lead, rows, cols);
    LeadBroadcasts(l, n);
    LeadShapes(lead, aLead, bLead);
    KindsAgree(ixs[n], l.b.shape[n]);
    KindsAgree(ixs[n + 1], l.Cols());
    if rows.Many? && cols.Many? {
      FitsOf(ixs[n], l.b.shape[n]);
      FitsOf(ixs[n + 1], l.Cols());
      assert r == Picked(l, LeadSels(lead, aLead), lead, rows, cols);
      PickedShape(l, LeadSels(lead, aLead), lead, rows, cols);
      if LeadOk(lead, aLead, bLead) {
        LeadMatches(lead, aLead, bLead);
        SelectionCommutes(l, LeadSels(lead, aLead), lead, rows, cols);
      }
    } else {
      NumberedAxes(l, lead, aLead, rows, cols, r.a, r.b);
      if Valid(r) {
        MaterialiseShape(r);
      }
    }
  }

  lemma KindsAgree(ix: Ix, n: nat)
    ensures SelOf(ix, n).Ok? ==> (ix.Range? <==> SelOf(ix, n).value.Many?)
  {
  }

  lemma FitsOf(ix: Ix, n: nat)
    ensures SelOf(ix, n).Ok? ==> Fits(SelOf(ix, n).value, n)
  {
  }

  // ---------- a single number or slice

  function GetNumber(l: Lora, i: int): Result<Lora, TensorError>
    requires Valid(l)
  {
    if |l.b.shape| <= 2 then Err(NotImplemented)
    else
      var a :- Index(l.a, [Int(i)]);
      var b :- Index(l.b, [Int(i)]);
      Make(a, b)
  }

  function GetSlice(l: Lora, s: Ix): Result<Lora, TensorError>
    requires Valid(l) && s.Range?
  {
    if |l.b.shape| > 2 then
      var a :- Index(l.a, [s]);
      var b :- Index(l.b, [s]);
      Make(a, b)
    else
      var b :- Index(l.b, [s]);
      Make(l.a, b)
  }

  function Alls(shape: seq<nat>): (r: seq<Sel>)
    ensures |r| == |shape| && forall i :: 0 <= i < |r| ==> r[i] == All(shape[i])
  {
    seq(|shape|, i requires 0 <= i < |shape| => All(shape[i]))
  }

  /** A subscript of the first axis alone, as selections of every axis. */
  lemma FirstAxis(t: Tensor, ix: Ix, sel: Sel)
    requires |t.shape| >= 1 && SelOf(ix, t.shape[0]) == Ok(sel)
    ensures Index(t, [ix]) == Ok(Selected(t, [sel] + Alls(t.shape[1..])))
  {
    hide SelOf, Selected, Index;
    var sels := [sel] + Alls(t.shape[1..]);
    forall i | 1 <= i < |sels| ensures sels[i] == All(t.shape[i]) {
      assert sels[i] == Alls(t.shape[1..])[i - 1];
    }
    IndexIs(t, [ix], sels);
  }

  lemma AllFits(n: nat)
    ensures Fits(All(n), n)
  {
  }

  /** Taking one part of the first axis of both factors takes it of W, when the parts match. */
  lemma FirstAxisCommutes(l: Lora, aSel: Sel, sel: Sel)
    requires Valid(l) && |l.b.shape| > 2 && Fits(sel, l.b.shape[0])
    requires MatchAxis(aSel, sel, l.a.shape[0])
    ensures var r := Lora(Selected(l.a, [aSel] + Alls(l.a.shape[1..])), Selected(l.b, [sel] + Alls(l.b.shape[1..])));
      Valid(r) && Materialise(r) == Selected(Materialise(l), [sel] + Alls(l.Shape()[1..]))
  {
    hide Fits, MatchAxis, Selected, Kept, Materialise, BroadcastsInto, Alls, Matches, AllFit, Valid;
    ValidSizes(l);
    var n := |l.b.shape| - 2;
    var aSels, lead := [aSel] + Alls(l.a.shape[1..n]), [sel] + Alls(l.b.shape[1..n]);
    var rows, cols := All(l.b.shape[n]), All(l.Cols());
    FirstSplits(l.a.shape, aSel);
    FirstSplits(l.b.shape, sel);
    FirstSplits(l.Shape(), sel);
    assert l.Shape()[1..n] == l.b.shape[1..n];
    assert ASels(l, aSels, cols) == [aSel] + Alls(l.a.shape[1..]);
    assert BSels(l, lead, rows) == [sel] + Alls(l.b.shape[1..]);
    FirstMatches(l, aSel, sel);
    AllFits(l.b.shape[n]);
    AllFits(l.Cols());
    SelectionCommutes(l, aSels, lead, rows, cols);
  }

  lemma FirstSplits(shape: seq<nat>, sel: Sel)
    requires |shape| > 2
    ensures var n := |shape| - 2;
      [sel] + Alls(shape[1..]) == [sel] + Alls(shape[1..n]) + [All(shape[n])] + [All(shape[n + 1])]
  {
  }

  lemma FirstMatches(l: Lora, aSel: Sel, sel: Sel)
    requires Valid(l) && |l.b.shape| > 2 && Fits(sel, l.b.shape[0]) && MatchAxis(aSel, sel, l.a.shape[0])
    ensures var n := |l.b.shape| - 2;
      var aSels, lead := [aSel] + Alls(l.a.shape[1..n]), [sel] + Alls(l.b.shape[1..n]);
      Matches(aSels, lead, l.a.shape[..n]) && AllFit(lead, l.b.shape[..n])
  {
    hide Fits, MatchAxis, LeadSel;
    var n := |l.b.shape| - 2;
    var aSels, lead := [aSel] + Alls(l.a.shape[1..n]), [sel] + Alls(l.b.shape[1..n]);
    forall i | 0 <= i < n
      ensures Fits(lead[i], l.b.shape[..n][i]) && MatchAxis(aSels[i], lead[i], l.a.shape[..n][i])
    {
      if i > 0 {
        assert lead[i] == All(l.b.shape[i]) && aSels[i] == All(l.a.shape[i]);
        AllFits(l.b.shape[i]);
        WholeMatches(l.a.shape[i], l.b.shape[i]);
      }
    }
  }

  lemma WholeMatches(aLen: nat, bLen: nat)
    requires aLen == 1 || aLen == bLen
    ensures MatchAxis(All(aLen), All(bLen), aLen)
  {
    AllFits(bLen);
    AxisMatches(All(bLen), aLen, bLen);
  }

  lemma MakeIs(a: Tensor, b: Tensor)
    requires Valid(Lora(a, b))
    ensures Make(a, b) == Ok(Lora(a, b))
  {
  }

  /** A number on the first of three or more axes: right whenever it is accepted. */
  lemma NumberCommutes(l: Lora, i: int)
    requires Valid(l)
    ensures GetNumber(l, i).Ok? <==>
      |l.b.shape| > 2 && -(l.b.shape[0] as int) <= i < l.b.shape[0] && -(l.a.shape[0] as int) <= i < l.a.shape[0]
    ensures GetNumber(l, i).Ok? ==> var r := GetNumber(l, i).value;
      Valid(r) && Index(Materialise(l), [Int(i)]) == Ok(Materialise(r))
  {
    hide Selected, Materialise, Valid, Index, Make;
    ValidSizes(l);
    if |l.b.shape| > 2 {
      var bSel, aSel := SelOf(Int(i), l.b.shape[0]), SelOf(Int(i), l.a.shape[0]);
      if bSel.Ok? && aSel.Ok? {
        FirstAxis(l.a, Int(i), aSel.value);
        FirstAxis(l.b, Int(i), bSel.value);
        FirstBroadcast(l);
        FirstAxisCommutes(l, aSel.value, bSel.value);
        MaterialiseShape(l);
        FirstAxis(Materialise(l), Int(i), bSel.value);
        MakeIs(Selected(l.a, [aSel.value] + Alls(l.a.shape[1..])), Selected(l.b, [bSel.value] + Alls(l.b.shape[1..])));
      } else {
        if Index(l.a, [Int(i)]).Ok? {
          IndexOk(l.a, [Int(i)]);
        }
        if Index(l.b, [Int(i)]).Ok? {
          IndexOk(l.b, [Int(i)]);
        }
      }
    }
  }

  lemma FirstBroadcast(l: Lora)
    requires Valid(l) && |l.b.shape| > 2
    ensures l.a.shape[0] == 1 || l.a.shape[0] == l.b.shape[0]
  {
  }

  /** How many entries a slice takes of an axis. */
  function Taken(s: Ix, n: nat): nat
    requires s.Range? && SelOf(s, n).Ok?
  {
    SelOf(s, n).value.count
  }

  /** A slice of rows, for two axes: always right. */
  lemma RowSliceCommutes(l: Lora, s: Ix)
    requires Valid(l) && |l.b.shape| == 2 && s.Range? && GetSlice(l, s).Ok?
    ensures var r := GetSlice(l, s).value;
      Valid(r) && Index(Materialise(l), [s]) == Ok(Materialise(r))
  {
    hide Selected, Materialise, Index, Make, SelOf, Valid, Kept, Fits, Matches;
    ValidSizes(l);
    IndexOk(l.b, [s]);
    var sel := SelOf(s, l.b.shape[0]).value;
    FirstAxis(l.b, s, sel);
    MaterialiseShape(l);
    FirstAxis(Materialise(l), s, sel);
    RowsPicked(l, s, sel);
    MakeIs(l.a, Selected(l.b, [sel] + Alls(l.b.shape[1..])));
  }

  lemma RowsPicked(l: Lora, s: Ix, sel: Sel)
    requires Valid(l) && |l.b.shape| == 2 && s.Range? && SelOf(s, l.b.shape[0]) == Ok(sel)
    ensures var r := Lora(l.a, Selected(l.b, [sel] + Alls(l.b.shape[1..])));
      Valid(r) && Materialise(r) == Selected(Materialise(l), [sel] + Alls(l.Shape()[1..]))
  {
    hide Selected, Materialise, SelOf, Kept, Fits;
    FitsOf(s, l.b.shape[0]);
    KindsAgree(s, l.b.shape[0]);
    AllFits(l.Cols());
    SelectedWhole(l.a);
    assert Alls(l.b.shape[1..]) == [All(l.Rank())] && Alls(l.Shape()[1..]) == [All(l.Cols())];
    assert BSels(l, [], sel) == [sel] + Alls(l.b.shape[1..]);
    assert [] + [sel] + [All(l.Cols())] == [sel] + Alls(l.Shape()[1..]);
    assert ASels(l, [], All(l.Cols())) == Alls(l.a.shape);
    SelectionCommutes(l, [], [], sel, All(l.Cols()));
  }

  lemma {:induction false} KeptAlls(shape: seq<nat>)
    ensures Kept(Alls(shape)) == shape
    decreases |shape|
  {
    if shape != [] {
      var n := |shape| - 1;
      KeptAlls(shape[..n]);
      assert Alls(shape) == Alls(shape[..n]) + [All(shape[n])];
      KeptPush(Alls(shape[..n]), All(shape[n]));
    }
  }

  lemma {:induction false} LiftAlls(shape: seq<nat>, idx: seq<nat>)
    requires |idx| == |shape|
    ensures |idx| == |Kept(Alls(shape))| && Lift(Alls(shape), idx) == idx
    decreases |shape|
  {
    KeptAlls(shape);
    if shape != [] {
      var n := |shape| - 1;
      LiftAlls(shape[..n], idx[..n]);
      assert Alls(shape) == Alls(shape[..n]) + [All(shape[n])] && idx == idx[..n] + [idx[n]];
      LiftPush(Alls(shape[..n]), All(shape[n]), idx[..n], idx[n]);
    }
  }

  lemma SelectedWhole(t: Tensor)
    requires WellFormed(t)
    ensures Selected(t, Alls(t.shape)) == t
  {
    hide At, Lift, Kept;
    KeptAlls(t.shape);
    var u := Selected(t, Alls(t.shape));
    forall idx | InBounds(u.shape, idx) ensures At(u, idx) == At(t, idx) {
      SelectedAt(t, Alls(t.shape), idx);
      LiftAlls(t.shape, idx);
    }
    Extensional(u, t);
  }

  /**
   A slice of the first of three or more axes is right exactly when A carries that axis, or the slice
   happens to keep A's single entry there, or it keeps nothing.
   */
  lemma SliceExactlyWhen(l: Lora, s: Ix)
    requires Valid(l) && |l.b.shape| > 2 && s.Range? && GetSlice(l, s).Ok?
    ensures SelOf(s, l.a.shape[0]).Ok? && SelOf(s, l.b.shape[0]).Ok?
    ensures var r := GetSlice(l, s).value;
      (Valid(r) && Index(Materialise(l), [s]) == Ok(Materialise(r)))
      <==> l.a.shape[0] == l.b.shape[0] || Taken(s, l.a.shape[0]) == 1 || Taken(s, l.b.shape[0]) == 0
  {
    hide Selected, Materialise, Valid, Index, Make, SelOf, MatchAxis, Kept, Fits;
    ValidSizes(l);
    IndexOk(l.a, [s]);
    IndexOk(l.b, [s]);
    var aSel, sel := SelOf(s, l.a.shape[0]).value, SelOf(s, l.b.shape[0]).value;
    FirstAxis(l.a, s, aSel);
    FirstAxis(l.b, s, sel);
    FirstBroadcast(l);
    MaterialiseShape(l);
    FirstAxis(Materialise(l), s, sel);
    KindsAgree(s, l.a.shape[0]);
    KindsAgree(s, l.b.shape[0]);
    var a, b := Selected(l.a, [aSel] + Alls(l.a.shape[1..])), Selected(l.b, [sel] + Alls(l.b.shape[1..]));
    if l.a.shape[0] == l.b.shape[0] || aSel.count == 1 || sel.count == 0 {
      SliceMatches(s, l.a.shape[0], l.b.shape[0]);
      FitsOf(s, l.b.shape[0]);
      FirstAxisCommutes(l, aSel, sel);
      MakeIs(a, b);
    } else {
      MadeOf(a, b);
      FitsOf(s, l.a.shape[0]);
      SliceDiffers(l, aSel, sel, a, b);
    }
  }

  lemma SliceMatches(s: Ix, aLen: nat, bLen: nat)
    requires s.Range? && SelOf(s, aLen).Ok? && SelOf(s, bLen).Ok? && (aLen == 1 || aLen == bLen)
    requires aLen == bLen || Taken(s, aLen) == 1 || Taken(s, bLen) == 0
    ensures MatchAxis(SelOf(s, aLen).value, SelOf(s, bLen).value, aLen)
  {
    hide SelOf;
    var aSel, sel := SelOf(s, aLen).value, SelOf(s, bLen).value;
    KindsAgree(s, aLen);
    KindsAgree(s, bLen);
    FitsOf(s, aLen);
    AtMost(aSel, aLen);
    PositionsMatch(aSel, sel, aLen, bLen);
  }

  lemma PositionsMatch(aSel: Sel, sel: Sel, aLen: nat, bLen: nat)
    requires aSel.Many? && sel.Many? && Fits(aSel, aLen) && (aLen == 1 || aLen == bLen)
    requires aLen == 1 ==> aSel.count <= 1
    requires if aLen == bLen then aSel == sel else aSel.count == 1 || sel.count == 0
    ensures MatchAxis(aSel, sel, aLen)
  {
    hide Pos, Fits;
    forall x: nat | x < sel.count
      ensures ShownAt(aSel, x) == NeededAt(sel, aLen, x)
    {
      if aLen == 1 {
        PosInBounds(aSel, 1, 0);
      }
    }
  }

  lemma AtMost(sel: Sel, n: nat)
    requires sel.Many? && Fits(sel, n)
    ensures n == 1 ==> sel.count <= 1 && (sel.count == 1 ==> sel.start == 0)
  {
    if sel.count > 1 {
      MulMonotone(1, sel.count - 1, sel.step);
    }
  }

  lemma SliceDiffers(l: Lora, aSel: Sel, sel: Sel, a: Tensor, b: Tensor)
    requires Valid(l) && |l.b.shape| > 2 && aSel.Many? && sel.Many?
    requires l.a.shape[0] != l.b.shape[0] && aSel.count != 1 && sel.count != 0
    requires Fits(aSel, l.a.shape[0])
    requires a == Selected(l.a, [aSel] + Alls(l.a.shape[1..])) && b == Selected(l.b, [sel] + Alls(l.b.shape[1..]))
    ensures !Valid(Lora(a, b))
  {
    hide Selected, Kept, Fits;
    FirstKept(aSel, l.a.shape[1..]);
    FirstKept(sel, l.b.shape[1..]);
    FirstBroadcast(l);
    AtMost(aSel, 1);
    assert a.shape[0] == 0 && b.shape[0] != 0;
  }

  lemma MadeOf(a: Tensor, b: Tensor)
    ensures Make(a, b).Ok? ==> Make(a, b).value == Lora(a, b)
  {
  }

  lemma {:induction false} KeptLed(sel: Sel, sels: seq<Sel>)
    requires sel.Many?
    ensures Kept([sel] + sels) == [sel.count] + Kept(sels)
    decreases |sels|
  {
    hide Kept;
    if sels == [] {
      NothingKept(sels, []);
      assert [sel] + sels == sels + [sel];
      KeptPush(sels, sel);
    } else {
      var n := |sels| - 1;
      var front, last := sels[..n], sels[n];
      assert sels == front + [last];
      assert [sel] + sels == ([sel] + front) + [last];
      KeptLed(sel, front);
      KeptPush([sel] + front, last);
      KeptPush(front, last);
    }
  }

  lemma FirstKept(sel: Sel, shape: seq<nat>)
    requires sel.Many?
    ensures Kept([sel] + Alls(shape)) == [sel.count] + shape
  {
    hide Kept;
    KeptLed(sel, Alls(shape));
    KeptAlls(shape);
  }
}
