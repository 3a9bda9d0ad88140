/**
 Indexing a weight kept as its two factors (LoraTorchTensor.__getitem__), and when the result
 stands for the same part of W.
 */
module LoraIndex {
  import opened Tensors
  import opened Selections
  import opened Lora
  import opened LoraPieces

  // ---------- selections of both factors

  /** On one leading axis, what is taken of A is what W needs there, up to broadcasting. */
  predicate MatchAxis(aSel: Sel, sel: Sel, aLen: nat) {
    if sel.One? then aSel == One(if aLen == 1 then 0 else sel.pos)
    else
      && aSel.Many? && (aSel.count == 1 || aSel.count == sel.count)
      && forall x: nat :: x < sel.count ==> ShownAt(aSel, x) == NeededAt(sel, aLen, x)
  }

  /** The entry of A that its selection, broadcast, shows at x. */
  function ShownAt(aSel: Sel, x: nat): nat
    requires aSel.Many?
  {
    Pos(aSel, if aSel.count == 1 then 0 else x)
  }

  /** The entry of A that goes with entry x of a range of W. */
  function NeededAt(sel: Sel, aLen: nat, x: nat): nat
    requires sel.Many?
  {
    if aLen == 1 then 0 else Pos(sel, x)
  }

  predicate Matches(aSels: seq<Sel>, lead: seq<Sel>, aLead: seq<nat>) {
    |aSels| == |lead| == |aLead| && forall i :: 0 <= i < |lead| ==> MatchAxis(aSels[i], lead[i], aLead[i])
  }

  predicate BroadcastsInto(s: seq<nat>, t: seq<nat>) {
    |s| == |t| && forall i :: 0 <= i < |s| ==> s[i] == 1 || s[i] == t[i]
  }

  lemma BroadcastPush(s: seq<nat>, t: seq<nat>, x: nat, y: nat)
    ensures BroadcastsInto(s + [x], t + [y]) <==> BroadcastsInto(s, t) && (x == 1 || x == y)
  {
    var a, b := s + [x], t + [y];
    if BroadcastsInto(a, b) {
      assert a[|s|] == x && b[|t|] == y;
      forall i | 0 <= i < |s| ensures s[i] == 1 || s[i] == t[i] {
        assert s[i] == a[i] && t[i] == b[i];
      }
    }
  }

  /** What A shows on its leading axes is what W does, up to broadcasting. */
  lemma {:induction false} LeadLift(aSels: seq<Sel>, lead: seq<Sel>, aLead: seq<nat>, u: seq<nat>)
    requires Matches(aSels, lead, aLead) && InBounds(Kept(lead), u)
    ensures |u| == |Kept(aSels)|
    ensures Lift(aSels, Project(Kept(aSels), u)) == Project(aLead, Lift(lead, u))
    decreases |lead|
  {
    hide Project, Kept, Lift, MatchAxis;
    if lead == [] {
      NothingKept(aSels, []);
      NothingKept(lead, u);
      ProjectNothing(Kept(aSels), u);
      ProjectNothing(aLead, Lift(lead, u));
    } else {
      var n := |lead| - 1;
      var front, last, af, al, sf, sl := lead[..n], lead[n], aLead[..n], aLead[n], aSels[..n], aSels[n];
      assert lead == front + [last] && aLead == af + [al] && aSels == sf + [sl];
      KeptPush(front, last);
      if last.One? {
        assert Kept(front) + [] == Kept(front);
        LeadLift(sf, front, af, u);
        LeadLiftNumber(sf, sl, front, last, af, al, u);
      } else {
        var m := |u| - 1;
        var v, x := u[..m], u[m];
        assert u == v + [x];
        assert x < last.count by { assert Kept(lead)[m] == last.count; }
        assert InBounds(Kept(front), v) by { assert Kept(lead)[..m] == Kept(front); }
        LeadLift(sf, front, af, v);
        LeadLiftRange(sf, sl, front, last, af, al, v, x);
      }
    }
  }

  lemma NothingKept(sels: seq<Sel>, u: seq<nat>)
    requires sels == []
    ensures Kept(sels) == []
    ensures |u| == |Kept(sels)| ==> Lift(sels, u) == [] && u == []
  {
  }

  lemma LeadLiftNumber(sf: seq<Sel>, sl: Sel, front: seq<Sel>, last: Sel, af: seq<nat>, al: nat, u: seq<nat>)
    requires |front| == |af| == |sf| && last.One? && MatchAxis(sl, last, al)
    requires |u| == |Kept(front)| == |Kept(sf)|
    requires Lift(sf, Project(Kept(sf), u)) == Project(af, Lift(front, u))
    ensures |u| == |Kept(sf + [sl])| == |Kept(front + [last])|
    ensures Lift(sf + [sl], Project(Kept(sf + [sl]), u)) == Project(af + [al], Lift(front + [last], u))
  {
    hide Project;
    assert (sf + [sl])[..|sf|] == sf && (front + [last])[..|front|] == front;
    assert Kept(sf) + [] == Kept(sf) && Kept(front) + [] == Kept(front);
    ProjectPush(af, Lift(front, u), al, last.pos);
  }

  lemma LeadLiftRange(sf: seq<Sel>, sl: Sel, front: seq<Sel>, last: Sel, af: seq<nat>, al: nat, v: seq<nat>, x: nat)
    requires |front| == |af| == |sf| && last.Many? && MatchAxis(sl, last, al) && x < last.count
    requires |v| == |Kept(front)| == |Kept(sf)|
    requires Lift(sf, Project(Kept(sf), v)) == Project(af, Lift(front, v))
    ensures |v + [x]| == |Kept(sf + [sl])| == |Kept(front + [last])|
    ensures Lift(sf + [sl], Project(Kept(sf + [sl]), v + [x])) == Project(af + [al], Lift(front + [last], v + [x]))
  {
    hide Project, Kept, Lift;
    assert ShownAt(sl, x) == NeededAt(last, al, x);
    KeptPush(sf, sl);
    KeptPush(front, last);
    ProjectPush(Kept(sf), v, sl.count, x);
    LiftPush(sf, sl, Project(Kept(sf), v), if sl.count == 1 then 0 else x);
    LiftPush(front, last, v, x);
    ProjectPush(af, Lift(front, v), al, Pos(last, x));
  }

  lemma {:induction false} MatchesBroadcast(aSels: seq<Sel>, lead: seq<Sel>, aLead: seq<nat>)
    requires Matches(aSels, lead, aLead)
    ensures BroadcastsInto(Kept(aSels), Kept(lead))
    decreases |lead|
  {
    if lead != [] {
      var n := |lead| - 1;
      MatchesBroadcast(aSels[..n], lead[..n], aLead[..n]);
      assert MatchAxis(aSels[n], lead[n], aLead[n]);
      if lead[n].Many? {
        BroadcastPush(Kept(aSels[..n]), Kept(lead[..n]), aSels[n].count, lead[n].count);
      }
    }
  }

  lemma ProjectNothing(shape: seq<nat>, idx: seq<nat>)
    requires |shape| == |idx| == 0
    ensures Project(shape, idx) == []
  {
  }

  lemma ProjectPush(shape: seq<nat>, idx: seq<nat>, c: nat, x: nat)
    requires |shape| == |idx|
    ensures Project(shape + [c], idx + [x]) == Project(shape, idx) + [if c == 1 then 0 else x]
  {
  }

  function ASels(l: Lora, aSels: seq<Sel>, cols: Sel): seq<Sel>
    requires Valid(l) && |aSels| + 2 == |l.a.shape|
  {
    aSels + [All(l.Rank())] + [cols]
  }

  function BSels(l: Lora, lead: seq<Sel>, rows: Sel): seq<Sel>
    requires Valid(l) && |lead| + 2 == |l.a.shape|
  {
    lead + [rows] + [All(l.Rank())]
  }

  /** A selection carried out on the factors: rows from B, columns from A, leading axes from both. */
  function Picked(l: Lora, aSels: seq<Sel>, lead: seq<Sel>, rows: Sel, cols: Sel): Lora
    requires Valid(l) && |lead| + 2 == |aSels| + 2 == |l.a.shape|
  {
    Lora(Selected(l.a, ASels(l, aSels, cols)), Selected(l.b, BSels(l, lead, rows)))
  }

  lemma KeptTwo(front: seq<Sel>, p: Sel, q: Sel)
    requires p.Many? && q.Many?
    ensures Kept(front + [p] + [q]) == Kept(front) + [p.count, q.count]
  {
    KeptPush(front, p);
    KeptPush(front + [p], q);
  }

  lemma LiftTwo(front: seq<Sel>, p: Sel, q: Sel, u: seq<nat>, i: nat, j: nat)
    requires p.Many? && q.Many? && |u| == |Kept(front)|
    ensures |u + [i, j]| == |Kept(front + [p] + [q])|
    ensures Lift(front + [p] + [q], u + [i, j]) == Lift(front, u) + [Pos(p, i), Pos(q, j)]
  {
    LiftPush(front, p, u, i);
    LiftPush(front + [p], q, u + [i], j);
    assert u + [i] + [j] == u + [i, j];
    assert Lift(front, u) + [Pos(p, i)] + [Pos(q, j)] == Lift(front, u) + [Pos(p, i), Pos(q, j)];
  }

  predicate Selection(l: Lora, aSels: seq<Sel>, lead: seq<Sel>, rows: Sel, cols: Sel)
    requires Valid(l)
  {
    && |lead| + 2 == |aSels| + 2 == |l.a.shape| && rows.Many? && cols.Many?
    && AllFit(lead, l.b.shape[..|lead|])
    && Fits(rows, l.b.shape[|lead|]) && Fits(cols, l.Cols())
  }

  lemma ValidSizes(l: Lora)
    requires Valid(l)
    ensures |l.a.shape| == |l.b.shape| >= 2
    ensures l.a.shape[|l.a.shape| - 2] == l.Rank()
  {
  }

  lemma PickedShape(l: Lora, aSels: seq<Sel>, lead: seq<Sel>, rows: Sel, cols: Sel)
    requires Valid(l) && Selection(l, aSels, lead, rows, cols) && |Kept(aSels)| == |Kept(lead)|
    ensures var r, s, t := Picked(l, aSels, lead, rows, cols), Kept(aSels), Kept(lead);
      && r.a.shape == s + [l.Rank(), cols.count] && r.b.shape == t + [rows.count, l.Rank()]
      && r.Rank() == l.Rank()
      && r.Shape() == t + [rows.count, cols.count] == Kept(lead + [rows] + [cols])
      && (Valid(r) <==> BroadcastsInto(s, t))
  {
    hide Fits, Kept, Valid, BroadcastsInto, AllFit, Selected;
    ValidSizes(l);
    var r, s, t := Picked(l, aSels, lead, rows, cols), Kept(aSels), Kept(lead);
    KeptTwo(aSels, All(l.Rank()), cols);
    KeptTwo(lead, rows, All(l.Rank()));
    KeptTwo(lead, rows, cols);
    assert r.b.shape[..|r.b.shape| - 1] == t + [rows.count];
    ValidIsBroadcast(r, s, t);
  }

  lemma BroadcastSizes(s: seq<nat>, t: seq<nat>)
    requires BroadcastsInto(s, t)
    ensures |s| == |t|
  {
  }

  lemma ValidIsBroadcast(r: Lora, s: seq<nat>, t: seq<nat>)
    requires WellFormed(r.a) && WellFormed(r.b) && |r.a.shape| == |r.b.shape| >= 2
    requires |s| == |t| == |r.a.shape| - 2 && r.a.shape[..|s|] == s && r.b.shape[..|t|] == t
    requires r.a.shape[|s|] == r.b.shape[|t| + 1]
    ensures Valid(r) <==> BroadcastsInto(s, t)
  {
    assert forall i :: 0 <= i < |s| ==> r.a.shape[i] == s[i] && r.b.shape[i] == t[i];
  }

  lemma PickedRow(l: Lora, aSels: seq<Sel>, lead: seq<Sel>, rows: Sel, cols: Sel, u: seq<nat>, i: nat, j: nat, k: nat)
    requires Valid(l) && Selection(l, aSels, lead, rows, cols)
    requires InBounds(Kept(lead), u) && i < rows.count && k < l.Rank()
    ensures |u + [i, j]| == |Kept(lead + [rows] + [cols])|
    ensures At(Picked(l, aSels, lead, rows, cols).b, RowIndex(u + [i, j], k))
            == At(l.b, RowIndex(Lift(lead + [rows] + [cols], u + [i, j]), k))
  {
    hide Fits, Kept, Lift, At, Valid;
    var b := BSels(l, lead, rows);
    ValidSizes(l);
    KeptTwo(lead, rows, All(l.Rank()));
    LiftTwo(lead, rows, All(l.Rank()), u, i, k);
    LiftTwo(lead, rows, cols, u, i, j);
    assert RowIndex(u + [i, j], k) == u + [i, k];
    SelectedAt(l.b, b, u + [i, k]);
    assert RowIndex(Lift(lead, u) + [Pos(rows, i), Pos(cols, j)], k) == Lift(lead, u) + [Pos(rows, i), k];
  }

  lemma PickedColumn(l: Lora, aSels: seq<Sel>, lead: seq<Sel>, rows: Sel, cols: Sel, u: seq<nat>, i: nat, j: nat, k: nat)
    requires Valid(l) && Selection(l, aSels, lead, rows, cols)
    requires Matches(aSels, lead, l.a.shape[..|lead|])
    requires InBounds(Kept(lead), u) && j < cols.count && k < l.Rank()
    ensures var r := Picked(l, aSels, lead, rows, cols);
      && |u + [i, j]| == |Kept(lead + [rows] + [cols])| == |r.a.shape|
      && At(r.a, ColIndex(r.a.shape, u + [i, j], k))
         == At(l.a, ColIndex(l.a.shape, Lift(lead + [rows] + [cols], u + [i, j]), k))
  {
    hide Fits, Kept, Lift, At, Project, Valid, BroadcastsInto, AllFit, Selected, Matches;
    ValidSizes(l);
    var r, n := Picked(l, aSels, lead, rows, cols), |lead|;
    var s := Kept(aSels);
    MatchesBroadcast(aSels, lead, l.a.shape[..n]);
    BroadcastSizes(s, Kept(lead));
    LeadLift(aSels, lead, l.a.shape[..n], u);
    PickedShape(l, aSels, lead, rows, cols);
    var v := Project(s, u);
    assert r.a.shape[..|s|] == s && (u + [i, j])[..|u|] == u;
    assert ColIndex(r.a.shape, u + [i, j], k) == v + [k, j];
    KeptTwo(aSels, All(l.Rank()), cols);
    ProjectedFits(s, Kept(lead), u);
    SelectedAt(l.a, ASels(l, aSels, cols), v + [k, j]);
    LiftTwo(aSels, All(l.Rank()), cols, v, k, j);
    LiftTwo(lead, rows, cols, u, i, j);
    var w := Lift(lead, u) + [Pos(rows, i), Pos(cols, j)];
    assert w[..n] == Lift(lead, u);
  }

  lemma ProjectedFits(s: seq<nat>, t: seq<nat>, u: seq<nat>)
    requires BroadcastsInto(s, t) && InBounds(t, u)
    ensures InBounds(s, Project(s, u))
  {
  }

  lemma PickedEntry(l: Lora, aSels: seq<Sel>, lead: seq<Sel>, rows: Sel, cols: Sel, idx: seq<nat>)
    requires Valid(l) && Selection(l, aSels, lead, rows, cols)
    requires Matches(aSels, lead, l.a.shape[..|lead|])
    requires InBounds(Kept(lead + [rows] + [cols]), idx)
    ensures var r := Picked(l, aSels, lead, rows, cols);
      && |idx| == |r.a.shape| == |r.b.shape| >= 2
      && Entry(r, idx) == Entry(l, Lift(lead + [rows] + [cols], idx))
  {
    hide Fits, Kept, Lift, At, Project, Matches, RowIndex, ColIndex, Selected, Entry;
    MatchesBroadcast(aSels, lead, l.a.shape[..|lead|]);
    BroadcastSizes(Kept(aSels), Kept(lead));
    PickedShape(l, aSels, lead, rows, cols);
    var m := |Kept(lead)|;
    var u, i, j := idx[..m], idx[m], idx[m + 1];
    assert idx == u + [i, j];
    forall k: nat | k < l.Rank()
      ensures var r, w := Picked(l, aSels, lead, rows, cols), Lift(lead + [rows] + [cols], idx);
        && At(r.b, RowIndex(idx, k)) == At(l.b, RowIndex(w, k))
        && At(r.a, ColIndex(r.a.shape, idx, k)) == At(l.a, ColIndex(l.a.shape, w, k))
    {
      PickedRow(l, aSels, lead, rows, cols, u, i, j, k);
      PickedColumn(l, aSels, lead, rows, cols, u, i, j, k);
    }
    Reindexed(l, Picked(l, aSels, lead, rows, cols), idx, Lift(lead + [rows] + [cols], idx));
  }

  /** Selecting rows from B and columns from A selects both from W, when the leading ranges allow it. */
  lemma SelectionCommutes(l: Lora, aSels: seq<Sel>, lead: seq<Sel>, rows: Sel, cols: Sel)
    requires Valid(l) && Selection(l, aSels, lead, rows, cols)
    requires Matches(aSels, lead, l.a.shape[..|lead|])
    ensures Valid(Picked(l, aSels, lead, rows, cols))
    ensures Materialise(Picked(l, aSels, lead, rows, cols)) == Selected(Materialise(l), lead + [rows] + [cols])
  {
    hide Fits, Kept, Lift, At, Matches, Selected, Entry, Materialise, Picked, Valid;
    ValidSizes(l);
    var sels := lead + [rows] + [cols];
    var w := Selected(Materialise(l), sels);
    MatchesBroadcast(aSels, lead, l.a.shape[..|lead|]);
    BroadcastSizes(Kept(aSels), Kept(lead));
    PickedShape(l, aSels, lead, rows, cols);
    SelectionFits(l, aSels, lead, rows, cols);
    forall idx | InBounds(w.shape, idx) ensures At(w, idx) == Entry(Picked(l, aSels, lead, rows, cols), idx) {
      SelectedAt(Materialise(l), sels, idx);
      LiftInBounds(sels, l.Shape(), idx);
      MaterialiseAt(l, Lift(sels, idx));
      PickedEntry(l, aSels, lead, rows, cols, idx);
    }
    ProductIs(Picked(l, aSels, lead, rows, cols), w);
  }

  lemma SelectionFits(l: Lora, aSels: seq<Sel>, lead: seq<Sel>, rows: Sel, cols: Sel)
    requires Valid(l) && Selection(l, aSels, lead, rows, cols)
    ensures AllFit(lead + [rows] + [cols], l.Shape())
  {
    hide Fits;
    var sels, shape, n := lead + [rows] + [cols], l.Shape(), |lead|;
    forall i | 0 <= i < |sels| ensures Fits(sels[i], shape[i]) {
      if i < n {
        assert sels[i] == lead[i] && shape[i] == l.b.shape[..n][i];
      } else if i == n {
        assert sels[i] == rows && shape[i] == l.b.shape[n];
      } else {
        assert sels[i] == cols && shape[i] == l.Cols();
      }
    }
  }
}
