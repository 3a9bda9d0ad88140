/** What the dense operations mean, apart from how they are computed. */
module TorchLaws {
  import opened Wrappers
  import opened Tensors
  import opened Selections
  import opened Lora

  // ----- the order of the buffer

  predicate Before(i: seq<nat>, j: seq<nat>)
    requires |i| == |j|
  {
    exists k :: 0 <= k < |i| && i[..k] == j[..k] && i[k] < j[k]
  }

  /** The buffer holds the entries in the order of their indices, the first axis deciding first. */
  lemma {:induction false} RowMajor(shape: seq<nat>, i: seq<nat>, j: seq<nat>)
    requires InBounds(shape, i) && InBounds(shape, j)
    ensures Flat(shape, i) < Flat(shape, j) <==> Before(i, j)
  {
    if shape != [] {
      var n := |shape| - 1;
      RowMajor(shape[..n], i[..n], j[..n]);
      RowMajor(shape[..n], j[..n], i[..n]);
      BeforePush(i, j);
      FlatInRange(shape[..n], i[..n]);
      FlatInRange(shape[..n], j[..n]);
      BeforeNot(i[..n]);
      FlatPush(Flat(shape[..n], i[..n]), Flat(shape[..n], j[..n]), shape[n], i[n], j[n]);
    }
  }

  lemma FlatPush(p: nat, q: nat, c: nat, x: nat, y: nat)
    requires x < c && y < c
    ensures p * c + x < q * c + y <==> p < q || (p == q && x < y)
  {
    if p < q { MulMonotone(p + 1, q, c); }
    if q < p { MulMonotone(q + 1, p, c); }
  }

  lemma BeforeNot(i: seq<nat>)
    ensures !Before(i, i)
  {
  }

  lemma BeforePush(i: seq<nat>, j: seq<nat>)
    requires |i| == |j| > 0
    ensures var n := |i| - 1;
      Before(i, j) <==> Before(i[..n], j[..n]) || (i[..n] == j[..n] && i[n] < j[n])
  {
    var n := |i| - 1;
    if Before(i, j) {
      var k :| 0 <= k < |i| && i[..k] == j[..k] && i[k] < j[k];
      if k < n {
        assert i[..n][..k] == i[..k] && j[..n][..k] == j[..k];
      }
    }
    if Before(i[..n], j[..n]) {
      var k :| 0 <= k < n && i[..n][..k] == j[..n][..k] && i[..n][k] < j[..n][k];
      assert i[..n][..k] == i[..k] && j[..n][..k] == j[..k];
    }
  }

  // ----- permute

  /** Every axis once. */
  predicate Arranges(perm: seq<nat>, n: nat) {
    |perm| == n && (forall i :: 0 <= i < n ==> perm[i] < n) && forall i, j :: 0 <= i < j < n ==> perm[i] != perm[j]
  }

  lemma {:induction false} FindFirst(perm: seq<nat>, a: nat, i: nat)
    requires i < |perm| && perm[i] == a
    ensures Find(perm, a) <= i
  {
    if perm[0] != a { FindFirst(perm[1..], a, i - 1); }
  }

  lemma ArrangesIsPermutation(perm: seq<nat>, n: nat)
    ensures Arranges(perm, n) <==> IsPermutation(perm, n)
  {
    if IsPermutation(perm, n) {
      forall i, j | 0 <= i < j < n ensures perm[i] != perm[j] {
        assert Find(perm, perm[i]) == i && Find(perm, perm[j]) == j;
      }
    }
    if Arranges(perm, n) {
      forall i | 0 <= i < n ensures perm[i] < n && Find(perm, perm[i]) == i {
        FindFirst(perm, perm[i], i);
      }
      forall a: nat | a < n ensures Find(perm, a) < n {
        var i := Pigeon(perm, n, a);
        FindFirst(perm, a, i);
      }
    }
  }

  /** An arrangement of n numbers below n has each of them. */
  lemma Pigeon(perm: seq<nat>, n: nat, a: nat) returns (i: nat)
    requires Arranges(perm, n) && a < n
    ensures i < n && perm[i] == a
  {
    if !exists x :: 0 <= x < n && perm[x] == a {
      SetSize(perm, n);
      SubsetSize(set x | 0 <= x < n :: perm[x], Below(n) - {a});
      assert false;
    }
    i :| 0 <= i < n && perm[i] == a;
  }

  function Below(n: nat): (s: set<nat>)
    ensures |s| == n && forall x: nat :: x in s <==> x < n
  {
    if n == 0 then {} else Below(n - 1) + {n - 1}
  }

  lemma {:induction false} SetSize(perm: seq<nat>, k: nat)
    requires k <= |perm| && forall i, j :: 0 <= i < j < k ==> perm[i] != perm[j]
    ensures |set x | 0 <= x < k :: perm[x]| == k
    decreases k
  {
    var all := set x | 0 <= x < k :: perm[x];
    if k > 0 {
      SetSize(perm, k - 1);
      var front := set x | 0 <= x < k - 1 :: perm[x];
      assert perm[k - 1] !in front;
      assert all == front + {perm[k - 1]};
    } else {
      assert all == {};
    }
  }

  lemma {:induction false} SubsetSize(s: set<nat>, t: set<nat>)
    requires s <= t
    ensures |s| <= |t|
    decreases s
  {
    if s != {} {
      var x :| x in s;
      SubsetSize(s - {x}, t - {x});
    }
  }

  function Axis(dim: int, n: nat): int {
    if dim < 0 then dim + n else dim
  }

  /** Axis i of u is axis dims[i] of t: in length, and entry by entry. */
  ghost predicate Rearranged(t: Tensor, dims: seq<int>, u: Tensor)
    requires |dims| == |t.shape| && forall i :: 0 <= i < |dims| ==> 0 <= Axis(dims[i], |dims|) < |dims|
  {
    var n := |dims|;
    && WellFormed(u) && |u.shape| == n
    && (forall i :: 0 <= i < n ==> u.shape[i] == t.shape[Axis(dims[i], n)])
    && forall idx: seq<nat>, src: seq<nat> ::
         InBounds(u.shape, idx) && |src| == n && (forall i :: 0 <= i < n ==> src[Axis(dims[i], n)] == idx[i])
         ==> At(u, idx) == At(t, src)
  }

  lemma PermuteMeans(t: Tensor, dims: seq<int>)
    ensures var n := |t.shape|;
      PermuteDense(t, dims).Ok? <==>
        && |dims| == n && (forall i :: 0 <= i < n ==> 0 <= Axis(dims[i], n) < n)
        && forall i, j :: 0 <= i < j < n ==> Axis(dims[i], n) != Axis(dims[j], n)
    ensures PermuteDense(t, dims).Ok? ==> Rearranged(t, dims, PermuteDense(t, dims).value)
  {
    hide IsPermutation, At, Permuted, Rearranged;
    var n := |t.shape|;
    assert Axes(dims, n).Ok? <==> forall i :: 0 <= i < |dims| ==> 0 <= Axis(dims[i], n) < n;
    if Axes(dims, n).Ok? {
      var perm := Axes(dims, n).value;
      ArrangesIsPermutation(perm, n);
      assert forall i :: 0 <= i < |dims| ==> perm[i] == Axis(dims[i], n);
      if Arranges(perm, n) { PermutedMeans(t, dims, perm); }
    }
  }

  lemma PermutedMeans(t: Tensor, dims: seq<int>, perm: seq<nat>)
    requires IsPermutation(perm, |t.shape|) && |dims| == |perm|
    requires forall i :: 0 <= i < |dims| ==> perm[i] == Axis(dims[i], |dims|)
    ensures Rearranged(t, dims, Permuted(t, perm))
  {
    hide At, Permuted, IsPermutation;
    RangeOf(perm);
    var n, u := |dims|, Permuted(t, perm);
    forall idx: seq<nat>, src: seq<nat> |
      InBounds(u.shape, idx) && |src| == n && (forall i :: 0 <= i < n ==> src[Axis(dims[i], n)] == idx[i])
      ensures At(u, idx) == At(t, src)
    {
      PermuteAt(t, perm, idx);
      assert forall i :: 0 <= i < n ==> src[perm[i]] == idx[i];
      SourceIs(perm, idx, src);
    }
  }

  lemma RangeOf(perm: seq<nat>)
    ensures forall n: nat :: IsPermutation(perm, n) ==> |perm| == n && forall i :: 0 <= i < n ==> perm[i] < n
  {
  }

  lemma SourceIs(perm: seq<nat>, idx: seq<nat>, src: seq<nat>)
    requires IsPermutation(perm, |idx|) && |src| == |idx|
    requires forall i :: 0 <= i < |idx| ==> src[perm[i]] == idx[i]
    ensures Source(perm, idx) == src
  {
    forall a | 0 <= a < |idx| ensures Source(perm, idx)[a] == src[a] {
      assert perm[Find(perm, a)] == a;
    }
  }

  // ----- subscripts

  /** A bound of a slice: counted from the end when negative, and moved into 0..n. */
  ghost predicate BoundIs(bound: Option<int>, default: nat, n: nat, at: nat) {
    match bound
    case None => at == default
    case Some(x) => at <= n && (0 <= x <= n ==> at == x) && (x < 0 <= x + n ==> at == x + n) && (x > n ==> at == n) && (x + n < 0 ==> at == 0)
  }

  /** A range shows every step-th entry between its bounds, in order; a number shows one, from either end. */
  lemma SelOfMeans(ix: Ix, n: nat)
    ensures SelOf(ix, n).Ok? <==> (ix.Int? && 0 <= Axis(ix.i, n) < n) || (ix.Range? && ix.step.GetOr(1) > 0)
    ensures ix.Int? && SelOf(ix, n).Ok? ==> SelOf(ix, n) == Ok(One(Axis(ix.i, n)))
    ensures ix.Range? && SelOf(ix, n).Ok? ==>
              var s := SelOf(ix, n).value;
              exists from: nat, to: nat {:trigger BoundIs(ix.start, 0, n, from), BoundIs(ix.stop, n, n, to)} ::
                && BoundIs(ix.start, 0, n, from) && BoundIs(ix.stop, n, n, to)
                && s.start == from && s.step == ix.step.GetOr(1)
                && (s.count > 0 ==> from + s.step * (s.count - 1) < to) && from + s.step * s.count >= to
  {
    if ix.Range? && SelOf(ix, n).Ok? {
      var from, to, st := Clip(ix.start.GetOr(0), n), Clip(ix.stop.GetOr(n), n), ix.step.GetOr(1);
      assert BoundIs(ix.start, 0, n, from) && BoundIs(ix.stop, n, n, to);
      if from < to {
        LastOfRange(from, to, st);
        Reaches(to - from, st);
      }
    }
  }

  lemma Reaches(d: nat, st: nat)
    requires st > 0
    ensures st * ((d + st - 1) / st) >= d
  {
    var x := d + st - 1;
    assert x == x / st * st + x % st;
  }

  /** How many of the first k subscripts keep their axis. */
  function KeptBefore(sels: seq<Sel>, k: nat): (r: nat)
    requires k <= |sels|
    ensures r <= k
  {
    if k == 0 then 0 else KeptBefore(sels, k - 1) + if sels[k - 1].Many? then 1 else 0
  }

  /** Each axis that stays has the length of its range, and shows the positions of that range. */
  lemma {:induction false} SelectedMeans(t: Tensor, sels: seq<Sel>, idx: seq<nat>, k: nat)
    requires k < |sels| && InBounds(Kept(sels), idx)
    ensures |Kept(sels)| == KeptBefore(sels, |sels|)
    ensures At(Selected(t, sels), idx) == At(t, Lift(sels, idx)) && |Lift(sels, idx)| == |sels|
    ensures var m := KeptBefore(sels, k);
      match sels[k]
      case One(pos) => Lift(sels, idx)[k] == pos
      case Many(start, count, step) => m < |Kept(sels)| && Kept(sels)[m] == count && Lift(sels, idx)[k] == start + step * idx[m]
  {
    hide At, Selected;
    SelectedAt(t, sels, idx);
    LiftMeans(sels, idx, k);
  }

  lemma {:induction false} KeptBeforeFront(sels: seq<Sel>, n: nat, k: nat)
    requires k <= n <= |sels|
    ensures KeptBefore(sels[..n], k) == KeptBefore(sels, k)
  {
    if k > 0 { KeptBeforeFront(sels, n, k - 1); }
  }

  lemma {:induction false} KeptSize(sels: seq<Sel>)
    ensures |Kept(sels)| == KeptBefore(sels, |sels|)
    decreases |sels|
  {
    if sels != [] {
      var n := |sels| - 1;
      KeptSize(sels[..n]);
      KeptBeforeFront(sels, n, n);
    }
  }

  lemma {:induction false} LiftMeans(sels: seq<Sel>, idx: seq<nat>, k: nat)
    requires k < |sels| && |idx| == |Kept(sels)|
    ensures |Kept(sels)| == KeptBefore(sels, |sels|) && |Lift(sels, idx)| == |sels|
    ensures var m := KeptBefore(sels, k);
      match sels[k]
      case One(pos) => Lift(sels, idx)[k] == pos
      case Many(start, count, step) => m < |Kept(sels)| && Kept(sels)[m] == count && Lift(sels, idx)[k] == start + step * idx[m]
    decreases |sels|
  {
    KeptSize(sels);
    var n := |sels| - 1;
    KeptSize(sels[..n]);
    KeptBeforeFront(sels, n, n);
    KeptBeforeFront(sels, n, k);
    if k < n {
      LiftMeans(sels[..n], if sels[n].One? then idx else idx[..|idx| - 1], k);
    }
  }
}
