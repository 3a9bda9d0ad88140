/**
 What calculate_diff_split leaves in the middle: between common segments and, in text, common
 characters, nothing that both sides share at an end.
 */
module DiffTight {
  import opened Segments
  import opened Affixes
  import opened DiffSplit

  // ----- segments taken by the loop -----

  function End(last: nat, consumed: bool): nat {
    if consumed then last else last + 1
  }

  /** What has been taken is the same list of segments at the front, and at the back, of both sides. */
  predicate Ledger(c: Cursors, l: seq<Segment>, r: seq<Segment>)
    requires InRange(c, l, r)
  {
    && c.ls == c.rs && l[..c.ls] == r[..c.rs] && c.prefix == Concat(l[..c.ls])
    && (c.leftConsumed ==> c.ls == c.le) && (c.rightConsumed ==> c.rs == c.re)
    && l[End(c.le, c.leftConsumed)..] == r[End(c.re, c.rightConsumed)..]
    && c.suffix == Concat(l[End(c.le, c.leftConsumed)..])
  }

  /** Neither end of what is left can be taken, or one side is down to its last segment. */
  predicate Stuck(c: Cursors, l: seq<Segment>, r: seq<Segment>)
    requires InRange(c, l, r)
  {
    !MayContinue(c) || (l[c.ls] != r[c.rs] && l[c.le] != r[c.re])
  }

  lemma OneMore(segs: seq<Segment>, i: nat)
    requires i < |segs|
    ensures segs[..i + 1] == segs[..i] + [segs[i]] && Concat(segs[..i + 1]) == Concat(segs[..i]) + segs[i].value
    ensures segs[i..] == [segs[i]] + segs[i + 1..] && Concat(segs[i..]) == segs[i].value + Concat(segs[i + 1..])
  {
    hide Concat;
    assert segs[..i + 1] == segs[..i] + [segs[i]];
    assert segs[i..] == [segs[i]] + segs[i + 1..];
    ConcatAppend(segs[..i], [segs[i]]);
    ConcatOne(segs[i]);
    ConcatLed(segs[i], segs[i + 1..]);
  }

  lemma FrontLedger(c: Cursors, l: seq<Segment>, r: seq<Segment>)
    requires InRange(c, l, r) && MayContinue(c) && Ledger(c, l, r) && !c.leftConsumed && !c.rightConsumed
    ensures Ledger(MatchFront(c, l, r), l, r)
  {
    hide Concat;
    OneMore(l, c.ls);
    OneMore(r, c.rs);
  }

  lemma BackLedger(c: Cursors, l: seq<Segment>, r: seq<Segment>)
    requires InRange(c, l, r) && Ledger(c, l, r) && !c.leftConsumed && !c.rightConsumed
    ensures Ledger(MatchBack(c, l, r), l, r)
  {
    hide Concat;
    OneMore(l, c.le);
    OneMore(r, c.re);
  }

  lemma {:induction false} LoopLedger(c: Cursors, l: seq<Segment>, r: seq<Segment>)
    requires InRange(c, l, r) && Ledger(c, l, r) && (MayContinue(c) ==> !c.leftConsumed && !c.rightConsumed)
    ensures var e := CloseIn(c, l, r);
            Ledger(e, l, r) && Stuck(e, l, r) && (MayContinue(e) ==> !e.leftConsumed && !e.rightConsumed)
    decreases c.le - c.ls
  {
    hide Concat, Ledger;
    if MayContinue(c) {
      FrontLedger(c, l, r);
      var f := MatchFront(c, l, r);
      BackLedger(f, l, r);
      var b := MatchBack(f, l, r);
      if !(f == c && b == f) { LoopLedger(b, l, r); }
    }
  }

  lemma StartLedger(l: seq<Segment>, r: seq<Segment>)
    requires l != [] && r != []
    ensures Ledger(Start(l, r), l, r)
  {
  }

  // ----- the parts -----

  /** Both lists are the same segments, then what is left of each, then the same segments again. */
  datatype Parts = Parts(front: seq<Segment>, left: seq<Segment>, right: seq<Segment>, back: seq<Segment>)

  /** Nothing can be taken from what is left but, segment by segment, equal single texts. */
  predicate Tight(p: Parts, l: seq<Segment>, r: seq<Segment>) {
    && l == p.front + p.left + p.back && r == p.front + p.right + p.back
    && (|| p.left == [] || p.right == []
        || (p.left[0] != p.right[0] && p.left[|p.left| - 1] != p.right[|p.right| - 1])
        || (p.left == p.right && |p.left| == 1 && p.left[0].kind == Text))
  }

  predicate BeginInText(p: Parts) {
    p.left != [] && p.right != [] && p.left[0].kind == Text && p.right[0].kind == Text
  }

  predicate EndInText(p: Parts) {
    p.left != [] && p.right != [] && p.left[|p.left| - 1].kind == Text && p.right[|p.right| - 1].kind == Text
  }

  /** Two texts, the characters taken from both ends, and what is left: at an end where they may be taken, no shared one. */
  predicate TightText(x: string, y: string, begins: bool, ends: bool, taken: string, left: string, right: string, takenBack: string) {
    && x == taken + left + takenBack && y == taken + right + takenBack
    && (if begins then left == "" || right == "" || left[0] != right[0] else taken == "")
    && (if ends then left == "" || right == "" || left[|left| - 1] != right[|right| - 1] else takenBack == "")
  }

  /** Characters are taken only where both sides begin (end) in text, and then all that they share. */
  predicate TightDiff(p: Parts, d: Diff, taken: string, takenBack: string) {
    && d.prefix == Concat(p.front) + taken && d.suffix == takenBack + Concat(p.back)
    && TightText(Concat(p.left), Concat(p.right), BeginInText(p), EndInText(p), taken, d.left, d.right, takenBack)
  }

  // ----- the character pass -----

  /** Taking k shared characters off the front. */
  predicate FrontCut(x: string, y: string, begins: bool, head: string, dx: string, dy: string) {
    && x == head + dx && y == head + dy
    && (if begins then dx == "" || dy == "" || dx[0] != dy[0] else head == "")
  }

  predicate BackCut(x: string, y: string, ends: bool, cx: string, cy: string, tail: string) {
    && x == cx + tail && y == cy + tail
    && (if ends then cx == "" || cy == "" || cx[|cx| - 1] != cy[|cy| - 1] else tail == "")
  }

  lemma CutFront(x: string, y: string, begins: bool)
    ensures var k := if begins then PrefixLen(x, y) else 0;
            k <= |x| && k <= |y| && FrontCut(x, y, begins, x[..k], x[k..], y[k..])
  {
    hide PrefixLen;
    SharedPrefix(x, y);
    var k := if begins then PrefixLen(x, y) else 0;
    assert x == x[..k] + x[k..] && y == y[..k] + y[k..];
  }

  predicate EndsShare(x: string, y: string, s: nat) {
    && s <= |x| && s <= |y| && x[|x| - s..] == y[|y| - s..]
    && (s < |x| && s < |y| ==> x[|x| - s - 1] != y[|y| - s - 1])
  }

  lemma ShareIs(x: string, y: string, s: nat)
    requires s <= |x| && s <= |y| && x[|x| - s..] == y[|y| - s..]
    requires s < |x| && s < |y| ==> Back(x, s) != Back(y, s)
    ensures EndsShare(x, y, s)
  {
  }

  lemma SuffixStops(x: string, y: string)
    ensures var s := SuffixLen(x, y);
            s <= |x| && s <= |y| && (s < |x| && s < |y| ==> Back(x, s) != Back(y, s))
  {
    hide *;
  }

  lemma SuffixFacts(x: string, y: string)
    ensures EndsShare(x, y, SuffixLen(x, y))
  {
    hide *;
    SuffixStops(x, y);
    SharedSuffix(x, y);
    ShareIs(x, y, SuffixLen(x, y));
  }

  lemma CutBackAt(x: string, y: string, s: nat, ends: bool)
    requires if ends then EndsShare(x, y, s) else s == 0
    ensures BackCut(x, y, ends, x[..|x| - s], y[..|y| - s], x[|x| - s..])
  {
    assert x == x[..|x| - s] + x[|x| - s..] && y == y[..|y| - s] + y[|y| - s..];
  }

  lemma CutBack(x: string, y: string, ends: bool)
    ensures var s := if ends then SuffixLen(x, y) else 0;
            s <= |x| && s <= |y| && BackCut(x, y, ends, x[..|x| - s], y[..|y| - s], x[|x| - s..])
  {
    hide SuffixLen, BackCut;
    SuffixFacts(x, y);
    CutBackAt(x, y, if ends then SuffixLen(x, y) else 0, ends);
  }

  lemma CutsJoin(x: string, y: string, begins: bool, ends: bool, cx: string, cy: string, tail: string, head: string, dx: string, dy: string)
    requires BackCut(x, y, ends, cx, cy, tail) && FrontCut(cx, cy, begins, head, dx, dy)
    ensures TightText(x, y, begins, ends, head, dx, dy, tail)
  {
    if dx != "" && dy != "" {
      assert cx[|cx| - 1] == dx[|dx| - 1] && cy[|cy| - 1] == dy[|dy| - 1];
    }
  }

  lemma SplitAtIs(c: Cursors, x: string, y: string, k: nat, s: nat)
    requires k + s <= |x| && k + s <= |y|
    ensures var d := SplitAt(c, x, y, k, s);
            && d.prefix == c.prefix + x[..|x| - s][..k] && d.suffix == x[|x| - s..] + c.suffix
            && d.left == x[..|x| - s][k..] && d.right == y[..|y| - s][k..]
  {
  }

  lemma SplitRestIsTight(c: Cursors, p: Parts, textSuffix: bool, textPrefix: bool) returns (taken: string, takenBack: string)
    requires c.prefix == Concat(p.front) && c.suffix == Concat(p.back)
    requires p.left != [] && p.right != [] ==> textPrefix == BeginInText(p) && textSuffix == EndInText(p)
    ensures TightDiff(p, SplitRest(c, Concat(p.left), Concat(p.right), textSuffix, textPrefix), taken, takenBack)
  {
    hide BeginInText, EndInText, TightText, PrefixLen, SuffixLen, Concat, SplitAt, FrontCut, BackCut;
    var x, y := Concat(p.left), Concat(p.right);
    var s := if textSuffix then SuffixLen(x, y) else 0;
    CutBack(x, y, textSuffix);
    var cx, cy := x[..|x| - s], y[..|y| - s];
    var k := if textPrefix then PrefixLen(cx, cy) else 0;
    CutFront(cx, cy, textPrefix);
    taken, takenBack := cx[..k], x[|x| - s..];
    SplitAtIs(c, x, y, k, s);
    CutsJoin(x, y, textPrefix, textSuffix, cx, cy, takenBack, taken, cx[k..], cy[k..]);
    EmptyParts(p);
    if p.left == [] || p.right == [] {
      NothingTaken(x, y, textPrefix, textSuffix, taken, cx[k..], cy[k..], takenBack);
    }
  }

  lemma NothingTaken(x: string, y: string, begins: bool, ends: bool, taken: string, left: string, right: string, takenBack: string)
    requires TightText(x, y, begins, ends, taken, left, right, takenBack) && (x == "" || y == "")
    ensures TightText(x, y, false, false, taken, left, right, takenBack)
  {
  }

  lemma EmptyParts(p: Parts)
    ensures p.left == [] ==> Concat(p.left) == "" && !BeginInText(p) && !EndInText(p)
    ensures p.right == [] ==> Concat(p.right) == "" && !BeginInText(p) && !EndInText(p)
  {
  }

  // ----- from cursors to parts -----

  function PartsOf(c: Cursors, l: seq<Segment>, r: seq<Segment>): Parts
    requires InRange(c, l, r)
  {
    Parts(l[..c.ls], l[c.ls..End(c.le, c.leftConsumed)], r[c.rs..End(c.re, c.rightConsumed)], l[End(c.le, c.leftConsumed)..])
  }

  lemma LedgerParts(c: Cursors, l: seq<Segment>, r: seq<Segment>)
    requires InRange(c, l, r) && Ledger(c, l, r)
    ensures var p := PartsOf(c, l, r);
            && l == p.front + p.left + p.back && r == p.front + p.right + p.back
            && c.prefix == Concat(p.front) && c.suffix == Concat(p.back)
            && (p.left == [] <==> c.leftConsumed) && (p.right == [] <==> c.rightConsumed)
            && (p.left != [] ==> p.left[0] == l[c.ls] && p.left[|p.left| - 1] == l[c.le])
            && (p.right != [] ==> p.right[0] == r[c.rs] && p.right[|p.right| - 1] == r[c.re])
            && Concat(p.left) == Rest(l, c.ls, c.le, c.leftConsumed) && Concat(p.right) == Rest(r, c.rs, c.re, c.rightConsumed)
  {
    hide Concat;
    Around(l, c.ls, End(c.le, c.leftConsumed));
    Around(r, c.rs, End(c.re, c.rightConsumed));
  }

  /** Without a branch that fires, the cursors are where the difference is tight. */
  lemma StuckIsTight(c: Cursors, l: seq<Segment>, r: seq<Segment>) returns (taken: string, takenBack: string)
    requires InRange(c, l, r) && Ledger(c, l, r) && Stuck(c, l, r)
    requires c.leftConsumed || c.rightConsumed || !BranchFires(c, l, r)
    ensures Tight(PartsOf(c, l, r), l, r) && TightDiff(PartsOf(c, l, r), Finish(c, l, r), taken, takenBack)
  {
    hide Concat, TightDiff, SplitRest, Rest;
    LedgerParts(c, l, r);
    var p := PartsOf(c, l, r);
    if !c.leftConsumed && !c.rightConsumed && c.ls == c.le && c.rs == c.re {
      assert p.left == [l[c.ls]] && p.right == [r[c.rs]];
    }
    taken, takenBack := SplitRestIsTight(c, p, l[c.le].kind == Text && r[c.re].kind == Text,
                                         r[c.rs].kind == Text && l[c.ls].kind == Text);
  }

  /** After a branch has fired on sides with something left, one side is used up. */
  lemma FiredIsTight(c: Cursors, l: seq<Segment>, r: seq<Segment>) returns (p: Parts, taken: string, takenBack: string)
    requires InRange(c, l, r) && Ledger(c, l, r) && !c.leftConsumed && !c.rightConsumed && BranchFires(c, l, r)
    ensures Tight(p, l, r) && TightDiff(p, Finish(AfterLoop(c, l, r), l, r), taken, takenBack)
  {
    hide Concat, TightDiff, SplitRest, Rest;
    var b := AfterLoop(c, l, r);
    p := FiredParts(c, l, r);
    taken, takenBack := SplitRestIsTight(b, p, l[b.le].kind == Text && r[b.re].kind == Text,
                                         r[b.rs].kind == Text && l[b.ls].kind == Text);
  }

  lemma FiredParts(c: Cursors, l: seq<Segment>, r: seq<Segment>) returns (p: Parts)
    requires InRange(c, l, r) && Ledger(c, l, r) && !c.leftConsumed && !c.rightConsumed && BranchFires(c, l, r)
    ensures Tight(p, l, r) && (p.left == [] || p.right == [])
    ensures var b := AfterLoop(c, l, r);
            && b.prefix == Concat(p.front) && b.suffix == Concat(p.back)
            && Concat(p.left) == Rest(l, b.ls, b.le, b.leftConsumed) && Concat(p.right) == Rest(r, b.rs, b.re, b.rightConsumed)
  {
    hide Concat, Rest;
    OneMore(l, c.ls);
    OneMore(l, c.le);
    OneMore(r, c.rs);
    OneMore(r, c.re);
    if c.ls == c.le && c.rs != c.re {
      p := OneLeft(c, l, r);
    } else if c.rs == c.re && c.ls != c.le {
      p := OneRight(c, l, r);
    } else {
      p := Parts(l[..c.ls + 1], [], [], l[c.le + 1..]);
      RestSingle(l, c.ls);
      RestSingle(r, c.rs);
      NothingConcat();
    }
  }

  lemma NothingConcat()
    ensures Concat([]) == ""
  {
  }

  lemma Around(segs: seq<Segment>, i: nat, j: nat)
    requires i <= j <= |segs|
    ensures segs == segs[..i] + segs[i..j] + segs[j..]
  {
  }

  lemma TightEmpty(p: Parts, l: seq<Segment>, r: seq<Segment>)
    requires l == p.front + p.left + p.back && r == p.front + p.right + p.back && (p.left == [] || p.right == [])
    ensures Tight(p, l, r)
  {
  }

  lemma RestIs(segs: seq<Segment>, start: nat, last: nat, consumed: bool)
    requires start <= last < |segs|
    ensures Rest(segs, start, last, consumed) == Concat(segs[start..End(last, consumed)])
  {
  }

  /** The single segment of one side is the last of several on the other. */
  lemma TakenBack(one: seq<Segment>, many: seq<Segment>, i: nat, from: nat, last: nat)
    requires i < |one| && from < last < |many| && one[i] == many[last]
    requires one[..i] == many[..from] && one[i + 1..] == many[last + 1..]
    ensures one == one[..i] + [] + one[i..] && many == one[..i] + many[from..last] + one[i..]
    ensures Concat(one[i..]) == one[i].value + Concat(one[i + 1..])
  {
    hide Concat;
    Around(many, from, last);
    OneMore(one, i);
    OneMore(many, last);
  }

  /** It is the first. */
  lemma TakenFront(one: seq<Segment>, many: seq<Segment>, i: nat, from: nat, last: nat)
    requires i < |one| && from < last < |many| && one[i] == many[from]
    requires one[..i] == many[..from] && one[i + 1..] == many[last + 1..]
    ensures one == one[..i + 1] + [] + one[i + 1..] && many == one[..i + 1] + many[from + 1..last + 1] + one[i + 1..]
    ensures Concat(one[..i + 1]) == Concat(one[..i]) + one[i].value
  {
    hide Concat;
    Around(many, from + 1, last + 1);
    OneMore(one, i);
    OneMore(many, from);
  }

  /** The last segment of the left side is the first, or the last, of several on the right. */
  lemma OneLeft(c: Cursors, l: seq<Segment>, r: seq<Segment>) returns (p: Parts)
    requires InRange(c, l, r) && Ledger(c, l, r) && !c.leftConsumed && !c.rightConsumed && BranchFires(c, l, r)
    requires c.ls == c.le && c.rs != c.re
    ensures Tight(p, l, r) && p.left == []
    ensures var b := AfterLoop(c, l, r);
            && b.prefix == Concat(p.front) && b.suffix == Concat(p.back)
            && Concat(p.left) == Rest(l, b.ls, b.le, b.leftConsumed) && Concat(p.right) == Rest(r, b.rs, b.re, b.rightConsumed)
  {
    hide Concat, Rest, Tight;
    var b := AfterLoop(c, l, r);
    RestIs(l, b.ls, b.le, b.leftConsumed);
    RestIs(r, b.rs, b.re, b.rightConsumed);
    assert l[c.ls..c.ls] == [];
    if l[c.ls] == r[c.re] {
      p := Parts(l[..c.ls], [], r[c.rs..c.re], l[c.ls..]);
      TakenBack(l, r, c.ls, c.rs, c.re);
    } else {
      p := Parts(l[..c.ls + 1], [], r[c.rs + 1..c.re + 1], l[c.ls + 1..]);
      TakenFront(l, r, c.ls, c.rs, c.re);
    }
    TightEmpty(p, l, r);
  }

  lemma OneRight(c: Cursors, l: seq<Segment>, r: seq<Segment>) returns (p: Parts)
    requires InRange(c, l, r) && Ledger(c, l, r) && !c.leftConsumed && !c.rightConsumed && BranchFires(c, l, r)
    requires c.rs == c.re && c.ls != c.le
    ensures Tight(p, l, r) && p.right == []
    ensures var b := AfterLoop(c, l, r);
            && b.prefix == Concat(p.front) && b.suffix == Concat(p.back)
            && Concat(p.left) == Rest(l, b.ls, b.le, b.leftConsumed) && Concat(p.right) == Rest(r, b.rs, b.re, b.rightConsumed)
  {
    hide Concat, Rest, Tight;
    var b := AfterLoop(c, l, r);
    RestIs(l, b.ls, b.le, b.leftConsumed);
    RestIs(r, b.rs, b.re, b.rightConsumed);
    assert r[c.rs..c.rs] == [];
    if l[c.le] == r[c.rs] {
      p := Parts(r[..c.rs], l[c.ls..c.le], [], r[c.rs..]);
      TakenBack(r, l, c.rs, c.ls, c.le);
    } else {
      p := Parts(r[..c.rs + 1], l[c.ls + 1..c.le + 1], [], r[c.rs + 1..]);
      TakenFront(r, l, c.rs, c.ls, c.le);
    }
    TightEmpty(p, l, r);
  }

  // ----- the whole splitter -----

  /** The result of the last two steps: nothing left at all, or the left input a beginning of the right. */
  function Repaired(d: Diff, left: string, right: string): Diff {
    if d.left == "" && d.right == "" then Diff(left, "", "", "")
    else if d.left == "" && left <= right then Diff(left, "", "", right[|left|..])
    else d
  }

  lemma RepairIs(d: Diff, left: string, right: string)
    ensures Repair(d, left, right) == Repaired(d, left, right)
  {
  }

  lemma ExitIsTight(left: string, right: string)
    requires Segmentize(left) != [] && Segmentize(right) != []
    ensures var c, l, r := LoopExit(left, right), Segmentize(left), Segmentize(right);
            Ledger(c, l, r) && Stuck(c, l, r) && Accounts(c, l, r)
  {
    hide Segmentize, CloseIn, Accounts, Concat, Ledger, Stuck;
    LoopAccounts(left, right);
    StartLedger(Segmentize(left), Segmentize(right));
    LoopLedger(Start(Segmentize(left), Segmentize(right)), Segmentize(left), Segmentize(right));
  }

  /** A branch that fires once more on a left side that is used up, where the last step makes up for it. */
  lemma LeftUsedUp(c: Cursors, l: seq<Segment>, r: seq<Segment>, left: string, right: string)
    requires InRange(c, l, r) && Accounts(c, l, r) && BranchFires(c, l, r)
    requires c.leftConsumed && (c.rightConsumed || (c.rs < c.re && left <= right))
    requires (forall s :: s in l ==> s.value != "") && (forall s :: s in r ==> s.value != "")
    ensures Repaired(Finish(c, l, r), left, right) == Repaired(Finish(AfterLoop(c, l, r), l, r), left, right)
  {
    hide Rest, Concat, Finish;
    var b := AfterLoop(c, l, r);
    OneSideFinish(c, l, r);
    OneSideFinish(b, l, r);
    RestSingle(l, c.ls);
    if c.rightConsumed {
      RestSingle(r, c.rs);
    } else {
      RestNonEmpty(r, c.rs, c.re);
      RestNonEmpty(r, b.rs, b.re);
    }
  }

  lemma SegmentsNonEmpty(t: string)
    ensures forall s :: s in Segmentize(t) ==> s.value != ""
    ensures Segmentize(t) == [] <==> t == ""
  {
    hide Segmentize;
    SegmentsRebuildText(t);
  }

  /**
   The difference of two non-empty texts, wherever the split conserves them: common segments are taken from
   both ends until none is left to take, and then, where both sides begin (end) in text, common characters;
   the remainders share no first (last) segment, and no first (last) character of text.
   */
  lemma SplitIsTight(left: string, right: string, guarded: bool) returns (p: Parts, d: Diff, taken: string, takenBack: string)
    requires left != "" && right != "" && (guarded || !CountsTwice(left, right))
    ensures Tight(p, Segmentize(left), Segmentize(right)) && TightDiff(p, d, taken, takenBack)
    ensures SplitOf(left, right, guarded) == Repaired(d, left, right)
  {
    hide Segmentize, LoopExit, Ledger, Stuck, Accounts, Finish, AfterLoop, BranchFires, Tight, TightDiff, Repair, Repaired;
    var l, r := Segmentize(left), Segmentize(right);
    SegmentsNonEmpty(left);
    SegmentsNonEmpty(right);
    ExitIsTight(left, right);
    var c := LoopExit(left, right);
    var fires := BranchFires(c, l, r) && !(guarded && (c.leftConsumed || c.rightConsumed));
    RepairIs(Finish(Branch(c, l, r, guarded), l, r), left, right);
    if fires && !c.leftConsumed && !c.rightConsumed {
      p, taken, takenBack := FiredIsTight(c, l, r);
      d := Finish(AfterLoop(c, l, r), l, r);
    } else {
      if !fires {
        if !guarded || !(c.leftConsumed || c.rightConsumed) { NothingFires(c, l, r); }
      } else {
        LeftUsedUp(c, l, r, left, right);
      }
      p := PartsOf(c, l, r);
      d := Finish(c, l, r);
      taken, takenBack := StuckIsTight(c, l, r);
    }
  }

  // ----- equal inputs, and plain texts -----

  lemma {:induction false} SameSides(c: Cursors, l: seq<Segment>)
    requires InRange(c, l, l) && c.ls == c.rs && c.le == c.re && c.leftConsumed == c.rightConsumed
    ensures var e := CloseIn(c, l, l); e.leftConsumed == e.rightConsumed
    decreases c.le - c.ls
  {
    if MayContinue(c) {
      var f := MatchFront(c, l, l);
      var b := MatchBack(f, l, l);
      if !(f == c && b == f) { SameSides(b, l); }
    }
  }

  lemma EqualNotTwice(t: string)
    ensures !CountsTwice(t, t)
  {
    hide Segmentize, CloseIn, BranchFires;
    if Segmentize(t) != [] {
      SameSides(Start(Segmentize(t), Segmentize(t)), Segmentize(t));
    }
  }

  lemma SameMiddle(p: Parts, d: Diff, taken: string, takenBack: string, l: seq<Segment>)
    requires Tight(p, l, l) && TightDiff(p, d, taken, takenBack)
    ensures d.left == "" && d.right == ""
  {
    hide Concat;
    assert p.left == l[|p.front|..|l| - |p.back|] == p.right;
    var x := Concat(p.left);
    assert d.left == x[|taken|..|x| - |takenBack|] == d.right;
    if p.left == [] { NothingConcat(); }
  }

  /** Equal inputs are all prefix. */
  lemma EqualInputs(t: string, guarded: bool)
    ensures SplitOf(t, t, guarded) == Diff(t, "", "", "")
  {
    hide Segmentize, Tight, TightDiff, CountsTwice, LoopExit, Finish;
    SegmentsNonEmpty(t);
    if t != "" {
      EqualNotTwice(t);
      var p, d, taken, takenBack := SplitIsTight(t, t, guarded);
      SameMiddle(p, d, taken, takenBack, Segmentize(t));
    }
  }

  /** An empty input leaves the other one as it is. */
  lemma EmptyInput(t: string, guarded: bool)
    ensures SplitOf("", t, guarded) == Diff("", "", "", t)
    ensures t != "" ==> SplitOf(t, "", guarded) == Diff("", "", t, "")
  {
    hide LoopExit, Finish;
    SegmentsNonEmpty(t);
  }
}
