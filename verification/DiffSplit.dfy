/**
 calculate_diff_split: the common prefix, the common suffix and what differs between two
 template renderings. Two cursors close in on each segment list from both ends.
 */
module DiffSplit {
  import opened Segments
  import opened Affixes

  datatype Diff = Diff(prefix: string, suffix: string, left: string, right: string)

  /** Prefix, differing part and suffix rebuild each input. */
  predicate Conserves(d: Diff, left: string, right: string) {
    d.prefix + d.left + d.suffix == left && d.prefix + d.right + d.suffix == right
  }

  /** The four iterators, the two flags and the parts of the result built so far. */
  datatype Cursors = Cursors(ls: nat, le: nat, rs: nat, re: nat,
                             leftConsumed: bool, rightConsumed: bool,
                             prefix: string, suffix: string)

  predicate InRange(c: Cursors, l: seq<Segment>, r: seq<Segment>) {
    c.ls <= c.le < |l| && c.rs <= c.re < |r|
  }

  predicate MayContinue(c: Cursors) {
    c.ls != c.le && c.rs != c.re
  }

  function MatchFront(c: Cursors, l: seq<Segment>, r: seq<Segment>): (c': Cursors)
    requires InRange(c, l, r) && MayContinue(c)
    ensures InRange(c', l, r)
  {
    if l[c.ls] == r[c.rs] then c.(prefix := c.prefix + l[c.ls].value, ls := c.ls + 1, rs := c.rs + 1) else c
  }

  function MatchBack(c: Cursors, l: seq<Segment>, r: seq<Segment>): (c': Cursors)
    requires InRange(c, l, r)
    ensures InRange(c', l, r)
  {
    if l[c.le] == r[c.re] then
      c.(suffix := l[c.le].value + c.suffix,
         le := if c.ls != c.le then c.le - 1 else c.le,
         leftConsumed := c.leftConsumed || c.ls == c.le,
         re := if c.rs != c.re then c.re - 1 else c.re,
         rightConsumed := c.rightConsumed || c.rs == c.re)
    else c
  }

  /** The whole loop: alternately match at the front and at the back until neither moves. */
  function CloseIn(c: Cursors, l: seq<Segment>, r: seq<Segment>): (c': Cursors)
    requires InRange(c, l, r)
    ensures InRange(c', l, r)
    decreases c.le - c.ls
  {
    if !MayContinue(c) then c
    else
      var f := MatchFront(c, l, r);
      var b := MatchBack(f, l, r);
      if f == c && b == f then c
      else CloseIn(b, l, r)
  }

  /** Whether the code after the loop takes one more segment from both sides. */
  predicate BranchFires(c: Cursors, l: seq<Segment>, r: seq<Segment>)
    requires InRange(c, l, r)
  {
    if c.ls == c.le && c.rs != c.re then l[c.ls] == r[c.re] || l[c.ls] == r[c.rs]
    else if c.rs == c.re && c.ls != c.le then l[c.le] == r[c.rs] || l[c.ls] == r[c.rs]
    else c.ls == c.le && c.rs == c.re && l[c.ls] == r[c.rs] && l[c.ls].kind == Marker
  }

  function AfterLoop(c: Cursors, l: seq<Segment>, r: seq<Segment>): (c': Cursors)
    requires InRange(c, l, r)
    ensures InRange(c', l, r)
  {
    if c.ls == c.le && c.rs != c.re then
      if l[c.ls] == r[c.re] then
        c.(suffix := r[c.re].value + c.suffix, re := c.re - 1, leftConsumed := true)
      else if l[c.ls] == r[c.rs] then
        c.(prefix := c.prefix + r[c.rs].value, rs := c.rs + 1, leftConsumed := true)
      else c
    else if c.rs == c.re && c.ls != c.le then
      if l[c.le] == r[c.rs] then
        c.(suffix := l[c.le].value + c.suffix, le := c.le - 1, rightConsumed := true)
      else if l[c.ls] == r[c.rs] then
        c.(prefix := c.prefix + l[c.ls].value, ls := c.ls + 1, rightConsumed := true)
      else c
    else if BranchFires(c, l, r) then
      c.(prefix := c.prefix + r[c.rs].value, leftConsumed := true, rightConsumed := true)
    else c
  }

  function Rest(segs: seq<Segment>, start: nat, end: nat, consumed: bool): string
    requires start <= end < |segs|
  {
    Concat(segs[start..if consumed then end else end + 1])
  }

  /** Cut p characters off the front and s off the back of both remainders. */
  function SplitAt(c: Cursors, restLeft: string, restRight: string, p: nat, s: nat): Diff
    requires p + s <= |restLeft| && p + s <= |restRight|
  {
    Diff(c.prefix + restLeft[..p], restLeft[|restLeft| - s..] + c.suffix,
         restLeft[p..|restLeft| - s], restRight[p..|restRight| - s])
  }

  /** The character-level pass over what the segments left. */
  function SplitRest(c: Cursors, restLeft: string, restRight: string, textSuffix: bool, textPrefix: bool): Diff {
    var s := if textSuffix then SuffixLen(restLeft, restRight) else 0;
    var p := if textPrefix then PrefixLen(restLeft[..|restLeft| - s], restRight[..|restRight| - s]) else 0;
    SplitAt(c, restLeft, restRight, p, s)
  }

  /** The two final repairs. */
  function Repair(d: Diff, left: string, right: string): Diff {
    var d := if d.left == "" && d.right == "" then d.(prefix := left, suffix := "") else d;
    if d.left == "" && d.right != "" && left <= right then
      d.(prefix := left, suffix := "", right := right[|left|..])
    else d
  }

  function Finish(c: Cursors, l: seq<Segment>, r: seq<Segment>): Diff
    requires InRange(c, l, r)
  {
    SplitRest(c, Rest(l, c.ls, c.le, c.leftConsumed), Rest(r, c.rs, c.re, c.rightConsumed),
              l[c.le].kind == Text && r[c.re].kind == Text,
              r[c.rs].kind == Text && l[c.ls].kind == Text)
  }

  function Start(l: seq<Segment>, r: seq<Segment>): (c: Cursors)
    requires l != [] && r != []
    ensures InRange(c, l, r)
  {
    Cursors(0, |l| - 1, 0, |r| - 1, false, false, "", "")
  }

  /** Cursors when the loop ends. */
  function LoopExit(left: string, right: string): (c: Cursors)
    requires Segmentize(left) != [] && Segmentize(right) != []
    ensures InRange(c, Segmentize(left), Segmentize(right))
  {
    CloseIn(Start(Segmentize(left), Segmentize(right)), Segmentize(left), Segmentize(right))
  }

  /** Branches as the code has them, or skipped for a side that the loop used up. */
  function Branch(c: Cursors, l: seq<Segment>, r: seq<Segment>, guarded: bool): (c': Cursors)
    requires InRange(c, l, r)
    ensures InRange(c', l, r)
  {
    if guarded && (c.leftConsumed || c.rightConsumed) then c else AfterLoop(c, l, r)
  }

  function SplitOf(left: string, right: string, guarded: bool): Diff {
    var l, r := Segmentize(left), Segmentize(right);
    if l == [] then Diff("", "", "", right)
    else if r == [] then Diff("", "", left, "")
    else Repair(Finish(Branch(LoopExit(left, right), l, r, guarded), l, r), left, right)
  }

  // ----- conservation -----

  /** What the cursors stand for: nothing of either text has been lost. */
  predicate Accounts(c: Cursors, l: seq<Segment>, r: seq<Segment>)
    requires InRange(c, l, r)
  {
    && (c.leftConsumed ==> c.ls == c.le)
    && (c.rightConsumed ==> c.rs == c.re)
    && Concat(l) == c.prefix + Rest(l, c.ls, c.le, c.leftConsumed) + c.suffix
    && Concat(r) == c.prefix + Rest(r, c.rs, c.re, c.rightConsumed) + c.suffix
  }

  lemma ConcatOne(s: Segment)
    ensures Concat([s]) == s.value
  {
    assert [s][1..] == [];
  }

  lemma TakeOneMore(segs: seq<Segment>, start: nat, end: nat)
    requires start <= end < |segs|
    ensures segs[start..end + 1] == segs[start..end] + [segs[end]]
  {
  }

  lemma RestFront(segs: seq<Segment>, start: nat, end: nat)
    requires start < end < |segs|
    ensures Rest(segs, start, end, false) == segs[start].value + Rest(segs, start + 1, end, false)
  {
    assert segs[start..end + 1][1..] == segs[start + 1..end + 1];
  }

  lemma RestBack(segs: seq<Segment>, start: nat, end: nat)
    requires start < end < |segs|
    ensures Rest(segs, start, end, false) == Rest(segs, start, end - 1, false) + segs[end].value
  {
    hide Concat;
    TakeOneMore(segs, start, end);
    ConcatAppend(segs[start..end], [segs[end]]);
    ConcatOne(segs[end]);
  }

  lemma RestSingle(segs: seq<Segment>, i: nat)
    requires i < |segs|
    ensures Rest(segs, i, i, false) == segs[i].value && Rest(segs, i, i, true) == ""
  {
    ConcatOne(segs[i]);
    assert segs[i..i + 1] == [segs[i]];
  }

  lemma RestAtBack(segs: seq<Segment>, start: nat, end: nat)
    requires start <= end < |segs|
    ensures start < end ==> Rest(segs, start, end, false) == Rest(segs, start, end - 1, false) + segs[end].value
    ensures start == end ==> Rest(segs, start, end, false) == segs[end].value && Rest(segs, start, end, true) == ""
  {
    if start < end { RestBack(segs, start, end); } else { RestSingle(segs, start); }
  }

  lemma MatchFrontAccounts(c: Cursors, l: seq<Segment>, r: seq<Segment>)
    requires InRange(c, l, r) && MayContinue(c) && Accounts(c, l, r) && !c.leftConsumed && !c.rightConsumed
    ensures Accounts(MatchFront(c, l, r), l, r)
  {
    hide Rest, Concat;
    RestFront(l, c.ls, c.le);
    RestFront(r, c.rs, c.re);
  }

  lemma MatchBackAccounts(c: Cursors, l: seq<Segment>, r: seq<Segment>)
    requires InRange(c, l, r) && Accounts(c, l, r) && !c.leftConsumed && !c.rightConsumed
    ensures Accounts(MatchBack(c, l, r), l, r)
  {
    hide Rest, Concat;
    RestAtBack(l, c.ls, c.le);
    RestAtBack(r, c.rs, c.re);
  }

  /** The loop loses nothing. */
  lemma {:induction false} CloseInAccounts(c: Cursors, l: seq<Segment>, r: seq<Segment>)
    requires InRange(c, l, r) && Accounts(c, l, r)
    requires MayContinue(c) ==> !c.leftConsumed && !c.rightConsumed
    ensures Accounts(CloseIn(c, l, r), l, r)
    decreases c.le - c.ls
  {
    hide Rest, Concat;
    if MayContinue(c) {
      MatchFrontAccounts(c, l, r);
      var f := MatchFront(c, l, r);
      MatchBackAccounts(f, l, r);
      var b := MatchBack(f, l, r);
      if !(f == c && b == f) { CloseInAccounts(b, l, r); }
    }
  }

  lemma StartAccounts(l: seq<Segment>, r: seq<Segment>)
    requires l != [] && r != []
    ensures Accounts(Start(l, r), l, r)
  {
    assert l[0..|l|] == l && r[0..|r|] == r;
  }

  lemma LoopAccounts(left: string, right: string)
    requires Segmentize(left) != [] && Segmentize(right) != []
    ensures Accounts(LoopExit(left, right), Segmentize(left), Segmentize(right))
    ensures Concat(Segmentize(left)) == left && Concat(Segmentize(right)) == right
  {
    hide Segmentize, CloseIn, Accounts, Concat;
    SegmentsRebuildText(left);
    SegmentsRebuildText(right);
    StartAccounts(Segmentize(left), Segmentize(right));
    CloseInAccounts(Start(Segmentize(left), Segmentize(right)), Segmentize(left), Segmentize(right));
  }

  /** A branch that fires on sides with something left keeps the account. */
  lemma AfterLoopAccounts(c: Cursors, l: seq<Segment>, r: seq<Segment>)
    requires InRange(c, l, r) && Accounts(c, l, r) && !c.leftConsumed && !c.rightConsumed
    ensures Accounts(AfterLoop(c, l, r), l, r)
  {
    hide Rest, Concat;
    RestAtBack(l, c.ls, c.le);
    RestAtBack(r, c.rs, c.re);
    if c.ls < c.le { RestFront(l, c.ls, c.le); }
    if c.rs < c.re { RestFront(r, c.rs, c.re); }
  }

  lemma SplitAtConserves(c: Cursors, restLeft: string, restRight: string, p: nat, s: nat)
    requires p + s <= |restLeft| && p + s <= |restRight|
    requires restLeft[..p] == restRight[..p] && restLeft[|restLeft| - s..] == restRight[|restRight| - s..]
    ensures Conserves(SplitAt(c, restLeft, restRight, p, s),
                      c.prefix + restLeft + c.suffix, c.prefix + restRight + c.suffix)
  {
    Rejoin(c, restLeft, p, s);
    Rejoin(c, restRight, p, s);
  }

  lemma SplitRestConserves(c: Cursors, restLeft: string, restRight: string, textSuffix: bool, textPrefix: bool)
    ensures Conserves(SplitRest(c, restLeft, restRight, textSuffix, textPrefix),
                      c.prefix + restLeft + c.suffix, c.prefix + restRight + c.suffix)
  {
    hide PrefixLen, SuffixLen, Conserves, SplitAt;
    var s := if textSuffix then SuffixLen(restLeft, restRight) else 0;
    var cutL, cutR := restLeft[..|restLeft| - s], restRight[..|restRight| - s];
    var p := if textPrefix then PrefixLen(cutL, cutR) else 0;
    SharedSuffix(restLeft, restRight);
    SharedPrefix(cutL, cutR);
    assert restLeft[..p] == cutL[..p] && restRight[..p] == cutR[..p];
    SplitAtConserves(c, restLeft, restRight, p, s);
  }

  lemma Rejoin(c: Cursors, rest: string, p: nat, s: nat)
    requires p + s <= |rest|
    ensures c.prefix + rest[..p] + rest[p..|rest| - s] + (rest[|rest| - s..] + c.suffix)
            == c.prefix + rest + c.suffix
  {
    var x, y, z := rest[..p], rest[p..|rest| - s], rest[|rest| - s..];
    assert rest == x + y + z;
    Reassociate(c.prefix, x, y, z, c.suffix);
  }

  lemma Reassociate(a: string, x: string, y: string, z: string, b: string)
    ensures a + x + y + (z + b) == a + (x + y + z) + b
  {
  }

  lemma RepairConserves(d: Diff, left: string, right: string)
    requires Conserves(d, left, right)
    ensures Conserves(Repair(d, left, right), left, right)
  {
    if d.left == "" && d.right == "" {
      assert left == right;
    } else if d.left == "" && left <= right {
      assert right == left + right[|left|..];
    }
  }

  lemma FinishConserves(c: Cursors, l: seq<Segment>, r: seq<Segment>, left: string, right: string)
    requires InRange(c, l, r) && Accounts(c, l, r) && Concat(l) == left && Concat(r) == right
    ensures Conserves(Repair(Finish(c, l, r), left, right), left, right)
  {
    SplitRestConserves(c, Rest(l, c.ls, c.le, c.leftConsumed), Rest(r, c.rs, c.re, c.rightConsumed),
                       l[c.le].kind == Text && r[c.re].kind == Text,
                       r[c.rs].kind == Text && l[c.ls].kind == Text);
    RepairConserves(Finish(c, l, r), left, right);
  }

  /** With the branches guarded, nothing is ever lost: on every pair of inputs. */
  lemma GuardedSplitConserves(left: string, right: string)
    ensures Conserves(SplitOf(left, right, true), left, right)
  {
    var l, r := Segmentize(left), Segmentize(right);
    SegmentsRebuildText(left);
    SegmentsRebuildText(right);
    if l != [] && r != [] {
      LoopAccounts(left, right);
      var c := LoopExit(left, right);
      if !c.leftConsumed && !c.rightConsumed { AfterLoopAccounts(c, l, r); }
      FinishConserves(Branch(c, l, r, true), l, r, left, right);
    }
  }

  /**
   The inputs on which the code counts a segment twice: the loop has used up one side only,
   a branch after the loop takes that side's last segment once more, and the last repair
   does not come to the rescue.
   */
  predicate CountsTwice(left: string, right: string) {
    var l, r := Segmentize(left), Segmentize(right);
    && l != [] && r != []
    && var c := LoopExit(left, right);
       && c.leftConsumed != c.rightConsumed
       && BranchFires(c, l, r)
       && !(c.leftConsumed && c.rs < c.re && left <= right)
  }

  /** With one side used up, the character pass has nothing to compare. */
  lemma OneSideFinish(c: Cursors, l: seq<Segment>, r: seq<Segment>)
    requires InRange(c, l, r) && (c.leftConsumed ==> c.ls == c.le) && (c.rightConsumed ==> c.rs == c.re)
    requires c.leftConsumed || c.rightConsumed
    ensures Finish(c, l, r) == Diff(c.prefix, c.suffix, Rest(l, c.ls, c.le, c.leftConsumed), Rest(r, c.rs, c.re, c.rightConsumed))
  {
    var restLeft, restRight := Rest(l, c.ls, c.le, c.leftConsumed), Rest(r, c.rs, c.re, c.rightConsumed);
    assert c.leftConsumed ==> restLeft == "";
    assert c.rightConsumed ==> restRight == "";
    assert SuffixLen(restLeft, restRight) == 0 && PrefixLen(restLeft, restRight) == 0;
    assert restLeft[..|restLeft|] == restLeft && restRight[..|restRight|] == restRight;
  }

  lemma RestNonEmpty(segs: seq<Segment>, start: nat, end: nat)
    requires start <= end < |segs| && forall s :: s in segs ==> s.value != ""
    ensures Rest(segs, start, end, false) != ""
  {
    assert segs[start..end + 1][0] == segs[start] && segs[start] in segs;
  }

  lemma RepairAfterLeft(d: Diff, left: string, right: string)
    requires d.left == "" && |d.prefix| + |d.suffix| > |left| && |right| != |left|
    ensures Conserves(Repair(d, left, right), left, right) <==> d.right != "" && left <= right
  {
    if d.right != "" && left <= right {
      assert left + "" + "" == left && left + right[|left|..] + "" == right;
    } else if d.right == "" {
      assert |left + "" + ""| != |right|;
    } else {
      assert |d.prefix + "" + d.suffix| != |left|;
    }
  }

  lemma RepairAfterRight(d: Diff, left: string, right: string)
    requires d.right == "" && |d.prefix| + |d.suffix| > |right| && |right| != |left|
    ensures !Conserves(Repair(d, left, right), left, right)
  {
    if d.left == "" {
      assert |left + "" + ""| != |right|;
    } else {
      assert |d.prefix + "" + d.suffix| != |right|;
    }
  }

  /** What a branch does to a left side that the loop had used up. */
  lemma LeftBranch(c: Cursors, l: seq<Segment>, r: seq<Segment>)
    requires InRange(c, l, r) && Accounts(c, l, r)
    requires c.leftConsumed && !c.rightConsumed && BranchFires(c, l, r)
    requires (forall s :: s in l ==> s.value != "") && (forall s :: s in r ==> s.value != "")
    ensures var d := Finish(AfterLoop(c, l, r), l, r);
            && d.left == "" && |d.prefix| + |d.suffix| > |Concat(l)| && |Concat(r)| != |Concat(l)|
            && (d.right != "" <==> c.rs < c.re)
  {
    hide Rest, Concat, Finish;
    var b := AfterLoop(c, l, r);
    OneSideFinish(b, l, r);
    RestSingle(l, c.ls);
    assert l[c.ls] in l;
    RestNonEmpty(r, c.rs, c.re);
    if c.rs < c.re { RestNonEmpty(r, b.rs, b.re); } else { RestSingle(r, c.rs); }
  }

  lemma RightBranch(c: Cursors, l: seq<Segment>, r: seq<Segment>)
    requires InRange(c, l, r) && Accounts(c, l, r)
    requires !c.leftConsumed && c.rightConsumed && BranchFires(c, l, r)
    requires (forall s :: s in l ==> s.value != "") && (forall s :: s in r ==> s.value != "")
    ensures var d := Finish(AfterLoop(c, l, r), l, r);
            d.right == "" && |d.prefix| + |d.suffix| > |Concat(r)| && |Concat(r)| != |Concat(l)|
  {
    hide Rest, Concat, Finish;
    var b := AfterLoop(c, l, r);
    OneSideFinish(b, l, r);
    RestSingle(r, c.rs);
    assert r[c.rs] in r;
    RestNonEmpty(l, c.ls, c.le);
    if c.ls < c.le { RestNonEmpty(l, b.ls, b.le); } else { RestSingle(l, c.ls); }
  }

  /** Both sides used up: the inputs are equal, and the first repair says so. */
  lemma BothUsedUp(c: Cursors, l: seq<Segment>, r: seq<Segment>)
    requires InRange(c, l, r) && Accounts(c, l, r) && c.leftConsumed && c.rightConsumed
    ensures Concat(l) == Concat(r)
    ensures Conserves(Repair(Finish(AfterLoop(c, l, r), l, r), Concat(l), Concat(r)), Concat(l), Concat(r))
  {
    hide Rest, Concat, Finish;
    OneSideFinish(AfterLoop(c, l, r), l, r);
    RestSingle(l, c.ls);
    RestSingle(r, c.rs);
  }

  lemma NothingFires(c: Cursors, l: seq<Segment>, r: seq<Segment>)
    requires InRange(c, l, r) && !BranchFires(c, l, r)
    ensures AfterLoop(c, l, r) == c
  {
  }

  /** Exactly when the code as written conserves both inputs. */
  lemma SplitConservesExactlyWhen(left: string, right: string)
    ensures Conserves(SplitOf(left, right, false), left, right) <==> !CountsTwice(left, right)
  {
    hide Segmentize, Accounts, Concat, Finish, Repair, AfterLoop, BranchFires, LoopExit;
    var l, r := Segmentize(left), Segmentize(right);
    SegmentsRebuildText(left);
    SegmentsRebuildText(right);
    if l != [] && r != [] {
      LoopAccounts(left, right);
      var c := LoopExit(left, right);
      var d := Finish(AfterLoop(c, l, r), l, r);
      if !c.leftConsumed && !c.rightConsumed {
        AfterLoopAccounts(c, l, r);
        FinishConserves(AfterLoop(c, l, r), l, r, left, right);
      } else if c.leftConsumed && c.rightConsumed {
        BothUsedUp(c, l, r);
      } else if !BranchFires(c, l, r) {
        NothingFires(c, l, r);
        FinishConserves(c, l, r, left, right);
      } else if c.leftConsumed {
        LeftBranch(c, l, r);
        RepairAfterLeft(d, left, right);
      } else {
        RightBranch(c, l, r);
        RepairAfterRight(d, left, right);
      }
    }
  }

  // ----- a failing input -----

  const A_TAG := Segment(Marker, "<a>")
  const B_TAG := Segment(Marker, "<b>")

  lemma TagThenRest(name: char, rest: string)
    requires name != '>'
    ensures Segmentize(['<', name, '>'] + rest) == [Segment(Marker, ['<', name, '>'])] + Segmentize(rest)
  {
    var t := ['<', name, '>'] + rest;
    MarkerStep(t, 0, 2);
    assert t[0..] == t && t[0..3] == ['<', name, '>'] && t[3..] == rest;
  }

  lemma WitnessSegments()
    ensures Segmentize("<a><b>") == [A_TAG, B_TAG] && Segmentize("<a><b><b>") == [A_TAG, B_TAG, B_TAG]
  {
    hide Segmentize;
    NothingLeft("");
    TagThenRest('b', "");
    TagThenRest('b', "<b>");
    TagThenRest('a', "<b>");
    TagThenRest('a', "<b><b>");
    assert "<b>" + "" == "<b>" && "<a><b>" == "<a>" + "<b>";
    assert "<b><b>" == "<b>" + "<b>" && "<a><b><b>" == "<a>" + "<b><b>";
  }

  /** The code reports no difference between these two, dropping the right one's last tag. */
  lemma CountsTwiceWitness()
    ensures CountsTwice("<a><b>", "<a><b><b>")
    ensures !Conserves(SplitOf("<a><b>", "<a><b><b>", false), "<a><b>", "<a><b><b>")
  {
    WitnessSegments();
    var l, r := [A_TAG, B_TAG], [A_TAG, B_TAG, B_TAG];
    var f := Cursors(1, 1, 1, 2, false, false, "" + "<a>", "");
    assert MatchFront(Start(l, r), l, r) == f;
    var b := Cursors(1, 1, 1, 1, true, false, "" + "<a>", "<b>" + "");
    assert MatchBack(f, l, r) == b;
    assert LoopExit("<a><b>", "<a><b><b>") == b;
    SplitConservesExactlyWhen("<a><b>", "<a><b><b>");
  }

  // ----- the method -----

  /** std::accumulate over a range of segments. */
  method EatSegments(segs: seq<Segment>, start: nat, end: nat) returns (r: string)
    requires start <= end <= |segs|
    ensures r == Concat(segs[start..end])
  {
    r := "";
    var i := start;
    while i < end
      invariant start <= i <= end
      invariant r == Concat(segs[start..i])
    {
      ConcatAppend(segs[start..i], [segs[i]]);
      ConcatOne(segs[i]);
      TakeOneMore(segs, start, i);
      r := r + segs[i].value;
      i := i + 1;
    }
  }

  lemma CloseInUnfolds(c: Cursors, l: seq<Segment>, r: seq<Segment>)
    requires InRange(c, l, r) && MayContinue(c)
    ensures var f := MatchFront(c, l, r);
            var b := MatchBack(f, l, r);
            (if f == c && b == f then CloseIn(c, l, r) == c else CloseIn(c, l, r) == CloseIn(b, l, r))
  {
  }

  /** The loop of calculate_diff_split over its four iterators. */
  method MatchSegments(l: seq<Segment>, r: seq<Segment>) returns (c: Cursors)
    requires l != [] && r != []
    ensures InRange(c, l, r) && c == CloseIn(Start(l, r), l, r)
  {
    hide CloseIn;
    var leftStart: nat, leftEnd: nat, rightStart: nat, rightEnd: nat := 0, |l| - 1, 0, |r| - 1;
    var leftFullyConsumed, rightFullyConsumed := false, false;
    var prefix, suffix := "", "";
    ghost var now := Start(l, r);
    while leftStart != leftEnd && rightStart != rightEnd
      invariant now == Cursors(leftStart, leftEnd, rightStart, rightEnd,
                               leftFullyConsumed, rightFullyConsumed, prefix, suffix)
      invariant InRange(now, l, r) && CloseIn(now, l, r) == CloseIn(Start(l, r), l, r)
      decreases leftEnd - leftStart
    {
      CloseInUnfolds(now, l, r);
      var advanced := false;
      if l[leftStart] == r[rightStart] {
        prefix := prefix + l[leftStart].value;
        leftStart := leftStart + 1;
        rightStart := rightStart + 1;
        advanced := true;
      }
      if l[leftEnd] == r[rightEnd] {
        suffix := l[leftEnd].value + suffix;
        if leftStart != leftEnd { leftEnd := leftEnd - 1; } else { leftFullyConsumed := true; }
        if rightStart != rightEnd { rightEnd := rightEnd - 1; } else { rightFullyConsumed := true; }
        advanced := true;
      }
      if !advanced {
        assert CloseIn(now, l, r) == now;
        break;
      }
      now := Cursors(leftStart, leftEnd, rightStart, rightEnd,
                     leftFullyConsumed, rightFullyConsumed, prefix, suffix);
    }
    CloseInStops(now, l, r);
    c := Cursors(leftStart, leftEnd, rightStart, rightEnd, leftFullyConsumed, rightFullyConsumed, prefix, suffix);
  }

  lemma CloseInStops(c: Cursors, l: seq<Segment>, r: seq<Segment>)
    requires InRange(c, l, r)
    ensures !MayContinue(c) ==> CloseIn(c, l, r) == c
  {
  }

  /** The remainders and the character pass over them. */
  method SplitRemainders(c: Cursors, l: seq<Segment>, r: seq<Segment>) returns (d: Diff)
    requires InRange(c, l, r)
    ensures d == Finish(c, l, r)
  {
    hide Concat, PrefixLen, SuffixLen, SplitAt;
    var canHaveTextSuffix := l[c.le].kind == Text && r[c.re].kind == Text;
    var canHaveTextPrefix := r[c.rs].kind == Text && l[c.ls].kind == Text;
    var remainderLeft := EatSegments(l, c.ls, if c.leftConsumed then c.le else c.le + 1);
    var remainderRight := EatSegments(r, c.rs, if c.rightConsumed then c.re else c.re + 1);
    var suffixLen, prefixLen := 0, 0;
    if canHaveTextSuffix { suffixLen := CommonSuffixLen(remainderLeft, remainderRight); }
    if canHaveTextPrefix {
      prefixLen := CommonPrefixLen(remainderLeft[..|remainderLeft| - suffixLen],
                                   remainderRight[..|remainderRight| - suffixLen]);
    }
    d := SplitAt(c, remainderLeft, remainderRight, prefixLen, suffixLen);
  }

  /** calculate_diff_split as written; conserves its inputs exactly when nothing counts twice. */
  method CalculateDiffSplit(left: string, right: string) returns (result: Diff)
    ensures result == SplitOf(left, right, false)
    ensures Conserves(result, left, right) <==> !CountsTwice(left, right)
  {
    hide Segmentize, CloseIn, Concat, Repair, CountsTwice, Conserves, Finish, AfterLoop;
    SplitConservesExactlyWhen(left, right);
    var leftSeg := SegmentizeMarkers(left);
    var rightSeg := SegmentizeMarkers(right);
    if leftSeg == [] { return Diff("", "", "", right); }
    if rightSeg == [] { return Diff("", "", left, ""); }
    var c := MatchSegments(leftSeg, rightSeg);
    c := AfterLoop(c, leftSeg, rightSeg);
    var d := SplitRemainders(c, leftSeg, rightSeg);
    result := Repair(d, left, right);
  }
}
