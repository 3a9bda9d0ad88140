/**
 Parse trees of model output. A tree is re-built from a longer output at every step; while the
 output grows, a tree grows along its last spine, where nodes that were only tried may go again.
 */
module Ast {
  datatype Rule =
    | GemmaNumber | GemmaBool | GemmaNull | GemmaStringContent | GemmaString | GemmaArray
    | GemmaDictKeyName | GemmaDictKey | GemmaDictKv | GemmaDict | GemmaValue | OtherRule

  datatype Tag =
    | Reasoning | Content | Tool | ToolOpen | ToolClose | ToolId | ToolName | ToolArgs
    | ToolArg | ToolArgOpen | ToolArgClose | ToolArgName | ToolArgValue | ToolArgStringValue
    | ToolArgObject | ToolArgArray | ToolArgItem | OtherTag

  datatype Node = Node(rule: Rule, tag: Tag, text: string, children: seq<Node>, partial: bool)

  /** Rules whose children are not written: only the text counts. */
  predicate IsLeafRule(r: Rule) {
    r == GemmaNumber || r == GemmaBool || r == GemmaNull || r == GemmaStringContent || r == GemmaDictKeyName
  }

  predicate IsLeafTag(t: Tag) {
    t == Reasoning || t == Content || t == ToolName || t == ToolArgName || t == ToolArgValue || t == ToolArgStringValue
  }

  /** Nodes of which the text counts and nothing inside. */
  predicate IsLeaf(n: Node) {
    (IsLeafRule(n.rule) && n.tag == OtherTag) || (n.rule == OtherRule && IsLeafTag(n.tag))
  }

  /** Nodes that write their own text, or ask whether there is any. */
  predicate HasText(n: Node) {
    IsLeafTag(n.tag) || n.rule != OtherRule
  }

  /**
   Nodes that end with a closing mark and are final once complete. All others may be complete at the
   end of the output and still grow: characters, repetitions and text before a possible delimiter.
   */
  predicate Closes(n: Node) {
    || n.rule == GemmaString || n.rule == GemmaArray || n.rule == GemmaDictKey || n.rule == GemmaDict
    || n.tag == Tool || n.tag == ToolArg || n.tag == ToolArgItem || n.tag == ToolName || n.tag == ToolArgName
  }

  /** What a first alternative leaves that has matched nothing yet; another may take its place. */
  predicate IsPlaceholder(n: Node) {
    n.tag == OtherTag && n.text == "" && n.children == []
  }

  predicate Untagged(ns: seq<Node>)
    decreases ns
  {
    forall n :: n in ns ==> n.tag == OtherTag && Untagged(n.children)
  }

  /** A node that writes nothing: a wrapper, entry or call in which nothing has been read yet. */
  predicate Blank(n: Node)
    decreases n, 1
  {
    && n.rule == OtherRule
    && (match n.tag
        case Reasoning => n.text == ""
        case Content => n.text == ""
        case ToolArgValue => n.text == ""
        case ToolName => false
        case ToolArgName => false
        case ToolArgs => false
        case ToolArgStringValue => false
        case ToolArgObject => false
        case ToolArgArray => false
        case _ => true)
    && AllBlank(n.children)
  }

  predicate AllBlank(ns: seq<Node>)
    decreases ns, 0
  {
    forall n :: n in ns ==> Blank(n)
  }

  /** How many siblings there are up to the last that writes something. */
  function Live(ns: seq<Node>): (k: nat)
    ensures k <= |ns| && AllBlank(ns[k..]) && (k > 0 ==> !Blank(ns[k - 1]))
    decreases |ns|
  {
    if ns == [] || !Blank(ns[|ns| - 1]) then |ns|
    else
      var n := |ns| - 1;
      var k := Live(ns[..n]);
      assert ns[k..] == ns[..n][k..] + [ns[n]];
      k
  }

  /** b is what a may become as the output grows. */
  predicate Grows(a: Node, b: Node)
    decreases a, 1
  {
    || a == b
    || (IsPlaceholder(a) && b.tag == OtherTag)
    || (&& (a.partial || !Closes(a))
        && a.rule == b.rule && a.tag == b.tag
        && (HasText(a) ==> a.text <= b.text)
        && (if IsLeaf(a) then Untagged(a.children) && Untagged(b.children)
            else GrowsAll(a.children, b.children, a.rule == OtherRule)))
  }

  /**
   Lists of siblings: only the last one grows, and new ones follow it. In a loose list the blank
   ones at the end do not count: they may grow, make place for others, or go.
   */
  predicate GrowsAll(a: seq<Node>, b: seq<Node>, loose: bool)
    decreases a, 0
  {
    var k := if loose then Live(a) else |a|;
    || k == 0
    || (k <= |b| && a[..k - 1] == b[..k - 1] && Grows(a[k - 1], b[k - 1]))
  }

  lemma GrowsAllAt(a: seq<Node>, b: seq<Node>, loose: bool, i: nat)
    requires GrowsAll(a, b, loose) && i < if loose then Live(a) else |a|
    ensures i < |b| && Grows(a[i], b[i])
  {
    var k := if loose then Live(a) else |a|;
    if i < k - 1 { assert a[i] == a[..k - 1][i] == b[..k - 1][i]; }
  }

  /** find_by_tag: first node with the tag in document order, at most `depth` levels down. */
  function FindByTag(nodes: seq<Node>, tag: Tag, depth: nat): (r: seq<Node>)
    requires depth > 0
    ensures |r| <= 1 && (|r| == 1 ==> r[0].tag == tag)
    decreases nodes
  {
    if nodes == [] then []
    else if nodes[0].tag == tag then [nodes[0]]
    else
      var r := if depth > 1 then FindByTag(nodes[0].children, tag, depth - 1) else [];
      if r != [] then r else FindByTag(nodes[1..], tag, depth)
  }

  lemma {:induction false} FindInBlank(ns: seq<Node>, tag: Tag, depth: nat)
    requires depth > 0 && AllBlank(ns) && (tag == ToolName || tag == ToolArgName || tag == ToolArgs)
    ensures FindByTag(ns, tag, depth) == []
    decreases ns
  {
    if ns != [] {
      assert Blank(ns[0]);
      if depth > 1 { FindInBlank(ns[0].children, tag, depth - 1); }
      FindInBlank(ns[1..], tag, depth);
    }
  }

  lemma {:induction false} FindInUntagged(ns: seq<Node>, tag: Tag, depth: nat)
    requires depth > 0 && Untagged(ns) && tag != OtherTag
    ensures FindByTag(ns, tag, depth) == []
    decreases ns
  {
    if ns != [] {
      assert ns[0] in ns;
      if depth > 1 { FindInUntagged(ns[0].children, tag, depth - 1); }
      FindInUntagged(ns[1..], tag, depth);
    }
  }

  lemma FindCons(ns: seq<Node>, tag: Tag, depth: nat)
    requires depth > 0 && ns != []
    ensures FindByTag(ns, tag, depth) == if ns[0].tag == tag then [ns[0]] else
              var r := if depth > 1 then FindByTag(ns[0].children, tag, depth - 1) else [];
              if r != [] then r else FindByTag(ns[1..], tag, depth)
  {
  }

  lemma {:induction false} FindAppend(a: seq<Node>, b: seq<Node>, tag: Tag, depth: nat)
    requires depth > 0
    ensures var r := FindByTag(a, tag, depth);
            FindByTag(a + b, tag, depth) == if r != [] then r else FindByTag(b, tag, depth)
    decreases a
  {
    hide FindByTag;
    if a == [] {
      assert a + b == b;
      FindNothing(tag, depth);
    } else {
      FindAppend(a[1..], b, tag, depth);
      assert (a + b)[0] == a[0] && (a + b)[1..] == a[1..] + b;
      FindCons(a, tag, depth);
      FindCons(a + b, tag, depth);
    }
  }

  lemma FindOne(n: Node, tag: Tag, depth: nat)
    requires depth > 0
    ensures FindByTag([n], tag, depth)
            == if n.tag == tag then [n] else if depth > 1 then FindByTag(n.children, tag, depth - 1) else []
  {
    assert [n][1..] == [];
    if depth > 1 { assert FindByTag([], tag, depth) == []; }
  }

  /** A node found in the smaller tree is found, possibly grown, in the larger one. */
  lemma {:induction false} FindGrows(a: seq<Node>, b: seq<Node>, tag: Tag, depth: nat, loose: bool)
    requires depth > 0 && GrowsAll(a, b, loose) && FindByTag(a, tag, depth) != []
    requires tag == ToolName || tag == ToolArgName || tag == ToolArgs
    ensures FindByTag(b, tag, depth) != []
    ensures Grows(FindByTag(a, tag, depth)[0], FindByTag(b, tag, depth)[0])
    decreases a, 0
  {
    hide Blank, Live, FindByTag, Grows;
    var k := if loose then Live(a) else |a|;
    LiveEnds(a, loose);
    FindBeforeBlank(a, k, tag, depth);
    assert a[..k][..k - 1] == a[..k - 1];
    FindEither(a[..k], tag, depth);
    if FindByTag(a[..k - 1], tag, depth) == [] {
      FindNodeGrows(a[k - 1], b[k - 1], tag, depth);
    } else {
      var n := FindByTag(a[..k - 1], tag, depth)[0];
      assert Grows(n, n) by { SameGrows(n); }
    }
    FindAmong(b, k - 1, tag, depth);
  }

  lemma SameGrows(n: Node)
    ensures Grows(n, n)
  {
  }

  lemma FindBeforeBlank(a: seq<Node>, k: nat, tag: Tag, depth: nat)
    requires depth > 0 && k <= |a| && AllBlank(a[k..])
    requires tag == ToolName || tag == ToolArgName || tag == ToolArgs
    ensures FindByTag(a, tag, depth) == FindByTag(a[..k], tag, depth)
    ensures FindByTag(a, tag, depth) != [] ==> k > 0
  {
    hide AllBlank, FindByTag;
    FindNothing(tag, depth);
    assert k == 0 ==> a[..k] == [];
    FindInBlank(a[k..], tag, depth);
    assert a == a[..k] + a[k..];
    FindAppend(a[..k], a[k..], tag, depth);
  }

  lemma LiveEnds(a: seq<Node>, loose: bool)
    ensures var k := if loose then Live(a) else |a|; k <= |a| && AllBlank(a[k..])
  {
  }

  /** Nodes before i, then i, then the others. */
  lemma FindAmong(b: seq<Node>, i: nat, tag: Tag, depth: nat)
    requires depth > 0 && i < |b|
    ensures var r := FindByTag(b[..i], tag, depth);
            && (r != [] ==> FindByTag(b, tag, depth) == r)
            && (r == [] && FindByTag([b[i]], tag, depth) != [] ==> FindByTag(b, tag, depth) == FindByTag([b[i]], tag, depth))
  {
    hide FindByTag;
    assert b == b[..i] + ([b[i]] + b[i + 1..]);
    FindAppend(b[..i], [b[i]] + b[i + 1..], tag, depth);
    FindAppend([b[i]], b[i + 1..], tag, depth);
  }

  lemma FindEither(a: seq<Node>, tag: Tag, depth: nat)
    requires depth > 0 && a != []
    ensures var n := |a| - 1;
            FindByTag(a, tag, depth) == (var r := FindByTag(a[..n], tag, depth);
                                         if r != [] then r else FindByTag([a[n]], tag, depth))
  {
    hide FindByTag;
    var n := |a| - 1;
    assert a == a[..n] + [a[n]];
    FindAppend(a[..n], [a[n]], tag, depth);
  }

  lemma FindNothing(tag: Tag, depth: nat)
    requires depth > 0
    ensures FindByTag([], tag, depth) == []
  {
  }

  lemma {:induction false} FindNodeGrows(a: Node, b: Node, tag: Tag, depth: nat)
    requires depth > 0 && Grows(a, b) && FindByTag([a], tag, depth) != []
    requires tag == ToolName || tag == ToolArgName || tag == ToolArgs
    ensures FindByTag([b], tag, depth) != []
    ensures Grows(FindByTag([a], tag, depth)[0], FindByTag([b], tag, depth)[0])
    decreases a, 1
  {
    hide Blank, Live, FindByTag;
    FindOne(a, tag, depth);
    FindOne(b, tag, depth);
    if a != b && a.tag != tag {
      if IsPlaceholder(a) {
        if depth > 1 { FindNothing(tag, depth - 1); }
      } else if IsLeaf(a) {
        FindInUntagged(a.children, tag, depth - 1);
      } else {
        FindGrows(a.children, b.children, tag, depth - 1, a.rule == OtherRule);
      }
    }
  }

  // ----- loose lists -----

  lemma {:induction false} LiveBeforeBlank(ns: seq<Node>, tail: seq<Node>)
    requires AllBlank(tail)
    ensures Live(ns + tail) == Live(ns)
    decreases |tail|
  {
    if tail == [] {
      assert ns + tail == ns;
    } else {
      var n := |tail| - 1;
      assert tail[n] in tail;
      assert (ns + tail)[..|ns| + n] == ns + tail[..n];
      LiveBeforeBlank(ns, tail[..n]);
    }
  }

  lemma LiveWithLast(ns: seq<Node>)
    requires ns != []
    ensures Live(ns) == if Blank(ns[|ns| - 1]) then Live(ns[..|ns| - 1]) else |ns|
  {
    hide Blank;
  }

  lemma {:induction false} LiveAfter(front: seq<Node>, ns: seq<Node>)
    ensures Live(front + ns) == if Live(ns) > 0 then |front| + Live(ns) else Live(front)
    decreases |ns|
  {
    hide Blank, Live;
    if ns == [] {
      assert front + ns == front;
      LiveEnds(ns, true);
    } else {
      var n := |ns| - 1;
      assert (front + ns)[..|front| + n] == front + ns[..n] && (front + ns)[|front| + n] == ns[n];
      LiveWithLast(ns);
      LiveWithLast(front + ns);
      LiveAfter(front, ns[..n]);
    }
  }

  /** A list that goes on after some of the nodes it had. */
  lemma LoosePrefix(ns: seq<Node>, more: seq<Node>)
    ensures GrowsAll(ns, ns + more, true)
  {
    var k := Live(ns);
    if k > 0 { assert ns[..k - 1] == (ns + more)[..k - 1]; }
  }

  lemma LooseInContext(front: seq<Node>, a: seq<Node>, b: seq<Node>, tail: seq<Node>, back: seq<Node>)
    requires GrowsAll(a, b, true) && AllBlank(tail)
    ensures GrowsAll(front + a + tail, front + b + back, true)
  {
    hide GrowsAll, AllBlank;
    LiveBeforeBlank(front + a, tail);
    LiveAfter(front, a);
    var x, y := front + a + tail, front + b + back;
    if Live(a) > 0 {
      LooseLater(front, a, b, x, y);
    } else {
      LoosePrefix(front, b + back);
      assert front + (b + back) == y;
      LooseAsFront(front, x, y);
    }
  }

  lemma LooseLater(front: seq<Node>, a: seq<Node>, b: seq<Node>, x: seq<Node>, y: seq<Node>)
    requires GrowsAll(a, b, true) && Live(a) > 0 && Live(x) == |front| + Live(a)
    requires front + a <= x && front + b <= y
    ensures GrowsAll(x, y, true)
  {
    hide Grows, Blank, Live, AllBlank;
    var k, n := Live(a), |front|;
    LiveEnds(a, true);
    assert x[..n + k - 1] == front + a[..k - 1] by { assert x[..n + |a|] == front + a; }
    assert y[..n + k - 1] == front + b[..k - 1] by { assert y[..n + |b|] == front + b; }
    assert x[n + k - 1] == (front + a)[n + k - 1] == a[k - 1];
    assert y[n + k - 1] == (front + b)[n + k - 1] == b[k - 1];
  }

  lemma LooseAsFront(front: seq<Node>, x: seq<Node>, y: seq<Node>)
    requires GrowsAll(front, y, true) && Live(x) == Live(front) && front <= x
    ensures GrowsAll(x, y, true)
  {
    var k := Live(front);
    if k > 0 {
      assert x[..k - 1] == front[..k - 1];
    }
  }

  lemma StrictIsLoose(a: seq<Node>, b: seq<Node>, loose: bool)
    requires GrowsAll(a, b, loose)
    ensures GrowsAll(a, b, true)
  {
    var k, n := Live(a), |a| - 1;
    if 0 < k <= n && !loose {
      assert a[..k - 1] == a[..n][..k - 1] && b[..k - 1] == b[..n][..k - 1];
      assert a[k - 1] == a[..n][k - 1] && b[k - 1] == b[..n][k - 1];
    }
  }

  lemma OneIsLoose(a: Node, b: Node)
    requires Grows(a, b)
    ensures GrowsAll([a], [b], true)
  {
    assert [a][..0] == [b][..0];
  }
}
