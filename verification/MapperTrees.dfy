/**
 The tool-call mapper over growing parse trees: which read nodes change when the last spine of a
 tree gets longer, and when the message then only grows.
 */
module MapperTrees {
  import opened Ast
  import opened MessageDiff
  import opened ToolMapper
  import opened MapperReads
  import opened MapperOrder
  import opened MapperObject
  import opened MapperStream

  // ----- what is read of the next parse -----

  predicate NodeGrows(a: Event, b: Event) {
    a.tag == b.tag && a.text <= b.text
  }

  /** The last read nodes are a name and the id around it, and both may grow. */
  predicate IdAroundName(x: seq<Event>, y: seq<Event>) {
    && |x| == 2 && |y| >= 2
    && x[0].tag == ToolId && NodeGrows(x[0], y[0])
    && x[1].tag == ToolName && NodeGrows(x[1], y[1])
  }

  /** The same read nodes, more text in the last one, and new ones after it. */
  predicate Follows(x: seq<Event>, y: seq<Event>)
    decreases x
  {
    || x == []
    || (&& y != [] && NodeGrows(x[0], y[0])
        && (|x| == 1 || (x[0] == y[0] && Follows(x[1..], y[1..])) || IdAroundName(x, y)))
  }

  /** Nodes that come in order and only add. */
  predicate Steady(p: Phase, st: State, es: seq<Event>)
    requires Sound(st)
    decreases es
  {
    es == [] || (Allowed(p, es[0].tag) && Safe(st, es[0]) && Adds(st, es[0]) && FromThere(p, st, es))
  }

  /** What follows the first node only adds. */
  predicate FromThere(p: Phase, st: State, es: seq<Event>)
    requires Sound(st) && es != [] && Safe(st, es[0])
    decreases es, 0
  {
    |es| == 1 || (NextPhase(p, es[0]).Some? && Steady(NextPhase(p, es[0]).value, Step(st, es[0]), es[1..]))
  }

  /**
   The nodes of x are in order for the mapper, the text that its last one gets in y only adds, and
   so do the nodes that come after it.
   */
  predicate OnlyAdds(p: Phase, st: State, x: seq<Event>, y: seq<Event>)
    requires Sound(st) && Follows(x, y)
    decreases x
  {
    if x == [] then Steady(p, st, y)
    else
      && Allowed(p, x[0].tag) && Safe(st, x[0]) && Safe(st, y[0])
      && (if |x| == 1 then GrowthAdds(st, x[0], y[0]) && FromThere(p, st, y)
          else if x[0] == y[0] && Follows(x[1..], y[1..]) then
            NextPhase(p, x[0]).Some? && OnlyAdds(NextPhase(p, x[0]).value, Step(st, x[0]), x[1..], y[1..])
          else IdKept(x[0], y[0]) && Safe(Step(st, y[0]), y[1]) && FromThere(p, Step(st, y[0]), y[1..]))
  }

  lemma {:induction false} SteadyAdds(p: Phase, st: State, es: seq<Event>)
    requires Sound(st) && Tracks(p, st) && Steady(p, st, es)
    ensures SafeRun(st, es)
    ensures st.reasoning <= RunAll(st, es).reasoning && Extends(MsgOf(st), MsgOf(RunAll(st, es)))
    decreases es, 1
  {
    hide Tracks, Extends, Step, Allowed, Safe, NextPhase, Adds, FromThere;
    if es == [] {
      SelfExtends(MsgOf(st));
    } else {
      NodeAddsExactlyWhen(p, st, es[0]);
      ReasoningGrows(st, es[0], es[0]);
      RestAdds(p, st, es);
      ExtendsTransitive(MsgOf(st), MsgOf(Step(st, es[0])), MsgOf(RunAll(st, es)));
    }
  }

  lemma {:induction false} RestAdds(p: Phase, st: State, es: seq<Event>)
    requires Sound(st) && Tracks(p, st) && es != [] && Safe(st, es[0]) && FromThere(p, st, es)
    ensures SafeRun(st, es)
    ensures var one := Step(st, es[0]);
            one.reasoning <= RunAll(st, es).reasoning && Extends(MsgOf(one), MsgOf(RunAll(st, es)))
    decreases es, 0
  {
    hide Tracks, Extends, Step, Allowed, Safe, NextPhase, Adds, Steady;
    if |es| == 1 {
      assert es[1..] == [];
      SelfExtends(MsgOf(Step(st, es[0])));
    } else {
      StepTracks(p, st, es[0]);
      SteadyAdds(NextPhase(p, es[0]).value, Step(st, es[0]), es[1..]);
    }
  }

  /** The last read node has more text. */
  lemma GrownLast(p: Phase, st: State, a: Event, y: seq<Event>)
    requires Sound(st) && Tracks(p, st) && Allowed(p, a.tag) && y != [] && NodeGrows(a, y[0])
    requires GrowthAdds(st, a, y[0]) && Safe(st, y[0]) && FromThere(p, st, y)
    ensures SafeRun(st, [a]) && SafeRun(st, y)
    ensures RunAll(st, [a]).reasoning <= RunAll(st, y).reasoning && Extends(MsgOf(RunAll(st, [a])), MsgOf(RunAll(st, y)))
  {
    hide Tracks, Extends, Step, Allowed, NextPhase, Adds, Steady, GrowthAdds, Safe, FromThere;
    assert [a][1..] == [];
    GrowthAddsExactlyWhen(p, st, a, y[0]);
    ReasoningGrows(st, a, y[0]);
    RestAdds(p, st, y);
    ExtendsTransitive(MsgOf(Step(st, a)), MsgOf(Step(st, y[0])), MsgOf(RunAll(st, y)));
  }

  lemma IdKeepsPhase(p: Phase, st: State, e: Event)
    requires Sound(st) && Tracks(p, st) && Allowed(p, e.tag) && e.tag == ToolId
    ensures Safe(st, e) && Tracks(p, Step(st, e)) && p != Idle
  {
    hide Tracks, Step;
    StepTracks(p, st, e);
  }

  lemma RunPair(st: State, e: Event, f: Event)
    requires Sound(st) && Safe(st, e) && Safe(Step(st, e), f)
    ensures SafeRun(st, [e, f]) && RunAll(st, [e, f]) == Step(Step(st, e), f)
  {
    hide Step, Safe;
    var es := [e, f];
    assert es[1..] == [f] && [f][1..] == [];
    assert SafeRun(Step(st, e), [f]) && RunAll(Step(st, e), [f]) == Step(Step(st, e), f);
    assert es[0] == e;
  }

  /** The last read nodes are a name and the id around it. */
  lemma GrownPair(p: Phase, st: State, x: seq<Event>, y: seq<Event>)
    requires Sound(st) && Tracks(p, st) && IdAroundName(x, y) && Allowed(p, x[0].tag) && IdKept(x[0], y[0])
    requires Safe(st, y[0]) && Safe(Step(st, y[0]), y[1]) && FromThere(p, Step(st, y[0]), y[1..])
    ensures SafeRun(st, x) && SafeRun(st, y)
    ensures RunAll(st, x).reasoning <= RunAll(st, y).reasoning && Extends(MsgOf(RunAll(st, x)), MsgOf(RunAll(st, y)))
  {
    hide Tracks, Extends, Step, Allowed, Safe, FromThere, IdKept;
    IdKeepsPhase(p, st, x[0]);
    IdKeepsPhase(p, st, y[0]);
    IdPairExactlyWhen(p, st, x[0], y[0], x[1], y[1]);
    var rest := y[1..];
    RestAdds(p, Step(st, y[0]), rest);
    assert x == [x[0], x[1]];
    RunPair(st, x[0], x[1]);
    assert RunAll(st, y) == RunAll(Step(st, y[0]), rest);
    ExtendsTransitive(MsgOf(RunAll(st, x)), MsgOf(Step(Step(st, y[0]), y[1])), MsgOf(RunAll(st, y)));
  }

  lemma {:induction false} NextRunAdds(p: Phase, st: State, x: seq<Event>, y: seq<Event>)
    requires Sound(st) && Tracks(p, st) && Follows(x, y) && OnlyAdds(p, st, x, y)
    ensures SafeRun(st, x) && SafeRun(st, y)
    ensures RunAll(st, x).reasoning <= RunAll(st, y).reasoning && Extends(MsgOf(RunAll(st, x)), MsgOf(RunAll(st, y)))
    decreases x
  {
    hide Tracks, Extends, Step, Allowed, NextPhase, Adds, Steady, GrowthAdds, Safe, FromThere, IdKept;
    if x == [] {
      SteadyAdds(p, st, y);
    } else if |x| == 1 {
      assert x == [x[0]];
      GrownLast(p, st, x[0], y);
    } else if x[0] == y[0] && Follows(x[1..], y[1..]) {
      StepTracks(p, st, x[0]);
      NextRunAdds(NextPhase(p, x[0]).value, Step(st, x[0]), x[1..], y[1..]);
    } else {
      GrownPair(p, st, x, y);
    }
  }

  /** Two parses of which what is read only adds. */
  lemma NextMessage(a: seq<Event>, b: seq<Event>)
    requires Follows(Digest(a), Digest(b)) && OnlyAdds(Idle, INITIAL, Digest(a), Digest(b))
    ensures SafeRun(INITIAL, a) && SafeRun(INITIAL, b) && Extends(Message(a), Message(b))
  {
    hide Extends, Message, RunAll, SafeRun, Follows, OnlyAdds, Tracks, Digest;
    InitialTracks();
    NextRunAdds(Idle, INITIAL, Digest(a), Digest(b));
    DigestMessage(a);
    DigestMessage(b);
    MessagesCompare(Digest(a), Digest(b));
  }

  // ----- trees -----

  function EventOf(n: Node): Event {
    Event(n.tag, n.text)
  }

  /** What is read of the nodes of a parse. */
  function ReadOf(ns: seq<Node>): seq<Event> {
    Digest(Preorder(ns))
  }

  predicate ReadsText(e: Event) {
    HasEffect(e) && !Marks(e.tag)
  }

  /** How many siblings there are up to the last of which something is read. */
  function LiveRead(ns: seq<Node>): (k: nat)
    ensures k <= |ns|
    decreases |ns|
  {
    if ns == [] || ReadOf([ns[|ns| - 1]]) != [] then |ns| else LiveRead(ns[..|ns| - 1])
  }

  /**
   b is what a may become: any node on the last spine may gain children, and text where its text is
   read; nodes at the end of which nothing is read may make place for others, or go.
   */
  predicate Lengthens(a: Node, b: Node)
    decreases a, 1
  {
    || a == b
    || (a.tag == b.tag && (ReadsText(EventOf(a)) ==> a.text <= b.text) && LengthensAll(a.children, b.children))
  }

  predicate LengthensAll(a: seq<Node>, b: seq<Node>)
    decreases a, 0
  {
    var k := LiveRead(a);
    k == 0 || (k <= |b| && a[..k - 1] == b[..k - 1] && Lengthens(a[k - 1], b[k - 1]))
  }

  /** Nothing is read inside a node whose text is read, save the name inside an id. */
  predicate Apart(n: Node) {
    ReadsText(EventOf(n)) ==>
      var inner := ReadOf(n.children);
      inner == [] || (n.tag == ToolId && |inner| == 1 && inner[0].tag == ToolName)
  }

  predicate AllApart(ns: seq<Node>)
    decreases ns
  {
    forall n :: n in ns ==> Apart(n) && AllApart(n.children)
  }

  lemma {:induction false} PreorderAppend(a: seq<Node>, b: seq<Node>)
    ensures Preorder(a + b) == Preorder(a) + Preorder(b)
    decreases a
  {
    if a == [] {
      assert a + b == b;
    } else {
      PreorderAppend(a[1..], b);
      assert (a + b)[0] == a[0] && (a + b)[1..] == a[1..] + b;
      var e, x, y, z := [EventOf(a[0])], Preorder(a[0].children), Preorder(a[1..]), Preorder(b);
      Regroup(x, y, z);
      Regroup(e, x + y, z);
    }
  }

  lemma ReadAppend(a: seq<Node>, b: seq<Node>)
    ensures ReadOf(a + b) == ReadOf(a) + ReadOf(b)
  {
    PreorderAppend(a, b);
    DigestAppend(Preorder(a), Preorder(b));
  }

  lemma ReadOfNode(n: Node)
    ensures ReadOf([n]) == Read(EventOf(n)) + ReadOf(n.children)
  {
    hide Read, Digest;
    assert [n][1..] == [] && Preorder([n][1..]) == [];
    assert Preorder(n.children) + [] == Preorder(n.children);
    assert Preorder([n]) == [EventOf(n)] + Preorder(n.children);
    DigestAppend([EventOf(n)], Preorder(n.children));
    DigestOne(EventOf(n));
  }

  lemma {:induction false} FollowsSelf(x: seq<Event>)
    ensures Follows(x, x)
    decreases x
  {
    if x != [] { FollowsSelf(x[1..]); }
  }

  lemma {:induction false} FollowsAfter(front: seq<Event>, x: seq<Event>, y: seq<Event>)
    requires Follows(x, y)
    ensures Follows(front + x, front + y)
    decreases front
  {
    if front == [] {
      assert front + x == x && front + y == y;
    } else {
      FollowsAfter(front[1..], x, y);
      assert (front + x)[1..] == front[1..] + x && (front + y)[1..] == front[1..] + y;
    }
  }

  lemma {:induction false} FollowsFurther(x: seq<Event>, y: seq<Event>, more: seq<Event>)
    requires Follows(x, y)
    ensures Follows(x, y + more)
    decreases x
  {
    if x != [] {
      assert (y + more)[1..] == y[1..] + more;
      if |x| > 1 && Follows(x[1..], y[1..]) { FollowsFurther(x[1..], y[1..], more); }
    }
  }

  lemma {:induction false} ReadLive(ns: seq<Node>)
    ensures ReadOf(ns) == ReadOf(ns[..LiveRead(ns)])
    decreases |ns|
  {
    hide ReadOf;
    if ns == [] || ReadOf([ns[|ns| - 1]]) != [] {
      assert ns[..LiveRead(ns)] == ns;
    } else {
      var n := |ns| - 1;
      assert ns == ns[..n] + [ns[n]];
      ReadAppend(ns[..n], [ns[n]]);
      ReadLive(ns[..n]);
      assert ns[..n][..LiveRead(ns)] == ns[..LiveRead(ns)];
      assert ReadOf(ns[..n]) + [] == ReadOf(ns[..n]);
    }
  }

  /** More text never makes a node unread. */
  lemma ReadStays(a: Event, b: Event)
    requires a.tag == b.tag && (ReadsText(a) ==> a.text <= b.text) && HasEffect(a)
    ensures HasEffect(b)
  {
    hide TrimTrailing;
    if a.tag == ToolArgs { TrimMonotone(a.text, b.text); }
  }

  /** Of a node that grows, what is read grows at its end. */
  lemma {:induction false} NodeFollows(a: Node, b: Node)
    requires Lengthens(a, b) && Apart(b) && AllApart(b.children)
    ensures Follows(ReadOf([a]), ReadOf([b]))
    decreases a, 1
  {
    hide HasEffect, ReadOf, AllApart;
    if a == b {
      FollowsSelf(ReadOf([a]));
    } else {
      var e, f := EventOf(a), EventOf(b);
      TreeFollows(a.children, b.children);
      ReadOfNode(a);
      ReadOfNode(b);
      if HasEffect(e) { ReadStays(e, f); }
      OwnFollows(e, f, ReadOf(a.children), ReadOf(b.children));
    }
  }

  lemma OwnFollows(e: Event, f: Event, x: seq<Event>, y: seq<Event>)
    requires e.tag == f.tag && (ReadsText(e) ==> e.text <= f.text) && (HasEffect(e) ==> HasEffect(f)) && Follows(x, y)
    requires ReadsText(f) ==> y == [] || (f.tag == ToolId && |y| == 1 && y[0].tag == ToolName)
    ensures Follows(Read(e) + x, Read(f) + y)
  {
    hide HasEffect;
    if !HasEffect(f) {
      assert Read(e) + x == x && Read(f) + y == y;
    } else if Marks(f.tag) && HasEffect(e) {
      assert Read(e) == Read(f);
      FollowsAfter(Read(f), x, y);
    } else if Marks(f.tag) {
      MarksHaveEffect(e);
    } else if y == [] {
      assert x == [];
    } else {
      IdsHaveEffect(e);
      assert Read(e) + x == [e] + x && Read(f) + y == [f] + y;
    }
  }

  lemma MarksHaveEffect(e: Event)
    requires Marks(e.tag)
    ensures HasEffect(e)
  {
  }

  lemma IdsHaveEffect(e: Event)
    requires e.tag == ToolId
    ensures HasEffect(e)
  {
  }

  /** Of a tree that grows along its last spine, what is read grows at its end. */
  lemma {:induction false} TreeFollows(a: seq<Node>, b: seq<Node>)
    requires LengthensAll(a, b) && AllApart(b)
    ensures Follows(ReadOf(a), ReadOf(b))
    decreases a, 0
  {
    hide ReadOf, Follows, LiveRead, Lengthens;
    ReadLive(a);
    var k := LiveRead(a);
    if k == 0 {
      assert a[..k] == [];
      NothingFollows(b);
    } else {
      var front, last, grown, more := a[..k - 1], [a[k - 1]], [b[k - 1]], b[k..];
      assert b[k - 1] in b;
      NodeFollows(a[k - 1], b[k - 1]);
      assert a[..k] == front + last && b == front + (grown + more);
      ReadAppend(front, last);
      ReadAppend(front, grown + more);
      ReadAppend(grown, more);
      FollowsFurther(ReadOf(last), ReadOf(grown), ReadOf(more));
      FollowsAfter(ReadOf(front), ReadOf(last), ReadOf(grown) + ReadOf(more));
    }
  }

  lemma NothingFollows(b: seq<Node>)
    ensures Follows(ReadOf([]), ReadOf(b))
  {
  }

  /** The next parse is longer along the last spine, and what is read of it only adds. */
  predicate NextTree(a: seq<Node>, b: seq<Node>) {
    && LengthensAll(a, b) && AllApart(b)
    && (TreeFollows(a, b); OnlyAdds(Idle, INITIAL, ReadOf(a), ReadOf(b)))
  }

  /** The message of the next parse continues that of the one before. */
  lemma TreeMessageGrows(a: seq<Node>, b: seq<Node>)
    requires NextTree(a, b)
    ensures SafeRun(INITIAL, Preorder(a)) && SafeRun(INITIAL, Preorder(b))
    ensures Extends(Message(Preorder(a)), Message(Preorder(b)))
  {
    hide Extends, Message, RunAll, SafeRun, Follows, OnlyAdds, Digest;
    TreeFollows(a, b);
    NextMessage(Preorder(a), Preorder(b));
  }

  // ----- text that grows deep inside a call -----

  /** More text in one node after others that come in order, where it only adds. */
  lemma {:induction false} OnlyAddsAfter(p: Phase, st: State, front: seq<Event>, a: Event, b: Event)
    requires Sound(st) && Tracks(p, st) && InOrder(p, front) && NodeGrows(a, b)
    requires Allowed(PhaseOf(p, front), a.tag)
    requires SafeRun(st, front) ==> GrowthAdds(RunAll(st, front), a, b)
    ensures Follows(front + [a], front + [b]) && OnlyAdds(p, st, front + [a], front + [b])
    decreases front
  {
    hide Tracks, Step, Safe, NextPhase, Allowed, GrowthAdds, IdKept;
    if front == [] {
      assert front + [a] == [a] && front + [b] == [b];
      SafeInOrder(p, st, a);
      SafeInOrder(p, st, b);
    } else {
      StepTracks(p, st, front[0]);
      OnlyAddsAfter(NextPhase(p, front[0]).value, Step(st, front[0]), front[1..], a, b);
      assert (front + [a])[1..] == front[1..] + [a] && (front + [b])[1..] == front[1..] + [b];
      AfterIsAllowed(p, front[0]);
    }
  }

  lemma AfterIsAllowed(p: Phase, e: Event)
    requires NextPhase(p, e).Some?
    ensures Allowed(p, e.tag)
  {
  }

  function Open(tag: Tag, text: string, children: seq<Node>): Node {
    Node(OtherRule, tag, text, children, true)
  }

  function Argument(text: string): Node {
    Open(ToolArg, "<p=x>" + text, [Open(ToolArgName, "x", []), Open(ToolArgStringValue, text, [])])
  }

  /** A call "<f=f><p=x>..." whose argument is being written, with all nodes around it. */
  function OpenCall(text: string): Node {
    Open(Tool, "<f=f><p=x>" + text,
         [Open(ToolOpen, "<f=f>", [Open(ToolName, "f", [])]), Open(ToolArgs, "<p=x>" + text, [Argument(text)])])
  }

  lemma ReadOfTwo(a: Node, b: Node)
    ensures ReadOf([a, b]) == ReadOf([a]) + ReadOf([b])
  {
    hide ReadOf;
    ReadAppend([a], [b]);
    assert [a, b] == [a] + [b];
  }

  lemma NothingRead()
    ensures ReadOf([]) == []
  {
  }

  lemma ReadOfLeaf(n: Node)
    requires n.children == []
    ensures ReadOf([n]) == Read(EventOf(n))
  {
    hide Read;
    ReadOfNode(n);
    NothingRead();
  }

  lemma ArgumentRead(text: string)
    ensures ReadOf([Argument(text)]) == [Event(ToolArgName, "x"), Event(ToolArgStringValue, text)]
  {
    hide ReadOf;
    var n := Argument(text);
    ReadOfNode(n);
    ReadOfTwo(n.children[0], n.children[1]);
    ReadOfLeaf(n.children[0]);
    ReadOfLeaf(n.children[1]);
  }

  lemma TagArgsSkipped(text: string)
    ensures SkippedArgs(Event(ToolArgs, "<p=x>" + text))
  {
    hide TrimTrailing;
    TrimmedIsPrefix("<p=x>" + text);
  }

  lemma OpenCallRead(text: string)
    ensures ReadOf([OpenCall(text)]) == NAMED_ARGUMENT + [Event(ToolArgStringValue, text)]
  {
    hide ReadOf, SkippedArgs;
    var n := OpenCall(text);
    var opener, args := n.children[0], n.children[1];
    ReadOfNode(n);
    ReadOfTwo(opener, args);
    ReadOfNode(opener);
    ReadOfLeaf(opener.children[0]);
    ReadOfNode(args);
    TagArgsSkipped(text);
    ArgumentRead(text);
  }

  lemma OpenCallApart(text: string)
    ensures AllApart([OpenCall(text)])
  {
    hide ReadOf, SkippedArgs;
    TagArgsSkipped(text);
    NothingRead();
    assert AllApart(Argument(text).children);
    assert AllApart([Open(ToolName, "f", [])]);
    assert AllApart([Argument(text)]);
    assert AllApart(OpenCall(text).children);
  }

  lemma LastLengthens(front: seq<Node>, a: Node, b: Node)
    requires Lengthens(a, b)
    ensures LengthensAll(front + [a], front + [b])
  {
    hide Lengthens, ReadOf;
    var x, y := front + [a], front + [b];
    assert x[..|front|] == front == y[..|front|];
    if ReadOf([a]) == [] {
      var k := LiveRead(front);
      assert LiveRead(x) == k;
      if k > 0 {
        assert x[..k - 1] == front[..k - 1] == y[..k - 1] && x[k - 1] == y[k - 1];
        LengthensSelf(x[k - 1]);
      }
    }
  }

  lemma LengthensSelf(n: Node)
    ensures Lengthens(n, n)
  {
  }

  lemma OpenCallLengthens(a: string, b: string)
    requires a <= b
    ensures LengthensAll([OpenCall(a)], [OpenCall(b)])
  {
    hide LengthensAll;
    var x, y, u, v := Argument(a), Argument(b), OpenCall(a), OpenCall(b);
    SameLengthens(Open(ToolArgStringValue, a, []), Open(ToolArgStringValue, b, []));
    LastLengthens([x.children[0]], x.children[1], y.children[1]);
    assert x.children == [x.children[0]] + [x.children[1]] && y.children == [x.children[0]] + [y.children[1]];
    LastLengthens([], x, y);
    assert [] + [x] == [x] && [] + [y] == [y];
    assert Lengthens(u.children[1], v.children[1]);
    LastLengthens([u.children[0]], u.children[1], v.children[1]);
    assert u.children == [u.children[0]] + [u.children[1]] && v.children == [u.children[0]] + [v.children[1]];
    LastLengthens([], u, v);
    assert [] + [u] == [u] && [] + [v] == [v];
  }

  lemma SameLengthens(a: Node, b: Node)
    requires a.tag == b.tag && a.text <= b.text && a.children == []
    ensures Lengthens(a, b)
  {
  }

  /** A string argument may grow by any text, although every node around it grows too. */
  lemma OpenCallGrows(a: string, b: string)
    requires a <= b
    ensures NextTree([OpenCall(a)], [OpenCall(b)])
  {
    hide ReadOf, OnlyAdds, Follows, AllApart, LengthensAll, NAMED_ARGUMENT, InOrder, PhaseOf, RunAll, SafeRun, Tracks;
    OpenCallLengthens(a, b);
    OpenCallApart(b);
    OpenCallRead(a);
    OpenCallRead(b);
    NamedArgument();
    InitialTracks();
    OnlyAddsAfter(Idle, INITIAL, NAMED_ARGUMENT, Event(ToolArgStringValue, a), Event(ToolArgStringValue, b));
  }
}
