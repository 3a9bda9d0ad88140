/**
 The Gemma 4 and MiniMax M3 mappers turn a tree into a message; a growing tree gives a message
 that continues.
 */
module Streaming {
  import opened Ast
  import opened GemmaJson
  import opened MiniMaxJson
  import opened MessageDiff

  datatype Format = Gemma4 | MiniMaxM3

  /** The call that a tool node stands for, once its name is known. */
  function CallsOf(f: Format, n: Node): (calls: seq<ToolCall>)
    ensures |calls| <= 1
  {
    var name := FindByTag(n.children, ToolName, 3);
    match f
    case Gemma4 =>
      var args := FindByTag(n.children, ToolArgs, 3);
      if name == [] || args == [] || name[0].partial then []
      else [ToolCall(name[0].text, if args[0].children == [] then "" else Gemma(args[0].children[0]), "")]
    case MiniMaxM3 =>
      if name == [] then [] else [ToolCall(name[0].text, ContainerJson(n, true, !n.partial), "")]
  }

  function Combine(a: Msg, b: Msg): Msg {
    Msg(a.reasoning + b.reasoning, a.content + b.content, a.toolCalls + b.toolCalls)
  }

  /** visit: what one node adds to the message. */
  function Visit(f: Format, n: Node): Msg
    decreases n, 1
  {
    match n.tag
    case Reasoning => EMPTY.(reasoning := n.text)
    case Content => EMPTY.(content := n.text)
    case Tool => EMPTY.(toolCalls := CallsOf(f, n))
    case _ => VisitAll(f, n.children)
  }

  /** from_ast: the nodes of a parse, in order. */
  function VisitAll(f: Format, ns: seq<Node>): Msg
    decreases ns, 0
  {
    if ns == [] then EMPTY else Combine(Visit(f, ns[0]), VisitAll(f, ns[1..]))
  }

  lemma CombineAssociative(a: Msg, b: Msg, c: Msg)
    ensures Combine(Combine(a, b), c) == Combine(a, Combine(b, c))
  {
    var x, y := Combine(Combine(a, b), c), Combine(a, Combine(b, c));
    assert x.reasoning == y.reasoning && x.content == y.content && x.toolCalls == y.toolCalls;
  }

  lemma CombineEmpty(a: Msg)
    ensures Combine(EMPTY, a) == a && Combine(a, EMPTY) == a
  {
    var x, y := Combine(EMPTY, a), Combine(a, EMPTY);
    assert x.reasoning == a.reasoning && x.content == a.content && x.toolCalls == a.toolCalls;
    assert y.reasoning == a.reasoning && y.content == a.content && y.toolCalls == a.toolCalls;
  }

  lemma {:induction false} VisitAppend(f: Format, a: seq<Node>, b: seq<Node>)
    ensures VisitAll(f, a + b) == Combine(VisitAll(f, a), VisitAll(f, b))
  {
    hide Combine, Visit;
    if a == [] {
      assert a + b == b;
      CombineEmpty(VisitAll(f, b));
    } else {
      VisitAppend(f, a[1..], b);
      assert (a + b)[1..] == a[1..] + b && (a + b)[0] == a[0];
      CombineAssociative(Visit(f, a[0]), VisitAll(f, a[1..]), VisitAll(f, b));
    }
  }

  lemma VisitOne(f: Format, n: Node)
    ensures VisitAll(f, [n]) == Visit(f, n)
  {
    hide Visit;
    assert [n][1..] == [];
    CombineEmpty(Visit(f, n));
  }

  /** Text and calls that come before and after do not disturb a continuation. */
  lemma ExtendsInContext(front: Msg, a: Msg, b: Msg, back: Msg)
    requires Extends(a, b)
    ensures Extends(Combine(front, a), Combine(Combine(front, b), back))
  {
    var x, y := Combine(front, a), Combine(Combine(front, b), back);
    assert y.reasoning == front.reasoning + (b.reasoning + back.reasoning);
    assert y.content == front.content + (b.content + back.content);
    var n := |x.toolCalls| - 1;
    if a.toolCalls != [] {
      var k := |a.toolCalls| - 1;
      assert x.toolCalls[..n] == front.toolCalls + a.toolCalls[..k];
      assert y.toolCalls[..n] == front.toolCalls + b.toolCalls[..k];
      assert x.toolCalls[n] == a.toolCalls[k] && y.toolCalls[n] == b.toolCalls[k];
    } else if front.toolCalls != [] {
      assert x.toolCalls[..n] == front.toolCalls[..n] == y.toolCalls[..n] && x.toolCalls[n] == y.toolCalls[n];
    }
  }

  // ----- nodes that add nothing -----

  lemma BlankCalls(f: Format, n: Node)
    requires AllBlank(n.children)
    ensures CallsOf(f, n) == []
  {
    hide Blank, FindByTag, ContainerJson, Gemma;
    FindInBlank(n.children, ToolName, 3);
  }

  lemma {:induction false} VisitBlank(f: Format, n: Node)
    requires Blank(n)
    ensures Visit(f, n) == EMPTY
    decreases n, 1
  {
    hide CallsOf;
    if n.tag == Tool {
      BlankCalls(f, n);
    } else if n.tag != Reasoning && n.tag != Content {
      VisitAllBlank(f, n.children);
    }
  }

  lemma {:induction false} VisitAllBlank(f: Format, ns: seq<Node>)
    requires AllBlank(ns)
    ensures VisitAll(f, ns) == EMPTY
    decreases ns, 0
  {
    hide Visit, Blank;
    if ns != [] {
      VisitBlank(f, ns[0]);
      VisitAllBlank(f, ns[1..]);
    }
  }

  lemma {:induction false} VisitUntagged(f: Format, ns: seq<Node>)
    requires Untagged(ns)
    ensures VisitAll(f, ns) == EMPTY
    decreases ns
  {
    if ns != [] {
      assert ns[0] in ns;
      VisitUntagged(f, ns[0].children);
      VisitUntagged(f, ns[1..]);
    }
  }

  // ----- growth -----

  lemma GemmaArgumentsGrow(a: Node, b: Node)
    requires Grows(a, b) && a.tag == ToolArgs
    ensures a.children != [] && Gemma(a.children[0]) != "" ==>
              b.children != [] && Gemma(a.children[0]) <= Gemma(b.children[0])
  {
    hide Gemma, Grows, Blank;
    if a.children != [] && Gemma(a.children[0]) != "" && a != b {
      var loose := a.rule == OtherRule;
      ArgumentsLoose(a, b);
      LiveEnds(a.children, loose);
      assert !Blank(a.children[0]) by { if Blank(a.children[0]) { BlankGemma(a.children[0]); } }
      assert Live(a.children) > 0 by { if Live(a.children) == 0 { assert a.children[0..] == a.children; } }
      GrowsAllAt(a.children, b.children, loose, 0);
      GemmaGrows(a.children[0], b.children[0]);
    }
  }

  lemma ArgumentsLoose(a: Node, b: Node)
    requires Grows(a, b) && a.tag == ToolArgs && a != b
    ensures GrowsAll(a.children, b.children, a.rule == OtherRule)
  {
    hide GrowsAll;
  }

  lemma BlankGemma(n: Node)
    requires Blank(n)
    ensures Gemma(n) == ""
  {
  }

  lemma FinalName(a: Node, b: Node)
    requires Grows(a, b) && a.tag == ToolName && !a.partial
    ensures a == b
  {
  }

  lemma ToolChildren(a: Node, b: Node)
    requires Grows(a, b) && a.tag == Tool && a != b
    ensures a.partial && GrowsAll(a.children, b.children, a.rule == OtherRule)
  {
    hide GrowsAll;
  }

  lemma GemmaCallGrows(a: Node, b: Node)
    requires Grows(a, b) && a.tag == Tool && CallsOf(Gemma4, a) != []
    ensures CallsOf(Gemma4, b) != [] && CallExtends(CallsOf(Gemma4, a)[0], CallsOf(Gemma4, b)[0])
  {
    hide Gemma, Grows, FindByTag;
    if a != b {
      ToolChildren(a, b);
      FindGrows(a.children, b.children, ToolName, 3, a.rule == OtherRule);
      FindGrows(a.children, b.children, ToolArgs, 3, a.rule == OtherRule);
      FinalName(FindByTag(a.children, ToolName, 3)[0], FindByTag(b.children, ToolName, 3)[0]);
      GemmaArgumentsGrow(FindByTag(a.children, ToolArgs, 3)[0], FindByTag(b.children, ToolArgs, 3)[0]);
    }
  }

  lemma MiniMaxCallGrows(a: Node, b: Node)
    requires Grows(a, b) && AtomicNames(a) && a.tag == Tool && CallsOf(MiniMaxM3, a) != []
    ensures CallsOf(MiniMaxM3, b) != [] && CallExtends(CallsOf(MiniMaxM3, a)[0], CallsOf(MiniMaxM3, b)[0])
  {
    hide ContainerJson, Grows, FindByTag;
    if a != b {
      ToolChildren(a, b);
      NameGrows(a.children, b.children, ToolName, a.rule == OtherRule);
      ContainerGrows(a, b, true, !a.partial, !b.partial);
    }
  }

  /** A node that grows continues its part of the message. */
  lemma {:induction false} VisitGrows(f: Format, a: Node, b: Node)
    requires Grows(a, b) && AtomicNames(a)
    ensures Extends(Visit(f, a), Visit(f, b))
    decreases a, 1
  {
    hide CallsOf, Extends, Live;
    if a == b {
      SelfExtends(Visit(f, a));
    } else if IsPlaceholder(a) {
      EmptyExtends(Visit(f, b));
    } else if a.tag == Reasoning {
      TextsExtend(a.text, "", b.text, "");
    } else if a.tag == Content {
      TextsExtend("", a.text, "", b.text);
    } else if a.tag == Tool {
      ToolExtends(f, a, b);
    } else if IsLeaf(a) {
      VisitUntagged(f, a.children);
      EmptyExtends(Visit(f, b));
    } else {
      VisitAllGrows(f, a.children, b.children, a.rule == OtherRule);
    }
  }

  lemma TextsExtend(r: string, c: string, r': string, c': string)
    requires r <= r' && c <= c'
    ensures Extends(Msg(r, c, []), Msg(r', c', []))
  {
  }

  lemma ToolExtends(f: Format, a: Node, b: Node)
    requires Grows(a, b) && AtomicNames(a) && a.tag == Tool
    ensures Extends(EMPTY.(toolCalls := CallsOf(f, a)), EMPTY.(toolCalls := CallsOf(f, b)))
  {
    hide CallsOf, Grows, AtomicNames;
    if CallsOf(f, a) != [] {
      if f == Gemma4 { GemmaCallGrows(a, b); } else { MiniMaxCallGrows(a, b); }
    }
  }

  /** A parse that grows yields a message that continues the previous one. */
  lemma {:induction false} VisitAllGrows(f: Format, a: seq<Node>, b: seq<Node>, loose: bool)
    requires GrowsAll(a, b, loose) && AllAtomic(a)
    ensures Extends(VisitAll(f, a), VisitAll(f, b))
    decreases a, 0
  {
    hide Extends, Visit, Combine, VisitAll, Grows, AtomicNames, Live, Blank;
    StrictIsLoose(a, b, loose);
    var k := Live(a);
    LiveEnds(a, true);
    VisitAllBlank(f, a[k..]);
    if k == 0 {
      assert a[k..] == a;
      EmptyExtends(VisitAll(f, b));
    } else {
      var front, back := a[..k - 1], b[k..];
      assert a == front + [a[k - 1]] + a[k..] && b == front + [b[k - 1]] + back;
      VisitThree(f, front, a[k - 1], a[k..]);
      VisitThree(f, front, b[k - 1], back);
      CombineEmpty(Combine(VisitAll(f, front), Visit(f, a[k - 1])));
      assert AtomicNames(a[k - 1]) by { assert a[k - 1] in a; }
      VisitGrows(f, a[k - 1], b[k - 1]);
      ExtendsInContext(VisitAll(f, front), Visit(f, a[k - 1]), Visit(f, b[k - 1]), VisitAll(f, back));
    }
  }

  lemma VisitThree(f: Format, front: seq<Node>, n: Node, back: seq<Node>)
    ensures VisitAll(f, front + [n] + back) == Combine(Combine(VisitAll(f, front), Visit(f, n)), VisitAll(f, back))
  {
    hide VisitAll, Visit, Combine;
    VisitAppend(f, front + [n], back);
    VisitAppend(f, front, [n]);
    VisitOne(f, n);
  }
}
