/**
 What the MiniMax M3 mapper writes for a call that is cut at its end: all that its tree holds, so that only
 closing marks are missing.
 */
module MiniMaxCuts {
  import opened Wrappers
  import opened Ast
  import opened JsonText
  import opened JsonReader
  import opened MiniMaxJson
  import opened MiniMaxReads
  import opened MessageDiff
  import opened Streaming
  import opened GemmaCuts

  /** Nodes of which only the last may be cut. */
  predicate AllCutAtEnd(ns: seq<Node>) {
    forall i :: 0 <= i < |ns| ==> if i < |ns| - 1 then Whole(ns[i]) else CutAtEnd(ns[i])
  }

  lemma ChildrenCut(n: Node)
    requires CutAtEnd(n)
    ensures AllCutAtEnd(n.children) && (!n.partial ==> Whole(n))
  {
  }

  lemma AllFinishedCons(ns: seq<Node>)
    requires ns != []
    ensures AllFinished(ns)[0] == Finished(ns[0]) && AllFinished(ns)[1..] == AllFinished(ns[1..])
  {
    hide Finished;
  }

  lemma AllFinishedAppend(a: seq<Node>, b: seq<Node>)
    ensures AllFinished(a + b) == AllFinished(a) + AllFinished(b)
  {
    hide Finished;
  }

  lemma FinishedKeeps(n: Node)
    ensures Finished(n).tag == n.tag && Finished(n).text == n.text && Finished(n).children == AllFinished(n.children)
  {
  }

  // ----- the same nodes are found -----

  lemma {:induction false} FindFinished(ns: seq<Node>, tag: Tag, depth: nat)
    requires depth > 0
    ensures FindByTag(AllFinished(ns), tag, depth) == AllFinished(FindByTag(ns, tag, depth))
    decreases ns
  {
    hide Finished;
    if ns != [] {
      FinishedKeeps(ns[0]);
      AllFinishedCons(ns);
      FindFinished(ns[1..], tag, depth);
      if depth > 1 { FindFinished(ns[0].children, tag, depth - 1); }
      assert AllFinished([ns[0]]) == [Finished(ns[0])];
    }
  }

  lemma {:induction false} ValueFinished(ns: seq<Node>)
    ensures ValueOf(AllFinished(ns)) == AllFinished(ValueOf(ns))
    decreases ns
  {
    hide Finished;
    if ns != [] {
      FinishedKeeps(ns[0]);
      AllFinishedCons(ns);
      ValueFinished(ns[1..]);
      assert AllFinished([ns[0]]) == [Finished(ns[0])];
    }
  }

  lemma {:induction false} ValueCutToo(ns: seq<Node>)
    requires AllCutAtEnd(ns)
    ensures AllCutAtEnd(ValueOf(ns))
    decreases ns
  {
    hide Whole, CutAtEnd;
    if ns != [] {
      assert AllCutAtEnd(ns[1..]) by { assert forall i :: 0 <= i < |ns| - 1 ==> ns[1..][i] == ns[i + 1]; }
      ValueCutToo(ns[1..]);
      WholeIsCut(ns[0]);
    }
  }

  lemma WholeIsCut(n: Node)
    ensures Whole(n) ==> CutAtEnd(n)
  {
  }

  lemma {:induction false} CollectFinished(ns: seq<Node>, tag: Tag)
    ensures Collect(AllFinished(ns), tag) == AllFinished(Collect(ns, tag))
    decreases ns
  {
    hide Finished, Collect;
    if ns == [] {
      CollectNothing(tag);
    } else {
      FinishedKeeps(ns[0]);
      AllFinishedCons(ns);
      CollectFinished(ns[1..], tag);
      CollectFinished(ns[0].children, tag);
      CollectCons(ns, tag);
      CollectCons(AllFinished(ns), tag);
      AllFinishedAppend(if ns[0].tag == tag then [ns[0]] else Collect(ns[0].children, tag), Collect(ns[1..], tag));
      assert AllFinished([ns[0]]) == [Finished(ns[0])];
    }
  }

  predicate AllWhole(ns: seq<Node>) {
    forall n :: n in ns ==> Whole(n)
  }

  lemma {:induction false} CollectWhole(ns: seq<Node>, tag: Tag)
    requires AllWhole(ns)
    ensures AllWhole(Collect(ns, tag))
    decreases ns
  {
    if ns != [] {
      assert ns[0] in ns;
      CollectWhole(ns[0].children, tag);
      CollectWhole(ns[1..], tag);
    }
  }

  lemma {:induction false} CollectCutToo(ns: seq<Node>, tag: Tag)
    requires AllCutAtEnd(ns)
    ensures AllCutAtEnd(Collect(ns, tag))
    decreases ns
  {
    if ns != [] {
      hide Whole, CutAtEnd, Collect;
      assert AllCutAtEnd(ns[1..]) by { assert forall i :: 0 <= i < |ns| - 1 ==> ns[1..][i] == ns[i + 1]; }
      CollectCutToo(ns[1..], tag);
      CollectCons(ns, tag);
      WholeIsCut(ns[0]);
      ChildrenCut(ns[0]);
      CollectCutToo(ns[0].children, tag);
      var head := if ns[0].tag == tag then [ns[0]] else Collect(ns[0].children, tag);
      if |ns| > 1 {
        WholeChildren(ns[0]);
        CollectWhole(ns[0].children, tag);
        AppendCut(head, Collect(ns[1..], tag));
      } else {
        CollectNothing(tag);
        assert head + [] == head;
      }
    } else {
      CollectNothing(tag);
    }
  }

  lemma WholeChildren(n: Node)
    requires Whole(n)
    ensures AllWhole(n.children) && AllWhole([n])
  {
  }

  lemma AppendCut(a: seq<Node>, b: seq<Node>)
    requires AllWhole(a) && AllCutAtEnd(b)
    ensures AllCutAtEnd(a + b)
  {
    hide Whole, CutAtEnd;
    forall i | 0 <= i < |a + b| ensures if i < |a + b| - 1 then Whole((a + b)[i]) else CutAtEnd((a + b)[i]) {
      WholeIsCut((a + b)[i]);
    }
  }

  // ----- what is written for them -----

  lemma {:induction false} SameEntries(es: seq<Node>, isObject: bool, b: nat, b': nat)
    requires forall e :: e in es ==> Size(e) < b && Size(e) < b'
    ensures EntriesJson(es, isObject, b) == EntriesJson(es, isObject, b')
    decreases |es|
  {
    hide EntryJson, Size;
    if es != [] { SameEntries(es[..|es| - 1], isObject, b, b'); }
  }

  /** Entries that are whole but for the last. */
  lemma EntriesCut(es: seq<Node>, isObject: bool, b: nat, b': nat, c: string)
    requires es != [] && AllCutAtEnd(es)
    requires (forall e :: e in es ==> Size(e) < b) && forall e :: e in AllFinished(es) ==> Size(e) < b'
    requires var last := es[|es| - 1];
      EntryJson(last, isObject) + c == EntryJson(Finished(last), isObject) && (EntryJson(last, isObject) == "" ==> c == "")
    ensures EntriesJson(es, isObject, b) + c == EntriesJson(AllFinished(es), isObject, b')
  {
    hide EntryJson, Size, Finished, AllCutAtEnd, AllFinished;
    var n := |es| - 1;
    var fs := AllFinished(es);
    FrontStays(es);
    assert forall e :: e in fs[..n] ==> e in fs;
    SameEntries(es[..n], isObject, b, b');
    var init, text := EntriesJson(es[..n], isObject, b), EntryJson(es[n], isObject);
    assert init + "," + text + c == init + "," + (text + c);
  }

  lemma FrontStays(es: seq<Node>)
    requires es != [] && AllCutAtEnd(es)
    ensures var n := |es| - 1; AllFinished(es)[..n] == es[..n] && AllFinished(es)[n] == Finished(es[n])
  {
    hide Whole, CutAtEnd, Finished;
    var n := |es| - 1;
    forall i | 0 <= i < n ensures AllFinished(es)[..n][i] == es[..n][i] {
      WholeIsFinished(es[i]);
    }
  }

  lemma SizesIn(n: Node, tag: Tag)
    ensures forall e :: e in Collect(n.children, tag) ==> Size(e) < Size(n)
  {
  }

  lemma {:induction false} ValueCut(v: seq<Node>, closed: bool) returns (c: string)
    requires |v| <= 1 && AllCutAtEnd(v) && (closed ==> AllWhole(v))
    ensures ValueJson(v, closed) + c == ValueJson(AllFinished(v), true) && Closing(c)
    ensures ValueJson(v, closed) == "" ==> c == ""
    decreases if v == [] then 0 else Size(v[0]), 2
  {
    hide Whole, CutAtEnd, Finished, Escape, ContainerJson;
    c := "";
    if v != [] {
      FinishedKeeps(v[0]);
      AllFinishedCons(v);
      assert closed ==> v[0] in v;
      if v[0].tag == ToolArgObject || v[0].tag == ToolArgArray {
        c := ContainerCut(v[0], v[0].tag == ToolArgObject, closed);
        ContainerNotEmpty(v[0], v[0].tag == ToolArgObject, closed);
      } else if v[0].tag == ToolArgStringValue && !closed {
        c := "\"";
      }
    }
  }

  lemma ContainerNotEmpty(n: Node, isObject: bool, closed: bool)
    ensures ContainerJson(n, isObject, closed) != ""
  {
    hide EntriesJson;
  }

  lemma {:induction false} EntryCut(e: Node, isObject: bool) returns (c: string)
    requires CutAtEnd(e)
    ensures EntryJson(e, isObject) + c == EntryJson(Finished(e), isObject) && Closing(c)
    ensures EntryJson(e, isObject) == "" ==> c == ""
    decreases Size(e), 3
  {
    hide Whole, CutAtEnd, Finished, ValueJson, FindByTag, Quoted, ValueOf;
    FinishedKeeps(e);
    FinishedFlag(e);
    ChildrenCut(e);
    ValueFinished(e.children);
    ValueCutToo(e.children);
    FindFinished(e.children, ToolArgName, 3);
    ValueWhole(e);
    ValueSize(e);
    c := ValueCut(ValueOf(e.children), !e.partial);
    var name := FindByTag(e.children, ToolArgName, 3);
    if isObject {
      if name == [] {
        c := "";
        assert AllFinished(name) == [];
      } else {
        FinishedKeeps(name[0]);
        AllFinishedCons(name);
      }
    }
  }

  lemma FinishedFlag(n: Node)
    ensures !Finished(n).partial
  {
  }

  lemma ValueSize(e: Node)
    ensures ValueOf(e.children) != [] ==> Size(ValueOf(e.children)[0]) < Size(e)
  {
  }

  lemma {:induction false} ValueIn(ns: seq<Node>)
    ensures forall v :: v in ValueOf(ns) ==> v in ns
  {
    if ns != [] { ValueIn(ns[1..]); }
  }

  lemma ValueWhole(e: Node)
    requires CutAtEnd(e)
    ensures !e.partial ==> AllWhole(ValueOf(e.children))
  {
    hide ValueOf;
    ValueIn(e.children);
  }

  /** A container that is not closed lacks its own mark, and those that its last entry lacks. */
  lemma {:induction false} ContainerCut(n: Node, isObject: bool, closed: bool) returns (c: string)
    requires CutAtEnd(n) && (closed ==> Whole(n))
    ensures ContainerJson(n, isObject, closed) + c == ContainerJson(Finished(n), isObject, true) && Closing(c)
    decreases Size(n), 1
  {
    hide *;
    if closed {
      WholeIsFinished(n);
      WholeFinishes(n, isObject);
      c := "";
    } else {
      c := InnerCut(n, isObject);
      ContainerClosed(n, isObject, c);
      c := c + if isObject then "}" else "]";
    }
  }

  lemma WholeFinishes(n: Node, isObject: bool)
    requires Finished(n) == n
    ensures ContainerJson(n, isObject, true) + "" == ContainerJson(Finished(n), isObject, true) && Closing("")
  {
    hide ContainerJson, Finished;
  }

  lemma ContainerClosed(n: Node, isObject: bool, c: string)
    requires Closing(c) && InnerText(n, isObject) + c == InnerText(Finished(n), isObject)
    ensures ContainerJson(n, isObject, false) + (c + if isObject then "}" else "]") == ContainerJson(Finished(n), isObject, true)
    ensures Closing(c + if isObject then "}" else "]")
  {
    hide Finished, EntriesJson, Collect, Size;
    var text := InnerText(n, isObject);
    assert "{" + text + "" + (c + "}") == "{" + (text + c) + "}";
    assert "[" + text + "" + (c + "]") == "[" + (text + c) + "]";
  }

  function InnerText(n: Node, isObject: bool): string {
    EntriesJson(Collect(n.children, EntryTag(isObject)), isObject, Size(n))
  }

  lemma {:induction false} InnerCut(n: Node, isObject: bool) returns (c: string)
    requires CutAtEnd(n)
    ensures InnerText(n, isObject) + c == InnerText(Finished(n), isObject) && Closing(c)
    decreases Size(n), 0
  {
    hide Whole, CutAtEnd, Finished, EntryJson, Collect, EntriesJson, Size;
    var tag := EntryTag(isObject);
    var es := Collect(n.children, tag);
    FinishedKeeps(n);
    ChildrenCut(n);
    CollectFinished(n.children, tag);
    CollectCutToo(n.children, tag);
    SizesIn(n, tag);
    SizesIn(Finished(n), tag);
    c := "";
    if es == [] {
      assert AllFinished(es) == [];
      NoEntries(isObject, Size(n), Size(Finished(n)));
    } else {
      assert es[|es| - 1] in es;
      c := EntryCut(es[|es| - 1], isObject);
      EntriesCut(es, isObject, Size(n), Size(Finished(n)), c);
    }
  }

  lemma NoEntries(isObject: bool, b: nat, b': nat)
    ensures EntriesJson([], isObject, b) == EntriesJson([], isObject, b') == ""
  {
  }

  lemma FinishedCall(n: Node) returns (c: string)
    requires CutAtEnd(n) && |CallsOf(MiniMaxM3, n)| == 1
    ensures Closing(c) && |CallsOf(MiniMaxM3, Finished(n))| == 1
    ensures var call, whole := CallsOf(MiniMaxM3, n)[0], CallsOf(MiniMaxM3, Finished(n))[0];
      whole.name == call.name && whole.arguments == call.arguments + c
  {
    hide Whole, CutAtEnd, Finished, ContainerJson, FindByTag;
    FinishedKeeps(n);
    FinishedFlag(n);
    ChildrenCut(n);
    FindFinished(n.children, ToolName, 3);
    var name := FindByTag(n.children, ToolName, 3);
    FinishedKeeps(name[0]);
    AllFinishedCons(name);
    c := ContainerCut(n, true, !n.partial);
  }

  lemma NamedWhenFinished(n: Node)
    requires |CallsOf(MiniMaxM3, Finished(n))| == 1
    ensures |CallsOf(MiniMaxM3, n)| == 1
  {
    hide ContainerJson, FindByTag, Finished;
    FinishedKeeps(n);
    FindFinished(n.children, ToolName, 3);
    assert AllFinished([]) == [];
  }

  /**
   A call cut at its end has its name, and closing marks alone make its arguments a text that reads as one
   object with all the members in the tree, the last one as far as it goes.
   */
  lemma CutCallReadsBack(n: Node, name: string, args: seq<Node>, members: seq<Member>) returns (c: string)
    requires CutAtEnd(n) && HoldsCall(Finished(n), name, args, members)
    requires forall i :: 0 <= i < |members| ==> RawsRead(members[i].value)
    ensures Closing(c) && |CallsOf(MiniMaxM3, n)| == 1
    ensures var call := CallsOf(MiniMaxM3, n)[0];
      call.name == name && ReadValue(call.arguments + c) == Some((JsonOf(Object(members)), ""))
  {
    hide Finished, CutAtEnd, CallsOf, ReadValue, HoldsCall, RawsRead, Closing;
    CallReadsBack(Finished(n), name, args, members);
    NamedWhenFinished(n);
    c := FinishedCall(n);
  }
}
