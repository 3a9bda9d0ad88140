/**
 What the Gemma 4 emitter writes for a tree that is cut at its end: all that the tree holds, so that only
 closing marks are missing.
 */
module GemmaCuts {
  import opened Wrappers
  import opened Ast
  import opened JsonText
  import opened JsonReader
  import opened GemmaJson
  import opened GemmaReads

  predicate Whole(n: Node)
    decreases n
  {
    !n.partial && forall c :: c in n.children ==> Whole(c)
  }

  /** Only nodes at the end of the tree are partial. */
  predicate CutAtEnd(n: Node)
    decreases n
  {
    Whole(n) ||
    (n.partial && forall i :: 0 <= i < |n.children| ==> if i < |n.children| - 1 then Whole(n.children[i]) else CutAtEnd(n.children[i]))
  }

  /** The same tree without partial nodes. */
  function Finished(n: Node): Node
    decreases n, 1
  {
    n.(partial := false, children := AllFinished(n.children))
  }

  function AllFinished(ns: seq<Node>): (r: seq<Node>)
    ensures |r| == |ns| && forall i :: 0 <= i < |ns| ==> r[i] == Finished(ns[i])
    decreases ns, 0
  {
    if ns == [] then [] else [Finished(ns[0])] + AllFinished(ns[1..])
  }

  lemma {:induction false} WholeIsFinished(n: Node)
    requires Whole(n)
    ensures Finished(n) == n
    decreases n
  {
    forall i | 0 <= i < |n.children| ensures Finished(n.children[i]) == n.children[i] {
      WholeIsFinished(n.children[i]);
    }
    assert AllFinished(n.children) == n.children;
  }

  /** Closing marks and nothing else. */
  predicate Closing(c: string) {
    forall i :: 0 <= i < |c| ==> c[i] == '"' || c[i] == ']' || c[i] == '}'
  }

  lemma {:induction false} LastIsCut(ns: seq<Node>, c: string)
    requires ns != [] && Gemma(ns[|ns| - 1]) + c == Gemma(Finished(ns[|ns| - 1]))
    requires forall i :: 0 <= i < |ns| - 1 ==> Whole(ns[i])
    ensures Joined(ns) + c == Joined(AllFinished(ns)) && Chained(ns) + c == Chained(AllFinished(ns))
  {
    hide Gemma, Whole, Finished;
    var n := |ns| - 1;
    var fs := AllFinished(ns);
    forall i | 0 <= i < n ensures fs[..n][i] == ns[..n][i] {
      WholeIsFinished(ns[i]);
    }
    assert fs[..n] == ns[..n];
  }

  lemma {:induction false} OnlyClosingMissing(n: Node) returns (c: string)
    requires CutAtEnd(n) && Grammatical(Finished(n)) && n.rule != GemmaDictKey
    ensures Gemma(n) + c == Gemma(Finished(n)) && Closing(c)
    decreases n
  {
    if Whole(n) {
      WholeIsFinished(n);
      c := "";
    } else {
      c := CutText(n);
    }
  }

  lemma {:induction false} CutText(n: Node) returns (c: string)
    requires CutAtEnd(n) && !Whole(n) && Grammatical(Finished(n)) && n.rule != GemmaDictKey
    ensures Gemma(n) + c == Gemma(Finished(n)) && Closing(c)
    decreases n, 0
  {
    hide Joined, Chained, Escape;
    var fs := AllFinished(n.children);
    if IsListRule(n.rule) {
      c := LastCut(n);
      c := c + if n.rule == GemmaArray then "]" else if n.rule == GemmaDict then "}" else "";
      ListCut(n, c);
    } else if n.rule == GemmaString {
      c := "\"";
      StringCut(n);
    } else if n.rule == GemmaValue {
      assert fs[0] == Finished(n.children[0]);
      c := OnlyClosingMissing(n.children[0]);
    } else {
      c := "";
    }
  }

  lemma StringCut(n: Node)
    requires n.partial && Grammatical(Finished(n)) && n.rule == GemmaString
    ensures Gemma(n) + "\"" == Gemma(Finished(n))
  {
    hide Escape;
    var child := n.children[0];
    assert AllFinished(n.children)[0] == Finished(child) && Gemma(child) == Gemma(Finished(child));
    assert "\"" + Gemma(child) + "\"" == "\"" + (Gemma(child) + "\"");
  }

  /** The closing marks that the last child misses, if there is one. */
  lemma {:induction false} LastCut(n: Node) returns (c: string)
    requires CutAtEnd(n) && !Whole(n) && Grammatical(Finished(n)) && IsListRule(n.rule)
    ensures Closing(c)
    ensures Joined(n.children) + c == Joined(AllFinished(n.children))
    ensures Chained(n.children) + c == Chained(AllFinished(n.children))
    decreases n, 0, 0
  {
    hide Gemma, Joined, Chained;
    c := "";
    var m := |n.children|;
    if m == 0 {
      NoSiblings();
    } else {
      var last := n.children[m - 1];
      assert AllFinished(n.children)[m - 1] == Finished(last) && Finished(last) in AllFinished(n.children);
      c := OnlyClosingMissing(last);
      LastIsCut(n.children, c);
    }
  }

  lemma NoSiblings()
    ensures Joined([]) == "" && Chained([]) == "" && AllFinished([]) == []
  {
  }

  lemma ListCut(n: Node, c: string)
    requires n.partial && n.text != "" && IsListRule(n.rule)
    requires var inner := if n.rule == GemmaArray || n.rule == GemmaDict then c[..if c == "" then 0 else |c| - 1] else c;
      && (n.rule == GemmaArray ==> c == inner + "]") && (n.rule == GemmaDict ==> c == inner + "}")
      && Joined(n.children) + inner == Joined(AllFinished(n.children))
      && Chained(n.children) + inner == Chained(AllFinished(n.children))
    ensures Gemma(n) + c == Gemma(Finished(n))
  {
    hide Joined, Chained, Escape;
    var inner := if n.rule == GemmaArray || n.rule == GemmaDict then c[..|c| - 1] else c;
    var a, b := Joined(n.children), Joined(AllFinished(n.children));
    assert "[" + a + "" + (inner + "]") == "[" + (a + inner) + "]";
    assert "{" + a + "" + (inner + "}") == "{" + (a + inner) + "}";
  }

  /**
   Where the tree without its partial marks is one of the grammar, what is written for the tree itself
   becomes, with closing marks alone, JSON text that reads as everything the tree holds.
   */
  lemma CutReadsBack(n: Node) returns (c: string)
    requires CutAtEnd(n) && Grammatical(Finished(n)) && (IsValueRule(n.rule) || n.rule == GemmaValue)
    ensures Closing(c) && Reads(Gemma(n) + c, Meaning(Finished(n)))
  {
    hide Gemma, Reads, Grammatical, CutAtEnd, Closing;
    c := OnlyClosingMissing(n);
    GemmaReadsBack(Finished(n));
  }
}
