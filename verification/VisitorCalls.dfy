/** What the Gemma 4 and MiniMax M3 mappers make of a parse: the texts and calls of its nodes, in order. */
module VisitorCalls {
  import opened Wrappers
  import opened Ast
  import opened JsonReader
  import opened GemmaJson
  import opened GemmaReads
  import opened GemmaCuts
  import opened MessageDiff
  import opened Streaming

  /** What a list of nodes adds to a message is what its first one adds, then what the others add. */
  lemma MessageInOrder(f: Format, n: Node, rest: seq<Node>)
    ensures var all, more := VisitAll(f, [n] + rest), VisitAll(f, rest);
      match n.tag
      case Reasoning => all == Msg(n.text + more.reasoning, more.content, more.toolCalls)
      case Content => all == Msg(more.reasoning, n.text + more.content, more.toolCalls)
      case Tool => all == Msg(more.reasoning, more.content, CallsOf(f, n) + more.toolCalls)
      case _ =>
        var inner := VisitAll(f, n.children);
        all == Msg(inner.reasoning + more.reasoning, inner.content + more.content, inner.toolCalls + more.toolCalls)
  {
    hide CallsOf;
    assert ([n] + rest)[1..] == rest;
  }

  lemma NothingSaid(f: Format)
    ensures VisitAll(f, []) == Msg("", "", [])
  {
  }

  /** A call of the Gemma 4 grammar, with its name and its arguments. */
  predicate HoldsGemmaCall(n: Node, name: string, dict: Node) {
    && n.tag == Tool && |n.children| == 2
    && n.children[0].tag == ToolOpen && |n.children[0].children| == 1
    && n.children[1].tag == ToolArgs && n.children[1].children == [dict]
    && var named := n.children[0].children[0];
       named.tag == ToolName && named.text == name && !named.partial && named.children == []
  }

  lemma FindBoth(n: Node, name: string, dict: Node)
    requires HoldsGemmaCall(n, name, dict)
    ensures FindByTag(n.children, ToolName, 3) == [n.children[0].children[0]]
    ensures FindByTag(n.children, ToolArgs, 3) == [n.children[1]]
  {
    hide FindByTag;
    var opener, args := n.children[0], n.children[1];
    FindCons(n.children, ToolName, 3);
    FindCons(n.children, ToolArgs, 3);
    FindCons(n.children[1..], ToolArgs, 3);
    FindCons(opener.children, ToolName, 2);
    FindCons(opener.children, ToolArgs, 2);
    FindNothing(ToolArgs, 1);
    FindNothing(ToolArgs, 2);
    assert opener.children[1..] == [];
  }

  /** A call whose arguments are finished has its name, and arguments that read as the members of its dictionary. */
  lemma GemmaCallReadsBack(n: Node, name: string, dict: Node)
    requires HoldsGemmaCall(n, name, dict) && dict.rule == GemmaDict && Grammatical(dict)
    ensures CallsOf(Gemma4, n) == [ToolCall(name, Gemma(dict), "")]
    ensures ReadValue(Gemma(dict)) == Some((JObject(Members(dict.children)), ""))
  {
    hide Gemma, ReadValue, Grammatical, FindByTag;
    FindBoth(n, name, dict);
    ArgumentsReadBack(dict);
  }

  /** And one whose arguments are cut at their end has arguments that do so with closing marks added. */
  lemma CutGemmaCallReadsBack(n: Node, name: string, dict: Node) returns (c: string)
    requires HoldsGemmaCall(n, name, dict) && dict.rule == GemmaDict && CutAtEnd(dict) && Grammatical(Finished(dict))
    ensures Closing(c) && |CallsOf(Gemma4, n)| == 1
    ensures var call := CallsOf(Gemma4, n)[0];
      call.name == name && ReadValue(call.arguments + c) == Some((JObject(Members(Finished(dict).children)), ""))
  {
    hide Gemma, ReadValue, Grammatical, FindByTag, Reads, CutAtEnd, Closing;
    FindBoth(n, name, dict);
    c := CutReadsBack(dict);
    ReadsWhole(Gemma(dict) + c, Meaning(Finished(dict)));
  }

  /** Without a finished name, or without arguments, there is no call yet. */
  lemma NoGemmaCall(n: Node)
    ensures var name, args := FindByTag(n.children, ToolName, 3), FindByTag(n.children, ToolArgs, 3);
            CallsOf(Gemma4, n) == [] <==> name == [] || args == [] || name[0].partial
  {
    hide Gemma, FindByTag;
  }
}
