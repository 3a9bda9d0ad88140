/** The mapper as an object: its fields, map() for one node and from_ast() for a parse. */
module MapperObject {
  import opened Wrappers
  import opened Ast
  import opened JsonText
  import Quotes
  import opened MessageDiff
  import opened ToolMapper

  /** Nodes in the order in which the arena visits them. */
  function Preorder(ns: seq<Node>): seq<Event>
    decreases ns
  {
    if ns == [] then []
    else [Event(ns[0].tag, ns[0].text)] + (Preorder(ns[0].children) + Preorder(ns[1..]))
  }

  class PegMapper {
    var reasoning: string
    var content: string
    var toolCalls: seq<ToolCall>
    var pendingToolCall: Option<ToolCall>
    var currentTool: Current
    var argCount: nat
    var closingQuotePending: bool
    var argsBuffer: string

    function View(): State
      reads this
    {
      State(reasoning, content, toolCalls, pendingToolCall, currentTool, argCount, closingQuotePending, argsBuffer)
    }

    constructor ()
      ensures View() == INITIAL
    {
      reasoning, content, toolCalls, argsBuffer := "", "", [], "";
      pendingToolCall, currentTool := None, NoTool;
      argCount, closingQuotePending := 0, false;
    }

    /** Writes through current_tool. */
    method SetCall(c: ToolCall)
      requires Sound(View()) && HasTool(View())
      modifies this
      ensures View() == WithCall(old(View()), c)
    {
      if currentTool == PendingTool {
        pendingToolCall := Some(c);
      } else {
        toolCalls := toolCalls[..|toolCalls| - 1] + [c];
      }
    }

    /** Writes through args_target(). */
    method SetTarget(t: string)
      requires Sound(View()) && HasTool(View())
      modifies this
      ensures View() == WithTarget(old(View()), t)
    {
      if Call(View()).name != "" {
        SetCall(Call(View()).(arguments := t));
      } else {
        argsBuffer := t;
      }
    }

    method OnToolName(text: string)
      requires Sound(View()) && HasTool(View())
      modifies this
      ensures View() == NameStep(old(View()), text)
    {
      var c := Call(View()).(name := TrimTrailing(text));
      if argsBuffer != "" {
        c := c.(arguments := argsBuffer);
      } else if c.arguments == "" {
        c := c.(arguments := "{");
      }
      SetCall(c);
      argsBuffer := "";
      if pendingToolCall.Some? {
        toolCalls := toolCalls + [pendingToolCall.value];
        pendingToolCall := None;
        currentTool := LastTool;
      }
    }

    method OnArgName(text: string)
      requires Sound(View()) && HasTool(View())
      modifies this
      ensures View() == ArgNameStep(old(View()), text)
    {
      var argEntry := if argCount > 0 then "," else "";
      argEntry := argEntry + (Quoted(Trim(text)) + ":");
      argCount := argCount + 1;
      var target := Target(View());
      if target == "" { target := "{"; }
      SetTarget(target + argEntry);
    }

    method OnArgValue(text: string, isString: bool)
      requires Sound(View()) && HasTool(View())
      modifies this
      ensures View() == ValueStep(old(View()), text, isString)
    {
      var valueToAdd := "";
      if text == "" && isString {
        valueToAdd := "\"";
        closingQuotePending := true;
      } else if isString {
        if !closingQuotePending {
          valueToAdd := "\"";
          closingQuotePending := true;
        }
        valueToAdd := valueToAdd + Escape(text);
      } else {
        valueToAdd := Quotes.NormalizeQuotes(text);
      }
      SetTarget(Target(View()) + valueToAdd);
    }

    /** Appends one closing brace for each open one. */
    static method CloseBraces(arguments: string, depth: int) returns (closed: string)
      ensures closed == arguments + Braces(depth)
    {
      closed := arguments;
      var d := depth;
      while d > 0
        invariant closed + Braces(d) == arguments + Braces(depth)
        decreases d
      {
        assert closed + ("}" + Braces(d - 1)) == closed + "}" + Braces(d - 1);
        closed := closed + "}";
        d := d - 1;
      }
      assert closed + "" == closed;
    }

    method OnToolClose()
      requires Sound(View()) && HasTool(View())
      modifies this
      ensures View() == CloseStep(old(View()))
    {
      var c := Call(View());
      if c.name == "" && argsBuffer != "" {
        c := c.(arguments := argsBuffer);
        argsBuffer := "";
      }
      if closingQuotePending {
        c := c.(arguments := c.arguments + "\"");
        closingQuotePending := false;
      }
      var depth := JsonBraceDepth(c.arguments);
      var closed := CloseBraces(c.arguments, depth);
      SetCall(c.(arguments := closed));
      if pendingToolCall.Some? {
        if pendingToolCall.value.name != "" {
          toolCalls := toolCalls + [pendingToolCall.value];
        }
        pendingToolCall := None;
        currentTool := Dangling;
      }
    }

    /** The nodes that act on the current tool. */
    method OnToolNode(tag: Tag, text: string)
      requires Sound(View()) && HasTool(View()) && NeedsTool(tag)
      modifies this
      ensures View() == Step(old(View()), Event(tag, text))
    {
      if tag == ToolId {
        SetCall(Call(View()).(id := Unquote(TrimTrailing(text))));
      } else if tag == ToolName {
        OnToolName(text);
      } else if tag == ToolArgs {
        var trimmed := TrimTrailing(text);
        if trimmed != "" && trimmed[0] == '{' { SetTarget(trimmed); }
      } else if tag == ToolArgName {
        OnArgName(text);
      } else if tag == ToolArgValue || tag == ToolArgStringValue {
        OnArgValue(text, tag == ToolArgStringValue);
      } else if tag == ToolArgClose {
        OnArgClose();
      } else {
        OnToolClose();
      }
    }

    method OnArgClose()
      requires Sound(View()) && HasTool(View())
      modifies this
      ensures View() == Step(old(View()), Event(ToolArgClose, ""))
    {
      if closingQuotePending {
        var target := Target(View()) + "\"";
        closingQuotePending := false;
        SetTarget(target);
      }
    }

    /** map: one node. */
    method Map(tag: Tag, text: string)
      requires Sound(View()) && Safe(View(), Event(tag, text))
      modifies this
      ensures View() == Step(old(View()), Event(tag, text))
    {
      if tag == Reasoning {
        reasoning := reasoning + text;
      } else if tag == Content {
        content := content + text;
      } else if tag == ToolOpen {
        pendingToolCall := Some(NO_CALL);
        currentTool := PendingTool;
        argCount := 0;
        argsBuffer := "";
        closingQuotePending := false;
      } else if tag == ToolArgOpen {
        closingQuotePending := false;
      } else if NeedsTool(tag) && HasTool(View()) {
        OnToolNode(tag, text);
      }
    }

    method Visit(ns: seq<Node>)
      requires Sound(View()) && SafeRun(View(), Preorder(ns))
      modifies this
      ensures old(Sound(View()) && SafeRun(View(), Preorder(ns)))
      ensures View() == RunAll(old(View()), Preorder(ns))
      decreases ns
    {
      if ns != [] {
        ghost var start := View();
        SafeRunAppend(Step(start, Event(ns[0].tag, ns[0].text)), Preorder(ns[0].children), Preorder(ns[1..]));
        assert Preorder(ns)[0] == Event(ns[0].tag, ns[0].text);
        assert Preorder(ns)[1..] == Preorder(ns[0].children) + Preorder(ns[1..]);
        Map(ns[0].tag, ns[0].text);
        Visit(ns[0].children);
        Visit(ns[1..]);
      }
    }

    /** from_ast: the visit, the flush and the check for blank reasoning. */
    method FromAst(ns: seq<Node>)
      requires Sound(View()) && SafeRun(View(), Preorder(ns))
      modifies this
      ensures old(Sound(View()) && SafeRun(View(), Preorder(ns)))
      ensures View() == Finish(RunAll(old(View()), Preorder(ns)))
    {
      Visit(ns);
      if pendingToolCall.Some? && pendingToolCall.value.name != "" {
        var c := pendingToolCall.value;
        if argsBuffer != "" { c := c.(arguments := argsBuffer); }
        if closingQuotePending && c.arguments != "" { c := c.(arguments := c.arguments + "\""); }
        toolCalls := toolCalls + [c];
        pendingToolCall := None;
      }
      if reasoning != "" {
        var allWhitespace := true;
        var i := 0;
        while i < |reasoning|
          invariant i <= |reasoning|
          invariant allWhitespace <==> BlankText(reasoning[..i])
        {
          var c := reasoning[i];
          assert reasoning[..i + 1] == reasoning[..i] + [c];
          if c != ' ' && c != '\n' && c != '\r' && c != '\t' {
            allWhitespace := false;
            assert reasoning[..i + 1][i] == c;
            BlankPrefix(reasoning, i + 1);
            break;
          }
          i := i + 1;
        }
        assert reasoning[..|reasoning|] == reasoning;
        if allWhitespace { reasoning := ""; }
      }
    }
  }

  lemma BlankPrefix(s: string, n: nat)
    requires n <= |s| && !BlankText(s[..n])
    ensures !BlankText(s)
  {
  }

  lemma {:induction false} SafeRunAppend(st: State, a: seq<Event>, b: seq<Event>)
    requires Sound(st)
    ensures SafeRun(st, a + b) <==> SafeRun(st, a) && SafeRun(RunAll(st, a), b)
    ensures SafeRun(st, a + b) ==> RunAll(st, a + b) == RunAll(RunAll(st, a), b)
    decreases a
  {
    hide Step, Safe;
    if a == [] {
      assert a + b == b;
    } else {
      assert (a + b)[0] == a[0] && (a + b)[1..] == a[1..] + b;
      if Safe(st, a[0]) { SafeRunAppend(Step(st, a[0]), a[1..], b); }
    }
  }
}
