/**
 The tool-call mapper over a growing output: when the message of the next parse continues
 that of the one before, so that the deltas between them rebuild it.
 */
module MapperStream {
  import opened Wrappers
  import opened Ast
  import opened JsonText
  import opened QuoteLaws
  import Quotes
  import opened MessageDiff
  import opened ToolMapper
  import opened MapperReads
  import opened MapperOrder
  import opened MapperObject

  /** The message a state holds. */
  function MsgOf(st: State): Msg {
    Msg(st.reasoning, st.content, st.toolCalls)
  }

  function IdOf(text: string): string {
    Unquote(TrimTrailing(text))
  }

  /** When a new node only adds: a call that is shown keeps its id, name and arguments. */
  predicate Adds(st: State, e: Event)
    requires Sound(st)
  {
    st.current == LastTool ==>
      match e.tag
      case ToolId => IdOf(e.text) == Call(st).id || IdOf(e.text) != ""
      case ToolName => Call(st).name <= TrimTrailing(e.text)
      case ToolArgs => IsObject(TrimTrailing(e.text)) ==> Call(st).arguments <= TrimTrailing(e.text)
      case _ => true
  }

  /** When more text in the last node only adds to a call that is shown. */
  predicate GrowthAdds(st: State, a: Event, b: Event)
    requires Sound(st) && a.tag == b.tag && a.text <= b.text
  {
    st.current == LastTool ==>
      match a.tag
      case ToolId => IdOf(a.text) == IdOf(b.text) || IdOf(b.text) != ""
      case ToolArgs =>
        TrimTrailing(a.text) == "" && IsObject(TrimTrailing(b.text)) ==> Call(st).arguments <= TrimTrailing(b.text)
      case ToolArgName => Trim(a.text) == Trim(b.text)
      case ToolArgValue => !Retracts(TailOf(a.text, Quotes.Plain, false), b.text[|a.text|..])
      case _ => true
  }

  // ----- messages that differ in the call being written -----

  lemma CallsCompare(st: State, c: ToolCall, c': ToolCall)
    requires Sound(st) && st.current == LastTool
    ensures Extends(MsgOf(WithCall(st, c)), MsgOf(WithCall(st, c'))) <==> CallExtends(c, c')
  {
    hide CallExtends;
    var a, b := WithCall(st, c).toolCalls, WithCall(st, c').toolCalls;
    var n := |st.toolCalls| - 1;
    assert a[..n] == st.toolCalls[..n] == b[..n] && a[n] == c && b[n] == c';
  }

  lemma SameCall(st: State)
    requires Sound(st) && st.current == LastTool
    ensures WithCall(st, Call(st)) == st
  {
    assert st.toolCalls == st.toolCalls[..|st.toolCalls| - 1] + [st.toolCalls[|st.toolCalls| - 1]];
  }

  lemma CallCompares(st: State, c: ToolCall)
    requires Sound(st) && st.current == LastTool
    ensures Extends(MsgOf(st), MsgOf(WithCall(st, c))) <==> CallExtends(Call(st), c)
  {
    hide Extends, CallExtends, WithCall;
    CallsCompare(st, Call(st), c);
    SameCall(st);
  }

  /** The two states differ in the text being written, and in fields no message shows. */
  lemma TargetsCompare(st: State, u: State, t: string, v: State, t': string)
    requires Sound(st) && HasTool(st) && (st.current == LastTool <==> Call(st).name != "")
    requires Sound(u) && u.pending == st.pending && u.current == st.current && MsgOf(u) == MsgOf(st)
    requires Sound(v) && v.pending == st.pending && v.current == st.current && MsgOf(v) == MsgOf(st)
    ensures Extends(MsgOf(WithTarget(u, t)), MsgOf(WithTarget(v, t'))) <==> (st.current == LastTool ==> t <= t')
  {
    hide Extends;
    if st.current == LastTool {
      var c := Call(st);
      CallsCompare(st, c.(arguments := t), c.(arguments := t'));
    } else {
      SelfExtends(MsgOf(st));
    }
  }

  // ----- what each text becomes as it grows -----

  lemma {:induction false} TrimmedIsPrefix(s: string)
    ensures TrimTrailing(s) <= s
    decreases s
  {
    if s != "" && IsSpace(s[|s| - 1]) { TrimmedIsPrefix(s[..|s| - 1]); }
  }

  lemma {:induction false} TrimmedEnd(s: string)
    ensures TrimTrailing(s) == "" || !IsSpace(TrimTrailing(s)[|TrimTrailing(s)| - 1])
    decreases s
  {
    if s != "" && IsSpace(s[|s| - 1]) { TrimmedEnd(s[..|s| - 1]); }
  }

  lemma {:induction false} TrimKeepsUpTo(t: string, s: string)
    requires t <= s && (t == "" || !IsSpace(t[|t| - 1]))
    ensures t <= TrimTrailing(s)
    decreases s
  {
    if s != "" && IsSpace(s[|s| - 1]) { TrimKeepsUpTo(t, s[..|s| - 1]); }
  }

  lemma TrimMonotone(a: string, b: string)
    requires a <= b
    ensures TrimTrailing(a) <= TrimTrailing(b)
  {
    hide TrimTrailing, IsSpace;
    TrimmedIsPrefix(a);
    TrimmedEnd(a);
    TrimKeepsUpTo(TrimTrailing(a), b);
  }

  lemma SameStart(t: string, a: string, b: string)
    ensures t + a <= t + b <==> a <= b
  {
    assert (t + a)[|t|..] == a && (t + b)[|t|..] == b;
    if t + a <= t + b {
      assert (t + b)[..|t + a|][|t|..] == b[..|a|];
    }
  }

  /** A written name is never the beginning of another. */
  lemma NamesDiffer(a: string, b: string)
    requires Quoted(a) + ":" <= Quoted(b) + ":"
    ensures a == b
  {
    hide Escape, ReadString;
    var x, y := Quoted(a) + ":", Quoted(b) + ":";
    var rest := y[|x|..];
    assert y == x + rest;
    assert x[1..] == Escape(a) + "\"" + ":";
    assert y[1..] == Escape(b) + "\"" + ":";
    assert y[1..] == x[1..] + rest;
    assert Escape(a) + "\"" + ":" + rest == Escape(a) + "\"" + (":" + rest);
    QuotedReadsBack(a, ":" + rest);
    QuotedReadsBack(b, ":");
  }

  // ----- one node -----

  lemma InsideCall(p: Phase, st: State)
    requires Sound(st) && Tracks(p, st) && p != Idle
    ensures HasTool(st) && (st.current == LastTool <==> Call(st).name != "")
    ensures st.current == LastTool ==> Target(st) == Call(st).arguments && st.argsBuffer == "" && Call(st).arguments != ""
    ensures st.closingQuote ==> p == Valued
  {
  }

  lemma IdAdds(p: Phase, st: State, id: string)
    requires Sound(st) && Tracks(p, st) && p != Idle
    ensures HasTool(st)
    ensures Extends(MsgOf(st), MsgOf(WithCall(st, Call(st).(id := id))))
            <==> (st.current == LastTool ==> id == Call(st).id || id != "")
  {
    hide Tracks, Extends;
    InsideCall(p, st);
    if st.current == LastTool {
      CallCompares(st, Call(st).(id := id));
    } else {
      SelfExtends(MsgOf(st));
    }
  }

  lemma NameAdds(p: Phase, st: State, text: string)
    requires Sound(st) && Tracks(p, st) && p != Idle
    ensures HasTool(st)
    ensures Extends(MsgOf(st), MsgOf(NameStep(st, text)))
            <==> (st.current == LastTool ==> Call(st).name <= TrimTrailing(text))
  {
    hide Tracks, TrimTrailing;
    InsideCall(p, st);
    if st.current == LastTool {
      hide Extends;
      var c := Call(st).(name := TrimTrailing(text));
      CallCompares(st, c);
      assert MsgOf(NameStep(st, text)) == MsgOf(WithCall(st, c));
    } else {
      CallAppended(MsgOf(st), NameStep(st, text).toolCalls[|st.toolCalls|]);
    }
  }

  lemma CallAppended(m: Msg, c: ToolCall)
    ensures Extends(m, m.(toolCalls := m.toolCalls + [c]))
  {
    assert (m.toolCalls + [c])[..|m.toolCalls|] == m.toolCalls;
  }

  /** Writing only at the end of the arguments always adds. */
  lemma TargetAdds(p: Phase, st: State, u: State, more: string)
    requires Sound(st) && Tracks(p, st) && p != Idle
    requires Sound(u) && u.pending == st.pending && u.current == st.current && MsgOf(u) == MsgOf(st)
    ensures HasTool(st) && Extends(MsgOf(st), MsgOf(WithTarget(u, Target(st) + more)))
  {
    hide Tracks, Extends;
    InsideCall(p, st);
    TargetReplaced(p, st, u, Target(st) + more);
  }

  lemma TargetReplaced(p: Phase, st: State, u: State, t: string)
    requires Sound(st) && Tracks(p, st) && p != Idle
    requires Sound(u) && u.pending == st.pending && u.current == st.current && MsgOf(u) == MsgOf(st)
    ensures HasTool(st)
    ensures Extends(MsgOf(st), MsgOf(WithTarget(u, t))) <==> (st.current == LastTool ==> Target(st) <= t)
  {
    hide Tracks, Extends;
    InsideCall(p, st);
    TargetsCompare(st, st, Target(st), u, t);
    if st.current == LastTool { SameCall(st); }
  }

  lemma ArgNameAdds(st: State, text: string)
    requires Sound(st) && Tracks(Between, st)
    ensures HasTool(st) && Extends(MsgOf(st), MsgOf(ArgNameStep(st, text)))
  {
    hide Tracks, Extends, Trim, Quoted;
    InsideCall(Between, st);
    var entry := (if st.argCount > 0 then "," else "") + (Quoted(Trim(text)) + ":");
    var u := st.(argCount := st.argCount + 1);
    if Target(st) == "" {
      TargetReplaced(Between, st, u, "{" + entry);
    } else {
      TargetAdds(Between, st, u, entry);
    }
  }

  lemma ValueAdds(st: State, text: string, isString: bool)
    requires Sound(st) && Tracks(Named, st)
    ensures HasTool(st) && Extends(MsgOf(st), MsgOf(ValueStep(st, text, isString)))
  {
    hide Tracks, Extends, Escape;
    InsideCall(Named, st);
    if isString {
      TargetAdds(Named, st, st.(closingQuote := true), if text == "" then "\"" else "\"" + Escape(text));
    } else {
      TargetAdds(Named, st, st, Quotes.Normalize(text));
    }
  }

  lemma CloseAdds(p: Phase, st: State)
    requires Sound(st) && Tracks(p, st) && p != Idle
    ensures HasTool(st) && Extends(MsgOf(st), MsgOf(CloseStep(st)))
  {
    hide Tracks, Run, Braces;
    InsideCall(p, st);
    if st.current == LastTool {
      hide Extends;
      var q := if st.closingQuote then "\"" else "";
      var args := Call(st).arguments + q;
      assert args == if st.closingQuote then Call(st).arguments + "\"" else Call(st).arguments;
      var c := Call(st).(arguments := args + Braces(Run(START, args).depth));
      CallCompares(st, c);
      assert MsgOf(CloseStep(st)) == MsgOf(WithCall(st, c));
    } else {
      assert MsgOf(CloseStep(st)) == MsgOf(st);
    }
  }

  lemma TextAdds(m: Msg, r: string, c: string)
    ensures Extends(m, m.(reasoning := m.reasoning + r, content := m.content + c))
  {
  }

  /** A node after another parse's nodes continues the message exactly when it only adds. */
  lemma NodeAddsExactlyWhen(p: Phase, st: State, e: Event)
    requires Sound(st) && Tracks(p, st) && Allowed(p, e.tag)
    ensures Safe(st, e)
    ensures Extends(MsgOf(st), MsgOf(Step(st, e))) <==> Adds(st, e)
  {
    hide Tracks, Extends, TrimTrailing, Unquote, NameStep, ArgNameStep, ValueStep, CloseStep, WithCall, WithTarget, Call, Target;
    SafeInOrder(p, st, e);
    SelfExtends(MsgOf(st));
    match e.tag
    case ToolId => IdAdds(p, st, IdOf(e.text));
    case ToolName => NameAdds(p, st, e.text);
    case ToolArgs =>
      InsideCall(p, st);
      if IsObject(TrimTrailing(e.text)) { TargetReplaced(p, st, st, TrimTrailing(e.text)); }
    case ToolArgName => ArgNameAdds(st, e.text);
    case ToolArgValue => ValueAdds(st, e.text, false);
    case ToolArgStringValue => ValueAdds(st, e.text, true);
    case ToolArgClose =>
      InsideCall(p, st);
      if st.closingQuote { TargetAdds(p, st, st.(closingQuote := false), "\""); }
    case ToolClose => CloseAdds(p, st);
    case Reasoning =>
      TextAdds(MsgOf(st), e.text, "");
      assert st.content + "" == st.content;
    case Content =>
      TextAdds(MsgOf(st), "", e.text);
      assert st.reasoning + "" == st.reasoning;
    case _ =>
  }

  // ----- the last node grows -----

  lemma IdGrows(p: Phase, st: State, a: string, b: string)
    requires Sound(st) && Tracks(p, st) && p != Idle
    ensures HasTool(st)
    ensures Extends(MsgOf(WithCall(st, Call(st).(id := a))), MsgOf(WithCall(st, Call(st).(id := b))))
            <==> (st.current == LastTool ==> a == b || b != "")
  {
    hide Tracks, Extends;
    InsideCall(p, st);
    if st.current == LastTool {
      CallsCompare(st, Call(st).(id := a), Call(st).(id := b));
    } else {
      SelfExtends(MsgOf(st));
    }
  }

  lemma NameGrows(p: Phase, st: State, a: string, b: string)
    requires Sound(st) && Tracks(p, st) && p != Idle && a <= b
    ensures HasTool(st) && Extends(MsgOf(NameStep(st, a)), MsgOf(NameStep(st, b)))
  {
    hide Tracks, TrimTrailing;
    InsideCall(p, st);
    TrimMonotone(a, b);
    var x, y := NameStep(st, a), NameStep(st, b);
    if st.current == LastTool {
      hide Extends;
      var c, d := Call(st).(name := TrimTrailing(a)), Call(st).(name := TrimTrailing(b));
      CallsCompare(st, c, d);
      assert MsgOf(x) == MsgOf(WithCall(st, c)) && MsgOf(y) == MsgOf(WithCall(st, d));
    } else {
      var n := |st.toolCalls|;
      assert x.toolCalls[..n] == st.toolCalls == y.toolCalls[..n];
    }
  }

  /** Two texts written at the end of the arguments compare as the texts do. */
  lemma EndsCompare(p: Phase, st: State, u: State, t: string, a: string, b: string)
    requires Sound(st) && Tracks(p, st) && p != Idle
    requires Sound(u) && u.pending == st.pending && u.current == st.current && MsgOf(u) == MsgOf(st)
    ensures HasTool(st)
    ensures Extends(MsgOf(WithTarget(u, t + a)), MsgOf(WithTarget(u, t + b))) <==> (st.current == LastTool ==> a <= b)
  {
    hide Tracks, Extends;
    InsideCall(p, st);
    SameStart(t, a, b);
    TargetsCompare(st, u, t + a, u, t + b);
  }

  lemma ArgNameGrows(st: State, a: string, b: string)
    requires Sound(st) && Tracks(Between, st)
    ensures HasTool(st)
    ensures Extends(MsgOf(ArgNameStep(st, a)), MsgOf(ArgNameStep(st, b)))
            <==> (st.current == LastTool ==> Trim(a) == Trim(b))
  {
    hide Tracks, Extends, Trim, Quoted;
    InsideCall(Between, st);
    var u := st.(argCount := st.argCount + 1);
    var comma := if st.argCount > 0 then "," else "";
    var x, y := Quoted(Trim(a)) + ":", Quoted(Trim(b)) + ":";
    var target := if Target(st) == "" then "{" else Target(st);
    EndsCompare(Between, st, u, target, comma + x, comma + y);
    SameStart(comma, x, y);
    if x <= y { NamesDiffer(Trim(a), Trim(b)); }
  }

  lemma ValueGrows(st: State, a: string, b: string)
    requires Sound(st) && Tracks(Named, st) && a <= b
    ensures HasTool(st)
    ensures Extends(MsgOf(ValueStep(st, a, false)), MsgOf(ValueStep(st, b, false)))
            <==> (st.current == LastTool ==> !Retracts(TailOf(a, Quotes.Plain, false), b[|a|..]))
  {
    hide Tracks, Extends, Quotes.Norm, TailOf, Retracts, Quotes.Normalize;
    InsideCall(Named, st);
    EndsCompare(Named, st, st, Target(st), Quotes.Normalize(a), Quotes.Normalize(b));
    NormalizeMonotoneExactlyWhen(a, b[|a|..]);
    assert b == a + b[|a|..];
  }

  lemma StringGrows(st: State, a: string, b: string)
    requires Sound(st) && Tracks(Named, st) && a <= b
    ensures HasTool(st) && Extends(MsgOf(ValueStep(st, a, true)), MsgOf(ValueStep(st, b, true)))
  {
    hide Tracks, Extends, Escape;
    InsideCall(Named, st);
    EscapeMonotone(a, b);
    EscapeNothing();
    SameStart("\"", Escape(a), Escape(b));
    var u := st.(closingQuote := true);
    EndsCompare(Named, st, u, Target(st), "\"" + Escape(a), "\"" + Escape(b));
    assert "\"" + "" == "\"";
  }

  lemma ArgsGrow(p: Phase, st: State, a: string, b: string)
    requires Sound(st) && Tracks(p, st) && p != Idle && a <= b
    ensures HasTool(st)
    ensures var x, y := TrimTrailing(a), TrimTrailing(b);
            Extends(MsgOf(if IsObject(x) then WithTarget(st, x) else st),
                    MsgOf(if IsObject(y) then WithTarget(st, y) else st))
            <==> (st.current == LastTool ==> (x == "" && IsObject(y) ==> Call(st).arguments <= y))
  {
    hide Tracks, Extends, TrimTrailing;
    InsideCall(p, st);
    TrimMonotone(a, b);
    SelfExtends(MsgOf(st));
    var x, y := TrimTrailing(a), TrimTrailing(b);
    if IsObject(x) {
      TargetsCompare(st, st, x, st, y);
    } else if IsObject(y) {
      TargetReplaced(p, st, st, y);
    }
  }

  lemma TextGrows(m: Msg, r: string, c: string, r': string, c': string)
    requires r <= r' && c <= c'
    ensures Extends(m.(reasoning := m.reasoning + r, content := m.content + c),
                    m.(reasoning := m.reasoning + r', content := m.content + c'))
  {
  }

  lemma PlainTextGrows(st: State, a: Event, b: Event)
    requires Sound(st) && a.tag == b.tag && a.text <= b.text && (a.tag == Reasoning || a.tag == Content)
    ensures Extends(MsgOf(Step(st, a)), MsgOf(Step(st, b)))
  {
    hide Extends;
    assert st.content + "" == st.content && st.reasoning + "" == st.reasoning;
    if a.tag == Reasoning {
      TextGrows(MsgOf(st), a.text, "", b.text, "");
    } else {
      TextGrows(MsgOf(st), "", a.text, "", b.text);
    }
  }

  /** More text in the last node continues the message exactly when it only adds. */
  lemma GrowthAddsExactlyWhen(p: Phase, st: State, a: Event, b: Event)
    requires Sound(st) && Tracks(p, st) && Allowed(p, a.tag) && a.tag == b.tag && a.text <= b.text
    ensures Safe(st, a) && Safe(st, b)
    ensures Extends(MsgOf(Step(st, a)), MsgOf(Step(st, b))) <==> GrowthAdds(st, a, b)
  {
    hide Tracks, Extends, TrimTrailing, Unquote, NameStep, ArgNameStep, ValueStep, CloseStep, WithCall, WithTarget, Call, Target;
    hide Retracts, TailOf;
    SafeInOrder(p, st, a);
    SelfExtends(MsgOf(Step(st, a)));
    match a.tag
    case ToolId => IdGrows(p, st, IdOf(a.text), IdOf(b.text));
    case ToolName => NameGrows(p, st, a.text, b.text);
    case ToolArgs => ArgsGrow(p, st, a.text, b.text);
    case ToolArgName => ArgNameGrows(st, a.text, b.text);
    case ToolArgValue => ValueGrows(st, a.text, b.text);
    case ToolArgStringValue => StringGrows(st, a.text, b.text);
    case Reasoning => PlainTextGrows(st, a, b);
    case Content => PlainTextGrows(st, a, b);
    case _ =>
  }

  // ----- whole parses -----

  /** The message of a parse whose nodes are these. */
  function Message(es: seq<Event>): Msg
    requires SafeRun(INITIAL, es)
  {
    MsgOf(Finish(RunAll(INITIAL, es)))
  }

  /** Discarding blank reasoning. */
  function Shown(m: Msg): Msg {
    if BlankText(m.reasoning) then m.(reasoning := "") else m
  }

  lemma MessageIsShown(es: seq<Event>)
    requires SafeRun(INITIAL, es)
    ensures Message(es) == Shown(MsgOf(RunAll(INITIAL, es)))
  {
    hide RunAll, SafeRun;
    FlushNeverFires(INITIAL, es);
  }

  /** Blank reasoning that later turns out not to be is no obstacle. */
  lemma ShownExtends(a: Msg, b: Msg)
    requires a.reasoning <= b.reasoning
    ensures Extends(Shown(a), Shown(b)) <==> Extends(a, b)
  {
    if !BlankText(a.reasoning) {
      var i :| 0 <= i < |a.reasoning| && !(a.reasoning[i] == ' ' || a.reasoning[i] == '\n' || a.reasoning[i] == '\r' || a.reasoning[i] == '\t');
      assert b.reasoning[i] == a.reasoning[i];
    }
  }

  /** Only reasoning nodes write reasoning. */
  lemma ReasoningAfter(st: State, e: Event)
    requires Sound(st) && Safe(st, e)
    ensures Step(st, e).reasoning == st.reasoning + (if e.tag == Reasoning then e.text else "")
  {
    hide TrimTrailing, Trim, Unquote, Quoted, Run, Braces, Call, Target, Quotes.Normalize, Escape;
    assert st.reasoning + "" == st.reasoning;
  }

  lemma ReasoningGrows(st: State, a: Event, b: Event)
    requires Sound(st) && Safe(st, a) && Safe(st, b) && a.tag == b.tag && a.text <= b.text
    ensures st.reasoning <= Step(st, a).reasoning <= Step(st, b).reasoning
  {
    hide Step, Safe;
    ReasoningAfter(st, a);
    ReasoningAfter(st, b);
  }

  lemma RunOneMore(st: State, es: seq<Event>, e: Event)
    requires Sound(st) && SafeRun(st, es) && Safe(RunAll(st, es), e)
    ensures SafeRun(st, es + [e]) && RunAll(st, es + [e]) == Step(RunAll(st, es), e)
  {
    hide Step, Safe;
    SafeRunAppend(st, es, [e]);
    assert [e][1..] == [];
  }

  lemma DigestMessage(es: seq<Event>)
    requires SafeRun(INITIAL, Digest(es))
    ensures SafeRun(INITIAL, es) && Message(es) == Message(Digest(es))
  {
    hide RunAll, SafeRun, Digest;
    DigestRuns(INITIAL, es);
  }

  lemma FrontKeeps(front: seq<Event>)
    requires InOrder(Idle, front)
    ensures SafeRun(INITIAL, front) && Tracks(PhaseOf(Idle, front), RunAll(INITIAL, front))
  {
    hide Tracks, RunAll, SafeRun, PhaseOf, InOrder;
    InitialTracks();
    RunTracks(Idle, INITIAL, front);
  }

  /** The same messages compared before and after blank reasoning is discarded. */
  lemma MessagesCompare(x: seq<Event>, y: seq<Event>)
    requires SafeRun(INITIAL, x) && SafeRun(INITIAL, y)
    requires RunAll(INITIAL, x).reasoning <= RunAll(INITIAL, y).reasoning
    ensures Extends(Message(x), Message(y)) <==> Extends(MsgOf(RunAll(INITIAL, x)), MsgOf(RunAll(INITIAL, y)))
  {
    hide Extends, Message, Shown, RunAll, SafeRun;
    MessageIsShown(x);
    MessageIsShown(y);
    ShownExtends(MsgOf(RunAll(INITIAL, x)), MsgOf(RunAll(INITIAL, y)));
  }

  /**
   Two parses x and y that the mapper reads alike up to one node, of which y has more: the later
   message continues the earlier one if and only if the longer text only adds to it.
   */
  lemma GrownNodeExactlyWhen(x: seq<Event>, y: seq<Event>, front: seq<Event>, a: Event, b: Event)
    requires Digest(x) == front + [a] && Digest(y) == front + [b]
    requires InOrder(Idle, front) && Allowed(PhaseOf(Idle, front), a.tag) && a.tag == b.tag && a.text <= b.text
    ensures SafeRun(INITIAL, front) && SafeRun(INITIAL, x) && SafeRun(INITIAL, y)
    ensures Extends(Message(x), Message(y)) <==> GrowthAdds(RunAll(INITIAL, front), a, b)
  {
    hide Extends, Message, GrowthAdds, Tracks, Step, Allowed, Safe, RunAll, PhaseOf, InOrder, Digest;
    FrontKeeps(front);
    var st := RunAll(INITIAL, front);
    GrowthAddsExactlyWhen(PhaseOf(Idle, front), st, a, b);
    ReasoningGrows(st, a, b);
    RunOneMore(INITIAL, front, a);
    RunOneMore(INITIAL, front, b);
    DigestMessage(x);
    DigestMessage(y);
    MessagesCompare(front + [a], front + [b]);
  }

  /** One read node more: the later message continues the earlier one if and only if it only adds. */
  lemma NextNodeExactlyWhen(x: seq<Event>, y: seq<Event>, front: seq<Event>, e: Event)
    requires Digest(x) == front && Digest(y) == front + [e]
    requires InOrder(Idle, front) && Allowed(PhaseOf(Idle, front), e.tag)
    ensures SafeRun(INITIAL, front) && SafeRun(INITIAL, x) && SafeRun(INITIAL, y)
    ensures Extends(Message(x), Message(y)) <==> Adds(RunAll(INITIAL, front), e)
  {
    hide Extends, Message, Adds, Tracks, Step, Allowed, Safe, RunAll, PhaseOf, InOrder, Digest;
    FrontKeeps(front);
    var st := RunAll(INITIAL, front);
    NodeAddsExactlyWhen(PhaseOf(Idle, front), st, e);
    ReasoningGrows(st, e, e);
    RunOneMore(INITIAL, front, e);
    DigestMessage(x);
    DigestMessage(y);
    MessagesCompare(front, front + [e]);
  }

  // ----- an id that encloses the name -----

  predicate IdKept(a: Event, b: Event) {
    IdOf(a.text) == IdOf(b.text) || IdOf(b.text) != ""
  }

  lemma NamedFromPending(st: State, id: string, text: string)
    requires Sound(st) && st.current == PendingTool && Call(st).arguments == ""
    ensures var r := NameStep(WithCall(st, Call(st).(id := id)), text);
            && MsgOf(r) == MsgOf(st).(toolCalls := st.toolCalls + [
                 ToolCall(TrimTrailing(text), if st.argsBuffer != "" then st.argsBuffer else "{", id)])
  {
    hide TrimTrailing;
  }

  lemma NamedAgain(st: State, id: string, text: string)
    requires Sound(st) && st.current == LastTool && Call(st).arguments != "" && st.argsBuffer == ""
    ensures MsgOf(NameStep(WithCall(st, Call(st).(id := id)), text))
            == MsgOf(WithCall(st, ToolCall(TrimTrailing(text), Call(st).arguments, id)))
  {
    hide TrimTrailing;
    var n := |st.toolCalls| - 1;
    var one := WithCall(st, Call(st).(id := id));
    assert one.toolCalls[..n] == st.toolCalls[..n];
  }

  lemma LastCallsCompare(m: Msg, c: ToolCall, d: ToolCall)
    ensures Extends(m.(toolCalls := m.toolCalls + [c]), m.(toolCalls := m.toolCalls + [d])) <==> CallExtends(c, d)
  {
    hide CallExtends;
    var n := |m.toolCalls|;
    assert (m.toolCalls + [c])[..n] == m.toolCalls == (m.toolCalls + [d])[..n];
  }

  /** The name inside a growing id shows the call with the id as it is. */
  lemma IdAroundNameGrows(p: Phase, st: State, a: string, b: string, n: string, m: string)
    requires Sound(st) && Tracks(p, st) && p != Idle && n <= m
    ensures HasTool(st)
    ensures Extends(MsgOf(NameStep(WithCall(st, Call(st).(id := a)), n)), MsgOf(NameStep(WithCall(st, Call(st).(id := b)), m)))
            <==> a == b || b != ""
  {
    hide Tracks, Extends, TrimTrailing, NameStep;
    InsideCall(p, st);
    TrimMonotone(n, m);
    if st.current == LastTool {
      NamedAgain(st, a, n);
      NamedAgain(st, b, m);
      CallsCompare(st, ToolCall(TrimTrailing(n), Call(st).arguments, a), ToolCall(TrimTrailing(m), Call(st).arguments, b));
    } else {
      NothingWritten(p, st);
      NamedFromPending(st, a, n);
      NamedFromPending(st, b, m);
      var args := if st.argsBuffer != "" then st.argsBuffer else "{";
      LastCallsCompare(MsgOf(st), ToolCall(TrimTrailing(n), args, a), ToolCall(TrimTrailing(m), args, b));
    }
  }

  lemma NothingWritten(p: Phase, st: State)
    requires Sound(st) && Tracks(p, st) && p != Idle && st.current == PendingTool
    ensures Call(st).arguments == ""
  {
  }

  /** Both read nodes of such a pair at once. */
  lemma IdPairExactlyWhen(p: Phase, st: State, a: Event, b: Event, n: Event, m: Event)
    requires Sound(st) && Tracks(p, st) && p != Idle
    requires a.tag == b.tag == ToolId && n.tag == m.tag == ToolName && n.text <= m.text
    ensures Safe(st, a) && Safe(st, b) && Safe(Step(st, a), n) && Safe(Step(st, b), m)
    ensures Extends(MsgOf(Step(Step(st, a), n)), MsgOf(Step(Step(st, b), m))) <==> IdKept(a, b)
    ensures Step(Step(st, a), n).reasoning == Step(Step(st, b), m).reasoning == st.reasoning
  {
    hide Tracks, Extends, TrimTrailing, Unquote, NameStep, Call, WithCall;
    SafeInOrder(p, st, a);
    SafeInOrder(p, st, b);
    IdAroundNameGrows(p, st, IdOf(a.text), IdOf(b.text), n.text, m.text);
    var x, y := Step(st, a), Step(st, b);
    assert HasTool(st) && HasTool(x) && HasTool(y);
    ReasoningAfter(st, a);
    ReasoningAfter(st, b);
    ReasoningAfter(x, n);
    ReasoningAfter(y, m);
  }

  // ----- a value taken back -----

  const NAMED_ARGUMENT := [Event(ToolOpen, ""), Event(ToolName, "f"), Event(ToolArgName, "x")]

  lemma NamedArgument()
    ensures InOrder(Idle, NAMED_ARGUMENT) && PhaseOf(Idle, NAMED_ARGUMENT) == Named
    ensures SafeRun(INITIAL, NAMED_ARGUMENT) && RunAll(INITIAL, NAMED_ARGUMENT).current == LastTool
  {
    hide Step, NextPhase, Safe, Tracks, Trim, Quoted, TrimTrailing;
    var es := NAMED_ARGUMENT;
    assert es[1..] == [es[1], es[2]] && es[1..][1..] == [es[2]] && [es[2]][1..] == [];
    PhasesOfNamed();
    InitialTracks();
    RunTracks(Idle, INITIAL, es);
    ShownOnceNamed();
    assert RunAll(INITIAL, es) == RunAll(Step(INITIAL, es[0]), [es[1], es[2]]);
    assert RunAll(Step(INITIAL, es[0]), [es[1], es[2]]) == RunAll(Step(Step(INITIAL, es[0]), es[1]), [es[2]]);
  }

  lemma PhasesOfNamed()
    ensures NextPhase(Idle, NAMED_ARGUMENT[0]) == Some(Between)
    ensures NextPhase(Between, NAMED_ARGUMENT[1]) == Some(Between)
    ensures NextPhase(Between, NAMED_ARGUMENT[2]) == Some(Named)
  {
    assert TrimTrailing("f") == "f";
  }

  lemma OpenedIsPending(st: State, text: string)
    requires Sound(st)
    ensures Safe(st, Event(ToolOpen, text)) && Step(st, Event(ToolOpen, text)).current == PendingTool
  {
  }

  lemma NameIsShown(st: State, text: string)
    requires Sound(st) && HasTool(st)
    ensures Safe(st, Event(ToolName, text)) && Step(st, Event(ToolName, text)).current == LastTool
  {
    hide NameStep;
  }

  lemma ArgNameStaysShown(st: State, text: string)
    requires Sound(st) && st.current == LastTool
    ensures Safe(st, Event(ToolArgName, text)) && Step(st, Event(ToolArgName, text)).current == LastTool
  {
    hide Trim, Quoted, Target, WithTarget;
  }

  /** After its name a call is shown, and its first argument is written into it. */
  lemma ShownOnceNamed()
    ensures var es := NAMED_ARGUMENT;
            var one := Step(INITIAL, es[0]);
            && Safe(one, es[1])
            && Safe(Step(one, es[1]), es[2])
            && Step(Step(one, es[1]), es[2]).current == LastTool
  {
    hide Step, Safe;
    OpenedIsPending(INITIAL, "");
    var one := Step(INITIAL, Event(ToolOpen, ""));
    NameIsShown(one, "f");
    ArgNameStaysShown(Step(one, Event(ToolName, "f")), "x");
  }

  lemma NopeRetracts()
    ensures Retracts(TailOf("N", Quotes.Plain, false), "Nope"[|"N"|..])
  {
    assert "N"[..1] == "N" && "Nope"[|"N"|..] == "ope" && "N" + "ope"[..3] == "Nope";
    WordOfThree("ope");
    assert "N"[1..] == "" && Quotes.WordLen("") == 0 && Quotes.WordLen("N") == 1;
    assert TailOf("N", Quotes.Plain, false) == OpenWord("N");
  }

  lemma WordOfThree(w: string)
    requires w == "ope"
    ensures Quotes.WordLen(w) == 3
  {
    assert w[1..] == "pe" && w[2..] == "e" && w[3..] == "";
    assert w[1..][1..] == w[2..] && w[2..][1..] == w[3..];
    assert Quotes.WordLen(w[3..]) == 0;
    assert Quotes.WordLen(w[2..]) == 1;
    assert Quotes.WordLen(w[1..]) == 2;
  }

  /** A value cut after "N", which may yet become None, and goes on as "Nope". */
  lemma CutWordRetracts()
    ensures var a, b := Event(ToolArgValue, "N"), Event(ToolArgValue, "Nope");
            && SafeRun(INITIAL, NAMED_ARGUMENT + [a]) && SafeRun(INITIAL, NAMED_ARGUMENT + [b])
            && !Extends(Message(NAMED_ARGUMENT + [a]), Message(NAMED_ARGUMENT + [b]))
  {
    hide Extends, Message, RunAll, SafeRun, InOrder, PhaseOf, Retracts, TailOf, NAMED_ARGUMENT, Digest;
    NamedArgument();
    NopeRetracts();
    var a, b := Event(ToolArgValue, "N"), Event(ToolArgValue, "Nope");
    DigestOfNamed(a);
    DigestOfNamed(b);
    GrownNodeExactlyWhen(NAMED_ARGUMENT + [a], NAMED_ARGUMENT + [b], Digest(NAMED_ARGUMENT), a, b);
  }

  lemma DigestOfNamed(e: Event)
    requires e.tag == ToolArgValue
    ensures Digest(NAMED_ARGUMENT + [e]) == NAMED_ARGUMENT + [e] && Digest(NAMED_ARGUMENT) == NAMED_ARGUMENT
  {
    hide SkippedArgs;
    DigestAppend(NAMED_ARGUMENT, [e]);
    DigestOne(e);
    var es := NAMED_ARGUMENT;
    DigestAppend([es[0], es[1]], [es[2]]);
    DigestAppend([es[0]], [es[1]]);
    DigestOne(es[0]);
    DigestOne(es[1]);
    DigestOne(es[2]);
    assert [es[0]] + [es[1]] == [es[0], es[1]];
    assert [es[0], es[1]] + [es[2]] == es;
  }
}
