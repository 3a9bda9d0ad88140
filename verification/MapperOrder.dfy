/**
 The order in which the tool-call mapper's nodes come, whatever texts they have: how far a stream of
 nodes has got in a call, and what the state then looks like.
 */
module MapperOrder {
  import opened Wrappers
  import opened Ast
  import opened JsonText
  import Quotes
  import opened MessageDiff
  import opened ToolMapper

  /** Where a stream of nodes stands: outside calls, between arguments, inside one, or after all of them. */
  datatype Phase = Idle | Between | Named | Valued | Whole

  /** A node that may come in a phase. */
  predicate Allowed(p: Phase, t: Tag) {
    match t
    case ToolOpen => p == Idle || p == Whole
    case ToolId => p != Idle
    case ToolName => p != Idle
    case ToolArgs => p == Between || p == Whole
    case ToolArgOpen => p == Between
    case ToolArgName => p == Between
    case ToolArgValue => p == Named
    case ToolArgStringValue => p == Named
    case ToolArgClose => p == Valued
    case ToolClose => p == Between || p == Valued || p == Whole
    case _ => true
  }

  predicate BlankName(e: Event) {
    e.tag == ToolName && TrimTrailing(e.text) == ""
  }

  /** The phase after a node; None where it may not come, or names the call with nothing. */
  function NextPhase(p: Phase, e: Event): Option<Phase> {
    if !Allowed(p, e.tag) || BlankName(e) then None
    else
      match e.tag
      case ToolOpen => Some(Between)
      case ToolArgs => Some(if SkippedArgs(e) then p else Whole)
      case ToolArgOpen => Some(Between)
      case ToolArgName => Some(Named)
      case ToolArgValue => Some(Valued)
      case ToolArgStringValue => Some(Valued)
      case ToolArgClose => Some(Between)
      case ToolClose => Some(Idle)
      case _ => Some(p)
  }

  predicate InOrder(p: Phase, es: seq<Event>)
    decreases es
  {
    es == [] || (NextPhase(p, es[0]).Some? && InOrder(NextPhase(p, es[0]).value, es[1..]))
  }

  function PhaseOf(p: Phase, es: seq<Event>): Phase
    requires InOrder(p, es)
    decreases es
  {
    if es == [] then p else PhaseOf(NextPhase(p, es[0]).value, es[1..])
  }

  /** The pointers and buffers are as the phase says: a call is shown as soon as it has a name. */
  predicate Tracks(p: Phase, st: State)
    requires Sound(st)
  {
    && PendingUnnamed(st)
    && (st.closingQuote ==> p == Valued)
    && (p == Idle ==> st.current != PendingTool)
    && (p != Idle ==> HasTool(st))
    && (p == Named || p == Valued || p == Whole ==> Target(st) != "")
    && (p != Idle && st.current == PendingTool ==> Call(st).arguments == "")
    && (p != Idle && st.current == LastTool ==>
          st.argsBuffer == "" && Call(st).name != "" && Call(st).arguments != "")
  }

  lemma InitialTracks()
    ensures Tracks(Idle, INITIAL)
  {
  }

  lemma SafeInOrder(p: Phase, st: State, e: Event)
    requires Sound(st) && Tracks(p, st) && Allowed(p, e.tag)
    ensures Safe(st, e)
  {
  }

  /** Another text for the arguments, in whatever phase it leaves the stream. */
  lemma TargetTracks(p: Phase, st: State, p': Phase, st': State, t: string)
    requires Sound(st) && Tracks(p, st) && p != Idle && p' != Idle
    requires Sound(st') && st'.pending == st.pending && st'.current == st.current
    requires st'.toolCalls == st.toolCalls && st'.argsBuffer == st.argsBuffer
    requires t != "" && (st'.closingQuote ==> p' == Valued)
    ensures HasTool(st') && Tracks(p', WithTarget(st', t))
  {
  }

  lemma NameTracks(p: Phase, st: State, text: string)
    requires Sound(st) && Tracks(p, st) && p != Idle && TrimTrailing(text) != ""
    ensures Tracks(p, NameStep(st, text))
  {
    hide TrimTrailing;
  }

  lemma IdTracks(p: Phase, st: State, id: string)
    requires Sound(st) && Tracks(p, st) && p != Idle
    ensures Tracks(p, WithCall(st, Call(st).(id := id)))
  {
  }

  lemma CloseTracks(p: Phase, st: State)
    requires Sound(st) && Tracks(p, st) && p != Idle
    ensures Tracks(Idle, CloseStep(st))
  {
    hide Run, Braces;
  }

  lemma ArgNameTracks(st: State, text: string)
    requires Sound(st) && Tracks(Between, st)
    ensures Tracks(Named, ArgNameStep(st, text))
  {
    hide Tracks, Trim, Quoted;
    TracksParts(Between, st);
    var entry := (if st.argCount > 0 then "," else "") + (Quoted(Trim(text)) + ":");
    var target := if Target(st) == "" then "{" else Target(st);
    TargetTracks(Between, st, Named, st.(argCount := st.argCount + 1), target + entry);
  }

  lemma ValueTracks(st: State, text: string, isString: bool)
    requires Sound(st) && Tracks(Named, st)
    ensures Tracks(Valued, ValueStep(st, text, isString))
  {
    hide Tracks, Escape, Quotes.Normalize;
    TracksParts(Named, st);
    if isString {
      TargetTracks(Named, st, Valued, st.(closingQuote := true),
                   Target(st) + (if text == "" then "\"" else "\"" + Escape(text)));
    } else {
      TargetTracks(Named, st, Valued, st, Target(st) + Quotes.Normalize(text));
    }
  }

  lemma TracksParts(p: Phase, st: State)
    requires Sound(st) && Tracks(p, st) && p != Idle
    ensures HasTool(st) && (st.closingQuote ==> p == Valued)
    ensures p == Named || p == Valued || p == Whole ==> Target(st) != ""
  {
  }

  lemma ArgCloseTracks(st: State)
    requires Sound(st) && Tracks(Valued, st)
    ensures Tracks(Between, Step(st, Event(ToolArgClose, "")))
  {
    if st.closingQuote {
      TargetTracks(Valued, st, Between, st.(closingQuote := false), Target(st) + "\"");
    }
  }

  lemma OpenTracks(st: State)
    requires Sound(st)
    ensures Tracks(Between, Step(st, Event(ToolOpen, "")))
  {
  }

  lemma TextTracks(p: Phase, st: State, reasoning: string, content: string)
    requires Sound(st) && Tracks(p, st)
    ensures Tracks(p, st.(reasoning := reasoning, content := content))
  {
    var r := st.(reasoning := reasoning, content := content);
    if p != Idle {
      assert Call(r) == Call(st);
    }
  }

  lemma NoQuoteTracks(st: State)
    requires Sound(st) && Tracks(Between, st)
    ensures st.(closingQuote := false) == st
  {
  }

  /** One node in order keeps the state in line with the phase. */
  lemma StepTracks(p: Phase, st: State, e: Event)
    requires Sound(st) && Tracks(p, st) && NextPhase(p, e).Some?
    ensures Safe(st, e) && Tracks(NextPhase(p, e).value, Step(st, e))
  {
    hide Tracks, TrimTrailing, NameStep, ArgNameStep, ValueStep, CloseStep, Call, WithCall, Target, WithTarget;
    SafeInOrder(p, st, e);
    if p != Idle { TracksParts(p, st); }
    match e.tag
    case ToolOpen => OpenTracks(st);
    case ToolId => IdTracks(p, st, Unquote(TrimTrailing(e.text)));
    case ToolName => NameTracks(p, st, e.text);
    case ToolArgs =>
      if !SkippedArgs(e) { TargetTracks(p, st, Whole, st, TrimTrailing(e.text)); }
    case ToolArgOpen => NoQuoteTracks(st);
    case ToolArgName => ArgNameTracks(st, e.text);
    case ToolArgValue => ValueTracks(st, e.text, false);
    case ToolArgStringValue => ValueTracks(st, e.text, true);
    case ToolArgClose => ArgCloseTracks(st);
    case ToolClose => CloseTracks(p, st);
    case Reasoning => TextTracks(p, st, st.reasoning + e.text, st.content);
    case Content => TextTracks(p, st, st.reasoning, st.content + e.text);
    case _ =>
  }

  lemma {:induction false} RunTracks(p: Phase, st: State, es: seq<Event>)
    requires Sound(st) && Tracks(p, st) && InOrder(p, es)
    ensures SafeRun(st, es) && Tracks(PhaseOf(p, es), RunAll(st, es))
    decreases es
  {
    hide Tracks, Step, NextPhase, Safe;
    if es != [] {
      StepTracks(p, st, es[0]);
      RunTracks(NextPhase(p, es[0]).value, Step(st, es[0]), es[1..]);
    }
  }
}
