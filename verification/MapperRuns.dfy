/** Runs of the tool-call mapper over well-formed streams of nodes. */
module MapperRuns {
  import opened Wrappers
  import opened Ast
  import opened JsonText
  import opened QuoteLaws
  import Quotes
  import opened MessageDiff
  import opened ToolMapper
  import opened MapperReads
  import opened MapperOrder

  /** Complete JSON argument text: every string closed, no closing brace too many. */
  predicate ArgsComplete(text: string) {
    var end := Run(START, text);
    end.depth >= 0 && !end.inString && !end.escaped
  }

  /** A Python value whose quotes and braces are all closed. */
  predicate ValueComplete(text: string) {
    PyRun(PyScan(0, Quotes.Plain, false), text) == PyScan(0, Quotes.Plain, false)
  }

  /** A node whose text is all there. */
  predicate Complete(e: Event) {
    match e.tag
    case ToolName => TrimTrailing(e.text) != ""
    case ToolArgs => IsObject(TrimTrailing(e.text)) ==> ArgsComplete(TrimTrailing(e.text))
    case ToolArgValue => ValueComplete(e.text)
    case _ => true
  }

  /**
   The phase after a complete node. JSON arguments are whole once their braces are balanced; None if a
   well-formed stream has no such node there.
   */
  function After(p: Phase, e: Event): Option<Phase> {
    if !Complete(e) then None
    else if e.tag == ToolArgs && Allowed(p, e.tag) && !SkippedArgs(e) then
      Some(if Run(START, TrimTrailing(e.text)) == START then Whole else Between)
    else NextPhase(p, e)
  }

  predicate WellFormed(p: Phase, es: seq<Event>)
    decreases es
  {
    es == [] || (After(p, es[0]).Some? && WellFormed(After(p, es[0]).value, es[1..]))
  }

  function PhaseAfter(p: Phase, es: seq<Event>): Phase
    requires WellFormed(p, es)
    decreases es
  {
    if es == [] then p else PhaseAfter(After(p, es[0]).value, es[1..])
  }

  /** A finished call: named, braces balanced, no string open. */
  predicate Settled(c: ToolCall) {
    c.name != "" && Run(START, c.arguments) == START
  }

  predicate AllSettled(cs: seq<ToolCall>) {
    forall i :: 0 <= i < |cs| ==> Settled(cs[i])
  }

  /** The text being built: a string is open exactly when a closing quote is due. */
  predicate Building(text: string, closingQuote: bool) {
    var end := Run(START, text);
    end.depth >= 0 && end.inString == closingQuote && !end.escaped
  }

  predicate Inv(p: Phase, st: State)
    requires Sound(st)
  {
    && PendingUnnamed(st)
    && (st.closingQuote ==> p == Valued)
    && (p == Idle ==> st.current != PendingTool && AllSettled(st.toolCalls))
    && (p != Idle ==> HasTool(st) && Building(Target(st), st.closingQuote))
    && (p == Named ==> Target(st) != "")
    && (p == Whole ==> Target(st) != "" && Run(START, Target(st)) == START)
    && (p != Idle && st.current == PendingTool ==> Call(st).arguments == "" && AllSettled(st.toolCalls))
    && (p != Idle && st.current == LastTool ==>
          && st.argsBuffer == "" && Call(st).name != "" && Call(st).arguments != ""
          && AllSettled(st.toolCalls[..|st.toolCalls| - 1]))
  }

  // ----- what each kind of text does to the scanner -----

  lemma BuildingFields(text: string, q: bool)
    requires Building(text, q)
    ensures var d := Run(START, text).depth; d >= 0 && Run(START, text) == Scan(d, q, false)
  {
  }

  lemma OpenBrace()
    ensures Building("{", false) && Building("", false)
  {
    RunOne(START, '{');
  }

  lemma ArgNameBuilds(target: string, comma: bool, name: string)
    requires Building(target, false)
    ensures Building(target + ((if comma then "," else "") + (Quoted(name) + ":")), false)
  {
    BuildingFields(target, false);
    var d := Run(START, target).depth;
    var st := Scan(d, false, false);
    var sep := if comma then "," else "";
    RunAppend(START, target, sep + (Quoted(name) + ":"));
    RunAppend(st, sep, Quoted(name) + ":");
    if comma { RunOne(st, ','); }
    RunAppend(st, Quoted(name), ":");
    QuotedStays(d, name);
    RunOne(st, ':');
  }

  lemma StringOpens(target: string, text: string)
    requires Building(target, false)
    ensures Building(target + ("\"" + Escape(text)), true)
  {
    BuildingFields(target, false);
    var d := Run(START, target).depth;
    RunAppend(START, target, "\"" + Escape(text));
    RunAppend(Scan(d, false, false), "\"", Escape(text));
    RunOne(Scan(d, false, false), '"');
    EscapeStays(d, text);
  }

  lemma StringCloses(target: string)
    requires Building(target, true)
    ensures Building(target + "\"", false)
    ensures Run(START, target + "\"").depth == Run(START, target).depth
  {
    BuildingFields(target, true);
    RunAppend(START, target, "\"");
    RunOne(Scan(Run(START, target).depth, true, false), '"');
  }

  /** A complete Python value, rewritten, leaves the scanner where it was. */
  lemma ValueBuilds(target: string, text: string)
    requires Building(target, false) && ValueComplete(text)
    ensures Building(target + Quotes.Normalize(text), false)
  {
    BuildingFields(target, false);
    var d := Run(START, target).depth;
    RunAppend(START, target, Quotes.Normalize(text));
    NormKeepsStructure(d, text, Quotes.Plain, false);
    PyShift(PyScan(0, Quotes.Plain, false), d, text);
  }

  lemma {:induction false} PyShift(st: PyScan, k: int, s: string)
    ensures PyRun(st.(depth := st.depth + k), s) == PyRun(st, s).(depth := PyRun(st, s).depth + k)
    decreases s
  {
    if s != "" { PyShift(PyNext(st, s[0]), k, s[1..]); }
  }

  lemma {:induction false} BracesClose(n: nat)
    ensures Run(Scan(n, false, false), Braces(n)) == START
    decreases n
  {
    if n > 0 {
      RunAppend(Scan(n, false, false), "}", Braces(n - 1));
      RunOne(Scan(n, false, false), '}');
      BracesClose(n - 1);
    }
  }

  /** Closing: the pending quote, then one brace for every open one. */
  lemma CloseSettles(args: string, q: bool)
    requires Building(args, q)
    ensures var a := if q then args + "\"" else args;
            Run(START, a + Braces(Run(START, a).depth)) == START
  {
    if q { StringCloses(args); }
    var a := if q then args + "\"" else args;
    BuildingFields(a, false);
    RunAppend(START, a, Braces(Run(START, a).depth));
    BracesClose(Run(START, a).depth);
  }

  // ----- one node -----

  lemma NameKeeps(p: Phase, st: State, text: string)
    requires Sound(st) && Inv(p, st) && p != Idle && TrimTrailing(text) != ""
    ensures Inv(p, NameStep(st, text))
  {
    hide TrimTrailing, Run, Settled;
    OpenBrace();
    var r := NameStep(st, text);
    if st.current == PendingTool {
      assert r.toolCalls[..|r.toolCalls| - 1] == st.toolCalls;
    } else {
      assert r.toolCalls[..|r.toolCalls| - 1] == st.toolCalls[..|st.toolCalls| - 1];
    }
  }

  /** Replacing the text being built by another text in the same state keeps the invariant. */
  lemma TargetKeeps(p: Phase, st: State, p': Phase, st': State, t: string)
    requires Sound(st) && Inv(p, st) && p != Idle && p' != Idle
    requires Sound(st') && st'.pending == st.pending && st'.current == st.current
    requires st'.toolCalls == st.toolCalls && st'.argsBuffer == st.argsBuffer
    requires Building(t, st'.closingQuote) && t != "" && (st'.closingQuote ==> p' == Valued)
    requires p' == Whole ==> Run(START, t) == START
    ensures Inv(p', WithTarget(st', t))
  {
    hide Run, Settled;
    var r := WithTarget(st', t);
    if st.current == LastTool {
      assert r.toolCalls[..|r.toolCalls| - 1] == st.toolCalls[..|st.toolCalls| - 1];
    }
  }

  lemma ArgNameKeeps(st: State, text: string)
    requires Sound(st) && Inv(Between, st)
    ensures Inv(Named, ArgNameStep(st, text))
  {
    hide Run, Settled, Inv, Trim, Quoted;
    InvParts(Between, st);
    OpenBrace();
    var target := if Target(st) == "" then "{" else Target(st);
    ArgNameBuilds(target, st.argCount > 0, Trim(text));
    var entry := (if st.argCount > 0 then "," else "") + (Quoted(Trim(text)) + ":");
    TargetKeeps(Between, st, Named, st.(argCount := st.argCount + 1), target + entry);
  }

  lemma InvParts(p: Phase, st: State)
    requires Sound(st) && Inv(p, st) && p != Idle
    ensures HasTool(st) && Building(Target(st), st.closingQuote) && (st.closingQuote ==> p == Valued)
    ensures p == Named || p == Whole ==> Target(st) != ""
  {
  }

  lemma ValueKeeps(st: State, text: string, isString: bool)
    requires Sound(st) && Inv(Named, st) && (isString || ValueComplete(text))
    ensures Inv(Valued, ValueStep(st, text, isString))
  {
    hide Run, Settled, Inv, Escape;
    InvParts(Named, st);
    if isString {
      StringOpens(Target(st), text);
      if text == "" {
        assert "\"" + Escape(text) == "\"" by { EscapeNothing(); }
      }
      TargetKeeps(Named, st, Valued, st.(closingQuote := true), Target(st) + ("\"" + Escape(text)));
    } else {
      ValueBuilds(Target(st), text);
      TargetKeeps(Named, st, Valued, st, Target(st) + Quotes.Normalize(text));
    }
  }

  lemma CloseKeeps(p: Phase, st: State)
    requires Sound(st) && Inv(p, st) && p != Idle
    ensures Inv(Idle, CloseStep(st))
  {
    hide Run, Braces;
    var r := CloseStep(st);
    if st.current == LastTool {
      CloseSettles(Call(st).arguments, st.closingQuote);
      var n := |st.toolCalls| - 1;
      assert r.toolCalls[..n] == st.toolCalls[..n];
      forall i | 0 <= i < |r.toolCalls| ensures Settled(r.toolCalls[i]) {
        if i < n { assert r.toolCalls[i] == st.toolCalls[..n][i]; }
      }
    }
  }

  lemma IdKeeps(p: Phase, st: State, id: string)
    requires Sound(st) && Inv(p, st) && p != Idle
    ensures Inv(p, WithCall(st, Call(st).(id := id)))
  {
    hide Run, Settled;
    var r := WithCall(st, Call(st).(id := id));
    if st.current == LastTool {
      assert r.toolCalls[..|r.toolCalls| - 1] == st.toolCalls[..|st.toolCalls| - 1];
    }
  }

  lemma ArgCloseKeeps(st: State)
    requires Sound(st) && Inv(Valued, st)
    ensures Inv(Between, Step(st, Event(ToolArgClose, "")))
  {
    hide Run, Settled, Inv;
    InvParts(Valued, st);
    if st.closingQuote {
      StringCloses(Target(st));
      TargetKeeps(Valued, st, Between, st.(closingQuote := false), Target(st) + "\"");
    } else {
      ValuedToBetween(st);
    }
  }

  lemma ValuedToBetween(st: State)
    requires Sound(st) && Inv(Valued, st) && !st.closingQuote
    ensures Inv(Between, st)
  {
    hide Run, Settled;
  }

  lemma OpenKeeps(st: State)
    requires Sound(st) && (Inv(Idle, st) || Inv(Whole, st))
    ensures Inv(Between, Step(st, Event(ToolOpen, "")))
  {
    hide Run;
    OpenBrace();
    if !Inv(Idle, st) { WholeSettled(st); }
  }

  /** A call whose arguments came whole needs no closing. */
  lemma WholeSettled(st: State)
    requires Sound(st) && Inv(Whole, st)
    ensures AllSettled(st.toolCalls)
  {
    hide Run;
    if st.current == LastTool {
      var n := |st.toolCalls| - 1;
      forall i | 0 <= i < |st.toolCalls| ensures Settled(st.toolCalls[i]) {
        if i < n { assert st.toolCalls[i] == st.toolCalls[..n][i]; }
      }
    }
  }

  lemma QuietKeeps(p: Phase, st: State, reasoning: string, content: string)
    requires Sound(st) && Inv(p, st)
    ensures Inv(p, st.(reasoning := reasoning, content := content))
  {
    hide Run, Settled;
    var r := st.(reasoning := reasoning, content := content);
    if p != Idle {
      assert Call(r) == Call(st);
    }
  }

  lemma NoPendingQuoteKeeps(st: State)
    requires Sound(st) && Inv(Between, st)
    ensures st.(closingQuote := false) == st
  {
  }

  lemma SafeInside(p: Phase, st: State, e: Event)
    requires Sound(st) && Inv(p, st) && Allowed(p, e.tag)
    ensures Safe(st, e)
  {
    hide Run, Settled, Building;
  }

  lemma ArgsKeeps(p: Phase, st: State, text: string)
    requires Sound(st) && Inv(p, st) && (p == Between || p == Whole) && text != "" && ArgsComplete(text)
    ensures HasTool(st) && Inv(if Run(START, text) == START then Whole else Between, WithTarget(st, text))
  {
    hide Run, Settled, Inv;
    InvParts(p, st);
    TargetKeeps(p, st, if Run(START, text) == START then Whole else Between, st, text);
  }

  /** One node of a well-formed stream keeps the invariant. */
  lemma StepKeeps(p: Phase, st: State, e: Event)
    requires Sound(st) && Inv(p, st) && After(p, e).Some?
    ensures Safe(st, e) && Inv(After(p, e).value, Step(st, e))
  {
    hide Inv, Run, TrimTrailing, ArgsComplete, ValueComplete, NameStep, ArgNameStep, ValueStep, CloseStep, Call, WithCall;
    hide Target, WithTarget;
    SafeInside(p, st, e);
    if p != Idle { InvParts(p, st); }
    match e.tag
    case ToolOpen => OpenKeeps(st);
    case ToolId => IdKeeps(p, st, Unquote(TrimTrailing(e.text)));
    case ToolName => NameKeeps(p, st, e.text);
    case ToolArgs =>
      var text := TrimTrailing(e.text);
      if IsObject(text) { ArgsKeeps(p, st, text); }
    case ToolArgOpen => NoPendingQuoteKeeps(st);
    case ToolArgName => ArgNameKeeps(st, e.text);
    case ToolArgValue => ValueKeeps(st, e.text, false);
    case ToolArgStringValue => ValueKeeps(st, e.text, true);
    case ToolArgClose => ArgCloseKeeps(st);
    case ToolClose => CloseKeeps(p, st);
    case Reasoning => QuietKeeps(p, st, st.reasoning + e.text, st.content);
    case Content => QuietKeeps(p, st, st.reasoning, st.content + e.text);
    case _ =>
  }

  lemma {:induction false} RunKeeps(p: Phase, st: State, es: seq<Event>)
    requires Sound(st) && Inv(p, st) && WellFormed(p, es)
    ensures SafeRun(st, es) && Inv(PhaseAfter(p, es), RunAll(st, es))
    decreases es
  {
    hide Inv, Step, After, Safe;
    if es != [] {
      StepKeeps(p, st, es[0]);
      RunKeeps(After(p, es[0]).value, Step(st, es[0]), es[1..]);
    }
  }

  lemma InitialInv()
    ensures Inv(Idle, INITIAL)
  {
  }

  lemma EmittedCalls(p: Phase, st: State)
    requires Sound(st) && Inv(p, st)
    ensures AllNamed(st.toolCalls) && EarlierSettled(st.toolCalls)
    ensures p == Idle || p == Whole ==> AllSettled(st.toolCalls)
    ensures p != Idle && st.current == LastTool ==>
              Building(st.toolCalls[|st.toolCalls| - 1].arguments, st.closingQuote)
  {
    if p == Whole { WholeSettled(st); }
    if p != Idle && st.current == LastTool {
      var done := st.toolCalls[..|st.toolCalls| - 1];
      forall i | 0 <= i < |st.toolCalls| - 1 ensures Settled(st.toolCalls[i]) {
        assert done[i] == st.toolCalls[i];
      }
    }
  }

  /**
   After every stream whose read nodes are well-formed: no discarded call was touched, the final
   flush adds nothing, and every emitted call is named; each one, except a call still being
   written, has balanced braces and no open string, and in that one a string is open exactly when
   a closing quote is due.
   */
  lemma WellFormedRuns(es: seq<Event>)
    requires WellFormed(Idle, Digest(es))
    ensures SafeRun(INITIAL, es)
    ensures var st, p := RunAll(INITIAL, es), PhaseAfter(Idle, Digest(es));
            && Flush(st) == st
            && AllNamed(st.toolCalls) && EarlierSettled(st.toolCalls)
            && (p == Idle || p == Whole ==> AllSettled(st.toolCalls))
            && (p != Idle && st.current == LastTool ==>
                  Building(st.toolCalls[|st.toolCalls| - 1].arguments, st.closingQuote))
  {
    hide Inv, RunAll, SafeRun, Digest;
    InitialInv();
    RunKeeps(Idle, INITIAL, Digest(es));
    DigestRuns(INITIAL, es);
    FlushNeverFires(INITIAL, es);
    EmittedCalls(PhaseAfter(Idle, Digest(es)), RunAll(INITIAL, es));
  }

  // ----- streams cut inside a node -----

  /** All nodes are complete except perhaps the last, whose text may stop anywhere. */
  predicate CutShort(p: Phase, es: seq<Event>)
    decreases es
  {
    || es == []
    || (Allowed(p, es[0].tag) && |es| == 1)
    || (After(p, es[0]).Some? && CutShort(After(p, es[0]).value, es[1..]))
  }

  predicate AllNamed(cs: seq<ToolCall>) {
    forall i :: 0 <= i < |cs| ==> cs[i].name != ""
  }

  predicate EarlierSettled(cs: seq<ToolCall>) {
    forall i :: 0 <= i < |cs| - 1 ==> Settled(cs[i])
  }

  lemma LastChanged(st: State, c: ToolCall)
    requires Sound(st) && HasTool(st) && EarlierSettled(st.toolCalls) && AllNamed(st.toolCalls)
    ensures EarlierSettled(WithCall(st, c).toolCalls)
    ensures c.name != "" ==> AllNamed(WithCall(st, c).toolCalls)
  {
    hide Settled;
  }

  /** A name without a letter. */
  lemma BlankNameCut(p: Phase, st: State, text: string)
    requires Sound(st) && Inv(p, st) && p != Idle
    ensures HasTool(st) && EarlierSettled(NameStep(st, text).toolCalls)
  {
    hide Settled, Run, Building, TrimTrailing;
    EmittedCalls(p, st);
    if st.current == PendingTool {
      assert AllSettled(st.toolCalls);
    }
  }

  lemma TargetCut(p: Phase, st: State, t: string)
    requires Sound(st) && Inv(p, st) && p != Idle
    ensures HasTool(st)
    ensures EarlierSettled(WithTarget(st, t).toolCalls) && AllNamed(WithTarget(st, t).toolCalls)
  {
    hide Settled, Run, Building;
    EmittedCalls(p, st);
    LastChanged(st, Call(st).(arguments := t));
  }

  lemma LastCut(p: Phase, st: State, e: Event)
    requires Sound(st) && Inv(p, st) && Allowed(p, e.tag)
    ensures Safe(st, e) && EarlierSettled(Step(st, e).toolCalls)
    ensures !BlankName(e) ==> AllNamed(Step(st, e).toolCalls)
  {
    hide Inv, TrimTrailing, ArgsComplete, ValueComplete, NameStep, WithTarget, Target, EarlierSettled, AllNamed;
    SafeInside(p, st, e);
    if Complete(e) {
      StepKeeps(p, st, e);
      EmittedCalls(After(p, e).value, Step(st, e));
    } else {
      InvParts(p, st);
      if e.tag == ToolName {
        BlankNameCut(p, st, e.text);
      } else if e.tag == ToolArgs {
        TargetCut(p, st, TrimTrailing(e.text));
      } else {
        TargetCut(p, st, Target(st) + Quotes.Normalize(e.text));
      }
    }
  }

  lemma {:induction false} CutKeeps(p: Phase, st: State, es: seq<Event>)
    requires Sound(st) && Inv(p, st) && CutShort(p, es)
    ensures SafeRun(st, es) && EarlierSettled(RunAll(st, es).toolCalls)
    ensures es == [] || !BlankName(es[|es| - 1]) ==> AllNamed(RunAll(st, es).toolCalls)
    decreases es
  {
    hide Inv, Step, After, Safe, EarlierSettled, AllNamed, BlankName, Allowed;
    if es == [] {
      EmittedCalls(p, st);
    } else if |es| == 1 && Allowed(p, es[0].tag) {
      LastCut(p, st, es[0]);
      assert es[1..] == [];
    } else {
      StepKeeps(p, st, es[0]);
      var rest := es[1..];
      CutKeeps(After(p, es[0]).value, Step(st, es[0]), rest);
      if rest == [] { LastOfOne(p, st, es[0]); }
    }
  }

  lemma LastOfOne(p: Phase, st: State, e: Event)
    requires After(p, e).Some?
    ensures Allowed(p, e.tag)
  {
  }

  /**
   Wherever the output was cut, inside JSON arguments or a value as well: no discarded call was
   touched, the flush adds nothing, every call before the last is settled, and all are named unless
   it was cut before the first letter of a name.
   */
  lemma CutRuns(es: seq<Event>)
    requires CutShort(Idle, Digest(es))
    ensures SafeRun(INITIAL, es)
    ensures var st := RunAll(INITIAL, es);
            && Flush(st) == st && EarlierSettled(st.toolCalls)
            && (Digest(es) == [] || !BlankName(Digest(es)[|Digest(es)| - 1]) ==> AllNamed(st.toolCalls))
  {
    hide Inv, RunAll, SafeRun, Digest, CutShort, EarlierSettled, AllNamed, BlankName;
    InitialInv();
    CutKeeps(Idle, INITIAL, Digest(es));
    DigestRuns(INITIAL, es);
    FlushNeverFires(INITIAL, es);
  }
}
