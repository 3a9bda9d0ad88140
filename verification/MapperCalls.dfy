/**
 What the calls of the tag-driven mapper are: the nodes read as names, ids, members and values, and the
 arguments as one JSON object of those members.
 */
module MapperCalls {
  import opened Wrappers
  import opened Ast
  import opened JsonText
  import opened JsonReader
  import Quotes
  import QuoteLaws
  import opened MessageDiff
  import opened ToolMapper
  import opened MapperReads
  import opened MapperOrder
  import opened MapperRuns
  import opened MapperStream

  /** The value of an argument: none yet, a string, or Python text. */
  datatype Value = Missing | Str(text: string) | Python(text: string)

  datatype Member = Member(key: string, value: Value)

  /** A call as far as it has been read; whole holds arguments that came as one JSON object. */
  datatype Draft = Draft(name: string, id: string, members: seq<Member>, whole: Option<string>)

  datatype Reading = Reading(reasoning: string, content: string, calls: seq<ToolCall>, draft: Option<Draft>)

  const NOTHING_READ := Reading("", "", [], None)

  function ValueText(v: Value): string {
    match v
    case Missing => ""
    case Str(text) => Quoted(text)
    case Python(text) => Quotes.Normalize(text)
  }

  function EntryText(m: Member): string {
    Quoted(m.key) + ":" + ValueText(m.value)
  }

  function Entries(ms: seq<Member>): (r: seq<string>)
    ensures |r| == |ms| && forall i :: 0 <= i < |ms| ==> r[i] == EntryText(ms[i])
  {
    seq(|ms|, i requires 0 <= i < |ms| => EntryText(ms[i]))
  }

  /** The arguments of a finished call. */
  function Arguments(d: Draft): string {
    if d.whole.Some? then d.whole.value else "{" + Commas(Entries(d.members)) + "}"
  }

  /** A call that ends is kept if it has a name. */
  function Ended(r: Reading): seq<ToolCall> {
    if r.draft.Some? && r.draft.value.name != "" then
      r.calls + [ToolCall(r.draft.value.name, Arguments(r.draft.value), r.draft.value.id)]
    else r.calls
  }

  function WithValue(d: Draft, v: Value): Draft {
    if d.members == [] then d
    else
      var n := |d.members| - 1;
      d.(members := d.members[..n] + [d.members[n].(value := v)])
  }

  function ReadInCall(d: Draft, e: Event): Draft {
    match e.tag
    case ToolId => d.(id := Unquote(TrimTrailing(e.text)))
    case ToolName => d.(name := TrimTrailing(e.text))
    case ToolArgs => if SkippedArgs(e) then d else d.(whole := Some(TrimTrailing(e.text)))
    case ToolArgName => d.(members := d.members + [Member(Trim(e.text), Missing)])
    case ToolArgValue => WithValue(d, Python(e.text))
    case ToolArgStringValue => WithValue(d, Str(e.text))
    case _ => d
  }

  function ReadEvent(r: Reading, e: Event): Reading {
    match e.tag
    case Reasoning => r.(reasoning := r.reasoning + e.text)
    case Content => r.(content := r.content + e.text)
    case ToolOpen => r.(calls := Ended(r), draft := Some(Draft("", "", [], None)))
    case ToolClose => r.(calls := Ended(r), draft := None)
    case _ => if r.draft.Some? then r.(draft := Some(ReadInCall(r.draft.value, e))) else r
  }

  function ReadAll(r: Reading, es: seq<Event>): Reading
    decreases es
  {
    if es == [] then r else ReadAll(ReadEvent(r, es[0]), es[1..])
  }

  // ----- streams -----

  /** A complete node in order; JSON arguments are balanced. */
  predicate Proper(p: Phase, e: Event) {
    && NextPhase(p, e).Some? && Complete(e)
    && (e.tag == ToolArgs && !SkippedArgs(e) ==> Run(START, TrimTrailing(e.text)) == START)
  }

  predicate ProperRun(p: Phase, es: seq<Event>)
    decreases es
  {
    es == [] || (Proper(p, es[0]) && ProperRun(NextPhase(p, es[0]).value, es[1..]))
  }

  function EndPhase(p: Phase, es: seq<Event>): Phase
    requires ProperRun(p, es)
    decreases es
  {
    if es == [] then p else EndPhase(NextPhase(p, es[0]).value, es[1..])
  }

  // ----- the invariant -----

  predicate Given(v: Value) {
    v.Str? || (v.Python? && ValueComplete(v.text))
  }

  predicate AllGiven(ms: seq<Member>) {
    forall i :: 0 <= i < |ms| ==> Given(ms[i].value)
  }

  /** All values are there, in the middle of an argument except the last. */
  predicate GivenIn(p: Phase, ms: seq<Member>) {
    if p == Named then ms != [] && AllGiven(ms[..|ms| - 1]) && ms[|ms| - 1].value == Missing
    else AllGiven(ms) && (p == Valued ==> ms != [])
  }

  /** What has been written of the arguments, closed up to the current member. */
  function Body(d: Draft): string {
    if d.members == [] then (if d.name == "" then "" else "{") else "{" + Commas(Entries(d.members))
  }

  predicate Drafted(p: Phase, st: State, d: Draft)
    requires Sound(st) && HasTool(st)
  {
    && Call(st).name == d.name && Call(st).id == d.id
    && (st.current == PendingTool <==> d.name == "")
    && (if p == Whole then d.whole == Some(Target(st)) && Run(START, Target(st)) == START
        else
          && d.whole.None? && st.argCount == |d.members| && GivenIn(p, d.members)
          && Target(st) + (if st.closingQuote then "\"" else "") == Body(d))
  }

  /** The state holds what has been read. */
  predicate Holds(p: Phase, st: State, r: Reading)
    requires Sound(st)
  {
    && st.reasoning == r.reasoning && st.content == r.content
    && (p == Idle ==> r.draft.None? && st.toolCalls == r.calls)
    && (p != Idle ==>
          && r.draft.Some? && HasTool(st) && Drafted(p, st, r.draft.value)
          && r.calls == if st.current == PendingTool then st.toolCalls else st.toolCalls[..|st.toolCalls| - 1])
  }

  // ----- texts -----

  lemma {:induction false} CommasLast(texts: seq<string>, last: string, more: string)
    ensures Commas(texts + [last + more]) == Commas(texts + [last]) + more
    decreases texts
  {
    if texts == [] {
      assert texts + [last] == [last] && texts + [last + more] == [last + more];
    } else {
      assert (texts + [last + more])[1..] == texts[1..] + [last + more] && (texts + [last])[1..] == texts[1..] + [last];
      CommasLast(texts[1..], last, more);
      var x := Commas(texts[1..] + [last]);
      assert texts[0] + "," + (x + more) == texts[0] + "," + x + more;
    }
  }

  /** A new key. */
  lemma BodyWithKey(d: Draft, key: string)
    ensures Body(WithKey(d, key)) == (if Body(d) == "" then "{" else Body(d)) + KeyText(d, key)
  {
    hide Quoted, Commas;
    var d' := WithKey(d, key);
    var entry := Quoted(key) + ":";
    assert EntryText(Member(key, Missing)) == entry + "" == entry;
    assert Entries(d'.members) == Entries(d.members) + [entry];
    CommasPush(Entries(d.members), entry);
    if d.members == [] {
      assert "{" + entry == "{" + ("" + entry);
    } else {
      assert "{" + (Commas(Entries(d.members)) + "," + entry) == "{" + Commas(Entries(d.members)) + ("," + entry);
    }
  }

  /** The value of the last key. */
  lemma BodyWithValue(d: Draft, v: Value)
    requires d.members != [] && d.members[|d.members| - 1].value == Missing
    ensures Body(WithValue(d, v)) == Body(d) + ValueText(v)
  {
    hide Quoted, Commas;
    var n := |d.members| - 1;
    var front, key := Entries(d.members[..n]), Quoted(d.members[n].key) + ":";
    assert key + "" == key;
    assert Entries(d.members) == front + [key];
    assert Entries(WithValue(d, v).members) == front + [key + ValueText(v)];
    CommasLast(front, key, ValueText(v));
    assert "{" + (Commas(front + [key]) + ValueText(v)) == "{" + Commas(front + [key]) + ValueText(v);
  }

  /** Members with complete values leave one brace open and no string. */
  lemma {:induction false} BodyDepth(ms: seq<Member>)
    requires AllGiven(ms)
    ensures Run(START, "{" + Commas(Entries(ms))) == Scan(1, false, false)
  {
    hide EntryText, Given;
    var inner := Scan(1, false, false);
    RunAppend(START, "{", Commas(Entries(ms)));
    RunOne(START, '{');
    CommasFlat(Entries(ms), inner) by {
      forall i | 0 <= i < |ms| ensures Run(inner, Entries(ms)[i]) == inner {
        EntryFlat(ms[i]);
      }
    }
  }

  lemma {:induction false} CommasFlat(texts: seq<string>, st: Scan)
    requires !st.inString && !st.escaped && forall i :: 0 <= i < |texts| ==> Run(st, texts[i]) == st
    ensures Run(st, Commas(texts)) == st
    decreases texts
  {
    hide Run;
    if texts == [] {
      RunNothing(st);
    } else if |texts| > 1 {
      CommasFlat(texts[1..], st);
      var rest := Commas(texts[1..]);
      assert texts[0] + "," + rest == texts[0] + ("," + rest);
      RunAppend(st, texts[0], "," + rest);
      RunAppend(st, ",", rest);
      RunOne(st, ',');
      CommaStays(st);
    }
  }

  lemma RunNothing(st: Scan)
    ensures Run(st, "") == st
  {
  }

  lemma CommaStays(st: Scan)
    requires !st.inString && !st.escaped
    ensures Next(st, ',') == st
  {
  }

  lemma EntryFlat(m: Member)
    requires Given(m.value)
    ensures Run(Scan(1, false, false), EntryText(m)) == Scan(1, false, false)
  {
    hide Run, Quotes.Normalize, Quoted;
    var st := Scan(1, false, false);
    var text := ValueText(m.value);
    RunAppend(st, Quoted(m.key) + ":", text);
    RunAppend(st, Quoted(m.key), ":");
    QuotedStays(1, m.key);
    RunOne(st, ':');
    ColonStays(st);
    if m.value.Str? {
      QuotedStays(1, m.value.text);
    } else {
      PythonFlat(m.value.text);
    }
  }

  lemma ColonStays(st: Scan)
    requires !st.inString && !st.escaped
    ensures Next(st, ':') == st
  {
  }

  lemma PythonFlat(text: string)
    requires ValueComplete(text)
    ensures Run(Scan(1, false, false), Quotes.Normalize(text)) == Scan(1, false, false)
  {
    hide Run, Quotes.Norm, QuoteLaws.PyRun;
    QuoteLaws.NormKeepsStructure(1, text, Quotes.Plain, false);
    PyShift(QuoteLaws.PyScan(0, Quotes.Plain, false), 1, text);
  }

  // ----- one node -----

  /** Only the text of the arguments changes, and fields that no call shows. */
  lemma WriteHolds(p: Phase, st: State, r: Reading, p': Phase, u: State, t: string, d': Draft)
    requires Sound(st) && Tracks(p, st) && p != Idle && p' != Idle && Holds(p, st, r)
    requires Sound(u) && u.pending == st.pending && u.current == st.current && u.toolCalls == st.toolCalls
    requires u.argsBuffer == st.argsBuffer && u.reasoning == st.reasoning && u.content == st.content
    requires d'.name == r.draft.value.name && d'.id == r.draft.value.id
    requires if p' == Whole then d'.whole == Some(t) && Run(START, t) == START
             else d'.whole.None? && u.argCount == |d'.members| && GivenIn(p', d'.members)
                  && t + (if u.closingQuote then "\"" else "") == Body(d')
    ensures HasTool(u) && Holds(p', WithTarget(u, t), r.(draft := Some(d')))
  {
    hide Run, Body, GivenIn;
    var s := WithTarget(u, t);
    if st.current == LastTool {
      assert s.toolCalls[..|s.toolCalls| - 1] == st.toolCalls[..|st.toolCalls| - 1];
    }
  }

  lemma KeyGiven(ms: seq<Member>, key: string)
    requires GivenIn(Between, ms)
    ensures GivenIn(Named, ms + [Member(key, Missing)])
  {
    assert (ms + [Member(key, Missing)])[..|ms|] == ms;
  }

  lemma ValueGiven(ms: seq<Member>, v: Value)
    requires GivenIn(Named, ms) && Given(v)
    ensures var n := |ms| - 1; GivenIn(Valued, ms[..n] + [ms[n].(value := v)])
  {
    hide Given;
    var n := |ms| - 1;
    var ms' := ms[..n] + [ms[n].(value := v)];
    forall i | 0 <= i < |ms'| ensures Given(ms'[i].value) {
      if i < n { assert ms'[i] == ms[..n][i]; }
    }
  }

  function WithKey(d: Draft, key: string): Draft {
    d.(members := d.members + [Member(key, Missing)])
  }

  function KeyText(d: Draft, key: string): string {
    (if d.members == [] then "" else ",") + (Quoted(key) + ":")
  }

  lemma ArgNameStepIs(st: State, d: Draft, text: string)
    requires Sound(st) && HasTool(st) && st.argCount == |d.members|
    ensures ArgNameStep(st, text)
            == WithTarget(st.(argCount := st.argCount + 1), (if Target(st) == "" then "{" else Target(st)) + KeyText(d, Trim(text)))
  {
    hide Trim, Quoted, Target, WithTarget;
  }

  lemma ReadKey(r: Reading, text: string)
    requires r.draft.Some?
    ensures ReadEvent(r, Event(ToolArgName, text)) == r.(draft := Some(WithKey(r.draft.value, Trim(text))))
  {
    hide Trim;
  }

  lemma ArgNameHolds(st: State, r: Reading, text: string)
    requires Sound(st) && Tracks(Between, st) && Holds(Between, st, r)
    ensures Holds(Named, ArgNameStep(st, text), ReadEvent(r, Event(ToolArgName, text)))
  {
    hide Run, Body, Trim, KeyText, Drafted, GivenIn, Tracks, Holds, Target, WithTarget, Call, ArgNameStep, ReadEvent;
    HoldsParts(Between, st, r);
    var d, key := r.draft.value, Trim(text);
    ArgNameStepIs(st, d, text);
    ReadKey(r, text);
    BodyWithKey(d, key);
    assert Target(st) + "" == Target(st);
    var t := (if Target(st) == "" then "{" else Target(st)) + KeyText(d, key);
    assert t + "" == t;
    KeyGiven(d.members, key);
    WriteHolds(Between, st, r, Named, st.(argCount := st.argCount + 1), t, WithKey(d, key));
  }

  lemma HoldsParts(p: Phase, st: State, r: Reading)
    requires Sound(st) && Tracks(p, st) && Holds(p, st, r) && p != Idle
    ensures HasTool(st) && r.draft.Some? && Drafted(p, st, r.draft.value) && (st.closingQuote ==> p == Valued)
    ensures var d := r.draft.value;
            && (p == Whole ==> d.whole == Some(Target(st)) && Run(START, Target(st)) == START)
            && (p != Whole ==>
                  && d.whole.None? && st.argCount == |d.members| && GivenIn(p, d.members)
                  && Target(st) + (if st.closingQuote then "\"" else "") == Body(d))
            && (p == Named ==> d.members != [] && d.members[|d.members| - 1].value == Missing)
  {
    hide Run, Body;
  }

  lemma ValueHolds(st: State, r: Reading, v: Value, u: State, t: string)
    requires Sound(st) && Tracks(Named, st) && Holds(Named, st, r) && Given(v)
    requires Sound(u) && u == st.(closingQuote := v.Str?)
    requires HasTool(st) && t + (if v.Str? then "\"" else "") == Target(st) + ValueText(v)
    ensures HasTool(u) && Holds(Valued, WithTarget(u, t), r.(draft := Some(WithValue(r.draft.value, v))))
  {
    hide Run, Body, Quoted, Drafted, ValueText, GivenIn, Given, Tracks, Holds, Target, WithTarget, Call;
    HoldsParts(Named, st, r);
    var d := r.draft.value;
    assert Target(st) + "" == Target(st);
    BodyWithValue(d, v);
    ValueGiven(d.members, v);
    WriteHolds(Named, st, r, Valued, u, t, WithValue(d, v));
  }

  lemma StringHolds(st: State, r: Reading, text: string)
    requires Sound(st) && Tracks(Named, st) && Holds(Named, st, r)
    ensures Holds(Valued, ValueStep(st, text, true), ReadEvent(r, Event(ToolArgStringValue, text)))
  {
    hide Holds, Escape, Tracks, Drafted, Body, Target, WithTarget, Call;
    HoldsParts(Named, st, r);
    EscapeNothing();
    var u := st.(closingQuote := true);
    var open := if text == "" then "\"" else "\"" + Escape(text);
    assert Target(st) + open + "\"" == Target(st) + ("\"" + Escape(text) + "\"");
    ValueHolds(st, r, Str(text), u, Target(st) + open);
  }

  lemma PythonHolds(st: State, r: Reading, text: string)
    requires Sound(st) && Tracks(Named, st) && Holds(Named, st, r) && ValueComplete(text)
    ensures Holds(Valued, ValueStep(st, text, false), ReadEvent(r, Event(ToolArgValue, text)))
  {
    hide Holds, Quotes.Normalize, Tracks, Drafted, Body, Target, WithTarget, Call;
    HoldsParts(Named, st, r);
    var t := Target(st) + Quotes.Normalize(text);
    assert t + "" == t;
    assert st.(closingQuote := false) == st;
    ValueHolds(st, r, Python(text), st, t);
  }

  lemma ArgCloseHolds(st: State, r: Reading)
    requires Sound(st) && Tracks(Valued, st) && Holds(Valued, st, r)
    ensures Holds(Between, Step(st, Event(ToolArgClose, "")), ReadEvent(r, Event(ToolArgClose, "")))
  {
    hide Run, Body, Drafted, GivenIn, Tracks, Holds, Target, WithTarget, Call;
    HoldsParts(Valued, st, r);
    var d := r.draft.value;
    assert r.(draft := Some(d)) == r;
    var t := Target(st) + "\"";
    assert t + "" == t;
    if st.closingQuote {
      ClosedGiven(d.members);
      WriteHolds(Valued, st, r, Between, st.(closingQuote := false), t, d);
    } else {
      ValuedIsBetween(st, r);
    }
  }

  lemma ClosedGiven(ms: seq<Member>)
    requires GivenIn(Valued, ms)
    ensures GivenIn(Between, ms)
  {
  }

  lemma ValuedIsBetween(st: State, r: Reading)
    requires Sound(st) && Holds(Valued, st, r) && !st.closingQuote
    ensures Holds(Between, st, r)
  {
    hide Run, Body;
  }

  lemma ArgsHold(p: Phase, st: State, r: Reading, text: string)
    requires Sound(st) && Tracks(p, st) && Holds(p, st, r) && p != Idle
    requires text != "" && Run(START, text) == START && !st.closingQuote
    ensures HasTool(st) && r.draft.Some?
    ensures Holds(Whole, WithTarget(st, text), r.(draft := Some(r.draft.value.(whole := Some(text)))))
  {
    hide Run, Body, Drafted, GivenIn, Tracks, Holds, Target, WithTarget, Call;
    HoldsParts(p, st, r);
    WriteHolds(p, st, r, Whole, st, text, r.draft.value.(whole := Some(text)));
  }

  lemma IdHolds(p: Phase, st: State, r: Reading, id: string)
    requires Sound(st) && Tracks(p, st) && Holds(p, st, r) && p != Idle
    ensures HasTool(st) && Holds(p, WithCall(st, Call(st).(id := id)), r.(draft := Some(r.draft.value.(id := id))))
  {
    hide Run, Commas, Entries, GivenIn;
    var s := WithCall(st, Call(st).(id := id));
    if st.current == LastTool {
      assert s.toolCalls[..|s.toolCalls| - 1] == st.toolCalls[..|st.toolCalls| - 1];
    }
  }

  lemma NameFirstIs(st: State, text: string)
    requires Sound(st) && st.current == PendingTool && Call(st).arguments == ""
    ensures NameStep(st, text) == st.(
              toolCalls := st.toolCalls + [ToolCall(TrimTrailing(text), if st.argsBuffer != "" then st.argsBuffer else "{", Call(st).id)],
              pending := None, current := LastTool, argsBuffer := "")
  {
    hide TrimTrailing;
  }

  lemma NameAgainIs(st: State, text: string)
    requires Sound(st) && st.current == LastTool && Call(st).arguments != "" && st.argsBuffer == ""
    ensures NameStep(st, text) == WithCall(st, Call(st).(name := TrimTrailing(text)))
  {
    hide TrimTrailing;
  }

  lemma NamedBody(d: Draft, name: string)
    requires name != "" && (d.name == "" || d.members != [] || Body(d) != "")
    ensures Body(d.(name := name)) == if Body(d) == "" then "{" else Body(d)
  {
    hide Commas;
  }

  /** The first name shows the call; the arguments written before it move in. */
  lemma NameFirst(p: Phase, st: State, r: Reading, text: string)
    requires Sound(st) && Tracks(p, st) && Holds(p, st, r) && p != Idle && TrimTrailing(text) != "" && st.current == PendingTool
    ensures HasTool(st) && Holds(p, NameStep(st, text), ReadEvent(r, Event(ToolName, text)))
  {
    hide TrimTrailing, Run, Body, GivenIn;
    NameFirstIs(st, text);
    var s, d := NameStep(st, text), r.draft.value;
    NamedBody(d, TrimTrailing(text));
    assert s.toolCalls[..|s.toolCalls| - 1] == st.toolCalls;
    assert "{" + "" == "{" && "" + "" == "";
  }

  lemma NameAgain(p: Phase, st: State, r: Reading, text: string)
    requires Sound(st) && Tracks(p, st) && Holds(p, st, r) && p != Idle && TrimTrailing(text) != "" && st.current == LastTool
    ensures HasTool(st) && Holds(p, NameStep(st, text), ReadEvent(r, Event(ToolName, text)))
  {
    hide TrimTrailing, Run, Body, GivenIn;
    NameAgainIs(st, text);
    var s, d := NameStep(st, text), r.draft.value;
    assert d.name != "" && Body(d.(name := TrimTrailing(text))) == Body(d) by { RenamedBody(d, TrimTrailing(text)); }
    assert s.toolCalls[..|s.toolCalls| - 1] == st.toolCalls[..|st.toolCalls| - 1];
  }

  lemma RenamedBody(d: Draft, name: string)
    requires d.name != "" && name != ""
    ensures Body(d.(name := name)) == Body(d)
  {
  }

  // ----- the end of a call -----

  lemma CloseHolds(p: Phase, st: State, r: Reading)
    requires Sound(st) && Tracks(p, st) && Holds(p, st, r) && (p == Between || p == Valued || p == Whole)
    ensures HasTool(st) && Holds(Idle, CloseStep(st), ReadEvent(r, Event(ToolClose, "")))
  {
    hide Run, Body, GivenIn, Braces, Arguments;
    if st.current == LastTool {
      HoldsParts(p, st, r);
      var d, c := r.draft.value, Call(st);
      var args := if st.closingQuote then c.arguments + "\"" else c.arguments;
      ClosedArguments(p, d, args) by { assert c.arguments + "" == c.arguments; }
      assert CloseStep(st).toolCalls == st.toolCalls[..|st.toolCalls| - 1] + [c.(arguments := Arguments(d))];
    }
  }

  lemma ClosedArguments(p: Phase, d: Draft, args: string)
    requires d.name != "" && (p == Between || p == Valued || p == Whole)
    requires p == Whole ==> d.whole == Some(args) && Run(START, args) == START
    requires p != Whole ==> d.whole.None? && GivenIn(p, d.members) && args == Body(d)
    ensures args + Braces(Run(START, args).depth) == Arguments(d)
  {
    hide Run, Commas, Entries;
    if p == Whole {
      NoBraces();
      assert args + "" == args;
    } else {
      BodyDepth(d.members);
      OneBrace();
      if d.members == [] {
        assert Entries(d.members) == [];
        NoCommas();
        assert "{" + "" == "{";
      }
    }
  }

  lemma NoBraces()
    ensures Braces(0) == "" && START.depth == 0
  {
  }

  lemma OneBrace()
    ensures Braces(1) == "}"
  {
    assert Braces(0) == "";
  }

  lemma OpenHolds(p: Phase, st: State, r: Reading)
    requires Sound(st) && Tracks(p, st) && Holds(p, st, r) && (p == Idle || p == Whole)
    ensures Holds(Between, Step(st, Event(ToolOpen, "")), ReadEvent(r, Event(ToolOpen, "")))
  {
    hide Run, Arguments;
    if p == Whole && st.current == LastTool {
      var d := r.draft.value;
      WholeArguments(d);
      assert st.toolCalls == st.toolCalls[..|st.toolCalls| - 1] + [Call(st)];
    }
    var s := Step(st, Event(ToolOpen, ""));
    assert "" + "" == "";
  }

  lemma WholeArguments(d: Draft)
    requires d.whole.Some?
    ensures Arguments(d) == d.whole.value
  {
  }

  lemma TextHolds(p: Phase, st: State, r: Reading, reasoning: string, content: string)
    requires Sound(st) && Holds(p, st, r)
    ensures Holds(p, st.(reasoning := st.reasoning + reasoning, content := st.content + content),
                  r.(reasoning := r.reasoning + reasoning, content := r.content + content))
  {
    hide Run, Body, GivenIn;
    var s := st.(reasoning := st.reasoning + reasoning, content := st.content + content);
    if p != Idle {
      assert Call(s) == Call(st);
    }
  }

  predicate IsArgumentTag(t: Tag) {
    t == ToolArgs || t == ToolArgOpen || t == ToolArgName || t == ToolArgValue || t == ToolArgStringValue || t == ToolArgClose
  }

  lemma ArgumentHolds(p: Phase, st: State, r: Reading, e: Event)
    requires Sound(st) && Tracks(p, st) && Holds(p, st, r) && Proper(p, e) && (Marks(e.tag) ==> e.text == "")
    requires IsArgumentTag(e.tag) && Safe(st, e) && p != Idle
    ensures Holds(NextPhase(p, e).value, Step(st, e), ReadEvent(r, e))
  {
    hide Tracks, Holds, TrimTrailing, ArgNameStep, ValueStep, Call, Target, WithTarget, Drafted, Body;
    hide ValueComplete, WithValue, Run, GivenIn;
    HoldsParts(p, st, r);
    SameDraft(r);
    match e.tag
    case ToolArgs =>
      if !SkippedArgs(e) { ArgsHold(p, st, r, TrimTrailing(e.text)); }
    case ToolArgOpen => NoQuoteTracks(st);
    case ToolArgName => ArgNameHolds(st, r, e.text);
    case ToolArgValue => PythonHolds(st, r, e.text);
    case ToolArgStringValue => StringHolds(st, r, e.text);
    case ToolArgClose => ArgCloseHolds(st, r);
  }

  lemma CallNodeHolds(p: Phase, st: State, r: Reading, e: Event)
    requires Sound(st) && Tracks(p, st) && Holds(p, st, r) && Proper(p, e) && (Marks(e.tag) ==> e.text == "")
    requires (e.tag == ToolOpen || e.tag == ToolId || e.tag == ToolName || e.tag == ToolClose) && Safe(st, e)
    ensures Holds(NextPhase(p, e).value, Step(st, e), ReadEvent(r, e))
  {
    hide Tracks, Holds, TrimTrailing, NameStep, CloseStep, Call, WithCall, Ended, Drafted, Body, Run, GivenIn, Unquote;
    if p != Idle { HoldsParts(p, st, r); }
    match e.tag
    case ToolOpen => OpenHolds(p, st, r);
    case ToolId => IdHolds(p, st, r, Unquote(TrimTrailing(e.text)));
    case ToolName =>
      if st.current == PendingTool { NameFirst(p, st, r, e.text); } else { NameAgain(p, st, r, e.text); }
    case ToolClose => CloseHolds(p, st, r);
  }

  lemma TextNodeHolds(p: Phase, st: State, r: Reading, e: Event)
    requires Sound(st) && Tracks(p, st) && Holds(p, st, r) && Safe(st, e)
    requires !NeedsTool(e.tag) && e.tag != ToolOpen && e.tag != ToolArgOpen
    ensures Holds(p, Step(st, e), ReadEvent(r, e))
  {
    hide Tracks, Holds;
    match e.tag
    case Reasoning =>
      TextHolds(p, st, r, e.text, "");
      assert st.content + "" == st.content && r.content + "" == r.content;
    case Content =>
      TextHolds(p, st, r, "", e.text);
      assert st.reasoning + "" == st.reasoning && r.reasoning + "" == r.reasoning;
    case _ => SameDraft(r);
  }

  /** One complete node in order. */
  lemma StepHolds(p: Phase, st: State, r: Reading, e: Event)
    requires Sound(st) && Tracks(p, st) && Holds(p, st, r) && Proper(p, e) && (Marks(e.tag) ==> e.text == "")
    ensures Safe(st, e) && Holds(NextPhase(p, e).value, Step(st, e), ReadEvent(r, e))
  {
    hide Tracks, Holds, Step, ReadEvent, Safe, Marks, Complete, Run, TrimTrailing, SkippedArgs;
    SafeInOrder(p, st, e);
    if IsArgumentTag(e.tag) {
      ArgumentHolds(p, st, r, e);
    } else if e.tag == ToolOpen || e.tag == ToolId || e.tag == ToolName || e.tag == ToolClose {
      CallNodeHolds(p, st, r, e);
    } else {
      TextNodeHolds(p, st, r, e);
    }
  }

  lemma SameDraft(r: Reading)
    ensures r.draft.Some? ==> r.(draft := Some(r.draft.value)) == r
  {
  }

  lemma {:induction false} RunHolds(p: Phase, st: State, r: Reading, es: seq<Event>)
    requires Sound(st) && Tracks(p, st) && Holds(p, st, r) && ProperRun(p, es)
    requires forall e :: e in es && Marks(e.tag) ==> e.text == ""
    ensures SafeRun(st, es) && Holds(EndPhase(p, es), RunAll(st, es), ReadAll(r, es))
    decreases es
  {
    hide Tracks, Holds, Step, Proper, NextPhase, ReadEvent, Safe, Marks;
    if es != [] {
      assert es[0] in es;
      StepHolds(p, st, r, es[0]);
      ProperIsNext(p, es[0]);
      StepTracks(p, st, es[0]);
      RunHolds(NextPhase(p, es[0]).value, Step(st, es[0]), ReadEvent(r, es[0]), es[1..]);
    }
  }

  lemma ProperIsNext(p: Phase, e: Event)
    requires Proper(p, e)
    ensures NextPhase(p, e).Some?
  {
  }

  lemma {:induction false} DigestMarks(es: seq<Event>)
    ensures forall e :: e in Digest(es) && Marks(e.tag) ==> e.text == ""
    decreases es
  {
    if es != [] { DigestMarks(es[1..]); }
  }

  lemma NothingHolds()
    ensures Holds(Idle, INITIAL, NOTHING_READ)
  {
  }

  /**
   The calls are those read; while a call is being written, its arguments are the beginning of its object,
   up to the current member and but for a quote that is still due.
   */
  predicate ShownAs(p: Phase, st: State, r: Reading) {
    && st.reasoning == r.reasoning && st.content == r.content
    && (if p == Idle then st.toolCalls == r.calls
        else if p == Whole then st.toolCalls == Ended(r)
        else if r.draft.None? then false
        else if r.draft.value.name == "" then st.toolCalls == r.calls
        else
          var d, n := r.draft.value, |r.calls|;
          && |st.toolCalls| == n + 1 && st.toolCalls[..n] == r.calls
          && st.toolCalls[n].name == d.name && st.toolCalls[n].id == d.id
          && st.toolCalls[n].arguments + (if st.closingQuote then "\"" else "") == "{" + Commas(Entries(d.members)))
  }

  /**
   The calls of a stream of parsed nodes are the calls read from it: each with its last name and id, and
   with arguments that are one object of its members in order, or the one object that came whole.
   */
  lemma CallsAsRead(es: seq<Event>)
    requires ProperRun(Idle, Digest(es))
    ensures SafeRun(INITIAL, es)
    ensures ShownAs(EndPhase(Idle, Digest(es)), RunAll(INITIAL, es), ReadAll(NOTHING_READ, Digest(es)))
  {
    hide Holds, RunAll, SafeRun, Digest, ReadAll, ShownAs, EndPhase, ProperRun;
    InitialTracks();
    NothingHolds();
    DigestMarks(es);
    RunHolds(Idle, INITIAL, NOTHING_READ, Digest(es));
    DigestRuns(INITIAL, es);
    HoldsShown(EndPhase(Idle, Digest(es)), RunAll(INITIAL, es), ReadAll(NOTHING_READ, Digest(es)));
  }

  lemma HoldsShown(p: Phase, st: State, r: Reading)
    requires Sound(st) && Holds(p, st, r)
    ensures ShownAs(p, st, r)
  {
    hide Run, Commas, GivenIn, Entries;
    if p != Idle && r.draft.value.name != "" {
      assert st.toolCalls == st.toolCalls[..|st.toolCalls| - 1] + [Call(st)];
      EmptyEntries(r.draft.value);
    }
  }

  lemma EmptyEntries(d: Draft)
    ensures d.members == [] ==> "{" + Commas(Entries(d.members)) == "{"
  {
    if d.members == [] {
      assert Entries(d.members) == [];
      assert "{" + "" == "{";
    }
  }

  /** The message of a finished stream: the texts read, blank reasoning left out, and the calls read. */
  lemma MessageAsRead(es: seq<Event>)
    requires ProperRun(Idle, Digest(es)) && EndPhase(Idle, Digest(es)) == Idle
    ensures SafeRun(INITIAL, es)
    ensures var r := ReadAll(NOTHING_READ, Digest(es));
            Message(es) == Msg(if forall i :: 0 <= i < |r.reasoning| ==> r.reasoning[i] in " \n\r\t" then "" else r.reasoning,
                               r.content, r.calls)
  {
    hide RunAll, SafeRun, Digest, ReadAll, Message, EndPhase, ProperRun;
    CallsAsRead(es);
    MessageIsShown(es);
  }

  /** The values that a reader of JSON finds for the members. */
  ghost predicate ValuesRead(ms: seq<Member>, vs: seq<Json>) {
    && |ms| == |vs|
    && forall i :: 0 <= i < |ms| ==>
         match ms[i].value
         case Missing => false
         case Str(text) => vs[i] == JString(text)
         case Python(text) => Reads(Quotes.Normalize(text), vs[i])
  }

  function Keys(ms: seq<Member>): (r: seq<string>)
    ensures |r| == |ms| && forall i :: 0 <= i < |r| ==> r[i] == ms[i].key
  {
    seq(|ms|, i requires 0 <= i < |ms| => ms[i].key)
  }

  /** The arguments written from members read back as one object of exactly those, in order. */
  lemma ArgumentsReadBack(d: Draft, vs: seq<Json>)
    requires d.whole.None? && ValuesRead(d.members, vs)
    ensures ReadValue(Arguments(d)) == Some((JObject(Pairs(Keys(d.members), vs)), ""))
  {
    hide Reads, ReadValue, Commas, Quoted, Quotes.Normalize;
    var texts := seq(|d.members|, i requires 0 <= i < |d.members| => ValueText(d.members[i].value));
    forall i | 0 <= i < |texts| ensures Reads(texts[i], vs[i]) {
      if d.members[i].value.Str? { StringReads(d.members[i].value.text); }
    }
    assert Entries(d.members) == MemberTexts(Keys(d.members), texts);
    ObjectReads(Keys(d.members), texts, vs);
    ReadsWhole(Arguments(d), JObject(Pairs(Keys(d.members), vs)));
  }

  // ----- names and ids -----

  const SPACE := " \t\n\r\U{000B}\U{000C}"

  /** t is s without the white space at its end. */
  predicate Trimmed(s: string, t: string) {
    && t <= s && (t == "" || t[|t| - 1] !in SPACE)
    && forall i :: |t| <= i < |s| ==> s[i] in SPACE
  }

  lemma TrimmedShorter(s: string, t: string)
    requires s != "" && s[|s| - 1] in SPACE
    ensures Trimmed(s, t) <==> Trimmed(s[..|s| - 1], t)
  {
    assert t <= s && |t| == |s| ==> t == s;
  }

  lemma TrimmedWhole(s: string, t: string)
    requires s == "" || s[|s| - 1] !in SPACE
    ensures Trimmed(s, t) <==> s == t
  {
    assert t <= s && |t| == |s| ==> t == s;
  }

  lemma {:induction false} TrimTrailingExactlyWhen(s: string, t: string)
    ensures TrimTrailing(s) == t <==> Trimmed(s, t)
    decreases s
  {
    hide Trimmed;
    if s != "" && IsSpace(s[|s| - 1]) {
      TrimmedShorter(s, t);
      TrimTrailingExactlyWhen(s[..|s| - 1], t);
    } else {
      TrimmedWhole(s, t);
    }
  }

  /** One white space at the beginning goes as well, and no more. */
  lemma TrimExactlyWhen(s: string, t: string)
    ensures Trim(s) == t <==> Trimmed(if s != "" && s[0] in SPACE then s[1..] else s, t)
  {
    hide TrimTrailing;
    TrimTrailingExactlyWhen(if s != "" && s[0] in SPACE then s[1..] else s, t);
  }

  lemma UnquoteExactlyWhen(s: string, t: string)
    ensures Unquote(s) == t <==> s == "\"" + t + "\"" || (s == t && !(|s| >= 2 && s[0] == s[|s| - 1] == '"'))
  {
    assert s == "\"" + t + "\"" ==> |s| >= 2 && s[0] == s[|s| - 1] == '"' && s[1..|s| - 1] == t;
    if |s| >= 2 && s[0] == s[|s| - 1] == '"' {
      assert s == "\"" + s[1..|s| - 1] + "\"";
    }
  }
}
