/**
 common_chat_peg_mapper: the state machine that turns the tagged nodes of a parse, visited
 in document order, into message text and tool calls.
 */
module ToolMapper {
  import opened Wrappers
  import opened Ast
  import opened JsonText
  import Quotes
  import opened MessageDiff

  datatype Event = Event(tag: Tag, text: string)

  /** What current_tool points at; Dangling is the emptied slot of a discarded call. */
  datatype Current = NoTool | PendingTool | LastTool | Dangling

  datatype State = State(reasoning: string, content: string, toolCalls: seq<ToolCall>,
                         pending: Option<ToolCall>, current: Current, argCount: nat,
                         closingQuote: bool, argsBuffer: string)

  const INITIAL := State("", "", [], None, NoTool, 0, false, "")

  predicate IsSpace(c: char) {
    c == ' ' || c == '\t' || c == '\n' || c == '\r' || c == '\U{000B}' || c == '\U{000C}'
  }

  function TrimTrailing(s: string): string {
    if s != "" && IsSpace(s[|s| - 1]) then TrimTrailing(s[..|s| - 1]) else s
  }

  /** At most one leading space goes, and all trailing ones. */
  function Trim(s: string): string {
    TrimTrailing(if s != "" && IsSpace(s[0]) then s[1..] else s)
  }

  function Unquote(s: string): string {
    if |s| >= 2 && s[0] == '"' && s[|s| - 1] == '"' then s[1..|s| - 1] else s
  }

  /** The pointers of a state are consistent. */
  predicate Sound(st: State) {
    && (st.pending.Some? <==> st.current == PendingTool)
    && (st.current == LastTool ==> st.toolCalls != [])
  }

  predicate HasTool(st: State) {
    st.current == PendingTool || st.current == LastTool
  }

  function Call(st: State): ToolCall
    requires Sound(st) && HasTool(st)
  {
    if st.current == PendingTool then st.pending.value else st.toolCalls[|st.toolCalls| - 1]
  }

  function WithCall(st: State, c: ToolCall): (r: State)
    requires Sound(st) && HasTool(st)
    ensures Sound(r) && r.current == st.current && Call(r) == c && |r.toolCalls| == |st.toolCalls|
  {
    if st.current == PendingTool then st.(pending := Some(c))
    else st.(toolCalls := st.toolCalls[..|st.toolCalls| - 1] + [c])
  }

  /** args_target: the buffer until the call has a name, its arguments afterwards. */
  function Target(st: State): string
    requires Sound(st) && HasTool(st)
  {
    if Call(st).name != "" then Call(st).arguments else st.argsBuffer
  }

  function WithTarget(st: State, t: string): (r: State)
    requires Sound(st) && HasTool(st)
    ensures Sound(r) && r.current == st.current && Target(r) == t && Call(r).name == Call(st).name
  {
    if Call(st).name != "" then WithCall(st, Call(st).(arguments := t)) else st.(argsBuffer := t)
  }

  function NameStep(st: State, text: string): (r: State)
    requires Sound(st) && HasTool(st)
    ensures Sound(r) && r.current == LastTool
  {
    var c := Call(st).(name := TrimTrailing(text));
    var c := if st.argsBuffer != "" then c.(arguments := st.argsBuffer)
             else if c.arguments == "" then c.(arguments := "{") else c;
    var st := WithCall(st, c).(argsBuffer := "");
    if st.pending.Some? then st.(toolCalls := st.toolCalls + [st.pending.value], pending := None, current := LastTool)
    else st
  }

  function ArgNameStep(st: State, text: string): (r: State)
    requires Sound(st) && HasTool(st)
    ensures Sound(r)
  {
    var entry := (if st.argCount > 0 then "," else "") + (Quoted(Trim(text)) + ":");
    var target := if Target(st) == "" then "{" else Target(st);
    WithTarget(st.(argCount := st.argCount + 1), target + entry)
  }

  function ValueStep(st: State, text: string, isString: bool): (r: State)
    requires Sound(st) && HasTool(st)
    ensures Sound(r)
  {
    if isString && text == "" then WithTarget(st.(closingQuote := true), Target(st) + "\"")
    else if isString then
      WithTarget(st.(closingQuote := true),
                 Target(st) + ((if st.closingQuote then "" else "\"") + Escape(text)))
    else WithTarget(st, Target(st) + Quotes.Normalize(text))
  }

  function Braces(n: int): string {
    if n <= 0 then "" else "}" + Braces(n - 1)
  }

  function CloseStep(st: State): (r: State)
    requires Sound(st) && HasTool(st)
    ensures Sound(r)
  {
    var flush := Call(st).name == "" && st.argsBuffer != "";
    var args := if flush then st.argsBuffer else Call(st).arguments;
    var args := if st.closingQuote then args + "\"" else args;
    var args := args + Braces(Run(START, args).depth);
    var st := WithCall(st, Call(st).(arguments := args))
              .(argsBuffer := if flush then "" else st.argsBuffer, closingQuote := false);
    if st.pending.Some? then
      st.(toolCalls := if st.pending.value.name != "" then st.toolCalls + [st.pending.value] else st.toolCalls,
          pending := None, current := Dangling)
    else st
  }

  predicate NeedsTool(t: Tag) {
    || t == ToolId || t == ToolName || t == ToolArgs || t == ToolArgName || t == ToolArgValue
    || t == ToolArgStringValue || t == ToolArgClose || t == ToolClose
  }

  predicate IsObject(text: string) {
    text != "" && text[0] == '{'
  }

  /** Arguments that are not a JSON object: the node's own text goes nowhere. */
  predicate SkippedArgs(e: Event) {
    e.tag == ToolArgs && !IsObject(TrimTrailing(e.text))
  }

  /** No node is read while current_tool points at a discarded call. */
  predicate Safe(st: State, e: Event) {
    NeedsTool(e.tag) && !SkippedArgs(e) ==> st.current != Dangling
  }

  /** map: the effect of one node. */
  function Step(st: State, e: Event): (r: State)
    requires Sound(st) && Safe(st, e)
    ensures Sound(r)
  {
    if e.tag == Reasoning then st.(reasoning := st.reasoning + e.text)
    else if e.tag == Content then st.(content := st.content + e.text)
    else if e.tag == ToolOpen then
      st.(pending := Some(NO_CALL), current := PendingTool, argCount := 0, argsBuffer := "", closingQuote := false)
    else if e.tag == ToolArgOpen then st.(closingQuote := false)
    else if !NeedsTool(e.tag) || !HasTool(st) then st
    else if e.tag == ToolId then WithCall(st, Call(st).(id := Unquote(TrimTrailing(e.text))))
    else if e.tag == ToolName then NameStep(st, e.text)
    else if e.tag == ToolArgs then
      var text := TrimTrailing(e.text);
      if IsObject(text) then WithTarget(st, text) else st
    else if e.tag == ToolArgName then ArgNameStep(st, e.text)
    else if e.tag == ToolArgValue then ValueStep(st, e.text, false)
    else if e.tag == ToolArgStringValue then ValueStep(st, e.text, true)
    else if e.tag == ToolArgClose then
      if st.closingQuote then WithTarget(st.(closingQuote := false), Target(st) + "\"") else st
    else CloseStep(st)
  }

  predicate BlankText(s: string) {
    forall i :: 0 <= i < |s| ==> s[i] == ' ' || s[i] == '\n' || s[i] == '\r' || s[i] == '\t'
  }

  /** The flush of a pending call after the last node. */
  function Flush(st: State): State {
    if st.pending.Some? && st.pending.value.name != "" then
      var c := st.pending.value;
      var c := if st.argsBuffer != "" then c.(arguments := st.argsBuffer) else c;
      var c := if st.closingQuote && c.arguments != "" then c.(arguments := c.arguments + "\"") else c;
      st.(toolCalls := st.toolCalls + [c], pending := None)
    else st
  }

  /** from_ast after its visit: the flush, and blank reasoning discarded. */
  function Finish(st: State): State {
    var st := Flush(st);
    if st.reasoning != "" && BlankText(st.reasoning) then st.(reasoning := "") else st
  }

  predicate SafeRun(st: State, es: seq<Event>)
    requires Sound(st)
    decreases es
  {
    es == [] || (Safe(st, es[0]) && SafeRun(Step(st, es[0]), es[1..]))
  }

  function RunAll(st: State, es: seq<Event>): (r: State)
    requires Sound(st) && SafeRun(st, es)
    ensures Sound(r)
    decreases es
  {
    if es == [] then st else RunAll(Step(st, es[0]), es[1..])
  }

  // ----- the flushes never fire -----

  predicate PendingUnnamed(st: State) {
    st.pending.Some? ==> st.pending.value.name == ""
  }

  lemma StepKeepsPendingUnnamed(st: State, e: Event)
    requires Sound(st) && Safe(st, e) && PendingUnnamed(st)
    ensures PendingUnnamed(Step(st, e))
    ensures e.tag == ToolClose && HasTool(st) && st.pending.Some? ==> Step(st, e).toolCalls == st.toolCalls
  {
  }

  /** No close of a pending call adds it to the calls. */
  predicate ClosesQuietly(st: State, es: seq<Event>)
    requires Sound(st) && SafeRun(st, es)
    decreases es
  {
    es == [] ||
    (var next := Step(st, es[0]);
     && (es[0].tag == ToolClose && HasTool(st) && st.pending.Some? ==> next.toolCalls == st.toolCalls)
     && ClosesQuietly(next, es[1..]))
  }

  /**
   Over every run that reads no discarded call, a call waiting for its name has none: the
   flush after the visit and the one on close add nothing.
   */
  lemma {:induction false} FlushNeverFires(st: State, es: seq<Event>)
    requires Sound(st) && PendingUnnamed(st) && SafeRun(st, es)
    ensures PendingUnnamed(RunAll(st, es))
    ensures Flush(RunAll(st, es)) == RunAll(st, es)
    ensures ClosesQuietly(st, es)
    decreases es
  {
    if es != [] {
      StepKeepsPendingUnnamed(st, es[0]);
      FlushNeverFires(Step(st, es[0]), es[1..]);
    }
  }
}
