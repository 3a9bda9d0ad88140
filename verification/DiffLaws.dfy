/**
 Exactly which deltas compute_diffs sends, and when it refuses: nothing for what has not changed, and
 names and ids only where one of them is new.
 */
module DiffLaws {
  import opened Wrappers
  import opened MessageDiff

  /** A text may grow, or shrink back to what it began with; an empty one may become anything. */
  predicate MayFollow(last: string, current: string) {
    last == "" || last <= current || current <= last
  }

  /** The characters to append, none if the text shrank. */
  predicate IsDelta(last: string, current: string, delta: string) {
    last + delta == current || (delta == "" && last != "" && current < last)
  }

  /** Two known names, the later of which does not begin with the earlier. */
  predicate NamesClash(a: ToolCall, b: ToolCall) {
    a.name != "" && b.name != "" && !(a.name <= b.name)
  }

  /** The last call of the earlier message, and the same call now. */
  function OldCall(prv: Msg): ToolCall
    requires prv.toolCalls != []
  {
    prv.toolCalls[|prv.toolCalls| - 1]
  }

  function NewCall(prv: Msg, new_: Msg): ToolCall
    requires 0 < |prv.toolCalls| <= |new_.toolCalls|
  {
    new_.toolCalls[|prv.toolCalls| - 1]
  }

  /** The first thing that is wrong, if anything is. */
  predicate Refused(prv: Msg, new_: Msg, e: DiffError) {
    var texts := MayFollow(prv.reasoning, new_.reasoning) && MayFollow(prv.content, new_.content);
    if !texts then e == InvalidDiff
    else if |new_.toolCalls| < |prv.toolCalls| then e == FewerToolCalls
    else if prv.toolCalls == [] then false
    else if NamesClash(OldCall(prv), NewCall(prv, new_)) then e == ToolCallMismatch
    else !MayFollow(OldCall(prv).arguments, NewCall(prv, new_).arguments) && e == InvalidDiff
  }

  /** At most one delta, present exactly when something has changed. */
  predicate TextPart(ds: seq<Diff>, last: string, current: string, isReasoning: bool) {
    if last == current then ds == []
    else
      && |ds| == 1 && ds[0].toolCallIndex.None? && ds[0].toolCallDelta == ToolCall("", "", "")
      && (if isReasoning then ds[0].contentDelta == "" && IsDelta(last, current, ds[0].reasoningDelta)
          else ds[0].reasoningDelta == "" && IsDelta(last, current, ds[0].contentDelta))
  }

  /** The delta for the call that was last: its new arguments, and name and id only if one of them changed. */
  predicate CallPart(ds: seq<Diff>, index: nat, a: ToolCall, b: ToolCall) {
    var renamed := a.name != b.name || a.id != b.id;
    if !renamed && (a.arguments == b.arguments || b.arguments < a.arguments) then ds == []
    else
      && |ds| == 1 && ds[0].reasoningDelta == "" && ds[0].contentDelta == "" && ds[0].toolCallIndex == Some(index)
      && IsDelta(a.arguments, b.arguments, ds[0].toolCallDelta.arguments)
      && ds[0].toolCallDelta.name == (if renamed then b.name else "")
      && ds[0].toolCallDelta.id == (if renamed then b.id else "")
  }

  /** Every new call, whole and in order. */
  predicate NewPart(ds: seq<Diff>, calls: seq<ToolCall>, from: nat) {
    && |ds| + from == |calls|
    && forall i :: 0 <= i < |ds| ==> ds[i] == Diff("", "", Some(from + i), calls[from + i])
  }

  lemma DeltaIs(last: string, current: string)
    ensures StringDiff(last, current).Ok? <==> MayFollow(last, current)
    ensures StringDiff(last, current).Err? ==> StringDiff(last, current).error == InvalidDiff
    ensures StringDiff(last, current).Ok? ==> IsDelta(last, current, StringDiff(last, current).value)
    ensures StringDiff(last, current).Ok? ==>
              (StringDiff(last, current).value == "" <==> last == current || current < last)
    ensures TextDiff(last, current).Ok? <==> MayFollow(last, current)
    ensures TextDiff(last, current).Err? ==> TextDiff(last, current).error == InvalidDiff
    ensures last != current ==> TextDiff(last, current) == StringDiff(last, current)
  {
    if last != "" && last <= current {
      assert last + current[|last|..] == current;
    }
  }

  lemma {:induction false} NewCallsAre(calls: seq<ToolCall>, from: nat)
    requires from <= |calls|
    ensures NewPart(NewCallDiffs(calls, from), calls, from)
    decreases |calls| - from
  {
    if from < |calls| {
      NewCallsAre(calls, from + 1);
      var ds, rest := NewCallDiffs(calls, from), NewCallDiffs(calls, from + 1);
      forall i | 0 <= i < |ds| ensures ds[i] == Diff("", "", Some(from + i), calls[from + i]) {
        if i > 0 { assert ds[i] == rest[i - 1]; }
      }
    }
  }

  lemma LastCallIs(prv: Msg, new_: Msg)
    requires |prv.toolCalls| <= |new_.toolCalls|
    ensures var r := LastCallDiffs(prv.toolCalls, new_.toolCalls);
      if prv.toolCalls == [] then r == Ok([])
      else
        var a, b := OldCall(prv), NewCall(prv, new_);
        if NamesClash(a, b) then r == Err(ToolCallMismatch)
        else if !MayFollow(a.arguments, b.arguments) then r == Err(InvalidDiff)
        else r.Ok? && CallPart(r.value, |prv.toolCalls| - 1, a, b)
  {
    hide StringDiff, MayFollow, IsDelta;
    if prv.toolCalls != [] {
      DeltaIs(OldCall(prv).arguments, NewCall(prv, new_).arguments);
    }
  }

  /** compute_diffs refuses exactly as stated, and otherwise sends these four parts in this order. */
  lemma DiffsExactly(prv: Msg, new_: Msg) returns (r: seq<Diff>, c: seq<Diff>, t: seq<Diff>, n: seq<Diff>)
    ensures forall e: DiffError :: ComputeDiffs(prv, new_) == Err(e) <==> Refused(prv, new_, e)
    ensures ComputeDiffs(prv, new_).Ok? ==>
      && ComputeDiffs(prv, new_).value == r + c + t + n
      && TextPart(r, prv.reasoning, new_.reasoning, true) && TextPart(c, prv.content, new_.content, false)
      && (prv.toolCalls == [] ==> t == [])
      && (prv.toolCalls != [] ==>
            |prv.toolCalls| <= |new_.toolCalls| && CallPart(t, |prv.toolCalls| - 1, OldCall(prv), NewCall(prv, new_)))
      && NewPart(n, new_.toolCalls, |prv.toolCalls|)
  {
    hide StringDiff, TextDiff, MayFollow, IsDelta, LastCallDiffs, NewCallDiffs, NamesClash, CallPart, NewPart;
    DeltaIs(prv.reasoning, new_.reasoning);
    DeltaIs(prv.content, new_.content);
    r, c, t, n := [], [], [], [];
    if |prv.toolCalls| <= |new_.toolCalls| {
      LastCallIs(prv, new_);
      NewCallsAre(new_.toolCalls, |prv.toolCalls|);
      if ComputeDiffs(prv, new_).Ok? {
        if prv.reasoning != new_.reasoning { r := [NO_DIFF.(reasoningDelta := TextDiff(prv.reasoning, new_.reasoning).value)]; }
        if prv.content != new_.content { c := [NO_DIFF.(contentDelta := TextDiff(prv.content, new_.content).value)]; }
        t := LastCallDiffs(prv.toolCalls, new_.toolCalls).value;
        n := NewCallDiffs(new_.toolCalls, |prv.toolCalls|);
      }
    }
  }
}
