/**
 compute_diffs: the deltas sent to a client between two parses of a growing model output,
 and the client that folds them back into a message.
 */
module MessageDiff {
  import opened Wrappers

  datatype ToolCall = ToolCall(name: string, arguments: string, id: string)

  const NO_CALL := ToolCall("", "", "")

  /** The parts of a message that deltas carry. */
  datatype Msg = Msg(reasoning: string, content: string, toolCalls: seq<ToolCall>)

  const EMPTY := Msg("", "", [])

  datatype Diff = Diff(reasoningDelta: string, contentDelta: string,
                       toolCallIndex: Option<nat>, toolCallDelta: ToolCall)

  const NO_DIFF := Diff("", "", None, NO_CALL)

  datatype DiffError = InvalidDiff | FewerToolCalls | ToolCallMismatch

  /** string_diff: what must be appended; empty when the text shrank back to a prefix. */
  function StringDiff(last: string, current: string): Result<string, DiffError> {
    if last == "" then Ok(current)
    else if last <= current then Ok(current[|last|..])
    else if current <= last then Ok("")
    else Err(InvalidDiff)
  }

  function TextDiff(last: string, current: string): Result<string, DiffError> {
    if last == current then Ok("") else StringDiff(last, current)
  }

  /** The delta for the call that was still open in the previous message. */
  function LastCallDiffs(prv: seq<ToolCall>, new_: seq<ToolCall>): Result<seq<Diff>, DiffError>
    requires |prv| <= |new_|
  {
    if prv == [] then Ok([])
    else
      var idx := |prv| - 1;
      var pref, newf := prv[idx], new_[idx];
      if pref.name != newf.name && pref.name != "" && newf.name != "" && !(pref.name <= newf.name) then
        Err(ToolCallMismatch)
      else
        var argsDiff :- StringDiff(pref.arguments, newf.arguments);
        var changed := pref.id != newf.id || pref.name != newf.name;
        if argsDiff != "" || changed then
          Ok([Diff("", "", Some(idx), if changed then ToolCall(newf.name, argsDiff, newf.id)
                                      else ToolCall("", argsDiff, ""))])
        else Ok([])
  }

  function NewCallDiffs(calls: seq<ToolCall>, from: nat): seq<Diff>
    requires from <= |calls|
    decreases |calls| - from
  {
    if from == |calls| then []
    else [Diff("", "", Some(from), calls[from])] + NewCallDiffs(calls, from + 1)
  }

  function ComputeDiffs(prv: Msg, new_: Msg): Result<seq<Diff>, DiffError> {
    var r :- TextDiff(prv.reasoning, new_.reasoning);
    var c :- TextDiff(prv.content, new_.content);
    if |new_.toolCalls| < |prv.toolCalls| then Err(FewerToolCalls)
    else
      var last :- LastCallDiffs(prv.toolCalls, new_.toolCalls);
      Ok((if prv.reasoning == new_.reasoning then [] else [NO_DIFF.(reasoningDelta := r)])
         + (if prv.content == new_.content then [] else [NO_DIFF.(contentDelta := c)])
         + last + NewCallDiffs(new_.toolCalls, |prv.toolCalls|))
  }

  /** compute_diffs filling its vector. */
  method ComputeDiffsInto(prv: Msg, new_: Msg) returns (r: Result<seq<Diff>, DiffError>)
    ensures r == ComputeDiffs(prv, new_)
  {
    var diffs: seq<Diff> := [];
    if prv.reasoning != new_.reasoning {
      var delta := StringDiff(prv.reasoning, new_.reasoning);
      if delta.Err? { return Err(delta.error); }
      diffs := diffs + [NO_DIFF.(reasoningDelta := delta.value)];
    }
    if prv.content != new_.content {
      var delta := StringDiff(prv.content, new_.content);
      if delta.Err? { return Err(delta.error); }
      diffs := diffs + [NO_DIFF.(contentDelta := delta.value)];
    }
    if |new_.toolCalls| < |prv.toolCalls| { return Err(FewerToolCalls); }
    var last := LastCallDiffs(prv.toolCalls, new_.toolCalls);
    if last.Err? { return Err(last.error); }
    diffs := diffs + last.value;
    ghost var before := diffs;
    ghost var reasoning := if prv.reasoning == new_.reasoning then []
                           else [NO_DIFF.(reasoningDelta := TextDiff(prv.reasoning, new_.reasoning).value)];
    ghost var content := if prv.content == new_.content then []
                         else [NO_DIFF.(contentDelta := TextDiff(prv.content, new_.content).value)];
    assert before == reasoning + content + last.value;
    var idx := |prv.toolCalls|;
    while idx < |new_.toolCalls|
      invariant |prv.toolCalls| <= idx <= |new_.toolCalls|
      invariant diffs + NewCallDiffs(new_.toolCalls, idx) == before + NewCallDiffs(new_.toolCalls, |prv.toolCalls|)
    {
      ghost var one := [Diff("", "", Some(idx), new_.toolCalls[idx])];
      assert diffs + (one + NewCallDiffs(new_.toolCalls, idx + 1)) == diffs + one + NewCallDiffs(new_.toolCalls, idx + 1);
      diffs := diffs + [Diff("", "", Some(idx), new_.toolCalls[idx])];
      idx := idx + 1;
    }
    assert NewCallDiffs(new_.toolCalls, idx) == [] && diffs + [] == diffs;
    r := Ok(diffs);
  }

  // ----- the client -----

  function Grown(calls: seq<ToolCall>, n: nat): (r: seq<ToolCall>)
    ensures |r| >= n && calls <= r
    decreases n
  {
    if |calls| >= n then calls else calls + seq(n - |calls|, _ => NO_CALL)
  }

  function ApplyCall(call: ToolCall, delta: ToolCall): ToolCall {
    ToolCall(if delta.name != "" then delta.name else call.name,
             call.arguments + delta.arguments,
             if delta.id != "" then delta.id else call.id)
  }

  /** How a client takes one delta: texts are appended, names and ids replaced when given. */
  function Apply(m: Msg, d: Diff): Msg {
    var m := m.(reasoning := m.reasoning + d.reasoningDelta, content := m.content + d.contentDelta);
    match d.toolCallIndex
    case None => m
    case Some(i) =>
      var calls := Grown(m.toolCalls, i + 1);
      m.(toolCalls := calls[i := ApplyCall(calls[i], d.toolCallDelta)])
  }

  function Replay(m: Msg, diffs: seq<Diff>): Msg
    decreases diffs
  {
    if diffs == [] then m else Replay(Apply(m, diffs[0]), diffs[1..])
  }

  lemma {:induction false} ReplayAppend(m: Msg, a: seq<Diff>, b: seq<Diff>)
    ensures Replay(m, a + b) == Replay(Replay(m, a), b)
    decreases a
  {
    if a == [] {
      assert a + b == b;
    } else {
      ReplayAppend(Apply(m, a[0]), a[1..], b);
      assert (a + b)[1..] == a[1..] + b;
    }
  }

  lemma ReplayOne(m: Msg, d: Diff)
    ensures Replay(m, [d]) == Apply(m, d)
  {
    assert [d][1..] == [];
  }

  // ----- when replay is exact -----

  predicate CallExtends(a: ToolCall, b: ToolCall) {
    a.name <= b.name && a.arguments <= b.arguments && (a.id == b.id || b.id != "")
  }

  /** b continues a: texts by prefix, finished calls final, the last call by prefix. */
  predicate Extends(a: Msg, b: Msg) {
    && a.reasoning <= b.reasoning && a.content <= b.content
    && |a.toolCalls| <= |b.toolCalls|
    && (a.toolCalls != [] ==>
          var n := |a.toolCalls| - 1;
          a.toolCalls[..n] == b.toolCalls[..n] && CallExtends(a.toolCalls[n], b.toolCalls[n]))
  }

  lemma SelfExtends(m: Msg)
    ensures Extends(m, m)
  {
  }

  lemma EmptyExtends(m: Msg)
    ensures Extends(EMPTY, m)
  {
  }

  lemma ExtendsTransitive(a: Msg, b: Msg, c: Msg)
    requires Extends(a, b) && Extends(b, c)
    ensures Extends(a, c)
  {
    if a.toolCalls != [] {
      var n := |a.toolCalls| - 1;
      var m := |b.toolCalls| - 1;
      if n < m {
        assert c.toolCalls[..n] == c.toolCalls[..m][..n] == b.toolCalls[..n];
        assert c.toolCalls[..m][n] == b.toolCalls[n];
      }
    }
  }

  lemma TextDiffExact(last: string, current: string)
    ensures last <= current ==> TextDiff(last, current).Ok?
    ensures TextDiff(last, current).Ok? ==> (last + TextDiff(last, current).value == current <==> last <= current)
  {
    if last <= current { assert current == last + current[|last|..]; }
  }

  lemma StringDiffExact(last: string, current: string)
    ensures last <= current ==> StringDiff(last, current).Ok?
    ensures StringDiff(last, current).Ok? ==> (last + StringDiff(last, current).value == current <==> last <= current)
  {
    if last <= current { assert current == last + current[|last|..]; }
  }

  /** The open call after its delta, and when that is the new one. */
  lemma LastCallReplay(m: Msg, new_: seq<ToolCall>)
    requires |m.toolCalls| <= |new_| && m.toolCalls != []
    ensures var n := |m.toolCalls| - 1;
            && (CallExtends(m.toolCalls[n], new_[n]) ==> LastCallDiffs(m.toolCalls, new_).Ok?)
            && (LastCallDiffs(m.toolCalls, new_).Ok? ==>
                  var r := Replay(m, LastCallDiffs(m.toolCalls, new_).value);
                  && |r.toolCalls| == n + 1
                  && r == m.(toolCalls := m.toolCalls[..n] + [r.toolCalls[n]])
                  && (r.toolCalls[n] == new_[n] <==> CallExtends(m.toolCalls[n], new_[n])))
  {
    hide Replay, StringDiff, ApplyCall, Apply, CallExtends;
    var n := |m.toolCalls| - 1;
    var a, b := m.toolCalls[n], new_[n];
    StringDiffExact(a.arguments, b.arguments);
    if StringDiff(a.arguments, b.arguments).Ok? && !(a.name != b.name && a.name != "" && b.name != "" && !(a.name <= b.name)) {
      CallDelta(a, b);
    }
    ExtendsAccepted(a, b);
    assert m.toolCalls == m.toolCalls[..n] + [a];
    if LastCallDiffs(m.toolCalls, new_).Ok? {
      var ds := LastCallDiffs(m.toolCalls, new_).value;
      if ds == [] {
        assert Replay(m, ds) == m by { ReplayNone(m); }
      } else {
        assert ds == [ds[0]];
        ReplayOne(m, ds[0]);
        ApplyToLast(m, ds[0].toolCallDelta);
      }
    }
  }

  lemma ExtendsAccepted(a: ToolCall, b: ToolCall)
    ensures CallExtends(a, b) ==> a.name <= b.name && a.arguments <= b.arguments
  {
  }

  lemma ReplayNone(m: Msg)
    ensures Replay(m, []) == m
  {
  }

  lemma ApplyToLast(m: Msg, delta: ToolCall)
    requires m.toolCalls != []
    ensures var n := |m.toolCalls| - 1;
            Apply(m, Diff("", "", Some(n), delta))
            == m.(toolCalls := m.toolCalls[..n] + [ApplyCall(m.toolCalls[n], delta)])
  {
    var n := |m.toolCalls| - 1;
    assert m.reasoning + "" == m.reasoning && m.content + "" == m.content;
    assert Grown(m.toolCalls, n + 1) == m.toolCalls;
    var call := ApplyCall(m.toolCalls[n], delta);
    assert m.toolCalls[n := call] == m.toolCalls[..n] + [call];
  }

  /** The delta of one call: what the code checks, and when applying it is exact. */
  lemma CallDelta(a: ToolCall, b: ToolCall)
    requires StringDiff(a.arguments, b.arguments).Ok?
    requires !(a.name != b.name && a.name != "" && b.name != "" && !(a.name <= b.name))
    ensures var args := StringDiff(a.arguments, b.arguments).value;
            var delta := if a.id != b.id || a.name != b.name then ToolCall(b.name, args, b.id) else ToolCall("", args, "");
            && (ApplyCall(a, delta) == b <==> CallExtends(a, b))
            && (args == "" && a.id == b.id && a.name == b.name ==> (a == b <==> CallExtends(a, b)))
  {
    hide StringDiff;
    StringDiffExact(a.arguments, b.arguments);
    assert a.arguments + "" == a.arguments;
  }

  lemma {:induction false} NewCallsReplay(m: Msg, calls: seq<ToolCall>, from: nat)
    requires from <= |calls| && |m.toolCalls| == from
    ensures Replay(m, NewCallDiffs(calls, from)) == m.(toolCalls := m.toolCalls + calls[from..])
    decreases |calls| - from
  {
    hide Apply, ApplyCall, Grown;
    if from < |calls| {
      NewCallReplay(m, calls[from]);
      var m' := m.(toolCalls := m.toolCalls + [calls[from]]);
      var diffs := NewCallDiffs(calls, from);
      assert diffs[1..] == NewCallDiffs(calls, from + 1);
      NewCallsReplay(m', calls, from + 1);
      assert m'.toolCalls + calls[from + 1..] == m.toolCalls + calls[from..];
    } else {
      assert calls[from..] == [];
      assert m.toolCalls + [] == m.toolCalls;
    }
  }

  /** The one delta of a call that was not there before. */
  lemma NewCallReplay(m: Msg, call: ToolCall)
    ensures Apply(m, Diff("", "", Some(|m.toolCalls|), call)) == m.(toolCalls := m.toolCalls + [call])
  {
    hide Grown, ApplyCall;
    var n := |m.toolCalls|;
    GrownByOne(m.toolCalls);
    CallFromNothing(call);
    assert (m.toolCalls + [NO_CALL])[n := call] == m.toolCalls + [call];
    assert m.reasoning + "" == m.reasoning && m.content + "" == m.content;
  }

  lemma GrownByOne(calls: seq<ToolCall>)
    ensures Grown(calls, |calls| + 1) == calls + [NO_CALL]
  {
  }

  lemma CallFromNothing(call: ToolCall)
    ensures ApplyCall(NO_CALL, call) == call
  {
    assert "" + call.arguments == call.arguments;
  }

  function TextDiffs(prv: Msg, new_: Msg, r: string, c: string): seq<Diff> {
    (if prv.reasoning == new_.reasoning then [] else [NO_DIFF.(reasoningDelta := r)])
    + (if prv.content == new_.content then [] else [NO_DIFF.(contentDelta := c)])
  }

  lemma TextReplay(prv: Msg, new_: Msg, r: string, c: string)
    requires TextDiff(prv.reasoning, new_.reasoning) == Ok(r) && TextDiff(prv.content, new_.content) == Ok(c)
    ensures Replay(prv, TextDiffs(prv, new_, r, c)) == prv.(reasoning := prv.reasoning + r, content := prv.content + c)
  {
    var a := if prv.reasoning == new_.reasoning then [] else [NO_DIFF.(reasoningDelta := r)];
    var b := if prv.content == new_.content then [] else [NO_DIFF.(contentDelta := c)];
    ReplayAppend(prv, a, b);
    var m := prv.(reasoning := prv.reasoning + r);
    if a != [] { ReplayOne(prv, a[0]); }
    assert Replay(prv, a) == m;
    if b != [] { ReplayOne(m, b[0]); }
  }

  /** The message a client ends up with after one successful compute_diffs. */
  lemma ReplayOfDiffs(prv: Msg, new_: Msg)
    requires ComputeDiffs(prv, new_).Ok?
    ensures |prv.toolCalls| <= |new_.toolCalls|
    ensures TextDiff(prv.reasoning, new_.reasoning).Ok? && TextDiff(prv.content, new_.content).Ok?
    ensures var m := Msg(prv.reasoning + TextDiff(prv.reasoning, new_.reasoning).value,
                         prv.content + TextDiff(prv.content, new_.content).value, prv.toolCalls);
            && LastCallDiffs(prv.toolCalls, new_.toolCalls).Ok?
            && var l := Replay(m, LastCallDiffs(prv.toolCalls, new_.toolCalls).value);
            |l.toolCalls| == |prv.toolCalls| ==>
            Replay(prv, ComputeDiffs(prv, new_).value)
            == l.(toolCalls := l.toolCalls + new_.toolCalls[|prv.toolCalls|..])
  {
    var r, c := TextDiff(prv.reasoning, new_.reasoning).value, TextDiff(prv.content, new_.content).value;
    var m := Msg(prv.reasoning + r, prv.content + c, prv.toolCalls);
    var last := LastCallDiffs(prv.toolCalls, new_.toolCalls).value;
    var fresh_ := NewCallDiffs(new_.toolCalls, |prv.toolCalls|);
    TextReplay(prv, new_, r, c);
    ReplayAppend(prv, TextDiffs(prv, new_, r, c) + last, fresh_);
    ReplayAppend(prv, TextDiffs(prv, new_, r, c), last);
    var l := Replay(m, last);
    if |l.toolCalls| == |prv.toolCalls| { NewCallsReplay(l, new_.toolCalls, |prv.toolCalls|); }
  }

  /** Deltas exist and rebuild the new message exactly when it continues the previous one. */
  lemma ReplayExactlyWhen(prv: Msg, new_: Msg)
    ensures ComputeDiffs(prv, new_).Ok? && Replay(prv, ComputeDiffs(prv, new_).value) == new_
            <==> Extends(prv, new_)
  {
    hide Replay, NewCallDiffs, StringDiff;
    TextDiffExact(prv.reasoning, new_.reasoning);
    TextDiffExact(prv.content, new_.content);
    if |prv.toolCalls| <= |new_.toolCalls| {
      if TextDiff(prv.reasoning, new_.reasoning).Ok? && TextDiff(prv.content, new_.content).Ok? {
        OneStep(prv, new_);
      }
    }
  }

  lemma OneStep(prv: Msg, new_: Msg)
    requires |prv.toolCalls| <= |new_.toolCalls|
    requires TextDiff(prv.reasoning, new_.reasoning).Ok? && TextDiff(prv.content, new_.content).Ok?
    ensures ComputeDiffs(prv, new_).Ok? && Replay(prv, ComputeDiffs(prv, new_).value) == new_
            <==> Extends(prv, new_)
  {
    TextDiffExact(prv.reasoning, new_.reasoning);
    TextDiffExact(prv.content, new_.content);
    var k := |prv.toolCalls|;
    var m := Msg(prv.reasoning + TextDiff(prv.reasoning, new_.reasoning).value,
                 prv.content + TextDiff(prv.content, new_.content).value, prv.toolCalls);
    if k > 0 { LastCallReplay(m, new_.toolCalls); }
    if ComputeDiffs(prv, new_).Ok? {
      ReplayOfDiffs(prv, new_);
      var l := Replay(m, LastCallDiffs(prv.toolCalls, new_.toolCalls).value);
      var got := l.toolCalls + new_.toolCalls[k..];
      CallsAgree(l.toolCalls, prv.toolCalls, new_.toolCalls);
    }
  }

  lemma CallsAgree(l: seq<ToolCall>, prv: seq<ToolCall>, new_: seq<ToolCall>)
    requires |l| == |prv| <= |new_|
    requires prv != [] ==> l[..|prv| - 1] == prv[..|prv| - 1]
    ensures l + new_[|prv|..] == new_
            <==> (prv != [] ==> prv[..|prv| - 1] == new_[..|prv| - 1] && l[|prv| - 1] == new_[|prv| - 1])
  {
    var got, k := l + new_[|prv|..], |prv|;
    if k == 0 {
      assert got == new_;
    } else {
      assert got[..k] == l && got[..k - 1] == l[..k - 1];
      if got == new_ {
        assert new_[..k - 1] == prv[..k - 1];
      }
      if prv[..k - 1] == new_[..k - 1] && l[k - 1] == new_[k - 1] {
        assert l == l[..k - 1] + [l[k - 1]] && new_ == new_[..k - 1] + [new_[k - 1]] + new_[k..];
      }
    }
  }

  // ----- whole streams -----

  /** Each frame continues the one before it. */
  predicate Continues(prv: Msg, frames: seq<Msg>)
    decreases frames
  {
    frames == [] || (Extends(prv, frames[0]) && Continues(frames[0], frames[1..]))
  }

  /** All deltas of a stream of parses, as the server produces them. */
  function StreamDiffs(prv: Msg, frames: seq<Msg>): Result<seq<Diff>, DiffError>
    decreases frames
  {
    if frames == [] then Ok([])
    else
      var ds :- ComputeDiffs(prv, frames[0]);
      var rest :- StreamDiffs(frames[0], frames[1..]);
      Ok(ds + rest)
  }

  function LastFrame(prv: Msg, frames: seq<Msg>): Msg {
    if frames == [] then prv else frames[|frames| - 1]
  }

  /** Over any continuing stream no delta fails, and folding them all gives the last message. */
  lemma {:induction false} StreamReplays(prv: Msg, frames: seq<Msg>)
    requires Continues(prv, frames)
    ensures StreamDiffs(prv, frames).Ok?
    ensures Replay(prv, StreamDiffs(prv, frames).value) == LastFrame(prv, frames)
    decreases frames
  {
    hide ComputeDiffs, Extends;
    if frames != [] {
      ReplayExactlyWhen(prv, frames[0]);
      StreamReplays(frames[0], frames[1..]);
      ReplayAppend(prv, ComputeDiffs(prv, frames[0]).value, StreamDiffs(frames[0], frames[1..]).value);
    }
  }
}
