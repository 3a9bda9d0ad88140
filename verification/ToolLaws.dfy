/** Where tool results end up, said of the messages alone. */
module ToolLaws {
  import opened ToolResults

  /** The place of an answer to `id`: that of the last call with the id; an answer to none of them goes with the first. */
  predicate PlaceOf(ids: seq<string>, id: string, k: nat) {
    if id != "" && id in ids then k < |ids| && ids[k] == id && id !in ids[k + 1..] else k == 0
  }

  lemma KeyMeans(ids: seq<string>, m: Msg, k: nat)
    ensures Key(CallOrder(ids), m) == k <==> PlaceOf(ids, m.toolCallId, k)
  {
    var id := m.toolCallId;
    LastMeans(ids, id, k);
    if id in CallOrder(ids) {
      assert LastAt(ids, id, CallOrder(ids)[id]);
    }
  }

  lemma LastMeans(ids: seq<string>, id: string, k: nat)
    ensures LastAt(ids, id, k) <==> k < |ids| && ids[k] == id && id !in ids[k + 1..]
  {
    if k < |ids| {
      assert forall j :: k < j < |ids| ==> ids[k + 1..][j - k - 1] == ids[j];
      var rest := ids[k + 1..];
      assert forall j :: 0 <= j < |rest| ==> rest[j] == ids[k + 1 + j];
    }
  }

  /** The last message before lo that made calls. */
  predicate LastCaller(msgs: seq<Msg>, lo: nat, a: nat) {
    && a < lo <= |msgs| && msgs[a].role == "assistant" && msgs[a].toolCallIds != []
    && forall b :: a < b < lo ==> msgs[b].role != "assistant" || msgs[b].toolCallIds == []
  }

  predicate NoCaller(msgs: seq<Msg>, lo: nat) {
    lo <= |msgs| && forall b :: 0 <= b < lo ==> msgs[b].role != "assistant" || msgs[b].toolCallIds == []
  }

  lemma {:induction false} OrderMeans(msgs: seq<Msg>, lo: nat, a: nat)
    ensures LastCaller(msgs, lo, a) ==> OrderAt(msgs, map[], lo) == CallOrder(msgs[a].toolCallIds)
    ensures NoCaller(msgs, lo) ==> OrderAt(msgs, map[], lo) == map[]
    decreases lo
  {
    hide CallOrder;
    if 0 < lo <= |msgs| && !(LastCaller(msgs, lo, a) && a == lo - 1) {
      OrderMeans(msgs, lo - 1, a);
    }
  }

  /** A stretch of user and tool messages with neither before nor after it. */
  predicate Stretch(msgs: seq<Msg>, lo: nat, hi: nat) {
    && lo < hi <= |msgs|
    && (forall k :: lo <= k < hi ==> msgs[k].role == "user" || msgs[k].role == "tool")
    && (lo > 0 ==> msgs[lo - 1].role != "user" && msgs[lo - 1].role != "tool")
    && (hi < |msgs| ==> msgs[hi].role != "user" && msgs[hi].role != "tool")
  }

  /** The tool messages of place p, in their order. */
  ghost function Answers(ids: seq<string>, s: seq<Msg>, p: nat): seq<Msg>
    decreases |s|
  {
    if s == [] then []
    else
      var n := |s| - 1;
      Answers(ids, s[..n], p) + if s[n].role == "tool" && PlaceOf(ids, s[n].toolCallId, p) then [s[n]] else []
  }

  lemma {:induction false} AnswersAre(ids: seq<string>, s: seq<Msg>, p: nat)
    ensures Answers(ids, s, p) == WithKey(CallOrder(ids), Tools(s), p)
    decreases |s|
  {
    hide PlaceOf, Key, WithKey, CallOrder;
    if s == [] {
      assert WithKey(CallOrder(ids), [], p) == [] by { NoneWithKey(CallOrder(ids), p); }
    } else {
      var n := |s| - 1;
      AnswersAre(ids, s[..n], p);
      KeyMeans(ids, s[n], p);
      WithKeyPush(CallOrder(ids), Tools(s[..n]), s[n], p);
    }
  }

  lemma NoneWithKey(order: Order, p: nat)
    ensures WithKey(order, [], p) == []
  {
  }

  lemma {:induction false} ToolsInOrder(order: Order, s: seq<Msg>, i: nat, j: nat)
    requires Sorted(order, Tools(s)) && i < j < |s| && IsTool(s[i]) && IsTool(s[j])
    ensures Key(order, s[i]) <= Key(order, s[j])
    decreases |s|
  {
    hide Key;
    var n := |s| - 1;
    var front := Tools(s[..n]);
    assert front == Tools(s)[..|front|];
    if j < n {
      ToolsInOrder(order, s[..n], i, j);
    } else {
      ToolIn(s[..n], i);
      var k :| 0 <= k < |front| && front[k] == s[i];
      assert Tools(s)[|front|] == s[j];
    }
  }

  lemma {:induction false} ToolIn(s: seq<Msg>, i: nat)
    requires i < |s| && IsTool(s[i])
    ensures s[i] in Tools(s)
    decreases |s|
  {
    if i < |s| - 1 { ToolIn(s[..|s| - 1], i); }
  }

  /** In every stretch, answers stand by place, and those of one place in the order they came. */
  lemma AnswersInCallOrder(messages: seq<Msg>, lo: nat, hi: nat, a: nat)
    requires Stretch(messages, lo, hi) && LastCaller(messages, lo, a)
    ensures var adjusted, ids := Process(messages, map[]), messages[a].toolCallIds;
      && (forall p: nat :: Answers(ids, adjusted[lo..hi], p) == Answers(ids, messages[lo..hi], p))
      && forall i, j, p: nat, q: nat ::
           && lo <= i < j < hi && adjusted[i].role == "tool" && adjusted[j].role == "tool"
           && PlaceOf(ids, adjusted[i].toolCallId, p) && PlaceOf(ids, adjusted[j].toolCallId, q)
           ==> p <= q
  {
    hide Process, Key, CallOrder, WithKey, Answers, PlaceOf, OrderAt;
    var adjusted, ids := Process(messages, map[]), messages[a].toolCallIds;
    var order := CallOrder(ids);
    OrderMeans(messages, lo, a);
    RunEndsSorted(messages, map[], lo, hi);
    forall p: nat ensures Answers(ids, adjusted[lo..hi], p) == Answers(ids, messages[lo..hi], p) {
      AnswersAre(ids, adjusted[lo..hi], p);
      AnswersAre(ids, messages[lo..hi], p);
    }
    forall i, j, p: nat, q: nat |
      lo <= i < j < hi && adjusted[i].role == "tool" && adjusted[j].role == "tool"
      && PlaceOf(ids, adjusted[i].toolCallId, p) && PlaceOf(ids, adjusted[j].toolCallId, q)
      ensures p <= q
    {
      KeyMeans(ids, adjusted[i], p);
      KeyMeans(ids, adjusted[j], q);
      ToolsInOrder(order, adjusted[lo..hi], i - lo, j - lo);
    }
  }

  /** Before any call nothing moves. */
  lemma NothingMovesBeforeCalls(messages: seq<Msg>, lo: nat, hi: nat)
    requires Stretch(messages, lo, hi) && NoCaller(messages, lo)
    ensures Process(messages, map[])[lo..hi] == messages[lo..hi]
  {
    hide Process, SortRun;
    OrderMeans(messages, lo, 0);
    RunIs(messages, map[], lo, hi);
    GuardIsOptimisation(map[], messages[lo..hi]);
  }

  lemma {:induction false} RunIs(msgs: seq<Msg>, start: Order, lo: nat, hi: nat)
    requires MaximalRun(msgs, lo, hi)
    ensures Process(msgs, start)[lo..hi] == SortRun(OrderAt(msgs, start, lo), msgs[lo..hi])
    decreases |msgs|
  {
    hide SortRun, CallOrder, Process, InBlock, OrderAt, RunLen;
    RunAtStart(msgs, lo, hi);
    if lo == 0 {
      assert msgs[lo..hi] == msgs[..hi];
      HeadOf(msgs, start);
      assert Process(msgs, start)[lo..hi] == Process(msgs, start)[..hi];
      OrderInBlock(msgs, start, 0);
    } else {
      var e := if InBlock(msgs[0]) then RunLen(msgs) else 1;
      var mid := OrderAt(msgs, start, e);
      OrderSplits(msgs, start, e, lo);
      RunInTail(msgs, e, lo, hi);
      RunIs(msgs[e..], mid, lo - e, hi - e);
      TailOf(msgs, start, e, mid);
      SliceOfTail(Process(msgs, start), e, lo, hi);
    }
  }
}
