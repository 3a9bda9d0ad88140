/** Tool results in the order of the calls they answer (deepseek_v4_sort_tool_results in common/chat.cpp). */
module ToolResults {
  /** A message; a missing text field reads as "" and a missing call list as the empty one. */
  datatype Msg = Msg(role: string, toolCallIds: seq<string>, toolCallId: string, payload: string)

  type Order = map<string, nat>

  predicate HasCalls(m: Msg) {
    m.role == "assistant" && m.toolCallIds != []
  }

  predicate IsTool(m: Msg) {
    m.role == "tool"
  }

  predicate InBlock(m: Msg) {
    m.role == "user" || m.role == "tool"
  }

  // ---------- the recorded call order

  /** Position of the last call with each non-empty id. */
  function CallOrder(ids: seq<string>): (r: Order)
    ensures forall id :: id in r <==> id != "" && id in ids
    ensures forall id :: id in r ==> LastAt(ids, id, r[id])
    decreases |ids|
  {
    if ids == [] then map[]
    else
      var n := |ids| - 1;
      assert ids == ids[..n] + [ids[n]];
      var before := CallOrder(ids[..n]);
      if ids[n] != "" then before[ids[n] := n] else before
  }

  predicate LastAt(ids: seq<string>, id: string, k: nat) {
    k < |ids| && ids[k] == id && forall j :: k < j < |ids| ==> ids[j] != id
  }

  function Key(order: Order, m: Msg): nat {
    if m.toolCallId in order then order[m.toolCallId] else 0
  }

  // ---------- stable sorting

  predicate Sorted(order: Order, s: seq<Msg>) {
    forall j, k :: 0 <= j < k < |s| ==> Key(order, s[j]) <= Key(order, s[k])
  }

  /** The messages of one key, in their order. */
  function WithKey(order: Order, s: seq<Msg>, v: nat): seq<Msg>
    decreases |s|
  {
    if s == [] then []
    else
      var n := |s| - 1;
      WithKey(order, s[..n], v) + (if Key(order, s[n]) == v then [s[n]] else [])
  }

  /** Sorted, and messages of equal key keep their order. */
  ghost predicate IsStableSort(order: Order, s: seq<Msg>, t: seq<Msg>) {
    && Sorted(order, t)
    && SameKeys(order, s, t)
  }

  function Insert(order: Order, s: seq<Msg>, x: Msg): seq<Msg>
    decreases |s|
  {
    var n := |s| - 1;
    if s == [] || Key(order, s[n]) <= Key(order, x) then s + [x] else Insert(order, s[..n], x) + [s[n]]
  }

  function StableSorted(order: Order, s: seq<Msg>): seq<Msg>
    decreases |s|
  {
    if s == [] then [] else Insert(order, StableSorted(order, s[..|s| - 1]), s[|s| - 1])
  }

  function OnlyIf(b: bool, x: Msg): seq<Msg> {
    if b then [x] else []
  }

  lemma WithKeyPush(order: Order, s: seq<Msg>, x: Msg, v: nat)
    ensures WithKey(order, s + [x], v) == WithKey(order, s, v) + OnlyIf(Key(order, x) == v, x)
  {
    hide Key;
    assert (s + [x])[..|s|] == s;
  }

  lemma {:induction false} InsertSorts(order: Order, s: seq<Msg>, x: Msg)
    requires Sorted(order, s)
    ensures Sorted(order, Insert(order, s, x))
    ensures forall m :: m in Insert(order, s, x) ==> m == x || m in s
    decreases |s|
  {
    hide Key;
    var n := |s| - 1;
    if s != [] && Key(order, s[n]) > Key(order, x) {
      InsertSorts(order, s[..n], x);
      var r := Insert(order, s[..n], x);
      forall k | 0 <= k < |r| ensures Key(order, r[k]) <= Key(order, s[n]) {
        assert r[k] in r;
      }
    }
  }

  lemma {:induction false} InsertKeepsOrder(order: Order, s: seq<Msg>, x: Msg, v: nat)
    ensures WithKey(order, Insert(order, s, x), v) == WithKey(order, s, v) + OnlyIf(Key(order, x) == v, x)
    decreases |s|
  {
    hide Key, WithKey;
    var n := |s| - 1;
    if s != [] && Key(order, s[n]) > Key(order, x) {
      var front := s[..n];
      assert s == front + [s[n]];
      InsertKeepsOrder(order, front, x, v);
      WithKeyPush(order, Insert(order, front, x), s[n], v);
      WithKeyPush(order, front, s[n], v);
    } else {
      WithKeyPush(order, s, x, v);
    }
  }

  lemma {:induction false} InsertPermutes(order: Order, s: seq<Msg>, x: Msg)
    ensures multiset(Insert(order, s, x)) == multiset(s) + multiset{x}
    decreases |s|
  {
    hide Key;
    var n := |s| - 1;
    if s != [] && Key(order, s[n]) > Key(order, x) {
      InsertPermutes(order, s[..n], x);
      assert s == s[..n] + [s[n]];
    }
  }

  lemma {:induction false} StableSortedIs(order: Order, s: seq<Msg>)
    ensures IsStableSort(order, s, StableSorted(order, s))
    ensures multiset(StableSorted(order, s)) == multiset(s)
    decreases |s|
  {
    hide Key, WithKey, Insert;
    if s == [] {
    } else {
      var front, x := s[..|s| - 1], s[|s| - 1];
      var r := StableSorted(order, front);
      assert s == front + [x];
      StableSortedIs(order, front);
      InsertSorts(order, r, x);
      InsertPermutes(order, r, x);
      forall v: nat ensures WithKey(order, Insert(order, r, x), v) == WithKey(order, s, v) {
        InsertKeepsOrder(order, r, x, v);
        WithKeyPush(order, front, x, v);
        assert WithKey(order, r, v) == WithKey(order, front, v);
      }
    }
  }

  lemma {:induction false} KeyPresent(order: Order, s: seq<Msg>, v: nat)
    ensures WithKey(order, s, v) != [] <==> exists k :: 0 <= k < |s| && Key(order, s[k]) == v
    decreases |s|
  {
    hide Key;
    if s != [] {
      var front, x := s[..|s| - 1], s[|s| - 1];
      assert s == front + [x];
      KeyPresent(order, front, v);
      WithKeyPush(order, front, x, v);
      if k :| 0 <= k < |s| && Key(order, s[k]) == v {
        if k < |front| {
          assert Key(order, front[k]) == v;
        }
      }
      if k :| 0 <= k < |front| && Key(order, front[k]) == v {
        assert Key(order, s[k]) == v;
      }
    }
  }

  lemma LastIsLargest(order: Order, s: seq<Msg>, t: seq<Msg>)
    requires Sorted(order, s) && s != [] && t != [] && SameKeys(order, s, t)
    ensures Key(order, t[|t| - 1]) <= Key(order, s[|s| - 1])
  {
    hide Key, WithKey;
    var v := Key(order, t[|t| - 1]);
    KeyPresent(order, t, v);
    KeyPresent(order, s, v);
    var k :| 0 <= k < |s| && Key(order, s[k]) == v;
    assert k < |s| - 1 ==> Key(order, s[k]) <= Key(order, s[|s| - 1]);
  }

  /** For each key, the same messages in the same order. */
  ghost predicate SameKeys(order: Order, s: seq<Msg>, t: seq<Msg>) {
    forall v: nat :: WithKey(order, t, v) == WithKey(order, s, v)
  }

  /** There is only one stable sort, so the algorithm behind it does not matter. */
  lemma {:induction false} StableSortUnique(order: Order, s: seq<Msg>, t: seq<Msg>)
    requires Sorted(order, s) && Sorted(order, t) && SameKeys(order, s, t)
    ensures s == t
    decreases |s|
  {
    hide Key, WithKey;
    if s == [] {
      if t != [] {
        KeyPresent(order, t, Key(order, t[0]));
        KeyPresent(order, s, Key(order, t[0]));
        assert false;
      }
    } else {
      var x := s[|s| - 1];
      KeyPresent(order, s, Key(order, x));
      KeyPresent(order, t, Key(order, x));
      LastIsLargest(order, s, t);
      LastIsLargest(order, t, s);
      DropLast(order, s, t);
      StableSortUnique(order, s[..|s| - 1], t[..|t| - 1]);
      assert s == s[..|s| - 1] + [x];
      assert t == t[..|t| - 1] + [t[|t| - 1]];
    }
  }

  lemma DropLast(order: Order, s: seq<Msg>, t: seq<Msg>)
    requires s != [] && t != [] && SameKeys(order, s, t)
    requires Key(order, s[|s| - 1]) == Key(order, t[|t| - 1])
    ensures s[|s| - 1] == t[|t| - 1]
    ensures SameKeys(order, s[..|s| - 1], t[..|t| - 1])
  {
    hide Key, WithKey;
    var x, y, f, g := s[|s| - 1], t[|t| - 1], s[..|s| - 1], t[..|t| - 1];
    assert s == f + [x] && t == g + [y];
    forall v: nat
      ensures WithKey(order, f, v) + OnlyIf(Key(order, x) == v, x) == WithKey(order, g, v) + OnlyIf(Key(order, y) == v, y)
    {
      WithKeyPush(order, f, x, v);
      WithKeyPush(order, g, y, v);
      assert WithKey(order, t, v) == WithKey(order, s, v);
    }
    FrontEqual(WithKey(order, f, Key(order, x)), x, WithKey(order, g, Key(order, x)), y, true);
    forall v: nat ensures WithKey(order, g, v) == WithKey(order, f, v) {
      FrontEqual(WithKey(order, f, v), x, WithKey(order, g, v), y, Key(order, x) == v);
    }
  }

  lemma FrontEqual(a: seq<Msg>, x: Msg, b: seq<Msg>, y: Msg, both: bool)
    requires a + OnlyIf(both, x) == b + OnlyIf(both, y)
    ensures a == b && (both ==> x == y)
  {
    var s, t := a + OnlyIf(both, x), b + OnlyIf(both, y);
    assert |a| == |b|;
    assert a == s[..|a|] && b == t[..|b|];
    if both {
      assert s[|a|] == x && t[|b|] == y;
    }
  }

  lemma SortOfSorted(order: Order, s: seq<Msg>)
    requires Sorted(order, s)
    ensures StableSorted(order, s) == s
  {
    StableSortedIs(order, s);
    StableSortUnique(order, s, StableSorted(order, s));
  }

  // ---------- one run of user and tool messages

  function Tools(run: seq<Msg>): (r: seq<Msg>)
    ensures |r| <= |run|
    ensures forall k :: 0 <= k < |r| ==> IsTool(r[k])
    decreases |run|
  {
    if run == [] then []
    else
      var n := |run| - 1;
      if IsTool(run[n]) then Tools(run[..n]) + [run[n]] else Tools(run[..n])
  }

  /** The run with its tool messages replaced, in order, by those of s. */
  function Place(run: seq<Msg>, s: seq<Msg>): (r: seq<Msg>)
    requires |s| == |Tools(run)|
    ensures |r| == |run|
    decreases |run|
  {
    if run == [] then []
    else
      var n := |run| - 1;
      if IsTool(run[n]) then Place(run[..n], s[..|s| - 1]) + [s[|s| - 1]] else Place(run[..n], s) + [run[n]]
  }

  lemma ToolsPush(run: seq<Msg>, m: Msg)
    ensures Tools(run + [m]) == Tools(run) + OnlyIf(IsTool(m), m)
  {
    assert (run + [m])[..|run|] == run;
  }

  /** The front and the last message of a non-empty run, and what is placed in each. */
  lemma PlaceSplit(run: seq<Msg>, s: seq<Msg>) returns (front: seq<Msg>, m: Msg, t: seq<Msg>, x: Msg)
    requires run != [] && |s| == |Tools(run)|
    ensures run == front + [m] && |front| == |run| - 1
    ensures Tools(run) == Tools(front) + OnlyIf(IsTool(m), m)
    ensures s == t + OnlyIf(IsTool(m), x) && |t| == |Tools(front)| && (!IsTool(m) ==> x == m)
    ensures Place(run, s) == Place(front, t) + [x]
  {
    var n := |run| - 1;
    front, m := run[..n], run[n];
    if IsTool(m) {
      t, x := s[..|s| - 1], s[|s| - 1];
    } else {
      t, x := s, m;
    }
  }

  lemma {:induction false} PlaceKeeps(run: seq<Msg>, s: seq<Msg>)
    requires |s| == |Tools(run)|
    requires forall k :: 0 <= k < |s| ==> IsTool(s[k])
    ensures forall i :: 0 <= i < |run| ==> IsTool(Place(run, s)[i]) == IsTool(run[i])
    ensures forall i :: 0 <= i < |run| && !IsTool(run[i]) ==> Place(run, s)[i] == run[i]
    ensures Tools(Place(run, s)) == s
    decreases |run|
  {
    hide IsTool, Tools, Place;
    if run == [] {
      NoTools(run, s);
    } else {
      var front, m, t, x := PlaceSplit(run, s);
      assert IsTool(m) ==> s[|t|] == x;
      assert forall k :: 0 <= k < |t| ==> t[k] == s[k];
      PlaceKeeps(front, t);
      ToolsPush(Place(front, t), x);
    }
  }

  lemma NoTools(run: seq<Msg>, s: seq<Msg>)
    requires run == [] && |s| == |Tools(run)|
    ensures s == [] && Place(run, s) == [] && Tools(run) == []
  {
  }

  lemma {:induction false} PlacePermutes(run: seq<Msg>, s: seq<Msg>)
    requires |s| == |Tools(run)|
    ensures multiset(Place(run, s)) + multiset(Tools(run)) == multiset(run) + multiset(s)
    decreases |run|
  {
    hide IsTool, Tools, Place;
    if run == [] {
      NoTools(run, s);
    } else {
      var front, m, t, x := PlaceSplit(run, s);
      PlacePermutes(front, t);
      assert multiset(s) == multiset(t) + multiset(OnlyIf(IsTool(m), x));
      assert multiset(Tools(run)) == multiset(Tools(front)) + multiset(OnlyIf(IsTool(m), m));
      assert multiset(Place(run, s)) == multiset(Place(front, t)) + multiset{x};
      assert multiset(run) == multiset(front) + multiset{m};
      Rebalance(multiset(Place(front, t)), multiset(Tools(front)), multiset(front), multiset(t), m, x, IsTool(m));
    }
  }

  lemma Rebalance(p: multiset<Msg>, q: multiset<Msg>, f: multiset<Msg>, t: multiset<Msg>, m: Msg, x: Msg, tool: bool)
    requires p + q == f + t && (!tool ==> x == m)
    ensures (p + multiset{x}) + (q + multiset(OnlyIf(tool, m))) == (f + multiset{m}) + (t + multiset(OnlyIf(tool, x)))
  {
    var a, b := multiset(OnlyIf(tool, m)), multiset(OnlyIf(tool, x));
    var l, r := (p + multiset{x}) + (q + a), (f + multiset{m}) + (t + b);
    forall y: Msg ensures l[y] == r[y] {
      assert (p + q)[y] == (f + t)[y];
      assert multiset{x}[y] + a[y] == multiset{m}[y] + b[y];
    }
  }

  lemma {:induction false} PlaceAgain(run: seq<Msg>)
    ensures Place(run, Tools(run)) == run
    decreases |run|
  {
    hide IsTool, Tools, Place;
    if run == [] {
      NoTools(run, Tools(run));
    } else {
      var front, m, t, x := PlaceSplit(run, Tools(run));
      FrontEqual(Tools(front), m, t, x, IsTool(m));
      PlaceAgain(front);
    }
  }

  function SortRun(order: Order, run: seq<Msg>): (r: seq<Msg>)
    ensures |r| == |run|
  {
    StableSortedIs(order, Tools(run));
    SameSize(StableSorted(order, Tools(run)), Tools(run));
    Place(run, StableSorted(order, Tools(run)))
  }

  lemma SameSize(s: seq<Msg>, t: seq<Msg>)
    requires multiset(s) == multiset(t)
    ensures |s| == |t|
    ensures (forall k :: 0 <= k < |t| ==> IsTool(t[k])) ==> forall k :: 0 <= k < |s| ==> IsTool(s[k])
  {
    assert |multiset(s)| == |s| && |multiset(t)| == |t|;
    forall k | 0 <= k < |s| ensures s[k] in t {
      assert s[k] in multiset(s);
      assert s[k] in multiset(t);
    }
  }

  lemma SortRunKeeps(order: Order, run: seq<Msg>)
    ensures var r := SortRun(order, run);
      && (forall i :: 0 <= i < |run| ==> IsTool(r[i]) == IsTool(run[i]))
      && (forall i :: 0 <= i < |run| && !IsTool(run[i]) ==> r[i] == run[i])
      && IsStableSort(order, Tools(run), Tools(r))
      && multiset(r) == multiset(run)
  {
    hide IsStableSort, Tools, Place, IsTool, StableSorted;
    var s := StableSorted(order, Tools(run));
    StableSortedIs(order, Tools(run));
    SameSize(s, Tools(run));
    PlaceKeeps(run, s);
    PlacePermutes(run, s);
    var r := Place(run, s);
    assert multiset(r) == multiset(r) + multiset(s) - multiset(s);
    assert multiset(run) == multiset(run) + multiset(s) - multiset(s);
  }

  lemma SortRunTwice(order: Order, run: seq<Msg>)
    ensures SortRun(order, SortRun(order, run)) == SortRun(order, run)
  {
    var r := SortRun(order, run);
    SortRunKeeps(order, run);
    SortOfSorted(order, Tools(r));
    PlaceAgain(r);
  }

  /** With no recorded order, or at most one tool message, sorting would change nothing. */
  lemma GuardIsOptimisation(order: Order, run: seq<Msg>)
    requires order == map[] || |Tools(run)| <= 1
    ensures SortRun(order, run) == run
  {
    SortOfSorted(order, Tools(run));
    PlaceAgain(run);
  }

  // ---------- the whole conversation

  function RunLen(msgs: seq<Msg>): (e: nat)
    ensures e <= |msgs|
    ensures forall k :: 0 <= k < e ==> InBlock(msgs[k])
    ensures e < |msgs| ==> !InBlock(msgs[e])
    decreases |msgs|
  {
    if msgs == [] || !InBlock(msgs[0]) then 0 else 1 + RunLen(msgs[1..])
  }

  function Process(msgs: seq<Msg>, order: Order): (r: seq<Msg>)
    ensures |r| == |msgs|
    decreases |msgs|
  {
    if msgs == [] then []
    else if HasCalls(msgs[0]) then [msgs[0]] + Process(msgs[1..], CallOrder(msgs[0].toolCallIds))
    else if !InBlock(msgs[0]) then [msgs[0]] + Process(msgs[1..], order)
    else
      var e := RunLen(msgs);
      assert e > 0;
      SortRun(order, msgs[..e]) + Process(msgs[e..], order)
  }

  /** The order in force before message i: that of the last message before it that made calls. */
  function OrderAt(msgs: seq<Msg>, start: Order, i: nat): Order
    requires i <= |msgs|
  {
    if i == 0 then start
    else if HasCalls(msgs[i - 1]) then CallOrder(msgs[i - 1].toolCallIds)
    else OrderAt(msgs, start, i - 1)
  }

  lemma {:induction false} OrderSplits(msgs: seq<Msg>, start: Order, e: nat, i: nat)
    requires e <= i <= |msgs|
    ensures OrderAt(msgs, start, i) == OrderAt(msgs[e..], OrderAt(msgs, start, e), i - e)
    decreases i
  {
    if e < i {
      OrderSplits(msgs, start, e, i - 1);
      assert msgs[e..][i - e - 1] == msgs[i - 1];
    }
  }

  lemma {:induction false} OrderInBlock(msgs: seq<Msg>, start: Order, e: nat)
    requires e <= |msgs| && forall k :: 0 <= k < e ==> InBlock(msgs[k])
    ensures OrderAt(msgs, start, e) == start
    decreases e
  {
    if e > 0 {
      OrderInBlock(msgs, start, e - 1);
    }
  }

  /** [lo, hi) is a run of user and tool messages that cannot be extended. */
  predicate MaximalRun(msgs: seq<Msg>, lo: nat, hi: nat) {
    && lo < hi <= |msgs|
    && (forall k :: lo <= k < hi ==> InBlock(msgs[k]))
    && (lo > 0 ==> !InBlock(msgs[lo - 1]))
    && (hi < |msgs| ==> !InBlock(msgs[hi]))
  }

  lemma RunAtStart(msgs: seq<Msg>, lo: nat, hi: nat)
    requires MaximalRun(msgs, lo, hi)
    ensures lo == 0 ==> InBlock(msgs[0]) && hi == RunLen(msgs)
    ensures lo > 0 ==> (if InBlock(msgs[0]) then RunLen(msgs) else 1) <= lo
  {
    hide InBlock;
  }

  lemma RunInTail(msgs: seq<Msg>, e: nat, lo: nat, hi: nat)
    requires MaximalRun(msgs, lo, hi) && e <= lo
    ensures MaximalRun(msgs[e..], lo - e, hi - e)
    ensures msgs[e..][lo - e..hi - e] == msgs[lo..hi]
  {
    hide InBlock;
    if e < lo {
      assert msgs[e..][lo - e - 1] == msgs[lo - 1];
    }
  }

  lemma SliceOfTail(s: seq<Msg>, e: nat, lo: nat, hi: nat)
    requires e <= lo <= hi <= |s|
    ensures s[e..][lo - e..hi - e] == s[lo..hi]
  {
  }

  /** Each maximal run ends with its tool messages stably sorted by the call order in force. */
  lemma {:induction false} RunEndsSorted(msgs: seq<Msg>, start: Order, lo: nat, hi: nat)
    requires MaximalRun(msgs, lo, hi)
    ensures IsStableSort(OrderAt(msgs, start, lo), Tools(msgs[lo..hi]), Tools(Process(msgs, start)[lo..hi]))
    ensures multiset(Process(msgs, start)[lo..hi]) == multiset(msgs[lo..hi])
    decreases |msgs|
  {
    hide IsStableSort, SortRun, Tools, CallOrder, Process, Key, InBlock, OrderAt, RunLen;
    RunAtStart(msgs, lo, hi);
    if lo == 0 {
      SortRunKeeps(start, msgs[..hi]);
      assert msgs[lo..hi] == msgs[..hi];
      HeadOf(msgs, start);
      assert Process(msgs, start)[lo..hi] == Process(msgs, start)[..hi];
      OrderInBlock(msgs, start, 0);
    } else {
      var e := if InBlock(msgs[0]) then RunLen(msgs) else 1;
      var mid := OrderAt(msgs, start, e);
      OrderSplits(msgs, start, e, lo);
      RunInTail(msgs, e, lo, hi);
      RunEndsSorted(msgs[e..], mid, lo - e, hi - e);
      TailOf(msgs, start, e, mid);
      SliceOfTail(Process(msgs, start), e, lo, hi);
    }
  }

  lemma HeadOf(msgs: seq<Msg>, start: Order)
    requires msgs != []
    ensures InBlock(msgs[0]) ==> Process(msgs, start)[..RunLen(msgs)] == SortRun(start, msgs[..RunLen(msgs)])
    ensures !InBlock(msgs[0]) ==> Process(msgs, start)[..1] == msgs[..1]
  {
    hide SortRun, CallOrder, RunLen;
    if InBlock(msgs[0]) {
      BlockFirst(msgs);
      var e := RunLen(msgs);
      assert Process(msgs, start) == SortRun(start, msgs[..e]) + Process(msgs[e..], start);
    }
  }

  lemma TailOf(msgs: seq<Msg>, start: Order, e: nat, mid: Order)
    requires msgs != [] && e == (if InBlock(msgs[0]) then RunLen(msgs) else 1)
    requires mid == OrderAt(msgs, start, e)
    ensures Process(msgs, start)[e..] == Process(msgs[e..], mid)
  {
    hide SortRun, CallOrder;
    if InBlock(msgs[0]) {
      OrderInBlock(msgs, start, e);
    } else {
      assert OrderAt(msgs, start, 1) == if HasCalls(msgs[0]) then CallOrder(msgs[0].toolCallIds) else start;
    }
  }

  /** Everything but tool messages stays at its index, and tool messages move only onto tool positions. */
  lemma {:induction false} OthersStay(msgs: seq<Msg>, start: Order, i: nat)
    requires i < |msgs|
    ensures !IsTool(msgs[i]) ==> Process(msgs, start)[i] == msgs[i]
    ensures IsTool(Process(msgs, start)[i]) == IsTool(msgs[i])
    decreases |msgs|
  {
    hide SortRun, CallOrder, Process, InBlock, IsTool;
    var e := if InBlock(msgs[0]) then RunLen(msgs) else 1;
    HeadOf(msgs, start);
    BlockFirst(msgs);
    if i < e {
      assert Process(msgs, start)[i] == Process(msgs, start)[..e][i] && msgs[i] == msgs[..e][i];
      if InBlock(msgs[0]) {
        SortRunKeeps(start, msgs[..e]);
      }
    } else {
      var mid := OrderAt(msgs, start, e);
      TailOf(msgs, start, e, mid);
      OthersStay(msgs[e..], mid, i - e);
      assert Process(msgs, start)[i] == Process(msgs, start)[e..][i - e];
    }
  }

  lemma BlockFirst(msgs: seq<Msg>)
    requires msgs != []
    ensures InBlock(msgs[0]) ==> 0 < RunLen(msgs) <= |msgs|
  {
  }

  /** No message is lost, doubled or altered. */
  lemma {:induction false} MessagesPreserved(msgs: seq<Msg>, start: Order)
    ensures multiset(Process(msgs, start)) == multiset(msgs)
    decreases |msgs|
  {
    hide SortRun, CallOrder, Process, InBlock, IsTool;
    if msgs != [] {
      var e := if InBlock(msgs[0]) then RunLen(msgs) else 1;
      var mid := OrderAt(msgs, start, e);
      HeadOf(msgs, start);
      BlockFirst(msgs);
      TailOf(msgs, start, e, mid);
      MessagesPreserved(msgs[e..], mid);
      var r := Process(msgs, start);
      assert r == r[..e] + r[e..] && msgs == msgs[..e] + msgs[e..];
      if InBlock(msgs[0]) {
        SortRunKeeps(start, msgs[..e]);
      }
    }
  }

  /** Sorting an already sorted conversation changes nothing. */
  lemma {:induction false} SortingTwice(msgs: seq<Msg>, start: Order)
    ensures Process(Process(msgs, start), start) == Process(msgs, start)
    decreases |msgs|
  {
    hide SortRun, CallOrder;
    if msgs == [] {
    } else if !InBlock(msgs[0]) {
      var next := if HasCalls(msgs[0]) then CallOrder(msgs[0].toolCallIds) else start;
      SortingTwice(msgs[1..], next);
      assert Process(msgs, start)[1..] == Process(msgs[1..], next);
    } else {
      var e := RunLen(msgs);
      var tail := Process(msgs[e..], start);
      var sorted := SortRun(start, msgs[..e]);
      var r := Process(msgs, start);
      assert r == sorted + tail;
      SortingTwice(msgs[e..], start);
      RunStays(msgs, start, r);
      assert RunLen(r) == e && r[..e] == sorted && r[e..] == tail;
      SortRunTwice(start, msgs[..e]);
    }
  }

  lemma RunStays(msgs: seq<Msg>, start: Order, r: seq<Msg>)
    requires msgs != [] && InBlock(msgs[0]) && r == Process(msgs, start)
    ensures RunLen(r) == RunLen(msgs)
  {
    hide SortRun, CallOrder, Process;
    forall i | 0 <= i < |msgs| ensures InBlock(r[i]) == InBlock(msgs[i]) {
      OthersStay(msgs, start, i);
    }
  }

  // ---------- the rewriting loop

  function Positions(run: seq<Msg>, base: nat): (r: seq<nat>)
    ensures |r| == |Tools(run)|
    ensures forall k :: 0 <= k < |r| ==> base <= r[k] < base + |run| && run[r[k] - base] == Tools(run)[k]
    ensures forall j, k :: 0 <= j < k < |r| ==> r[j] < r[k]
    decreases |run|
  {
    if run == [] then []
    else
      var n := |run| - 1;
      if IsTool(run[n]) then Positions(run[..n], base) + [base + n] else Positions(run[..n], base)
  }

  method RecordOrder(ids: seq<string>) returns (order: Order)
    ensures order == CallOrder(ids)
  {
    order := map[];
    for idx := 0 to |ids|
      invariant order == CallOrder(ids[..idx])
    {
      assert ids[..idx + 1][..idx] == ids[..idx];
      if ids[idx] != "" {
        order := order[ids[idx] := idx];
      }
    }
    assert ids[..|ids|] == ids;
  }

  lemma PositionsSplit(msgs: seq<Msg>, lo: nat, hi: nat)
    requires lo < hi <= |msgs|
    ensures Positions(msgs[lo..hi], lo) ==
            Positions(msgs[lo..hi - 1], lo) + if IsTool(msgs[hi - 1]) then [hi - 1] else []
  {
    assert msgs[lo..hi][..hi - 1 - lo] == msgs[lo..hi - 1];
  }

  lemma EmptyPositions(run: seq<Msg>, base: nat)
    requires run == []
    ensures Positions(run, base) == []
  {
  }

  lemma RunLenIs(msgs: seq<Msg>, e: nat)
    requires e <= |msgs| && forall k :: 0 <= k < e ==> InBlock(msgs[k])
    requires e < |msgs| ==> !InBlock(msgs[e])
    ensures RunLen(msgs) == e
  {
    hide InBlock;
    assert RunLen(msgs) >= e;
  }

  method CollectRun(msgs: seq<Msg>, i: nat) returns (runEnd: nat, toolPositions: seq<nat>)
    requires i < |msgs| && InBlock(msgs[i])
    ensures runEnd == i + RunLen(msgs[i..])
    ensures toolPositions == Positions(msgs[i..runEnd], i)
  {
    hide Positions, Tools, RunLen;
    EmptyPositions(msgs[i..i], i);
    runEnd := i;
    toolPositions := [];
    while runEnd < |msgs|
      invariant i <= runEnd <= |msgs|
      invariant forall k :: i <= k < runEnd ==> InBlock(msgs[k])
      invariant toolPositions == Positions(msgs[i..runEnd], i)
    {
      PositionsSplit(msgs, i, runEnd + 1);
      if msgs[runEnd].role == "tool" {
        toolPositions := toolPositions + [runEnd];
      } else if msgs[runEnd].role != "user" {
        break;
      }
      runEnd := runEnd + 1;
    }
    assert forall k :: 0 <= k < runEnd - i ==> msgs[i..][k] == msgs[i + k];
    assert runEnd < |msgs| ==> msgs[i..][runEnd - i] == msgs[runEnd];
    RunLenIs(msgs[i..], runEnd - i);
  }

  /** after holds s at the tool positions of msgs[lo..hi], and the old messages elsewhere in it. */
  predicate Replaced(msgs: seq<Msg>, after: seq<Msg>, lo: nat, hi: nat, s: seq<Msg>)
    requires lo <= hi <= |msgs| == |after| && |s| == |Tools(msgs[lo..hi])|
  {
    var p := Positions(msgs[lo..hi], lo);
    && (forall k :: 0 <= k < |s| ==> after[p[k]] == s[k])
    && (forall i :: lo <= i < hi && i !in p ==> after[i] == msgs[i])
  }

  lemma ReplacedFront(msgs: seq<Msg>, after: seq<Msg>, lo: nat, hi: nat, s: seq<Msg>, t: seq<Msg>, x: Msg)
    requires lo < hi <= |msgs| == |after|
    requires |s| == |Tools(msgs[lo..hi])| && |t| == |Tools(msgs[lo..hi - 1])|
    requires s == t + OnlyIf(IsTool(msgs[hi - 1]), x) && (!IsTool(msgs[hi - 1]) ==> x == msgs[hi - 1])
    requires Replaced(msgs, after, lo, hi, s)
    ensures Replaced(msgs, after, lo, hi - 1, t) && after[hi - 1] == x
  {
    hide IsTool, Tools, Positions;
    PositionsSplit(msgs, lo, hi);
    var p, q := Positions(msgs[lo..hi], lo), Positions(msgs[lo..hi - 1], lo);
    forall k | 0 <= k < |t| ensures after[q[k]] == t[k] {
      assert t[k] == s[k] && p[k] == q[k];
    }
    if IsTool(msgs[hi - 1]) {
      assert p[|q|] == hi - 1 && s[|t|] == x;
    } else {
      assert p == q && hi - 1 !in p;
    }
  }

  lemma {:induction false} PlaceAt(msgs: seq<Msg>, after: seq<Msg>, lo: nat, hi: nat, s: seq<Msg>)
    requires lo <= hi <= |msgs| == |after| && |s| == |Tools(msgs[lo..hi])|
    requires Replaced(msgs, after, lo, hi, s)
    ensures after[lo..hi] == Place(msgs[lo..hi], s)
    decreases hi
  {
    hide IsTool, Tools, Place, Positions, Replaced;
    if lo == hi {
      NoTools(msgs[lo..hi], s);
    } else {
      var front, m, t, x := PlaceSplit(msgs[lo..hi], s);
      assert m == (front + [m])[|front|] == msgs[hi - 1];
      assert front == (front + [m])[..|front|] == msgs[lo..hi - 1];
      ReplacedFront(msgs, after, lo, hi, s, t, x);
      PlaceAt(msgs, after, lo, hi - 1, t);
      assert after[lo..hi] == after[lo..hi - 1] + [after[hi - 1]];
    }
  }

  method WriteBack(msgs: seq<Msg>, toolPositions: seq<nat>, results: seq<Msg>) returns (adjusted: seq<Msg>)
    requires |toolPositions| == |results|
    requires forall k :: 0 <= k < |toolPositions| ==> toolPositions[k] < |msgs|
    requires forall j, k :: 0 <= j < k < |toolPositions| ==> toolPositions[j] < toolPositions[k]
    ensures |adjusted| == |msgs|
    ensures forall k :: 0 <= k < |results| ==> adjusted[toolPositions[k]] == results[k]
    ensures forall i :: 0 <= i < |msgs| && i !in toolPositions ==> adjusted[i] == msgs[i]
  {
    adjusted := msgs;
    for k := 0 to |toolPositions|
      invariant |adjusted| == |msgs|
      invariant forall j :: 0 <= j < k ==> adjusted[toolPositions[j]] == results[j]
      invariant forall i :: 0 <= i < |msgs| && i !in toolPositions ==> adjusted[i] == msgs[i]
    {
      adjusted := adjusted[toolPositions[k] := results[k]];
    }
  }

  /** The tool messages of one run, sorted and written back to their positions. */
  method SortRunAt(msgs: seq<Msg>, i: nat, order: Order) returns (adjusted: seq<Msg>, runEnd: nat)
    requires i < |msgs| && InBlock(msgs[i])
    ensures runEnd == i + RunLen(msgs[i..])
    ensures adjusted == msgs[..i] + SortRun(order, msgs[i..runEnd]) + msgs[runEnd..]
  {
    hide IsTool, Place, StableSorted, RunLen, IsStableSort, InBlock, SortRun, Positions, Tools;
    var toolPositions;
    runEnd, toolPositions := CollectRun(msgs, i);
    ghost var run := msgs[i..runEnd];
    adjusted := msgs;
    if |toolPositions| > 1 && order != map[] {
      var results := [];
      for k := 0 to |toolPositions|
        invariant results == Tools(run)[..k]
      {
        results := results + [msgs[toolPositions[k]]];
      }
      assert results == Tools(run);
      results := StableSorted(order, results);
      SortedSize(order, Tools(run));
      adjusted := WriteBack(msgs, toolPositions, results);
      Rewritten(msgs, i, runEnd, order, adjusted);
    } else {
      GuardIsOptimisation(order, run);
      assert msgs == msgs[..i] + run + msgs[runEnd..];
    }
  }

  lemma SortedSize(order: Order, s: seq<Msg>)
    ensures |StableSorted(order, s)| == |s|
  {
    StableSortedIs(order, s);
    SameSize(StableSorted(order, s), s);
  }

  lemma Rewritten(msgs: seq<Msg>, i: nat, runEnd: nat, order: Order, adjusted: seq<Msg>)
    requires i <= runEnd <= |msgs| == |adjusted|
    requires |StableSorted(order, Tools(msgs[i..runEnd]))| == |Tools(msgs[i..runEnd])|
    requires var p := Positions(msgs[i..runEnd], i);
      && (forall k :: 0 <= k < |p| ==> adjusted[p[k]] == StableSorted(order, Tools(msgs[i..runEnd]))[k])
      && (forall j :: 0 <= j < |msgs| && j !in p ==> adjusted[j] == msgs[j])
    ensures adjusted == msgs[..i] + SortRun(order, msgs[i..runEnd]) + msgs[runEnd..]
  {
    hide IsTool, Place, StableSorted, Positions, Tools;
    var run := msgs[i..runEnd];
    var r := adjusted[i..runEnd];
    PlaceAt(msgs, adjusted, i, runEnd, StableSorted(order, Tools(run)));
    assert adjusted[..i] == msgs[..i] && adjusted[runEnd..] == msgs[runEnd..];
    assert adjusted == adjusted[..i] + r + adjusted[runEnd..];
  }

  lemma ProcessStep(msgs: seq<Msg>, i: nat, order: Order)
    requires i < |msgs| && !InBlock(msgs[i])
    ensures var next := if HasCalls(msgs[i]) then CallOrder(msgs[i].toolCallIds) else order;
      msgs[..i] + Process(msgs[i..], order) == msgs[..i + 1] + Process(msgs[i + 1..], next)
  {
    hide CallOrder, SortRun, RunLen;
    assert msgs[i..][1..] == msgs[i + 1..];
    assert msgs[..i + 1] == msgs[..i] + [msgs[i]];
  }

  lemma ProcessRun(msgs: seq<Msg>, i: nat, order: Order, runEnd: nat, adjusted: seq<Msg>)
    requires i < |msgs| && InBlock(msgs[i]) && runEnd == i + RunLen(msgs[i..])
    requires adjusted == msgs[..i] + SortRun(order, msgs[i..runEnd]) + msgs[runEnd..]
    ensures msgs[..i] + Process(msgs[i..], order) == adjusted[..runEnd] + Process(adjusted[runEnd..], order)
  {
    hide SortRun, RunLen, Process, InBlock;
    HeadOf(msgs[i..], order);
    var e := RunLen(msgs[i..]);
    OrderInBlock(msgs[i..], order, e);
    TailOf(msgs[i..], order, e, order);
    assert Process(msgs[i..], order) == Process(msgs[i..], order)[..e] + Process(msgs[i..], order)[e..];
    assert msgs[i..][..runEnd - i] == msgs[i..runEnd] && msgs[i..][runEnd - i..] == msgs[runEnd..];
    assert adjusted[runEnd..] == msgs[runEnd..];
    assert adjusted[..runEnd] == msgs[..i] + SortRun(order, msgs[i..runEnd]);
  }

  /** deepseek_v4_sort_tool_results on a copy of the conversation. */
  method SortToolResults(messages: seq<Msg>) returns (adjusted: seq<Msg>)
    ensures adjusted == Process(messages, map[])
  {
    hide CallOrder, SortRun, RunLen, Process;
    adjusted := messages;
    var callOrder: Order := map[];
    var i: nat := 0;
    while i < |adjusted|
      invariant i <= |adjusted|
      invariant adjusted[..i] + Process(adjusted[i..], callOrder) == Process(messages, map[])
      decreases |messages| - i
      invariant |adjusted| == |messages|
    {
      var msg := adjusted[i];
      if msg.role == "assistant" && msg.toolCallIds != [] {
        ProcessStep(adjusted, i, callOrder);
        callOrder := RecordOrder(msg.toolCallIds);
        i := i + 1;
        continue;
      }
      if msg.role != "user" && msg.role != "tool" {
        ProcessStep(adjusted, i, callOrder);
        i := i + 1;
        continue;
      }
      ghost var before := adjusted;
      var runEnd;
      adjusted, runEnd := SortRunAt(adjusted, i, callOrder);
      ProcessRun(before, i, callOrder, runEnd, adjusted);
      RunNotEmpty(before[i..]);
      i := runEnd;
    }
  }

  lemma RunNotEmpty(msgs: seq<Msg>)
    requires msgs != [] && InBlock(msgs[0])
    ensures RunLen(msgs) > 0
  {
  }

  /** What a caller sees: the same messages, only tool results moved, each run in call order, and stable to repeat. */
  lemma ConversationSorted(messages: seq<Msg>)
    ensures var adjusted := Process(messages, map[]);
      && multiset(adjusted) == multiset(messages)
      && (forall i :: 0 <= i < |messages| && !IsTool(messages[i]) ==> adjusted[i] == messages[i])
      && (forall lo: nat, hi: nat :: MaximalRun(messages, lo, hi) ==>
            IsStableSort(OrderAt(messages, map[], lo), Tools(messages[lo..hi]), Tools(adjusted[lo..hi])))
      && Process(adjusted, map[]) == adjusted
  {
    hide IsStableSort, Process, OrderAt;
    MessagesPreserved(messages, map[]);
    SortingTwice(messages, map[]);
    forall i | 0 <= i < |messages| ensures !IsTool(messages[i]) ==> Process(messages, map[])[i] == messages[i] {
      OthersStay(messages, map[], i);
    }
    forall lo: nat, hi: nat | MaximalRun(messages, lo, hi)
      ensures IsStableSort(OrderAt(messages, map[], lo), Tools(messages[lo..hi]),
                           Tools(Process(messages, map[])[lo..hi]))
    {
      RunEndsSorted(messages, map[], lo, hi);
    }
  }
}
