/** What the any-order grammar accepts: the first ordering, lexicographically, that does not fail. */
module PermuteOrders {
  import opened Masks
  import opened Peg
  import opened Permute

  // ---------- orderings

  /** All orderings of a subset of 0..n, the smallest first. */
  function Orders(n: nat, remaining: nat): seq<seq<nat>>
    decreases remaining, n + 1
  {
    if remaining == 0 then [[]] else OrdersUpTo(n, remaining, n)
  }

  function OrdersUpTo(n: nat, remaining: nat, k: nat): seq<seq<nat>>
    decreases remaining, k
  {
    if k == 0 then []
    else OrdersUpTo(n, remaining, k - 1) +
         if HasBit(remaining, k - 1) then Led(k - 1, Orders(n, Clear(remaining, k - 1))) else []
  }

  function Led(i: nat, orders: seq<seq<nat>>): (r: seq<seq<nat>>)
    ensures |r| == |orders|
    ensures forall k :: 0 <= k < |r| ==> r[k] == [i] + orders[k]
  {
    if orders == [] then [] else [[i] + orders[0]] + Led(i, orders[1..])
  }

  /** Each member of the subset exactly once. */
  ghost predicate IsOrder(order: seq<nat>, remaining: nat) {
    && (forall i: nat :: i in order <==> HasBit(remaining, i))
    && (forall j, k :: 0 <= j < k < |order| ==> order[j] != order[k])
  }

  predicate Less(a: seq<nat>, b: seq<nat>) {
    a != [] && b != [] && (a[0] < b[0] || (a[0] == b[0] && Less(a[1..], b[1..])))
  }

  lemma IsOrderLed(i: nat, rest: seq<nat>, remaining: nat)
    requires HasBit(remaining, i)
    ensures IsOrder([i] + rest, remaining) <==> IsOrder(rest, Clear(remaining, i))
  {
    var order := [i] + rest;
    assert order[1..] == rest;
    forall k: nat ensures HasBit(Clear(remaining, i), k) <==> HasBit(remaining, k) && k != i {
      ClearDropsOneBit(remaining, i, k);
    }
    if IsOrder(order, remaining) {
      assert i !in rest by {
        forall k | 0 <= k < |rest| ensures rest[k] != i {
          assert order[k + 1] == rest[k] && order[0] == i;
        }
      }
      forall k: nat ensures k in rest <==> HasBit(Clear(remaining, i), k) {
        assert k in order <==> HasBit(remaining, k);
      }
      forall j, k | 0 <= j < k < |rest| ensures rest[j] != rest[k] {
        assert rest[j] == order[j + 1] && rest[k] == order[k + 1];
      }
    } else if IsOrder(rest, Clear(remaining, i)) {
      forall k: nat ensures k in order <==> HasBit(remaining, k) {
        assert k in order <==> k == i || k in rest;
      }
      forall j, k | 0 <= j < k < |order| ensures order[j] != order[k] {
        assert order[k] == rest[k - 1];
        if j == 0 {
          assert rest[k - 1] in rest;
        } else {
          assert order[j] == rest[j - 1];
        }
      }
      assert false;
    }
  }

  lemma {:induction false} OrdersOnly(n: nat, remaining: nat, k: nat, m: nat)
    requires remaining > 0 && m < |OrdersUpTo(n, remaining, k)|
    ensures var o := OrdersUpTo(n, remaining, k)[m]; IsOrder(o, remaining) && o != [] && o[0] < k
    decreases remaining, k
  {
    hide IsOrder;
    if k > 0 {
      var before := OrdersUpTo(n, remaining, k - 1);
      if m < |before| {
        OrdersOnly(n, remaining, k - 1, m);
      } else {
        var c := Clear(remaining, k - 1);
        var rest := Orders(n, c)[m - |before|];
        if c == 0 {
          NoOrder();
          assert rest == [];
        } else {
          OrdersOnly(n, c, n, m - |before|);
        }
        IsOrderLed(k - 1, rest, remaining);
      }
    }
  }

  lemma NoOrder()
    ensures IsOrder([], 0)
  {
    forall i: nat ensures !HasBit(0, i) {
      NoBits(i);
    }
  }

  /** Every ordering of the subset is listed. */
  lemma {:induction false} OrdersAll(n: nat, remaining: nat, order: seq<nat>)
    requires remaining < Pow2(n) && IsOrder(order, remaining)
    ensures order in Orders(n, remaining)
    decreases remaining
  {
    hide Pow2, IsOrder;
    if remaining == 0 {
      EmptyOrder(order);
    } else {
      var i, rest := SplitOrder(order, remaining);
      SmallMask(remaining, n, i);
      IsOrderLed(i, rest, remaining);
      var c := Clear(remaining, i);
      OrdersAll(n, c, rest);
      var k :| 0 <= k < |Orders(n, c)| && Orders(n, c)[k] == rest;
      assert Led(i, Orders(n, c))[k] == order;
      assert order in OrdersUpTo(n, remaining, i + 1);
      OrdersKeep(n, remaining, i + 1, n, order);
    }
  }

  lemma Distinct(order: seq<nat>, remaining: nat, j: nat, k: nat)
    requires IsOrder(order, remaining) && j < k < |order|
    ensures order[j] != order[k]
  {
  }

  lemma EmptyOrder(order: seq<nat>)
    requires IsOrder(order, 0)
    ensures order == []
  {
    if order != [] {
      var i := order[0];
      assert i in order;
      NoBits(i);
      assert false;
    }
  }

  lemma SplitOrder(order: seq<nat>, remaining: nat) returns (i: nat, rest: seq<nat>)
    requires remaining > 0 && IsOrder(order, remaining)
    ensures order == [i] + rest && HasBit(remaining, i)
  {
    var b := SomeBit(remaining);
    assert b in order;
    i, rest := order[0], order[1..];
    assert i in order;
  }

  lemma {:induction false} OrdersKeep(n: nat, remaining: nat, j: nat, k: nat, order: seq<nat>)
    requires j <= k && order in OrdersUpTo(n, remaining, j)
    ensures order in OrdersUpTo(n, remaining, k)
    decreases k
  {
    if j < k {
      OrdersKeep(n, remaining, j, k - 1, order);
    }
  }

  /** The list is in increasing order. */
  lemma {:induction false} OrdersIncrease(n: nat, remaining: nat, k: nat, a: nat, b: nat)
    requires remaining > 0 && a < b < |OrdersUpTo(n, remaining, k)|
    ensures Less(OrdersUpTo(n, remaining, k)[a], OrdersUpTo(n, remaining, k)[b])
    decreases remaining, k
  {
    hide IsOrder;
    if k > 0 {
      var before := OrdersUpTo(n, remaining, k - 1);
      if b < |before| {
        OrdersIncrease(n, remaining, k - 1, a, b);
      } else {
        var c := Clear(remaining, k - 1);
        var rests := Orders(n, c);
        var q := [k - 1] + rests[b - |before|];
        if a < |before| {
          OrdersOnly(n, remaining, k - 1, a);
        } else {
          var p := [k - 1] + rests[a - |before|];
          assert c > 0;
          OrdersIncrease(n, c, n, a - |before|, b - |before|);
          assert p[1..] == rests[a - |before|] && q[1..] == rests[b - |before|];
        }
      }
    }
  }

  lemma {:induction false} LessIsStrict(a: seq<nat>, b: seq<nat>)
    requires Less(a, b)
    ensures !Less(b, a) && a != b
    decreases |a|
  {
    if a[0] == b[0] {
      LessIsStrict(a[1..], b[1..]);
    }
  }

  // ---------- parsing in an order

  predicate InRange(order: seq<nat>, n: nat) {
    forall k :: 0 <= k < |order| ==> order[k] < n
  }

  function Pick(parsers: seq<Parser>, order: seq<nat>): (r: seq<Parser>)
    requires InRange(order, |parsers|)
    ensures |r| == |order| && forall k :: 0 <= k < |r| ==> r[k] == parsers[order[k]]
  {
    if order == [] then [] else [parsers[order[0]]] + Pick(parsers, order[1..])
  }

  /** The given parsers one after the other in the given order. */
  function Run(leaves: Leaves, parsers: seq<Parser>, order: seq<nat>, pos: nat): Outcome
    requires InRange(order, |parsers|)
  {
    EvalSeq(leaves, map[], 0, Pick(parsers, order), pos)
  }

  lemma RunLed(leaves: Leaves, parsers: seq<Parser>, i: nat, rest: seq<nat>, pos: nat)
    requires i < |parsers| && InRange(rest, |parsers|)
    ensures InRange([i] + rest, |parsers|)
    ensures Run(leaves, parsers, [i] + rest, pos) ==
      var o := Alone(leaves, parsers[i], pos);
      if o.Success? then Prepend(o.nodes, Run(leaves, parsers, rest, o.end)) else o
  {
    assert ([i] + rest)[1..] == rest;
    var picked := Pick(parsers, [i] + rest);
    assert picked[1..] == Pick(parsers, rest);
  }

  predicate AllInRange(orders: seq<seq<nat>>, n: nat) {
    forall k :: 0 <= k < |orders| ==> InRange(orders[k], n)
  }

  /** The outcome of the first ordering that does not fail. */
  function FirstMatch(leaves: Leaves, parsers: seq<Parser>, orders: seq<seq<nat>>, pos: nat): Outcome
    requires AllInRange(orders, |parsers|)
    decreases |orders|
  {
    if orders == [] then Fail
    else
      assert InRange(orders[0], |parsers|);
      var o := Run(leaves, parsers, orders[0], pos);
      if o.Fail? then FirstMatch(leaves, parsers, orders[1..], pos) else o
  }

  lemma {:induction false} FirstMatchAppend(leaves: Leaves, parsers: seq<Parser>, a: seq<seq<nat>>, b: seq<seq<nat>>, pos: nat)
    requires AllInRange(a, |parsers|) && AllInRange(b, |parsers|)
    ensures AllInRange(a + b, |parsers|)
    ensures FirstMatch(leaves, parsers, a + b, pos) ==
      var o := FirstMatch(leaves, parsers, a, pos);
      if o.Fail? then FirstMatch(leaves, parsers, b, pos) else o
    decreases |a|
  {
    hide Run, InRange;
    if a == [] {
      assert a + b == b;
    } else {
      assert (a + b)[1..] == a[1..] + b;
      FirstMatchAppend(leaves, parsers, a[1..], b, pos);
    }
  }

  lemma {:induction false} FirstMatchLed(leaves: Leaves, parsers: seq<Parser>, i: nat, orders: seq<seq<nat>>, pos: nat)
    requires i < |parsers| && AllInRange(orders, |parsers|) && orders != []
    ensures AllInRange(Led(i, orders), |parsers|)
    ensures FirstMatch(leaves, parsers, Led(i, orders), pos) ==
      var o := Alone(leaves, parsers[i], pos);
      if o.Success? then Prepend(o.nodes, FirstMatch(leaves, parsers, orders, o.end)) else o
    decreases |orders|
  {
    hide Run, InRange, Alone;
    LedInRange(i, orders, |parsers|);
    assert Led(i, orders)[1..] == Led(i, orders[1..]);
    assert InRange(orders[0], |parsers|);
    RunLed(leaves, parsers, i, orders[0], pos);
    if |orders| > 1 {
      FirstMatchLed(leaves, parsers, i, orders[1..], pos);
    }
  }

  lemma LedInRange(i: nat, orders: seq<seq<nat>>, n: nat)
    requires i < n && AllInRange(orders, n)
    ensures AllInRange(Led(i, orders), n)
  {
    forall k | 0 <= k < |orders| ensures InRange(Led(i, orders)[k], n) {
      assert InRange(orders[k], n);
    }
  }

  lemma {:induction false} OrdersInRange(n: nat, remaining: nat)
    requires remaining < Pow2(n)
    ensures AllInRange(Orders(n, remaining), n)
    ensures Orders(n, remaining) != []
    decreases remaining
  {
    var orders := Orders(n, remaining);
    forall m: nat | m < |orders| ensures InRange(orders[m], n) {
      if remaining > 0 {
        OrdersOnly(n, remaining, n, m);
        forall k | 0 <= k < |orders[m]| ensures orders[m][k] < n {
          assert orders[m][k] in orders[m];
          SmallMask(remaining, n, orders[m][k]);
        }
      }
    }
    if remaining > 0 {
      var i := SomeBit(remaining);
      SmallMask(remaining, n, i);
      OrdersInRange(n, Clear(remaining, i));
      var first := [i] + Orders(n, Clear(remaining, i))[0];
      assert Led(i, Orders(n, Clear(remaining, i)))[0] == first;
      assert first in OrdersUpTo(n, remaining, i + 1);
      OrdersKeep(n, remaining, i + 1, n, first);
    }
  }

  // ---------- the grammar against the orderings

  ghost predicate Grammar(parsers: seq<Parser>, rules: Rules) {
    && (forall p :: p in parsers ==> NoRefs(p))
    && forall m: nat :: 0 < m < Pow2(|parsers|) ==> m in rules && rules[m] == RuleOf(parsers, m)
  }

  lemma BranchRuns(leaves: Leaves, parsers: seq<Parser>, rules: Rules, remaining: nat, i: nat, pos: nat)
    requires Grammar(parsers, rules) && i < |parsers| && HasBit(remaining, i)
    ensures Eval(leaves, rules, remaining, Branch(parsers, remaining, i), pos) ==
      var o := Alone(leaves, parsers[i], pos);
      var tail := Tail(Clear(remaining, i));
      if o.Success? then Prepend(o.nodes, Eval(leaves, rules, remaining, tail, o.end)) else o
  {
    hide Alone, NoRefs, RuleOf;
    var p, tail := parsers[i], Tail(Clear(remaining, i));
    FlatSeqKeeps(leaves, rules, remaining, [p, tail], pos);
    NoRefsAlone(leaves, rules, remaining, p, pos);
    assert [p, tail][1..] == [tail];
    var o := Alone(leaves, p, pos);
    if o.Success? {
      SeqOfOne(leaves, rules, remaining, tail, o.end);
    }
  }

  lemma {:induction false} TailRuns(leaves: Leaves, parsers: seq<Parser>, rules: Rules, limit: nat, remaining: nat, pos: nat)
    requires Grammar(parsers, rules) && remaining < limit && remaining < Pow2(|parsers|)
    ensures AllInRange(Orders(|parsers|, remaining), |parsers|)
    ensures Eval(leaves, rules, limit, Tail(remaining), pos) ==
            FirstMatch(leaves, parsers, Orders(|parsers|, remaining), pos)
    decreases remaining, |parsers| + 1
  {
    OrdersInRange(|parsers|, remaining);
    if remaining == 0 {
      assert Pick(parsers, []) == [];
    } else {
      AlternativesRun(leaves, parsers, rules, remaining, |parsers|, pos);
    }
  }

  lemma {:induction false} AlternativesRun(leaves: Leaves, parsers: seq<Parser>, rules: Rules, remaining: nat, k: nat, pos: nat)
    requires Grammar(parsers, rules) && 0 < remaining < Pow2(|parsers|) && k <= |parsers|
    ensures AllInRange(OrdersUpTo(|parsers|, remaining, k), |parsers|)
    ensures EvalChoice(leaves, rules, remaining, Alternatives(parsers, remaining, k), pos) ==
            FirstMatch(leaves, parsers, OrdersUpTo(|parsers|, remaining, k), pos)
    decreases remaining, k
  {
    hide Grammar, Branch, Alone, Pow2;
    if k > 0 {
      var i, n := k - 1, |parsers|;
      AlternativesRun(leaves, parsers, rules, remaining, i, pos);
      if HasBit(remaining, i) {
        var c := Clear(remaining, i);
        var o := Alone(leaves, parsers[i], pos);
        OrdersInRange(n, c);
        BranchRuns(leaves, parsers, rules, remaining, i, pos);
        FirstMatchLed(leaves, parsers, i, Orders(n, c), pos);
        if o.Success? {
          TailRuns(leaves, parsers, rules, remaining, c, o.end);
        }
        ChoiceOfOne(leaves, rules, remaining, Branch(parsers, remaining, i), pos);
        ChoiceAppend(leaves, rules, remaining, Alternatives(parsers, remaining, i), [Branch(parsers, remaining, i)], pos);
        FirstMatchAppend(leaves, parsers, OrdersUpTo(n, remaining, i), Led(i, Orders(n, c)), pos);
      } else {
        assert Alternatives(parsers, remaining, k) == Alternatives(parsers, remaining, i) + []
            == Alternatives(parsers, remaining, i);
        assert OrdersUpTo(n, remaining, k) == OrdersUpTo(n, remaining, i) + [] == OrdersUpTo(n, remaining, i);
      }
    }
  }

  // ---------- main results

  function Full(parsers: seq<Parser>): nat {
    Pow2(|parsers|) - 1
  }

  function Parse(leaves: Leaves, parsers: seq<Parser>, p: Parser, rules: Rules, pos: nat): Outcome {
    Eval(leaves, rules, Pow2(|parsers|), p, pos)
  }

  function Given(n: nat): (r: seq<nat>)
    ensures |r| == n && forall k :: 0 <= k < n ==> r[k] == k
  {
    if n == 0 then [] else Given(n - 1) + [n - 1]
  }

  lemma {:induction false} FirstMatchFinds(leaves: Leaves, parsers: seq<Parser>, orders: seq<seq<nat>>, pos: nat)
    returns (k: nat)
    requires AllInRange(orders, |parsers|)
    ensures k <= |orders|
    ensures forall j :: 0 <= j < k ==> Run(leaves, parsers, orders[j], pos).Fail?
    ensures k < |orders| ==> FirstMatch(leaves, parsers, orders, pos) == Run(leaves, parsers, orders[k], pos)
                             && !Run(leaves, parsers, orders[k], pos).Fail?
    ensures k == |orders| ==> FirstMatch(leaves, parsers, orders, pos).Fail?
    decreases |orders|
  {
    hide Run, InRange;
    if orders == [] {
      k := 0;
    } else {
      assert InRange(orders[0], |parsers|);
      if Run(leaves, parsers, orders[0], pos).Fail? {
        var m := FirstMatchFinds(leaves, parsers, orders[1..], pos);
        k := m + 1;
      } else {
        k := 0;
      }
    }
  }

  lemma FullOrder(parsers: seq<Parser>, order: seq<nat>)
    requires IsOrder(order, Full(parsers))
    ensures InRange(order, |parsers|)
  {
    forall k | 0 <= k < |order| ensures order[k] < |parsers| {
      FullMask(|parsers|, order[k]);
      assert order[k] in order;
    }
  }

  /** order is the least ordering that does not fail at pos. */
  ghost predicate Least(leaves: Leaves, parsers: seq<Parser>, order: seq<nat>, pos: nat)
    requires InRange(order, |parsers|)
  {
    && !Run(leaves, parsers, order, pos).Fail?
    && forall q :: IsOrder(q, Full(parsers)) && InRange(q, |parsers|) && Less(q, order) ==>
                     Run(leaves, parsers, q, pos).Fail?
  }

  /**
   * With two to six parsers, the grammar fails exactly where every ordering fails; otherwise its outcome, with
   * its end and its nodes, is that of the lexicographically least ordering that does not fail.
   */
  lemma PermuteTakesLeastOrder(leaves: Leaves, parsers: seq<Parser>, p: Parser, rules: Rules, pos: nat)
    requires Built(parsers, p, rules) && 2 <= |parsers| <= MAX_PERMUTE
    requires forall q :: q in parsers ==> NoRefs(q)
    ensures Parse(leaves, parsers, p, rules, pos).Fail? <==>
      forall o :: IsOrder(o, Full(parsers)) && InRange(o, |parsers|) ==> Run(leaves, parsers, o, pos).Fail?
    ensures !Parse(leaves, parsers, p, rules, pos).Fail? ==> exists o ::
      && IsOrder(o, Full(parsers)) && InRange(o, |parsers|)
      && Run(leaves, parsers, o, pos) == Parse(leaves, parsers, p, rules, pos)
      && Least(leaves, parsers, o, pos)
  {
    hide Run, IsOrder, Less, InRange, RuleOf, Eval, NoRefs, FirstMatch;
    var n, full := |parsers|, Full(parsers);
    var orders := Orders(n, full);
    assert full > 0;
    TailRuns(leaves, parsers, rules, Pow2(n), full, pos);
    var k := FirstMatchFinds(leaves, parsers, orders, pos);
    forall o | IsOrder(o, full) && InRange(o, n) && !Run(leaves, parsers, o, pos).Fail?
      ensures k < |orders| && (o == orders[k] || Less(orders[k], o))
    {
      OrdersAll(n, full, o);
      var j: nat :| j < |orders| && orders[j] == o;
      if k < j {
        OrdersIncrease(n, full, n, k, j);
      }
    }
    if k < |orders| {
      OrdersOnly(n, full, n, k);
      FullOrder(parsers, orders[k]);
      forall q | IsOrder(q, full) && InRange(q, n) && Less(q, orders[k]) ensures Run(leaves, parsers, q, pos).Fail? {
        LessIsStrict(q, orders[k]);
      }
      assert Least(leaves, parsers, orders[k], pos);
    }
  }

  /** With one parser, or more than six, only the given order is tried. */
  lemma PermuteKeepsGivenOrder(leaves: Leaves, parsers: seq<Parser>, p: Parser, rules: Rules, pos: nat)
    requires Built(parsers, p, rules) && (|parsers| <= 1 || |parsers| > MAX_PERMUTE)
    requires forall q :: q in parsers ==> NoRefs(q)
    ensures Parse(leaves, parsers, p, rules, pos) == Run(leaves, parsers, Given(|parsers|), pos)
  {
    hide NoRefs;
    var n := |parsers|;
    assert Pick(parsers, Given(n)) == parsers;
    if n > 0 {
      FlatSeqKeeps(leaves, rules, Pow2(n), parsers, pos);
      NoRefsSeq(leaves, rules, Pow2(n), parsers, pos);
    }
  }

  lemma GivenIsOrder(parsers: seq<Parser>)
    ensures IsOrder(Given(|parsers|), Full(parsers))
  {
    var n := |parsers|;
    forall i: nat ensures i in Given(n) <==> HasBit(Full(parsers), i) {
      FullMask(n, i);
      if i < n {
        assert Given(n)[i] == i;
      }
    }
  }

  /** Whatever the number of parsers, a parse that does not fail runs each of them exactly once, in some order. */
  lemma EachUsedOnce(leaves: Leaves, parsers: seq<Parser>, p: Parser, rules: Rules, pos: nat)
    requires Built(parsers, p, rules) && !Parse(leaves, parsers, p, rules, pos).Fail?
    requires forall q :: q in parsers ==> NoRefs(q)
    ensures exists o ::
      && IsOrder(o, Full(parsers)) && InRange(o, |parsers|)
      && Run(leaves, parsers, o, pos) == Parse(leaves, parsers, p, rules, pos)
  {
    hide Run, IsOrder, NoRefs, Parse, Least;
    if 2 <= |parsers| <= MAX_PERMUTE {
      PermuteTakesLeastOrder(leaves, parsers, p, rules, pos);
    } else {
      PermuteKeepsGivenOrder(leaves, parsers, p, rules, pos);
      GivenIsOrder(parsers);
      FullOrder(parsers, Given(|parsers|));
    }
  }

  /** At most one of the parsers can match at any position. */
  ghost predicate Exclusive(leaves: Leaves, parsers: seq<Parser>) {
    forall i: nat, j: nat, pos: nat :: i < j < |parsers| ==>
      Alone(leaves, parsers[i], pos).Fail? || Alone(leaves, parsers[j], pos).Fail?
  }

  lemma {:induction false} OneOrderMatches(leaves: Leaves, parsers: seq<Parser>, a: seq<nat>, b: seq<nat>, remaining: nat, pos: nat)
    requires Exclusive(leaves, parsers) && InRange(a, |parsers|) && InRange(b, |parsers|)
    requires IsOrder(a, remaining) && IsOrder(b, remaining)
    requires Run(leaves, parsers, a, pos).Success? && !Run(leaves, parsers, b, pos).Fail?
    ensures a == b
    decreases |a|
  {
    hide Run, IsOrder, Alone;
    if remaining == 0 {
      EmptyOrder(a);
      EmptyOrder(b);
    } else {
      var i, s := SplitOrder(a, remaining);
      var j, t := SplitOrder(b, remaining);
      assert a[0] == i && b[0] == j && a[1..] == s && b[1..] == t;
      RunLed(leaves, parsers, i, s, pos);
      RunLed(leaves, parsers, j, t, pos);
      assert i == j;
      IsOrderLed(i, s, remaining);
      IsOrderLed(i, t, remaining);
      OneOrderMatches(leaves, parsers, s, t, Clear(remaining, i), Alone(leaves, parsers[i], pos).end);
    }
  }

  /** Parsers that never match at the same place may come in any order: the one present is the one parsed. */
  lemma EveryOrderAccepted(leaves: Leaves, parsers: seq<Parser>, p: Parser, rules: Rules, order: seq<nat>, pos: nat)
    requires Built(parsers, p, rules) && |parsers| <= MAX_PERMUTE && forall q :: q in parsers ==> NoRefs(q)
    requires Exclusive(leaves, parsers)
    requires IsOrder(order, Full(parsers)) && InRange(order, |parsers|)
    requires Run(leaves, parsers, order, pos).Success?
    ensures Parse(leaves, parsers, p, rules, pos) == Run(leaves, parsers, order, pos)
  {
    hide Run, IsOrder, NoRefs, Parse, Least, Exclusive;
    if |parsers| < 2 {
      PermuteKeepsGivenOrder(leaves, parsers, p, rules, pos);
      GivenIsOrder(parsers);
      ShortOrder(parsers, order);
      ShortOrder(parsers, Given(|parsers|));
    } else {
      PermuteTakesLeastOrder(leaves, parsers, p, rules, pos);
      var o :| && IsOrder(o, Full(parsers)) && InRange(o, |parsers|)
               && Run(leaves, parsers, o, pos) == Parse(leaves, parsers, p, rules, pos)
               && Least(leaves, parsers, o, pos);
      LeastRuns(leaves, parsers, o, pos);
      OneOrderMatches(leaves, parsers, order, o, Full(parsers), pos);
    }
  }

  lemma LeastRuns(leaves: Leaves, parsers: seq<Parser>, o: seq<nat>, pos: nat)
    requires InRange(o, |parsers|) && Least(leaves, parsers, o, pos)
    ensures !Run(leaves, parsers, o, pos).Fail?
  {
  }

  lemma ShortOrder(parsers: seq<Parser>, order: seq<nat>)
    requires |parsers| < 2 && IsOrder(order, Full(parsers))
    ensures order == if |parsers| == 0 then [] else [0]
  {
    if |order| > 1 {
      Distinct(order, Full(parsers), 0, 1);
    }
    forall i: nat ensures HasBit(Full(parsers), i) <==> i < |parsers| {
      FullMask(|parsers|, i);
    }
    if |parsers| == 0 {
      EmptyOrder(order);
    } else {
      assert 0 in order;
      forall k | 0 <= k < |order| ensures order[k] == 0 {
        assert order[k] in order;
      }
    }
  }

  /** Some complete ordering is there to be found. */
  ghost predicate Complete(leaves: Leaves, parsers: seq<Parser>, pos: nat) {
    exists o :: IsOrder(o, Full(parsers)) && InRange(o, |parsers|) && Run(leaves, parsers, o, pos).Success?
  }

  /** The least ordering that does not fail wants more input. */
  ghost predicate LeastWaits(leaves: Leaves, parsers: seq<Parser>, pos: nat) {
    exists o :: IsOrder(o, Full(parsers)) && InRange(o, |parsers|) && Least(leaves, parsers, o, pos)
                && Run(leaves, parsers, o, pos).NeedMore?
  }

  /** A complete ordering goes unnoticed exactly when the least ordering that does not fail wants more input. */
  lemma OrderHiddenExactlyWhen(leaves: Leaves, parsers: seq<Parser>, p: Parser, rules: Rules, pos: nat)
    requires Built(parsers, p, rules) && 2 <= |parsers| <= MAX_PERMUTE
    requires forall q :: q in parsers ==> NoRefs(q)
    requires Complete(leaves, parsers, pos)
    ensures !Parse(leaves, parsers, p, rules, pos).Success? <==> LeastWaits(leaves, parsers, pos)
    ensures LeastWaits(leaves, parsers, pos) ==> Parse(leaves, parsers, p, rules, pos).NeedMore?
  {
    hide Run, IsOrder, NoRefs, Parse, Least, Built, Full, InRange;
    PermuteTakesLeastOrder(leaves, parsers, p, rules, pos);
    var o :| && IsOrder(o, Full(parsers)) && InRange(o, |parsers|)
             && Run(leaves, parsers, o, pos) == Parse(leaves, parsers, p, rules, pos)
             && Least(leaves, parsers, o, pos);
    if LeastWaits(leaves, parsers, pos) {
      var q :| && IsOrder(q, Full(parsers)) && InRange(q, |parsers|) && Least(leaves, parsers, q, pos)
               && Run(leaves, parsers, q, pos).NeedMore?;
      LeastUnique(leaves, parsers, o, q, pos);
    }
    LeastRuns(leaves, parsers, o, pos);
  }

  lemma LeastUnique(leaves: Leaves, parsers: seq<Parser>, a: seq<nat>, b: seq<nat>, pos: nat)
    requires InRange(a, |parsers|) && InRange(b, |parsers|)
    requires IsOrder(a, Full(parsers)) && IsOrder(b, Full(parsers))
    requires Least(leaves, parsers, a, pos) && Least(leaves, parsers, b, pos)
    ensures a == b
  {
    hide Run, IsOrder, Least, Less;
    LeastRuns(leaves, parsers, a, pos);
    LeastRuns(leaves, parsers, b, pos);
    if a != b {
      LessTotal(a, b, Full(parsers));
      if Less(a, b) {
        LeastBelow(leaves, parsers, b, a, pos);
      } else {
        LeastBelow(leaves, parsers, a, b, pos);
      }
      assert false;
    }
  }

  /** Two orderings of one subset are comparable. */
  lemma {:induction false} LessTotal(a: seq<nat>, b: seq<nat>, remaining: nat)
    requires IsOrder(a, remaining) && IsOrder(b, remaining)
    ensures a == b || Less(a, b) || Less(b, a)
    decreases |a|
  {
    hide IsOrder;
    if remaining == 0 {
      EmptyOrder(a);
      EmptyOrder(b);
    } else {
      var i, s := SplitOrder(a, remaining);
      var j, t := SplitOrder(b, remaining);
      assert a[0] == i && b[0] == j && a[1..] == s && b[1..] == t;
      if i == j {
        IsOrderLed(i, s, remaining);
        IsOrderLed(i, t, remaining);
        LessTotal(s, t, Clear(remaining, i));
      }
    }
  }

  function OverlapLeaves(id: nat, pos: nat): Outcome {
    if id == 0 && pos == 0 then NeedMore(1, [])
    else if id == 0 && pos == 1 then Success(2, [0])
    else if id == 1 && pos == 0 then Success(1, [1])
    else Fail
  }

  lemma OverlapRuns()
    ensures InRange([0, 1], 2) && InRange([1, 0], 2)
    ensures var parsers := [Leaf(0), Leaf(1)];
      && Run(OverlapLeaves, parsers, [1, 0], 0).Success?
      && Run(OverlapLeaves, parsers, [0, 1], 0) == NeedMore(1, [])
  {
    hide Run;
    var parsers := [Leaf(0), Leaf(1)];
    assert [1] + [0] == [1, 0] && [0] + [1] == [0, 1] && [0] + [] == [0];
    RunLed(OverlapLeaves, parsers, 1, [0], 0);
    RunLed(OverlapLeaves, parsers, 0, [1], 0);
    RunLed(OverlapLeaves, parsers, 0, [], 1);
    RunNothing(OverlapLeaves, parsers, 2);
  }

  lemma RunNothing(leaves: Leaves, parsers: seq<Parser>, pos: nat)
    ensures Run(leaves, parsers, [], pos) == Success(pos, [])
  {
  }

  lemma LeastBelow(leaves: Leaves, parsers: seq<Parser>, o: seq<nat>, q: seq<nat>, pos: nat)
    requires InRange(o, |parsers|) && Least(leaves, parsers, o, pos)
    requires IsOrder(q, Full(parsers)) && InRange(q, |parsers|) && Less(q, o)
    ensures Run(leaves, parsers, q, pos).Fail?
  {
  }

  /** Without that condition an earlier parser that is still waiting for input hides a complete ordering. */
  lemma OverlapHidesOrder(p: Parser, rules: Rules)
    requires Built([Leaf(0), Leaf(1)], p, rules)
    ensures var parsers := [Leaf(0), Leaf(1)];
      && InRange([1, 0], 2)
      && Run(OverlapLeaves, parsers, [1, 0], 0).Success?
      && Parse(OverlapLeaves, parsers, p, rules, 0).NeedMore?
  {
    hide Run, Parse, IsOrder, Least, Built, FirstMatch;
    var parsers := [Leaf(0), Leaf(1)];
    OverlapRuns();
    PermuteTakesLeastOrder(OverlapLeaves, parsers, p, rules, 0);
    GivenIsOrder(parsers);
    assert Given(2) == [0, 1];
    var o :| && IsOrder(o, Full(parsers)) && InRange(o, 2)
             && Run(OverlapLeaves, parsers, o, 0) == Parse(OverlapLeaves, parsers, p, rules, 0)
             && Least(OverlapLeaves, parsers, o, 0);
    assert Full(parsers) == 3 by { assert Pow2(2) == 4; }
    OrderOfTwo(o);
    if o == [1, 0] {
      LeastBelow(OverlapLeaves, parsers, o, [0, 1], 0);
    }
  }

  lemma OrderOfTwo(o: seq<nat>)
    requires IsOrder(o, 3)
    ensures o == [0, 1] || o == [1, 0]
  {
    if |o| > 2 {
      Distinct(o, 3, 0, 1);
      Distinct(o, 3, 1, 2);
      Distinct(o, 3, 0, 2);
    }
    forall i: nat ensures HasBit(3, i) <==> i < 2 {
      FullMask(2, i);
      assert Pow2(2) == 4;
    }
    assert 0 in o && 1 in o;
    forall k | 0 <= k < |o| ensures o[k] < 2 {
      assert o[k] in o;
    }
  }
}
