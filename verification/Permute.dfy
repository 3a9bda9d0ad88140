/** The any-order grammar builder (permute in common/chat-peg-parser.cpp): its rules, one per remaining subset. */
module Permute {
  import opened Masks
  import opened Peg

  const MAX_PERMUTE: nat := 6

  /** What is still to come: nothing, or the rule of the remaining subset. */
  function Tail(remaining: nat): Parser {
    if remaining == 0 then Eps else Ref(remaining)
  }

  function Branch(parsers: seq<Parser>, remaining: nat, i: nat): Parser
    requires i < |parsers| && HasBit(remaining, i)
  {
    Seq(FlatSeq([parsers[i], Tail(Clear(remaining, i))]))
  }

  function Alternatives(parsers: seq<Parser>, remaining: nat, k: nat): seq<Parser>
    requires k <= |parsers|
  {
    if k == 0 then []
    else Alternatives(parsers, remaining, k - 1) +
         if HasBit(remaining, k - 1) then [Branch(parsers, remaining, k - 1)] else []
  }

  function RuleOf(parsers: seq<Parser>, remaining: nat): Parser {
    Choice(Alternatives(parsers, remaining, |parsers|))
  }

  /** Every memoised rule is the one of its subset, and the subsets of a memoised subset are memoised. */
  ghost predicate Memo(parsers: seq<Parser>, rules: Rules) {
    && (forall m: nat :: m in rules ==> 0 < m < Pow2(|parsers|) && rules[m] == RuleOf(parsers, m))
    && (forall m: nat, s: nat :: m in rules && s != 0 && Subset(s, m) ==> s in rules)
  }

  /** s has been built by the branches below i. */
  ghost predicate Visited(remaining: nat, i: nat, s: nat) {
    s != 0 && exists j: nat :: j < i && HasBit(remaining, j) && Subset(s, Clear(remaining, j))
  }

  lemma VisitedNext(remaining: nat, i: nat, s: nat)
    ensures Visited(remaining, i + 1, s) <==>
            Visited(remaining, i, s) || (s != 0 && HasBit(remaining, i) && Subset(s, Clear(remaining, i)))
  {
    hide HasBit, Clear, Subset;
  }

  lemma VisitedAll(remaining: nat, n: nat, s: nat)
    requires remaining < Pow2(n)
    ensures s != 0 && Subset(s, remaining) <==> Visited(remaining, n, s) || (s == remaining && s != 0)
  {
    hide Pow2;
    if s != 0 && Subset(s, remaining) && s != remaining {
      var j := ProperSubset(s, remaining);
      SmallMask(remaining, n, j);
    }
    if Visited(remaining, n, s) {
      var j: nat :| j < n && HasBit(remaining, j) && Subset(s, Clear(remaining, j));
      ClearIsSubset(remaining, j);
    }
  }

  lemma MemoGrows(parsers: seq<Parser>, rules: Rules, remaining: nat)
    requires Memo(parsers, rules) && 0 < remaining < Pow2(|parsers|)
    requires forall s: nat :: s != 0 && Subset(s, remaining) && s != remaining ==> s in rules
    ensures Memo(parsers, rules[remaining := RuleOf(parsers, remaining)])
  {
    hide RuleOf, Subset, Pow2;
  }

  lemma ChoiceOr(alternatives: seq<Parser>, p: Parser)
    requires p.Seq?
    ensures FlatChoice([Choice(alternatives), p]) == alternatives + [p]
  {
    var a := Choice(alternatives);
    assert [a][..0] == [] && [a, p][..1] == [a];
    assert FlatChoice([a]) == [] + alternatives == alternatives;
  }

  lemma EmptySubset(s: nat)
    ensures s != 0 && Subset(s, 0) ==> false
  {
    if s != 0 && Subset(s, 0) {
      var i := SomeBit(s);
      Member(s, 0, i);
      NoBits(i);
    }
  }

  /** The recursive builder and its memo, keyed by the bit mask of what remains. */
  class Permuter {
    const parsers: seq<Parser>
    var rules: Rules

    constructor (parsers: seq<Parser>)
      ensures this.parsers == parsers && rules == map[]
    {
      this.parsers := parsers;
      rules := map[];
    }

    method RemainingOf(remaining: nat) returns (p: Parser)
      requires remaining < Pow2(|parsers|) && Memo(parsers, rules)
      modifies this
      ensures p == Tail(remaining)
      ensures Memo(parsers, rules)
      ensures forall s: nat :: s in rules <==> s in old(rules) || (s != 0 && Subset(s, remaining))
      decreases remaining
    {
      hide HasBit, Subset, Pow2, FlatSeq, FlatChoice, Visited;
      if remaining == 0 {
        forall s: nat ensures s != 0 ==> !Subset(s, 0) {
          EmptySubset(s);
        }
        return Eps;
      }
      if remaining in rules {
        return Ref(remaining);
      }
      var alternatives := Choice([]);
      NothingVisited(remaining);
      for i := 0 to |parsers|
        invariant Memo(parsers, rules)
        invariant alternatives == Choice(Alternatives(parsers, remaining, i))
        invariant forall s: nat :: s in rules <==> s in old(rules) || Visited(remaining, i, s)
      {
        forall s: nat ensures Visited(remaining, i + 1, s) <==>
          Visited(remaining, i, s) || (s != 0 && HasBit(remaining, i) && Subset(s, Clear(remaining, i)))
        {
          VisitedNext(remaining, i, s);
        }
        if HasBit(remaining, i) {
          var tail := RemainingOf(Clear(remaining, i));
          var branch := Seq(FlatSeq([parsers[i], tail]));
          ChoiceOr(alternatives.children, branch);
          alternatives := Choice(FlatChoice([alternatives, branch]));
        }
      }
      forall s: nat
        ensures s != 0 && Subset(s, remaining) <==> Visited(remaining, |parsers|, s) || (s == remaining && s != 0)
      {
        VisitedAll(remaining, |parsers|, s);
      }
      MemoGrows(parsers, rules, remaining);
      rules := rules[remaining := alternatives];
      return Ref(remaining);
    }
  }

  lemma NothingVisited(remaining: nat)
    ensures forall s: nat :: !Visited(remaining, 0, s)
  {
  }

  // ---------- the result

  /** The parser that is returned and the rules it may refer to. */
  ghost predicate Built(parsers: seq<Parser>, p: Parser, rules: Rules) {
    var n := |parsers|;
    if n == 0 then p == Eps && rules == map[]
    else if n == 1 || n > MAX_PERMUTE then p == Seq(FlatSeq(parsers)) && rules == map[]
    else p == Ref(Pow2(n) - 1) && forall m: nat :: (m in rules <==> 0 < m < Pow2(n)) && (m in rules ==> rules[m] == RuleOf(parsers, m))
  }

  method BuildPermute(parsers: seq<Parser>) returns (p: Parser, rules: Rules)
    ensures Built(parsers, p, rules)
  {
    if |parsers| == 0 {
      return Eps, map[];
    }
    if |parsers| == 1 || |parsers| > MAX_PERMUTE {
      return Seq(FlatSeq(parsers)), map[];
    }
    var permuter := new Permuter(parsers);
    p := permuter.RemainingOf(Pow2(|parsers|) - 1);
    rules := permuter.rules;
    forall m: nat ensures m in rules <==> 0 < m < Pow2(|parsers|) {
      SubsetsOfFull(|parsers|, m);
    }
    assert Pow2(|parsers|) > 1;
  }

  /** The numbers from 1 to k. */
  function UpTo(k: nat): (r: set<nat>)
    ensures forall m: nat :: m in r <==> 0 < m <= k
    ensures |r| == k
  {
    if k == 0 then {} else UpTo(k - 1) + {k}
  }

  /** One rule per non-empty subset: 2^n - 1 of them, not one per ordering. */
  lemma RuleCount(parsers: seq<Parser>, p: Parser, rules: Rules)
    requires Built(parsers, p, rules)
    ensures |rules| == if 2 <= |parsers| <= 6 then Pow2(|parsers|) - 1 else 0
  {
    if 2 <= |parsers| <= MAX_PERMUTE {
      var top: nat := Pow2(|parsers|) - 1;
      assert rules.Keys == UpTo(top);
      assert |rules| == |rules.Keys|;
    }
  }
}
