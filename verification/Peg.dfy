/** Sequence and choice parsers of common/peg-parser.cpp, over parsers that are left opaque. */
module Peg {
  datatype Outcome = Fail | Success(end: nat, nodes: seq<int>) | NeedMore(end: nat, nodes: seq<int>)

  datatype Parser = Eps | Leaf(id: nat) | Ref(rule: nat) | Seq(children: seq<Parser>) | Choice(children: seq<Parser>)

  type Rules = map<nat, Parser>

  /** What each opaque parser does at each position. */
  type Leaves = (nat, nat) -> Outcome

  function Prepend(nodes: seq<int>, o: Outcome): Outcome {
    match o
    case Fail => Fail
    case Success(end, more) => Success(end, nodes + more)
    case NeedMore(end, more) => NeedMore(end, nodes + more)
  }

  /** Parsing at a position. A rule may refer only to rules with smaller numbers than its own. */
  function Eval(leaves: Leaves, rules: Rules, limit: nat, p: Parser, pos: nat): Outcome
    decreases limit, p
  {
    match p
    case Eps => Success(pos, [])
    case Leaf(id) => leaves(id, pos)
    case Ref(rule) => if rule < limit && rule in rules then Eval(leaves, rules, rule, rules[rule], pos) else Fail
    case Seq(children) => EvalSeq(leaves, rules, limit, children, pos)
    case Choice(children) => EvalChoice(leaves, rules, limit, children, pos)
  }

  /** All children in turn; stops at the first that fails or wants more input. */
  function EvalSeq(leaves: Leaves, rules: Rules, limit: nat, children: seq<Parser>, pos: nat): Outcome
    decreases limit, children
  {
    if children == [] then Success(pos, [])
    else
      var o := Eval(leaves, rules, limit, children[0], pos);
      if o.Success? then Prepend(o.nodes, EvalSeq(leaves, rules, limit, children[1..], o.end)) else o
  }

  /** The first child that does not fail. */
  function EvalChoice(leaves: Leaves, rules: Rules, limit: nat, children: seq<Parser>, pos: nat): Outcome
    decreases limit, children
  {
    if children == [] then Fail
    else
      var o := Eval(leaves, rules, limit, children[0], pos);
      if o.Fail? then EvalChoice(leaves, rules, limit, children[1..], pos) else o
  }

  // ---------- building

  /** sequence(): children that are sequences are spliced in. */
  function FlatSeq(ps: seq<Parser>): seq<Parser>
    decreases |ps|
  {
    if ps == [] then []
    else FlatSeq(ps[..|ps| - 1]) +
         var p := ps[|ps| - 1]; if p.Seq? then p.children else [p]
  }

  function FlatChoice(ps: seq<Parser>): seq<Parser>
    decreases |ps|
  {
    if ps == [] then []
    else FlatChoice(ps[..|ps| - 1]) +
         var p := ps[|ps| - 1]; if p.Choice? then p.children else [p]
  }

  lemma {:induction false} SeqAppend(leaves: Leaves, rules: Rules, limit: nat, a: seq<Parser>, b: seq<Parser>, pos: nat)
    ensures var o := EvalSeq(leaves, rules, limit, a, pos);
      EvalSeq(leaves, rules, limit, a + b, pos) ==
      if o.Success? then Prepend(o.nodes, EvalSeq(leaves, rules, limit, b, o.end)) else o
    decreases |a|
  {
    if a == [] {
      assert a + b == b;
      PrependNothing(EvalSeq(leaves, rules, limit, b, pos));
    } else {
      assert (a + b)[1..] == a[1..] + b;
      var o := Eval(leaves, rules, limit, a[0], pos);
      if o.Success? {
        SeqAppend(leaves, rules, limit, a[1..], b, o.end);
        var q := EvalSeq(leaves, rules, limit, a[1..], o.end);
        if q.Success? {
          PrependTwice(o.nodes, q.nodes, EvalSeq(leaves, rules, limit, b, q.end));
        }
      }
    }
  }

  lemma PrependNothing(o: Outcome)
    ensures Prepend([], o) == o
  {
    if !o.Fail? {
      assert [] + o.nodes == o.nodes;
    }
  }

  lemma PrependTwice(a: seq<int>, b: seq<int>, o: Outcome)
    ensures Prepend(a, Prepend(b, o)) == Prepend(a + b, o)
  {
    if !o.Fail? {
      assert a + (b + o.nodes) == a + b + o.nodes;
    }
  }

  lemma {:induction false} ChoiceAppend(leaves: Leaves, rules: Rules, limit: nat, a: seq<Parser>, b: seq<Parser>, pos: nat)
    ensures var o := EvalChoice(leaves, rules, limit, a, pos);
      EvalChoice(leaves, rules, limit, a + b, pos) ==
      if o.Fail? then EvalChoice(leaves, rules, limit, b, pos) else o
    decreases |a|
  {
    if a == [] {
      assert a + b == b;
    } else {
      assert (a + b)[1..] == a[1..] + b;
      ChoiceAppend(leaves, rules, limit, a[1..], b, pos);
    }
  }

  lemma SeqOfOne(leaves: Leaves, rules: Rules, limit: nat, p: Parser, pos: nat)
    ensures EvalSeq(leaves, rules, limit, [p], pos) == Eval(leaves, rules, limit, p, pos)
  {
    var o := Eval(leaves, rules, limit, p, pos);
    assert [p][1..] == [];
    if o.Success? {
      assert o.nodes + [] == o.nodes;
    }
  }

  lemma ChoiceOfOne(leaves: Leaves, rules: Rules, limit: nat, p: Parser, pos: nat)
    ensures EvalChoice(leaves, rules, limit, [p], pos) == Eval(leaves, rules, limit, p, pos)
  {
    assert [p][1..] == [];
  }

  /** Splicing sequences into a sequence does not change what is parsed, nor the nodes. */
  lemma {:induction false} FlatSeqKeeps(leaves: Leaves, rules: Rules, limit: nat, ps: seq<Parser>, pos: nat)
    ensures EvalSeq(leaves, rules, limit, FlatSeq(ps), pos) == EvalSeq(leaves, rules, limit, ps, pos)
    decreases |ps|
  {
    hide Prepend;
    if ps != [] {
      var front, p := ps[..|ps| - 1], ps[|ps| - 1];
      var last := if p.Seq? then p.children else [p];
      assert ps == front + [p];
      FlatSeqKeeps(leaves, rules, limit, front, pos);
      SeqAppend(leaves, rules, limit, FlatSeq(front), last, pos);
      SeqAppend(leaves, rules, limit, front, [p], pos);
      var o := EvalSeq(leaves, rules, limit, front, pos);
      if o.Success? {
        SeqOfOne(leaves, rules, limit, p, o.end);
      }
    }
  }

  /** Splicing choices into a choice keeps the alternative that is taken. */
  lemma {:induction false} FlatChoiceKeeps(leaves: Leaves, rules: Rules, limit: nat, ps: seq<Parser>, pos: nat)
    ensures EvalChoice(leaves, rules, limit, FlatChoice(ps), pos) == EvalChoice(leaves, rules, limit, ps, pos)
    decreases |ps|
  {
    if ps != [] {
      var front, p := ps[..|ps| - 1], ps[|ps| - 1];
      var last := if p.Choice? then p.children else [p];
      assert ps == front + [p];
      FlatChoiceKeeps(leaves, rules, limit, front, pos);
      ChoiceAppend(leaves, rules, limit, FlatChoice(front), last, pos);
      ChoiceAppend(leaves, rules, limit, front, [p], pos);
      ChoiceOfOne(leaves, rules, limit, p, pos);
    }
  }

  // ---------- parsers that refer to no rule

  predicate NoRefs(p: Parser) {
    match p
    case Ref(_) => false
    case Seq(children) => forall c :: c in children ==> NoRefs(c)
    case Choice(children) => forall c :: c in children ==> NoRefs(c)
    case _ => true
  }

  /** What p does by itself. */
  function Alone(leaves: Leaves, p: Parser, pos: nat): Outcome {
    Eval(leaves, map[], 0, p, pos)
  }

  lemma {:induction false} NoRefsAlone(leaves: Leaves, rules: Rules, limit: nat, p: Parser, pos: nat)
    requires NoRefs(p)
    ensures Eval(leaves, rules, limit, p, pos) == Alone(leaves, p, pos)
    decreases p, 1
  {
    match p
    case Seq(children) => NoRefsSeq(leaves, rules, limit, children, pos);
    case Choice(children) => NoRefsChoice(leaves, rules, limit, children, pos);
    case _ =>
  }

  lemma {:induction false} NoRefsSeq(leaves: Leaves, rules: Rules, limit: nat, ps: seq<Parser>, pos: nat)
    requires forall c :: c in ps ==> NoRefs(c)
    ensures EvalSeq(leaves, rules, limit, ps, pos) == EvalSeq(leaves, map[], 0, ps, pos)
    decreases ps, 0
  {
    if ps != [] {
      NoRefsAlone(leaves, rules, limit, ps[0], pos);
      var o := Alone(leaves, ps[0], pos);
      if o.Success? {
        NoRefsSeq(leaves, rules, limit, ps[1..], o.end);
      }
    }
  }

  lemma {:induction false} NoRefsChoice(leaves: Leaves, rules: Rules, limit: nat, ps: seq<Parser>, pos: nat)
    requires forall c :: c in ps ==> NoRefs(c)
    ensures EvalChoice(leaves, rules, limit, ps, pos) == EvalChoice(leaves, map[], 0, ps, pos)
    decreases ps, 0
  {
    if ps != [] {
      NoRefsAlone(leaves, rules, limit, ps[0], pos);
      NoRefsChoice(leaves, rules, limit, ps[1..], pos);
    }
  }
}
