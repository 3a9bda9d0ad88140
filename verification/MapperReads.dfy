/**
 What the tool-call mapper reads of a parse: most nodes leave it as it is, and of some it takes
 that they are there but not their text.
 */
module MapperReads {
  import opened Ast
  import opened ToolMapper

  /** The nodes that change the mapper's state. */
  predicate HasEffect(e: Event) {
    match e.tag
    case Tool => false
    case ToolArg => false
    case ToolArgObject => false
    case ToolArgArray => false
    case ToolArgItem => false
    case OtherTag => false
    case ToolArgs => !SkippedArgs(e)
    case _ => true
  }

  /** The nodes of which only the tag matters. */
  predicate Marks(t: Tag) {
    t == ToolOpen || t == ToolClose || t == ToolArgOpen || t == ToolArgClose
  }

  /** What is read of one node. */
  function Read(e: Event): seq<Event> {
    if !HasEffect(e) then [] else if Marks(e.tag) then [Event(e.tag, "")] else [e]
  }

  function Digest(es: seq<Event>): seq<Event>
    decreases es
  {
    if es == [] then [] else Read(es[0]) + Digest(es[1..])
  }

  lemma Regroup(x: seq<Event>, y: seq<Event>, z: seq<Event>)
    ensures x + (y + z) == x + y + z
  {
  }

  lemma {:induction false} DigestAppend(a: seq<Event>, b: seq<Event>)
    ensures Digest(a + b) == Digest(a) + Digest(b)
    decreases a
  {
    hide Read;
    if a == [] {
      assert a + b == b;
    } else {
      DigestAppend(a[1..], b);
      assert (a + b)[0] == a[0] && (a + b)[1..] == a[1..] + b;
      Regroup(Read(a[0]), Digest(a[1..]), Digest(b));
    }
  }

  lemma DigestOne(e: Event)
    ensures Digest([e]) == Read(e)
  {
    assert [e][1..] == [];
  }

  /** A node without effect leaves the state, and one that only marks has the effect of its tag. */
  lemma ReadIsStep(st: State, e: Event)
    requires Sound(st)
    ensures !HasEffect(e) ==> Safe(st, e) && Step(st, e) == st
    ensures Marks(e.tag) ==> (Safe(st, e) <==> Safe(st, Event(e.tag, "")))
    ensures Marks(e.tag) && Safe(st, e) ==> Step(st, e) == Step(st, Event(e.tag, ""))
  {
    hide TrimTrailing, CloseStep, WithTarget, Target;
  }

  /** The run of a parse is that of what is read of it. */
  lemma {:induction false} DigestRuns(st: State, es: seq<Event>)
    requires Sound(st)
    ensures SafeRun(st, es) <==> SafeRun(st, Digest(es))
    ensures SafeRun(st, es) ==> RunAll(st, es) == RunAll(st, Digest(es))
    decreases es
  {
    hide Step, Safe, HasEffect, Marks;
    if es != [] {
      var e := es[0];
      ReadIsStep(st, e);
      if !HasEffect(e) {
        assert Digest(es) == Digest(es[1..]);
        DigestRuns(st, es[1..]);
      } else {
        var seen := Read(e);
        assert Digest(es)[0] == seen[0] && Digest(es)[1..] == Digest(es[1..]);
        if Safe(st, e) { DigestRuns(Step(st, e), es[1..]); }
      }
    }
  }
}
