/**
 From growing parse trees to deltas: whichever mapper turns the trees into messages, the deltas
 between successive messages rebuild the last one exactly.
 */
module Pipeline {
  import opened Ast
  import opened MiniMaxJson
  import opened MessageDiff
  import opened Streaming
  import ToolMapper
  import MapperObject
  import MapperStream
  import MapperTrees

  /** The mapper of a format: a visitor of its own, or the tag-driven one. */
  datatype Mapper = Visitor(format: Format) | Tagged

  /** The mapper never reads a discarded call. */
  predicate Readable(m: Mapper, ns: seq<Node>) {
    m.Tagged? ==> ToolMapper.SafeRun(ToolMapper.INITIAL, MapperObject.Preorder(ns))
  }

  function MessageOf(m: Mapper, ns: seq<Node>): Msg
    requires Readable(m, ns)
  {
    match m
    case Visitor(f) => VisitAll(f, ns)
    case Tagged => MapperStream.Message(MapperObject.Preorder(ns))
  }

  /** What the mapper needs of a parse and the next one. */
  predicate NextParse(m: Mapper, a: seq<Node>, b: seq<Node>) {
    match m
    case Visitor(_) => AllAtomic(a) && GrowsAll(a, b, true)
    case Tagged => MapperTrees.NextTree(a, b)
  }

  lemma NextMessage(m: Mapper, a: seq<Node>, b: seq<Node>)
    requires NextParse(m, a, b)
    ensures Readable(m, a) && Readable(m, b) && Extends(MessageOf(m, a), MessageOf(m, b))
  {
    hide Extends, VisitAll, MapperStream.Message, MapperTrees.NextTree, AllAtomic, GrowsAll;
    match m
    case Visitor(f) => VisitAllGrows(f, a, b, true);
    case Tagged => MapperTrees.TreeMessageGrows(a, b);
  }

  lemma NothingYet(m: Mapper)
    ensures Readable(m, []) && MessageOf(m, []) == EMPTY
  {
  }

  /** Successive parses of a growing output. */
  predicate GrowingParses(m: Mapper, prv: seq<Node>, parses: seq<seq<Node>>)
    decreases parses
  {
    parses == [] || (NextParse(m, prv, parses[0]) && GrowingParses(m, parses[0], parses[1..]))
  }

  predicate AllReadable(m: Mapper, parses: seq<seq<Node>>) {
    forall i :: 0 <= i < |parses| ==> Readable(m, parses[i])
  }

  function Messages(m: Mapper, parses: seq<seq<Node>>): seq<Msg>
    requires AllReadable(m, parses)
  {
    seq(|parses|, i requires 0 <= i < |parses| => MessageOf(m, parses[i]))
  }

  lemma {:induction false} MessagesContinue(m: Mapper, prv: seq<Node>, parses: seq<seq<Node>>)
    requires Readable(m, prv) && GrowingParses(m, prv, parses)
    ensures AllReadable(m, parses) && Continues(MessageOf(m, prv), Messages(m, parses))
    decreases parses
  {
    hide Extends, MessageOf, Readable, NextParse;
    if parses != [] {
      NextMessage(m, prv, parses[0]);
      MessagesContinue(m, parses[0], parses[1..]);
      forall i | 0 <= i < |parses| ensures Readable(m, parses[i]) {
        if i > 0 { assert parses[i] == parses[1..][i - 1]; }
      }
      assert Messages(m, parses)[1..] == Messages(m, parses[1..]);
    }
  }

  /**
   However a growing output is cut into parses: no discarded call is read, computing deltas between
   successive messages never fails, and a client that starts empty and applies them all holds
   exactly the message of the last parse, tool arguments included.
   */
  lemma PipelineReplays(m: Mapper, parses: seq<seq<Node>>)
    requires parses != [] && GrowingParses(m, [], parses)
    ensures AllReadable(m, parses)
    ensures StreamDiffs(EMPTY, Messages(m, parses)).Ok?
    ensures Replay(EMPTY, StreamDiffs(EMPTY, Messages(m, parses)).value) == MessageOf(m, parses[|parses| - 1])
  {
    hide Replay, StreamDiffs, Continues, GrowingParses, MessageOf, Readable;
    NothingYet(m);
    MessagesContinue(m, [], parses);
    StreamReplays(EMPTY, Messages(m, parses));
  }
}
