/**
 Cuts of a model output at which a node that looks complete still grows, or one that was only
 tried goes again: all of them are steps of the streams that `Pipeline` is about.
 */
module StreamCuts {
  import opened Ast
  import opened JsonText
  import opened GemmaJson
  import opened MiniMaxJson
  import opened MessageDiff
  import opened Streaming
  import opened Pipeline
  import ToolMapper
  import MapperReads
  import MapperOrder
  import MapperStream
  import MapperTrees

  function Rule(rule: Rule, text: string, children: seq<Node>, partial: bool): Node {
    Node(rule, OtherTag, text, children, partial)
  }

  function Tagging(tag: Tag, text: string, children: seq<Node>, partial: bool): Node {
    Node(OtherRule, tag, text, children, partial)
  }

  lemma OnlyGrows(a: Node, b: Node, loose: bool)
    requires Grows(a, b)
    ensures GrowsAll([a], [b], loose)
  {
    hide Grows, Blank, Live;
    assert [a][..0] == [b][..0];
    if loose { OneIsLoose(a, b); }
  }

  lemma SecondGrows(x: Node, a: Node, b: Node, loose: bool)
    requires Grows(a, b)
    ensures GrowsAll([x, a], [x, b], loose)
  {
    hide Grows, Blank, Live;
    assert [x, a][..1] == [x] == [x, b][..1];
    assert GrowsAll([x, a], [x, b], false);
    if loose { StrictIsLoose([x, a], [x, b], false); }
  }

  /** A node that may grow does so when its children do. */
  lemma Wraps(a: Node, b: Node)
    requires (a.partial || !Closes(a)) && a.rule == b.rule && a.tag == b.tag && !IsLeaf(a)
    requires (HasText(a) ==> a.text <= b.text) && GrowsAll(a.children, b.children, a.rule == OtherRule)
    ensures Grows(a, b)
  {
    hide GrowsAll;
  }

  /** A leaf with nothing inside that does not close. */
  lemma LeafGrowsTo(a: Node, b: Node)
    requires (a.partial || !Closes(a)) && a.rule == b.rule && a.tag == b.tag && IsLeaf(a)
    requires a.text <= b.text && a.children == b.children == []
    ensures Grows(a, b)
  {
  }

  lemma AtomicLeaf(n: Node)
    requires n.children == [] && (n.partial ==> n.tag != ToolName && n.tag != ToolArgName)
    ensures AtomicNames(n)
  {
  }

  lemma AtomicOver(n: Node)
    requires AllAtomic(n.children) && (n.partial ==> n.tag != ToolName && n.tag != ToolArgName)
    ensures AtomicNames(n)
  {
    hide AllAtomic;
  }

  lemma AtomicOne(n: Node)
    requires AtomicNames(n)
    ensures AllAtomic([n])
  {
    hide AtomicNames;
  }

  lemma AtomicTwo(n: Node, m: Node)
    requires AtomicNames(n) && AtomicNames(m)
    ensures AllAtomic([n, m])
  {
    hide AtomicNames;
  }

  /** A node around one leaf. */
  lemma AtomicAround(n: Node)
    requires |n.children| == 1 && n.children[0].children == [] && !n.children[0].partial
    requires n.tag != ToolName && n.tag != ToolArgName
    ensures AtomicNames(n)
  {
    hide AtomicNames, AllAtomic;
    AtomicLeaf(n.children[0]);
    AtomicOne(n.children[0]);
    assert n.children == [n.children[0]];
    AtomicOver(n);
  }

  // ----- Gemma 4: inside a call -----

  function GemmaCall(name: string, text: string, dict: Node): Node {
    Tagging(Tool, name + text,
            [Tagging(ToolOpen, name, [Tagging(ToolName, name, [], false)], false), Tagging(ToolArgs, text, [dict], true)],
            true)
  }

  lemma CallAtomic(name: string, text: string, dict: Node)
    requires AtomicNames(dict)
    ensures AllAtomic([GemmaCall(name, text, dict)])
  {
    hide AtomicNames, AllAtomic;
    var n := GemmaCall(name, text, dict);
    AtomicAround(n.children[0]);
    AtomicOne(dict);
    AtomicOver(n.children[1]);
    AtomicTwo(n.children[0], n.children[1]);
    AtomicOver(n);
    AtomicOne(n);
  }

  lemma CallGrows(name: string, t: string, t': string, d: Node, d': Node)
    requires Grows(d, d') && AtomicNames(d)
    ensures NextParse(Visitor(Gemma4), [GemmaCall(name, t, d)], [GemmaCall(name, t', d')])
  {
    hide Grows, GrowsAll, AllAtomic;
    var a, b := GemmaCall(name, t, d), GemmaCall(name, t', d');
    OnlyGrows(d, d', true);
    Wraps(a.children[1], b.children[1]);
    SecondGrows(a.children[0], a.children[1], b.children[1], true);
    Wraps(a, b);
    OnlyGrows(a, b, true);
    CallAtomic(name, t, d);
  }

  /** `{key` cut inside the key: its characters are complete whenever the output ends. */
  function CutKey(key: string): Node {
    Rule(GemmaDict, "{" + key,
         [Rule(GemmaDictKv, key, [Rule(GemmaDictKey, key, [Rule(GemmaDictKeyName, key, [], false)], true)], true)], true)
  }

  lemma KeyCutGrows(name: string, a: string, b: string)
    requires a <= b
    ensures NextParse(Visitor(Gemma4), [GemmaCall(name, "{" + a, CutKey(a))], [GemmaCall(name, "{" + b, CutKey(b))])
  {
    hide Grows, NextParse, AtomicNames;
    CutKeyGrows(a, b);
    CutKeyAtomic(a);
    CallGrows(name, "{" + a, "{" + b, CutKey(a), CutKey(b));
  }

  lemma CutKeyGrows(a: string, b: string)
    requires a <= b
    ensures Grows(CutKey(a), CutKey(b))
  {
    hide Grows, GrowsAll;
    var x, y := CutKey(a), CutKey(b);
    var kv, kv' := x.children[0], y.children[0];
    var k, k' := kv.children[0], kv'.children[0];
    LeafGrowsTo(k.children[0], k'.children[0]);
    OnlyGrows(k.children[0], k'.children[0], false);
    Wraps(k, k');
    OnlyGrows(k, k', false);
    Wraps(kv, kv');
    OnlyGrows(kv, kv', false);
    Wraps(x, y);
  }

  lemma CutKeyAtomic(key: string)
    ensures AtomicNames(CutKey(key))
  {
    hide AtomicNames, AllAtomic;
    var kv := CutKey(key).children[0];
    AtomicAround(kv.children[0]);
    AtomicOne(kv.children[0]);
    AtomicOver(kv);
    AtomicOne(kv);
    AtomicOver(CutKey(key));
  }

  /** `{key:` and then a value of which nothing is there yet, or one that is not a string. */
  function CutValue(key: string, value: Node): Node {
    var text := key + ":" + value.text;
    Rule(GemmaDict, "{" + text,
         [Rule(GemmaDictKv, text,
               [Rule(GemmaDictKey, key + ":", [Rule(GemmaDictKeyName, key, [], false)], false),
                Rule(GemmaValue, value.text, [value], true)], true)], true)
  }

  lemma CutValueAtomic(key: string, value: Node)
    requires AtomicNames(value)
    ensures AtomicNames(CutValue(key, value))
  {
    hide AtomicNames, AllAtomic;
    var kv := CutValue(key, value).children[0];
    AtomicAround(kv.children[0]);
    AtomicOne(value);
    AtomicOver(kv.children[1]);
    AtomicTwo(kv.children[0], kv.children[1]);
    AtomicOver(kv);
    AtomicOne(kv);
    AtomicOver(CutValue(key, value));
  }

  lemma CutValueGrows(key: string, a: Node, b: Node)
    requires Grows(a, b) && a.text <= b.text
    ensures Grows(CutValue(key, a), CutValue(key, b))
  {
    hide Grows, GrowsAll;
    var x, y := CutValue(key, a), CutValue(key, b);
    var kv, kv' := x.children[0], y.children[0];
    OnlyGrows(a, b, false);
    Wraps(kv.children[1], kv'.children[1]);
    SecondGrows(kv.children[0], kv.children[1], kv'.children[1], false);
    assert key + ":" + a.text <= key + ":" + b.text;
    Wraps(kv, kv');
    OnlyGrows(kv, kv', false);
    assert "{" + (key + ":" + a.text) <= "{" + (key + ":" + b.text);
    Wraps(x, y);
  }

  /** The first alternative leaves an empty string node, in whose place the value then stands. */
  lemma ValueCutGrows(name: string, key: string, value: Node)
    requires value.tag == OtherTag
    ensures var none := CutValue(key, Rule(GemmaString, "", [], true));
            var some := CutValue(key, value);
            NextParse(Visitor(Gemma4), [GemmaCall(name, none.text, none)], [GemmaCall(name, some.text, some)])
  {
    var empty := Rule(GemmaString, "", [], true);
    assert Grows(empty, value);
    hide Grows, NextParse, AtomicNames;
    CutValueGrows(key, empty, value);
    AtomicLeaf(empty);
    CutValueAtomic(key, empty);
    CallGrows(name, CutValue(key, empty).text, CutValue(key, value).text, CutValue(key, empty), CutValue(key, value));
  }

  // ----- MiniMax M3: the end of an array -----

  /** A call with one argument, whose value is an array of these nodes. */
  function ArrayCall(name: string, key: string, text: string, items: seq<Node>, partial: bool): Node {
    Tagging(Tool, text,
            [Tagging(ToolOpen, name, [Tagging(ToolName, name, [], false)], false),
             Tagging(ToolArg, text,
                     [Tagging(ToolArgOpen, key, [Tagging(ToolArgName, key, [], false)], false),
                      Tagging(ToolArgArray, text, items, partial)], true)], true)
  }

  /** What the beginning of a tag leaves, which may open an item or close the array. */
  function TriedItem(tag: string): Node {
    Rule(OtherRule, tag, [Tagging(ToolArgItem, tag, [], true)], true)
  }

  /** The tag closes the array: the tried item is gone, and the text of the array gets shorter. */
  lemma ArrayEndGrows(name: string, key: string, text: string, text': string, tag: string, items: seq<Node>)
    requires AllAtomic(items)
    ensures var a := ArrayCall(name, key, text, items + [TriedItem(tag)], true);
            var b := ArrayCall(name, key, text', items, false);
            NextParse(Visitor(MiniMaxM3), [a], [b])
  {
    hide Grows, GrowsAll, AllAtomic, AtomicNames;
    var tried := TriedItem(tag);
    TriedItemsLoose(items, tag);
    ArrayCallGrows(name, key, text, text', items + [tried], items);
    TriedItemIsBlank(tag);
    ItemsAtomic(items, tried);
    ArrayCallAtomic(name, key, text, items + [tried]);
    OnlyGrows(ArrayCall(name, key, text, items + [tried], true), ArrayCall(name, key, text', items, false), true);
  }

  lemma TriedItemsLoose(items: seq<Node>, tag: string)
    ensures GrowsAll(items + [TriedItem(tag)], items, true)
  {
    hide GrowsAll, Blank;
    TriedItemIsBlank(tag);
    var none: seq<Node> := [];
    LoosePrefix(none, none);
    assert none + none == none;
    LooseInContext(items, none, none, [TriedItem(tag)], none);
    assert items + none + [TriedItem(tag)] == items + [TriedItem(tag)] && items + none + none == items;
  }

  lemma ArrayCallGrows(name: string, key: string, text: string, text': string, items: seq<Node>, items': seq<Node>)
    requires GrowsAll(items, items', true)
    ensures Grows(ArrayCall(name, key, text, items, true), ArrayCall(name, key, text', items', false))
  {
    hide Grows, GrowsAll;
    var a, b := ArrayCall(name, key, text, items, true), ArrayCall(name, key, text', items', false);
    var x, y := a.children[1], b.children[1];
    Wraps(x.children[1], y.children[1]);
    SecondGrows(x.children[0], x.children[1], y.children[1], true);
    Wraps(x, y);
    SecondGrows(a.children[0], x, y, true);
    Wraps(a, b);
  }

  lemma ItemsAtomic(items: seq<Node>, n: Node)
    requires AllAtomic(items) && AtomicNames(n)
    ensures AllAtomic(items + [n])
  {
    hide AtomicNames;
  }

  lemma BlankOver(n: Node)
    requires n.rule == OtherRule && (n.tag == OtherTag || n.tag == ToolArgItem) && AllBlank(n.children)
    ensures Blank(n)
  {
    hide AllBlank;
  }

  lemma BlankOne(n: Node)
    requires Blank(n)
    ensures AllBlank([n])
  {
    hide Blank;
  }

  lemma TriedItemIsBlank(tag: string)
    ensures AllBlank([TriedItem(tag)]) && AtomicNames(TriedItem(tag))
  {
    var n := TriedItem(tag);
    var item := n.children[0];
    assert AllBlank(item.children);
    hide AllBlank, AllAtomic, Blank, AtomicNames;
    BlankOver(item);
    BlankOne(item);
    BlankOver(n);
    BlankOne(n);
    AtomicLeaf(item);
    AtomicOne(item);
    AtomicOver(n);
  }

  lemma ArrayCallAtomic(name: string, key: string, text: string, items: seq<Node>)
    requires AllAtomic(items)
    ensures AllAtomic([ArrayCall(name, key, text, items, true)])
  {
    hide AtomicNames, AllAtomic;
    var n := ArrayCall(name, key, text, items, true);
    var arg := n.children[1];
    AtomicAround(arg.children[0]);
    AtomicOver(arg.children[1]);
    AtomicTwo(arg.children[0], arg.children[1]);
    AtomicOver(arg);
    AtomicAround(n.children[0]);
    AtomicTwo(n.children[0], arg);
    AtomicOver(n);
    AtomicOne(n);
  }

  // ----- MiniMax M3: a value of several types -----

  /** A call with one argument that is being written. */
  function OneArgument(name: string, key: string, value: Node): Node {
    Tagging(Tool, "",
            [Tagging(ToolOpen, name, [Tagging(ToolName, name, [], false)], false),
             Tagging(ToolArg, "", [Tagging(ToolArgOpen, key, [Tagging(ToolArgName, key, [], false)], false), value], true)],
            true)
  }

  lemma FindInside(n: Node, inner: Node, rest: seq<Node>, tag: Tag, depth: nat)
    requires depth > 1 && n.tag != tag && n.children == [inner] && inner.tag == tag
    ensures FindByTag([n] + rest, tag, depth) == [inner]
  {
    assert FindByTag(n.children, tag, depth - 1) == [inner];
    assert ([n] + rest)[1..] == rest;
  }

  lemma ArgumentJson(name: string, key: string, value: Node)
    requires IsValueTag(value.tag)
    ensures EntryJson(OneArgument(name, key, value).children[1], true) == Quoted(key) + ":" + ValueJson([value], false)
  {
    hide FindByTag, ValueJson;
    var arg := OneArgument(name, key, value).children[1];
    FindInside(arg.children[0], arg.children[0].children[0], [value], ToolArgName, 3);
    assert arg.children == [arg.children[0]] + [value] && arg.children[1..] == [value];
    assert ValueOf(arg.children) == [value];
  }

  lemma OneEntry(e: Node, bound: nat)
    requires Size(e) < bound
    ensures EntriesJson([e], true, bound) == EntryJson(e, true)
  {
    hide EntryJson, Size;
    assert [e][..0] == [];
    NoEntries(bound);
  }

  lemma ChildIsSmaller(n: Node, i: nat)
    requires i < |n.children|
    ensures Size(n.children[i]) < Size(n)
  {
    MemberSize(n.children, i);
  }

  lemma CollectArgument(opener: Node, arg: Node)
    requires opener.tag != ToolArg && arg.tag == ToolArg
    requires |opener.children| == 1 && opener.children[0].tag != ToolArg && opener.children[0].children == []
    ensures Collect([opener, arg], ToolArg) == [arg]
  {
    hide Collect, Size, SizeAll;
    CollectCons([opener, arg], ToolArg);
    CollectOne(arg, ToolArg);
    CollectOne(opener.children[0], ToolArg);
    CollectNothing(ToolArg);
    assert opener.children == [opener.children[0]];
    assert [opener, arg][1..] == [arg];
  }

  lemma OneArgumentJson(name: string, key: string, value: Node)
    requires IsValueTag(value.tag)
    ensures CallsOf(MiniMaxM3, OneArgument(name, key, value))
            == [ToolCall(name, "{" + (Quoted(key) + ":" + ValueJson([value], false)), "")]
  {
    hide FindByTag, ValueJson, EntryJson, EntriesJson, Collect, Size;
    var n := OneArgument(name, key, value);
    var opener, arg := n.children[0], n.children[1];
    FindInside(opener, opener.children[0], [arg], ToolName, 3);
    assert n.children == [opener] + [arg];
    CollectArgument(opener, arg);
    ArgumentJson(name, key, value);
    ChildIsSmaller(n, 1);
    OneEntry(arg, Size(n));
    assert "{" + EntryJson(arg, true) + "" == "{" + EntryJson(arg, true);
  }

  lemma OneCall(c: ToolCall, d: ToolCall)
    ensures Extends(EMPTY.(toolCalls := [c]), EMPTY.(toolCalls := [d])) <==> CallExtends(c, d)
  {
    hide CallExtends;
    assert [c][..0] == [d][..0];
  }

  lemma SameBefore(front: string, x: string, y: string)
    ensures "{" + (front + x) <= "{" + (front + y) <==> x <= y
  {
    MapperStream.SameStart("{", front + x, front + y);
    MapperStream.SameStart(front, x, y);
  }

  /**
   Whatever the alternatives of a value are: taking another one for it continues the message if and
   only if what had been written of the first begins what is written now.
   */
  lemma UnionExactlyWhen(name: string, key: string, x: Node, y: Node)
    requires IsValueTag(x.tag) && IsValueTag(y.tag)
    ensures Extends(VisitAll(MiniMaxM3, [OneArgument(name, key, x)]), VisitAll(MiniMaxM3, [OneArgument(name, key, y)]))
            <==> ValueJson([x], false) <= ValueJson([y], false)
  {
    hide CallsOf, ValueJson, Extends, VisitAll, Quoted;
    var vx, vy := ValueJson([x], false), ValueJson([y], false);
    OneArgumentJson(name, key, x);
    OneArgumentJson(name, key, y);
    VisitOne(MiniMaxM3, OneArgument(name, key, x));
    VisitOne(MiniMaxM3, OneArgument(name, key, y));
    var front := Quoted(key) + ":";
    OneCall(ToolCall(name, "{" + (front + vx), ""), ToolCall(name, "{" + (front + vy), ""));
    SameBefore(front, vx, vy);
  }

  /** An object alternative opens its brace before a number shows that it is the other one. */
  lemma UnionRetracts(name: string, key: string)
    ensures var a := OneArgument(name, key, Tagging(ToolArgObject, "", [], true));
            var b := OneArgument(name, key, Tagging(ToolArgValue, "5", [], true));
            !Extends(VisitAll(MiniMaxM3, [a]), VisitAll(MiniMaxM3, [b]))
  {
    hide CallsOf, ValueJson, Extends, VisitAll;
    var x, y := Tagging(ToolArgObject, "", [], true), Tagging(ToolArgValue, "5", [], true);
    UnionExactlyWhen(name, key, x, y);
    ObjectBegins(x);
    NumberWritten(y);
    var brace, number := "{", "5";
    assert brace[0] == '{' && number[0] == '5';
    assert !(brace <= number);
  }

  lemma ObjectBegins(v: Node)
    requires v.tag == ToolArgObject && v.children == []
    ensures ValueJson([v], false) == "{"
  {
    hide EntriesJson, Collect, Size;
    CollectNothing(ToolArg);
    assert EntriesJson([], true, Size(v)) == "" by { NoEntries(Size(v)); }
    assert "{" + "" + "" == "{";
  }

  lemma NoEntries(bound: nat)
    ensures EntriesJson([], true, bound) == ""
  {
  }

  lemma NumberWritten(v: Node)
    requires v.tag == ToolArgValue
    ensures ValueJson([v], false) == v.text
  {
  }

  // ----- content before what may be a marker -----

  /** Content that ends before a possible marker, and the calls that were tried there. */
  function BeforeMarker(text: string, marker: string): seq<Node> {
    [Rule(OtherRule, text, [Tagging(Content, text, [], false)], false),
     Rule(OtherRule, "", [], false),
     Rule(OtherRule, marker, [], true)]
  }

  /** It was no marker: the content goes on, and the tried nodes are gone. */
  function GoneOn(text: string): seq<Node> {
    [Rule(OtherRule, text, [Tagging(Content, text, [], true)], true)]
  }

  lemma MarkerCutGrows(m: Mapper, a: string, marker: string, b: string)
    requires a <= b
    ensures NextParse(m, BeforeMarker(a, marker), GoneOn(b))
  {
    match m
    case Visitor(f) => VisitorMarkerCut(f, a, marker, b);
    case Tagged => TaggedMarkerCut(a, marker, b);
  }

  lemma VisitorMarkerCut(f: Format, a: string, marker: string, b: string)
    requires a <= b
    ensures NextParse(Visitor(f), BeforeMarker(a, marker), GoneOn(b))
  {
    hide Grows, GrowsAll, AllAtomic, AtomicNames, AllBlank, Blank;
    var x, y := BeforeMarker(a, marker), GoneOn(b);
    LeafGrowsTo(x[0].children[0], y[0].children[0]);
    OnlyGrows(x[0].children[0], y[0].children[0], true);
    Wraps(x[0], y[0]);
    OnlyGrows(x[0], y[0], true);
    TriedAreBlank(x[1], x[2]);
    LooseInContext([], [x[0]], [y[0]], [x[1], x[2]], []);
    assert [] + [x[0]] + [x[1], x[2]] == x && [] + [y[0]] + [] == y;
    BeforeMarkerAtomic(x);
  }

  lemma BeforeMarkerAtomic(x: seq<Node>)
    requires |x| == 3 && |x[0].children| == 1 && x[0].children[0].children == [] && !x[0].children[0].partial
    requires x[0].tag == x[1].tag == x[2].tag == OtherTag && x[1].children == x[2].children == []
    ensures AllAtomic(x)
  {
    hide AtomicNames, AllAtomic;
    AtomicAround(x[0]);
    AtomicLeaf(x[1]);
    AtomicLeaf(x[2]);
    AtomicTwo(x[0], x[1]);
    ItemsAtomic([x[0], x[1]], x[2]);
    assert [x[0], x[1]] + [x[2]] == x;
  }

  lemma TriedAreBlank(n: Node, m: Node)
    requires n.rule == m.rule == OtherRule && n.tag == m.tag == OtherTag && n.children == m.children == []
    ensures AllBlank([n, m]) && AtomicNames(n) && AtomicNames(m)
  {
    TriedIsBlank(n);
    TriedIsBlank(m);
    hide Blank, AtomicNames;
  }

  lemma TriedIsBlank(n: Node)
    requires n.rule == OtherRule && n.tag == OtherTag && n.children == []
    ensures Blank(n) && AtomicNames(n)
  {
  }

  lemma ContentRead(n: Node)
    requires n.rule == OtherRule && n.tag == OtherTag && |n.children| == 1
    requires n.children[0].tag == Content && n.children[0].children == []
    ensures MapperTrees.ReadOf([n]) == [ToolMapper.Event(Content, n.children[0].text)]
  {
    hide MapperTrees.ReadOf;
    MapperTrees.ReadOfNode(n);
    MapperTrees.ReadOfLeaf(n.children[0]);
    assert n.children == [n.children[0]];
  }

  lemma UnreadNode(n: Node)
    requires n.tag == OtherTag && n.children == []
    ensures MapperTrees.ReadOf([n]) == []
  {
    hide MapperTrees.ReadOf;
    MapperTrees.ReadOfLeaf(n);
  }

  lemma TaggedMarkerCut(a: string, marker: string, b: string)
    requires a <= b
    ensures NextParse(Tagged, BeforeMarker(a, marker), GoneOn(b))
  {
    hide MapperTrees.ReadOf, MapperTrees.Follows, MapperTrees.OnlyAdds, MapperTrees.LengthensAll, MapperOrder.Tracks;
    var x, y := BeforeMarker(a, marker), GoneOn(b);
    var e, f := ToolMapper.Event(Content, a), ToolMapper.Event(Content, b);
    ContentRead(x[0]);
    ContentRead(y[0]);
    UnreadNode(x[1]);
    UnreadNode(x[2]);
    MapperTrees.ReadOfTwo(x[0], x[1]);
    assert x == [x[0], x[1]] + [x[2]];
    MapperTrees.ReadAppend([x[0], x[1]], [x[2]]);
    MapperOrder.InitialTracks();
    assert MapperTrees.ReadOf(x) == [e] && MapperTrees.ReadOf(y) == [f];
    var front: seq<ToolMapper.Event> := [];
    MapperTrees.OnlyAddsAfter(MapperOrder.Idle, ToolMapper.INITIAL, front, e, f);
    assert front + [e] == [e] && front + [f] == [f];
    ContentLengthens(x[0], y[0]);
    TriedLengthens(x, y);
    MarkerApart(b);
  }

  lemma ContentLengthens(a: Node, b: Node)
    requires a.tag == b.tag == OtherTag && |a.children| == |b.children| == 1
    requires a.children[0].tag == b.children[0].tag && a.children[0].text <= b.children[0].text
    requires a.children[0].children == []
    ensures MapperTrees.Lengthens(a, b)
  {
    hide MapperTrees.ReadOf, MapperTrees.LengthensAll;
    MapperTrees.SameLengthens(a.children[0], b.children[0]);
    MapperTrees.LastLengthens([], a.children[0], b.children[0]);
    assert [] + [a.children[0]] == a.children && [] + [b.children[0]] == b.children;
  }

  lemma TriedLengthens(x: seq<Node>, y: seq<Node>)
    requires |x| == 3 && |y| == 1 && MapperTrees.ReadOf([x[1]]) == MapperTrees.ReadOf([x[2]]) == []
    requires MapperTrees.ReadOf([x[0]]) != [] && MapperTrees.Lengthens(x[0], y[0])
    ensures MapperTrees.LengthensAll(x, y)
  {
    hide MapperTrees.ReadOf, MapperTrees.Lengthens;
    assert x[..2][..1] == [x[0]] && x[..2][1] == x[1] && x[..2][..1][0] == x[0];
    assert MapperTrees.LiveRead([x[0]]) == 1;
    assert MapperTrees.LiveRead(x[..2]) == 1;
    assert MapperTrees.LiveRead(x) == 1;
    assert x[..0] == y[..0];
  }

  lemma MarkerApart(b: string)
    ensures MapperTrees.AllApart(GoneOn(b))
  {
    hide MapperTrees.ReadOf;
    MapperTrees.NothingRead();
    assert MapperTrees.AllApart(GoneOn(b)[0].children);
  }
}
