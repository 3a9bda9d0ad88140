/** The MiniMax M3 emitters: JSON argument text from nested tagged arguments. */
module MiniMaxJson {
  import opened Ast
  import opened JsonText

  function Size(n: Node): (s: nat)
    ensures s > 0
    decreases n, 1
  {
    1 + SizeAll(n.children)
  }

  function SizeAll(ns: seq<Node>): nat
    decreases ns, 0
  {
    if ns == [] then 0 else Size(ns[0]) + SizeAll(ns[1..])
  }

  lemma {:induction false} MemberSize(ns: seq<Node>, i: nat)
    requires i < |ns|
    ensures Size(ns[i]) <= SizeAll(ns)
  {
    if i > 0 { MemberSize(ns[1..], i - 1); }
  }

  /** minimax_m3_collect: the outermost descendants with a tag, in document order. */
  function Collect(ns: seq<Node>, tag: Tag): (r: seq<Node>)
    ensures forall e :: e in r ==> Size(e) <= SizeAll(ns) && e.tag == tag
    decreases ns
  {
    if ns == [] then []
    else (if ns[0].tag == tag then [ns[0]] else Collect(ns[0].children, tag)) + Collect(ns[1..], tag)
  }

  predicate IsValueTag(t: Tag) {
    t == ToolArgValue || t == ToolArgStringValue || t == ToolArgObject || t == ToolArgArray
  }

  /** minimax_m3_value_of: the first child that holds a value. */
  function ValueOf(ns: seq<Node>): (r: seq<Node>)
    ensures |r| <= 1 && (|r| == 1 ==> Size(r[0]) <= SizeAll(ns))
    decreases ns
  {
    if ns == [] then [] else if IsValueTag(ns[0].tag) then [ns[0]] else ValueOf(ns[1..])
  }

  function ValueJson(v: seq<Node>, closed: bool): string
    requires |v| <= 1
    decreases if v == [] then 0 else Size(v[0]), 2
  {
    if v == [] then ""
    else
      match v[0].tag
      case ToolArgObject => ContainerJson(v[0], true, closed)
      case ToolArgArray => ContainerJson(v[0], false, closed)
      case ToolArgStringValue => "\"" + Escape(v[0].text) + (if closed then "\"" else "")
      case _ => v[0].text
  }

  function EntryTag(isObject: bool): Tag {
    if isObject then ToolArg else ToolArgItem
  }

  function ContainerJson(n: Node, isObject: bool, closed: bool): string
    decreases Size(n), 1
  {
    (if isObject then "{" else "[")
    + EntriesJson(Collect(n.children, EntryTag(isObject)), isObject, Size(n))
    + (if !closed then "" else if isObject then "}" else "]")
  }

  /** The entries that write something, with commas between. */
  function EntriesJson(es: seq<Node>, isObject: bool, ghost bound: nat): string
    requires forall e :: e in es ==> Size(e) < bound
    decreases bound, 0, |es|
  {
    if es == [] then ""
    else
      var init := EntriesJson(es[..|es| - 1], isObject, bound);
      var text := EntryJson(es[|es| - 1], isObject);
      if text == "" then init else if init == "" then text else init + "," + text
  }

  /** A member of an object, or an item of an array. */
  function EntryJson(e: Node, isObject: bool): string
    decreases Size(e), 3
  {
    if isObject then
      var name := FindByTag(e.children, ToolArgName, 3);
      if name == [] then ""
      else Quoted(name[0].text) + ":" + ValueJson(ValueOf(e.children), !e.partial)
    else ValueJson(ValueOf(e.children), !e.partial)
  }

  // ----- growth -----

  /** Names are parsed atomically: a cut-off name is not in the tree. */
  predicate AtomicNames(n: Node)
    decreases n, 1
  {
    && (n.partial ==> n.tag != ToolName && n.tag != ToolArgName)
    && AllAtomic(n.children)
  }

  predicate AllAtomic(ns: seq<Node>)
    decreases ns, 0
  {
    forall c :: c in ns ==> AtomicNames(c)
  }

  lemma Regroup(x: seq<Node>, y: seq<Node>, z: seq<Node>)
    ensures x + (y + z) == x + y + z
  {
  }

  lemma CollectCons(ns: seq<Node>, tag: Tag)
    requires ns != []
    ensures Collect(ns, tag) == (if ns[0].tag == tag then [ns[0]] else Collect(ns[0].children, tag)) + Collect(ns[1..], tag)
  {
    hide Size, SizeAll;
  }

  lemma {:induction false} CollectAppend(a: seq<Node>, b: seq<Node>, tag: Tag)
    ensures Collect(a + b, tag) == Collect(a, tag) + Collect(b, tag)
    decreases a
  {
    hide Collect;
    if a == [] {
      assert a + b == b;
      CollectNothing(tag);
      assert [] + Collect(b, tag) == Collect(b, tag);
    } else {
      CollectAppend(a[1..], b, tag);
      assert (a + b)[1..] == a[1..] + b && (a + b)[0] == a[0];
      CollectCons(a, tag);
      CollectCons(a + b, tag);
      var head := if a[0].tag == tag then [a[0]] else Collect(a[0].children, tag);
      Regroup(head, Collect(a[1..], tag), Collect(b, tag));
    }
  }

  lemma CollectOne(n: Node, tag: Tag)
    ensures Collect([n], tag) == if n.tag == tag then [n] else Collect(n.children, tag)
  {
    assert [n][1..] == [];
  }

  /** Nothing is collected in blank nodes but blank entries. */
  lemma {:induction false} CollectBlank(ns: seq<Node>, tag: Tag)
    requires AllBlank(ns)
    ensures AllBlank(Collect(ns, tag))
    decreases ns
  {
    hide Size, SizeAll;
    if ns != [] {
      assert Blank(ns[0]);
      CollectBlank(ns[0].children, tag);
      CollectBlank(ns[1..], tag);
    }
  }

  lemma {:induction false} CollectUntagged(ns: seq<Node>, tag: Tag)
    requires Untagged(ns) && tag != OtherTag
    ensures Collect(ns, tag) == []
    decreases ns
  {
    if ns != [] {
      assert ns[0] in ns;
      CollectUntagged(ns[0].children, tag);
      CollectUntagged(ns[1..], tag);
    }
  }

  lemma CollectThree(front: seq<Node>, n: Node, back: seq<Node>, tag: Tag)
    ensures Collect(front + [n] + back, tag) == Collect(front, tag) + Collect([n], tag) + Collect(back, tag)
  {
    hide Collect;
    CollectAppend(front + [n], back, tag);
    CollectAppend(front, [n], tag);
  }

  /** The entries of a container grow as its nodes do. */
  lemma {:induction false} CollectGrows(a: seq<Node>, b: seq<Node>, tag: Tag, loose: bool)
    requires GrowsAll(a, b, loose) && tag != OtherTag
    ensures GrowsAll(Collect(a, tag), Collect(b, tag), true)
    decreases a, 0
  {
    hide Collect, Grows, Blank, AllBlank, Live;
    StrictIsLoose(a, b, loose);
    var k := Live(a);
    LiveEnds(a, true);
    CollectBlank(a[k..], tag);
    if k == 0 {
      assert a[k..] == a;
      BlankIsLoose(Collect(a, tag), Collect(b, tag));
    } else {
      var front, tail, back := a[..k - 1], a[k..], b[k..];
      assert a == front + [a[k - 1]] + tail && b == front + [b[k - 1]] + back;
      CollectThree(front, a[k - 1], tail, tag);
      CollectThree(front, b[k - 1], back, tag);
      CollectNodeGrows(a[k - 1], b[k - 1], tag);
      LooseInContext(Collect(front, tag), Collect([a[k - 1]], tag), Collect([b[k - 1]], tag), Collect(tail, tag), Collect(back, tag));
    }
  }

  lemma BlankIsLoose(a: seq<Node>, b: seq<Node>)
    requires AllBlank(a)
    ensures GrowsAll(a, b, true)
  {
    LiveBeforeBlank([], a);
    assert [] + a == a;
  }

  lemma {:induction false} CollectNodeGrows(a: Node, b: Node, tag: Tag)
    requires Grows(a, b) && tag != OtherTag
    ensures GrowsAll(Collect([a], tag), Collect([b], tag), true)
    decreases a, 1
  {
    hide Collect, Blank, AllBlank, Live;
    CollectOne(a, tag);
    CollectOne(b, tag);
    if a == b {
      LoosePrefix(Collect([a], tag), []);
      assert Collect([a], tag) + [] == Collect([b], tag);
    } else if IsPlaceholder(a) {
      CollectNothing(tag);
      BlankIsLoose([], Collect([b], tag));
    } else if a.tag == tag {
      OneIsLoose(a, b);
    } else if IsLeaf(a) {
      CollectUntagged(a.children, tag);
      BlankIsLoose([], Collect([b], tag));
    } else {
      CollectGrows(a.children, b.children, tag, a.rule == OtherRule);
    }
  }

  lemma CollectNothing(tag: Tag)
    ensures Collect([], tag) == []
  {
  }

  lemma {:induction false} CollectAtomic(ns: seq<Node>, tag: Tag)
    requires AllAtomic(ns)
    ensures AllAtomic(Collect(ns, tag))
    decreases ns
  {
    if ns != [] {
      assert AtomicNames(ns[0]);
      CollectAtomic(ns[0].children, tag);
      CollectAtomic(ns[1..], tag);
    }
  }

  lemma {:induction false} FindAtomic(ns: seq<Node>, tag: Tag, depth: nat)
    requires AllAtomic(ns) && depth > 0
    ensures AllAtomic(FindByTag(ns, tag, depth))
    decreases ns
  {
    if ns != [] {
      assert AtomicNames(ns[0]);
      if depth > 1 { FindAtomic(ns[0].children, tag, depth - 1); }
      FindAtomic(ns[1..], tag, depth);
    }
  }

  lemma {:induction false} ValueOfBlank(ns: seq<Node>)
    requires AllBlank(ns)
    ensures AllBlank(ValueOf(ns))
    decreases ns
  {
    if ns != [] {
      assert Blank(ns[0]);
      ValueOfBlank(ns[1..]);
    }
  }

  lemma BlankValueOf(ns: seq<Node>)
    ensures AllBlank(ns) && ValueOf(ns) != [] ==> Blank(ValueOf(ns)[0])
  {
    hide Blank, ValueOf;
    if AllBlank(ns) && ValueOf(ns) != [] {
      ValueOfBlank(ns);
      assert ValueOf(ns)[0] in ValueOf(ns);
    }
  }

  lemma {:induction false} ValueOfAppend(a: seq<Node>, b: seq<Node>)
    ensures ValueOf(a + b) == if ValueOf(a) != [] then ValueOf(a) else ValueOf(b)
    decreases a
  {
    if a == [] {
      assert a + b == b;
    } else {
      ValueOfAppend(a[1..], b);
      assert (a + b)[0] == a[0] && (a + b)[1..] == a[1..] + b;
    }
  }

  lemma ValueOfOne(n: Node)
    ensures ValueOf([n]) == if IsValueTag(n.tag) then [n] else []
  {
    assert [n][1..] == [];
  }

  lemma ValueOfThree(front: seq<Node>, n: Node, back: seq<Node>)
    ensures ValueOf(front + [n] + back) == if ValueOf(front) != [] then ValueOf(front)
                                           else if IsValueTag(n.tag) then [n] else ValueOf(back)
  {
    hide ValueOf;
    ValueOfAppend(front + [n], back);
    ValueOfAppend(front, [n]);
    ValueOfOne(n);
  }

  /** A value that writes something is there again, possibly grown. */
  lemma ValueOfGrows(a: seq<Node>, b: seq<Node>, loose: bool)
    requires GrowsAll(a, b, loose) && ValueOf(a) != [] && !Blank(ValueOf(a)[0]) && AllAtomic(a)
    ensures ValueOf(b) != [] && Grows(ValueOf(a)[0], ValueOf(b)[0]) && AtomicNames(ValueOf(a)[0])
  {
    hide ValueOf, Blank, Live, AtomicNames, Grows;
    StrictIsLoose(a, b, loose);
    var k := Live(a);
    LiveEnds(a, true);
    assert k == 0 ==> a[k..] == a;
    BlankValueOf(a);
    BlankValueOf(a[k..]);
    ValueOfMember(a);
    if k > 0 {
      var front := a[..k - 1];
      assert a == front + [a[k - 1]] + a[k..] && b == front + [b[k - 1]] + b[k..];
      ValueOfThree(front, a[k - 1], a[k..]);
      ValueOfThree(front, b[k - 1], b[k..]);
      if ValueOf(front) == [] {
        SameTag(a[k - 1], b[k - 1]);
      } else {
        SameGrows(ValueOf(front)[0]);
      }
    }
  }

  lemma SameTag(a: Node, b: Node)
    requires Grows(a, b)
    ensures a.tag == b.tag
  {
  }

  lemma {:induction false} ValueOfMember(ns: seq<Node>)
    requires ValueOf(ns) != []
    ensures ValueOf(ns)[0] in ns
    decreases ns
  {
    if !IsValueTag(ns[0].tag) { ValueOfMember(ns[1..]); }
  }

  /** A name that has been found is final. */
  lemma NameGrows(a: seq<Node>, b: seq<Node>, tag: Tag, loose: bool)
    requires GrowsAll(a, b, loose) && AllAtomic(a) && (tag == ToolArgName || tag == ToolName)
    requires FindByTag(a, tag, 3) != []
    ensures FindByTag(b, tag, 3) == FindByTag(a, tag, 3)
  {
    hide FindByTag, GrowsAll;
    FindGrows(a, b, tag, 3, loose);
    FindAtomic(a, tag, 3);
    var x, y := FindByTag(a, tag, 3), FindByTag(b, tag, 3);
    assert x[0] in x;
    assert x == [x[0]] && y == [y[0]];
  }

  lemma {:induction false} EntriesPrefix(es: seq<Node>, k: nat, isObject: bool, bound: nat)
    requires k <= |es| && forall e :: e in es ==> Size(e) < bound
    ensures EntriesJson(es[..k], isObject, bound) <= EntriesJson(es, isObject, bound)
    decreases |es|
  {
    if k < |es| {
      var init := es[..|es| - 1];
      EntriesPrefix(init, k, isObject, bound);
      assert init[..k] == es[..k];
    } else {
      assert es[..k] == es;
    }
  }

  lemma {:induction false} EntriesBound(es: seq<Node>, isObject: bool, b1: nat, b2: nat)
    requires (forall e :: e in es ==> Size(e) < b1) && (forall e :: e in es ==> Size(e) < b2)
    ensures EntriesJson(es, isObject, b1) == EntriesJson(es, isObject, b2)
    decreases |es|
  {
    if es != [] { EntriesBound(es[..|es| - 1], isObject, b1, b2); }
  }

  // ----- entries that write nothing -----

  lemma BlankValue(v: seq<Node>, closed: bool)
    requires |v| <= 1 && (v != [] ==> Blank(v[0]) && IsValueTag(v[0].tag))
    ensures ValueJson(v, closed) == ""
  {
  }

  lemma BlankEntry(e: Node, isObject: bool)
    requires Blank(e)
    ensures EntryJson(e, isObject) == ""
  {
    hide FindByTag, ValueOf, ValueJson;
    if isObject {
      FindInBlank(e.children, ToolArgName, 3);
    } else {
      BlankValueOf(e.children);
      if ValueOf(e.children) != [] { ValueOfTag(e.children); }
      BlankValue(ValueOf(e.children), !e.partial);
    }
  }

  lemma {:induction false} EntriesLive(es: seq<Node>, isObject: bool, bound: nat)
    requires forall e :: e in es ==> Size(e) < bound
    ensures EntriesJson(es, isObject, bound) == EntriesJson(es[..Live(es)], isObject, bound)
    decreases |es|
  {
    hide EntryJson, Size;
    if es == [] || !Blank(es[|es| - 1]) {
      assert es[..Live(es)] == es;
    } else {
      var n := |es| - 1;
      BlankEntry(es[n], isObject);
      EntriesLive(es[..n], isObject, bound);
      assert es[..n][..Live(es)] == es[..Live(es)];
    }
  }

  lemma {:induction false} ValueOfUntagged(ns: seq<Node>)
    requires Untagged(ns)
    ensures ValueOf(ns) == []
    decreases ns
  {
    if ns != [] {
      assert ns[0] in ns;
      ValueOfUntagged(ns[1..]);
    }
  }

  // ----- growth of values, containers and entries -----

  lemma {:induction false} ValueGrows(a: Node, b: Node, closedA: bool, closedB: bool)
    requires Grows(a, b) && AtomicNames(a) && IsValueTag(a.tag)
    requires closedA ==> a == b && closedB
    ensures ValueJson([a], closedA) <= ValueJson([b], closedB)
    decreases Size(a), 2
  {
    hide ContainerJson, Escape, Size;
    if a.tag == ToolArgObject || a.tag == ToolArgArray {
      ContainerGrows(a, b, a.tag == ToolArgObject, closedA, closedB);
    } else {
      EscapeMonotone(a.text, b.text);
    }
  }

  /** The nodes collected from a container that grows. */
  lemma InnerGrows(a: Node, b: Node, tag: Tag)
    requires Grows(a, b) && a.tag != OtherTag && tag != OtherTag
    ensures GrowsAll(Collect(a.children, tag), Collect(b.children, tag), true)
  {
    hide Collect, Blank, AllBlank, Live;
    if a == b {
      LoosePrefix(Collect(a.children, tag), []);
      assert Collect(a.children, tag) + [] == Collect(b.children, tag);
    } else if IsLeaf(a) {
      CollectUntagged(a.children, tag);
      BlankIsLoose([], Collect(b.children, tag));
    } else {
      CollectGrows(a.children, b.children, tag, a.rule == OtherRule);
    }
  }

  /** A container's text grows by appending, and closes only once it is final. */
  lemma {:induction false} ContainerGrows(a: Node, b: Node, isObject: bool, closedA: bool, closedB: bool)
    requires Grows(a, b) && AtomicNames(a) && a.tag != OtherTag
    requires closedA ==> a == b && closedB
    ensures ContainerJson(a, isObject, closedA) <= ContainerJson(b, isObject, closedB)
    decreases Size(a), 1
  {
    hide Grows, GrowsAll, Collect, EntriesJson;
    var tag := EntryTag(isObject);
    var ea, eb := Collect(a.children, tag), Collect(b.children, tag);
    if !closedA {
      InnerGrows(a, b, tag);
      CollectAtomic(a.children, tag);
      EntriesGrow(ea, eb, isObject, Size(a), Size(b));
      var open := if isObject then "{" else "[";
      assert open + EntriesJson(ea, isObject, Size(a)) <= open + EntriesJson(eb, isObject, Size(b));
    }
  }

  lemma {:induction false} EntriesGrow(a: seq<Node>, b: seq<Node>, isObject: bool, boundA: nat, boundB: nat)
    requires GrowsAll(a, b, true) && AllAtomic(a) && forall e :: e in a ==> e.tag == EntryTag(isObject)
    requires (forall e :: e in a ==> Size(e) < boundA) && (forall e :: e in b ==> Size(e) < boundB)
    ensures EntriesJson(a, isObject, boundA) <= EntriesJson(b, isObject, boundB)
    decreases boundA, 0
  {
    hide Grows, Size, EntryJson, AtomicNames, Live;
    EntriesLive(a, isObject, boundA);
    var k := Live(a);
    if k > 0 {
      assert a[k - 1] in a;
      EntryGrows(a[k - 1], b[k - 1], isObject);
      LastEntryGrows(a[..k], b[..k], isObject, boundA, boundB);
      EntriesPrefix(b, k, isObject, boundB);
    }
  }

  lemma LastEntryGrows(a: seq<Node>, b: seq<Node>, isObject: bool, boundA: nat, boundB: nat)
    requires |a| == |b| > 0 && a[..|a| - 1] == b[..|a| - 1]
    requires EntryJson(a[|a| - 1], isObject) <= EntryJson(b[|a| - 1], isObject)
    requires (forall e :: e in a ==> Size(e) < boundA) && (forall e :: e in b ==> Size(e) < boundB)
    ensures EntriesJson(a, isObject, boundA) <= EntriesJson(b, isObject, boundB)
  {
    hide EntryJson, Size;
    EntriesBound(a[..|a| - 1], isObject, boundA, boundB);
  }

  lemma {:induction false} EntryGrows(a: Node, b: Node, isObject: bool)
    requires Grows(a, b) && AtomicNames(a) && a.tag == EntryTag(isObject)
    ensures EntryJson(a, isObject) <= EntryJson(b, isObject)
    decreases Size(a), 3
  {
    hide ValueOf, FindByTag, ValueJson, Size;
    if a != b {
      var va, vb := ValueOf(a.children), ValueOf(b.children);
      EntryValueGrows(a, b);
      if isObject && FindByTag(a.children, ToolArgName, 3) != [] {
        EntryNameGrows(a, b);
        var key := Quoted(FindByTag(a.children, ToolArgName, 3)[0].text) + ":";
        assert key + ValueJson(va, !a.partial) <= key + ValueJson(vb, !b.partial);
      }
    }
  }

  lemma EntryNameGrows(a: Node, b: Node)
    requires Grows(a, b) && AtomicNames(a) && a != b && (a.tag == ToolArg || a.tag == ToolArgItem)
    requires FindByTag(a.children, ToolArgName, 3) != []
    ensures FindByTag(b.children, ToolArgName, 3) == FindByTag(a.children, ToolArgName, 3)
  {
    hide FindByTag;
    if IsLeaf(a) {
      FindInUntagged(a.children, ToolArgName, 3);
    } else {
      NameGrows(a.children, b.children, ToolArgName, a.rule == OtherRule);
    }
  }

  lemma {:induction false} EntryValueGrows(a: Node, b: Node)
    requires Grows(a, b) && AtomicNames(a) && a != b && (a.tag == ToolArg || a.tag == ToolArgItem)
    ensures ValueJson(ValueOf(a.children), !a.partial) <= ValueJson(ValueOf(b.children), !b.partial)
    decreases Size(a), 2
  {
    hide ValueOf, ValueJson, Blank;
    var va, vb := ValueOf(a.children), ValueOf(b.children);
    if va != [] { ValueOfTag(a.children); }
    if va == [] || Blank(va[0]) {
      BlankValue(va, !a.partial);
    } else if IsLeaf(a) {
      ValueOfUntagged(a.children);
    } else {
      ValueOfGrows(a.children, b.children, a.rule == OtherRule);
      assert va == [va[0]] && vb == [vb[0]];
      ValueGrows(va[0], vb[0], !a.partial, !b.partial);
    }
  }

  lemma {:induction false} ValueOfTag(ns: seq<Node>)
    requires ValueOf(ns) != []
    ensures IsValueTag(ValueOf(ns)[0].tag)
    decreases ns
  {
    if !IsValueTag(ns[0].tag) { ValueOfTag(ns[1..]); }
  }
}
