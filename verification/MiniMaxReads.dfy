/**
 A finished MiniMax M3 call reads back: for every nest of values, the tree that the grammar makes of it
 is written as JSON text that a reader takes for the same nest.
 */
module MiniMaxReads {
  import opened Wrappers
  import opened Ast
  import opened JsonText
  import opened JsonReader
  import opened GemmaReads
  import opened MiniMaxJson
  import opened MessageDiff
  import opened Streaming

  /** An argument value: text that becomes a string, JSON text with its meaning, or a nest of values. */
  datatype Value =
    | Text(content: string)
    | Raw(text: string, meaning: Json)
    | Object(members: seq<Member>)
    | Array(items: seq<Value>)

  datatype Member = Member(key: string, value: Value)

  /** The JSON texts of a nest read as their meanings. */
  ghost predicate RawsRead(v: Value)
    decreases v
  {
    match v
    case Text(_) => true
    case Raw(text, meaning) => Reads(text, meaning)
    case Object(members) => forall i :: 0 <= i < |members| ==> RawsRead(members[i].value)
    case Array(items) => forall i :: 0 <= i < |items| ==> RawsRead(items[i])
  }

  function JsonOf(v: Value): Json
    decreases v
  {
    match v
    case Text(content) => JString(content)
    case Raw(_, meaning) => meaning
    case Object(members) =>
      JObject(seq(|members|, i requires 0 <= i < |members| => (members[i].key, JsonOf(members[i].value))))
    case Array(items) => JArray(seq(|items|, i requires 0 <= i < |items| => JsonOf(items[i])))
  }

  // ----- the trees that the grammar makes -----

  predicate IsLeafNode(n: Node, tag: Tag) {
    n.tag == tag && n.children == []
  }

  /** A rule node around one entry. */
  predicate IsWrapper(n: Node, tag: Tag) {
    n.tag == OtherTag && |n.children| == 1 && n.children[0].tag == tag && !n.children[0].partial
  }

  /** `<key>value</key>`, or a cut one that still lacks its closing tag. */
  predicate HoldsMember(n: Node, m: Member)
    decreases m, 0
  {
    && IsWrapper(n, ToolArg)
    && var parts := n.children[0].children;
       && 2 <= |parts| <= 3
       && parts[0].tag == ToolArgOpen && |parts[0].children| == 1
       && IsLeafNode(parts[0].children[0], ToolArgName) && parts[0].children[0].text == m.key
       && HoldsValue(parts[1], m.value)
       && (|parts| == 3 ==> IsLeafNode(parts[2], ToolArgClose))
  }

  /** `<item>value</item>`, likewise. */
  predicate HoldsItem(n: Node, v: Value)
    decreases v, 1
  {
    && IsWrapper(n, ToolArgItem)
    && var parts := n.children[0].children;
       && 1 <= |parts| <= 2 && HoldsValue(parts[0], v) && (|parts| == 2 ==> IsLeafNode(parts[1], ToolArgClose))
  }

  predicate HoldsValue(n: Node, v: Value)
    decreases v, 0
  {
    match v
    case Text(content) => n.tag == ToolArgStringValue && n.text == content
    case Raw(text, _) => n.tag == ToolArgValue && n.text == text
    case Object(members) => n.tag == ToolArgObject && HoldsMembers(n.children, members)
    case Array(items) =>
      n.tag == ToolArgArray && |n.children| == |items| && forall i :: 0 <= i < |items| ==> HoldsItem(n.children[i], items[i])
  }

  predicate HoldsMembers(ns: seq<Node>, members: seq<Member>)
    decreases members, 0
  {
    |ns| == |members| && forall i :: 0 <= i < |members| ==> HoldsMember(ns[i], members[i])
  }

  // ----- what the emitter finds in them -----

  function Inner(ns: seq<Node>): (r: seq<Node>)
    requires forall n :: n in ns ==> |n.children| == 1
    ensures |r| == |ns| && forall i :: 0 <= i < |ns| ==> r[i] == ns[i].children[0]
  {
    seq(|ns|, i requires 0 <= i < |ns| => assert ns[i] in ns; ns[i].children[0])
  }

  lemma OneWrapped(n: Node, tag: Tag)
    requires IsWrapper(n, tag)
    ensures Collect(n.children, tag) == [n.children[0]]
  {
    hide Collect;
    CollectOne(n.children[0], tag);
    assert n.children == [n.children[0]];
  }

  lemma InnerCons(ns: seq<Node>)
    requires ns != [] && forall n :: n in ns ==> |n.children| == 1
    ensures |ns[0].children| == 1 && Inner(ns) == [ns[0].children[0]] + Inner(ns[1..])
  {
    assert ns[0] in ns;
  }

  lemma {:induction false} CollectWrapped(ns: seq<Node>, tag: Tag)
    requires tag != OtherTag && forall n :: n in ns ==> IsWrapper(n, tag)
    ensures forall n :: n in ns ==> |n.children| == 1
    ensures Collect(ns, tag) == Inner(ns)
    decreases ns
  {
    if ns != [] {
      assert IsWrapper(ns[0], tag) by { assert ns[0] in ns; }
      CollectWrapped(ns[1..], tag);
      InnerCons(ns);
      OneWrapped(ns[0], tag);
      hide Collect, Inner;
      CollectCons(ns, tag);
    }
  }

  function EntryTexts(es: seq<Node>, isObject: bool): (r: seq<string>)
    ensures |r| == |es| && forall i :: 0 <= i < |es| ==> r[i] == EntryJson(es[i], isObject)
  {
    seq(|es|, i requires 0 <= i < |es| => EntryJson(es[i], isObject))
  }

  /** Entries that all write something are written with commas between. */
  lemma {:induction false} EntriesAreCommas(es: seq<Node>, isObject: bool, bound: nat)
    requires (forall e :: e in es ==> Size(e) < bound) && forall e :: e in es ==> EntryJson(e, isObject) != ""
    ensures EntriesJson(es, isObject, bound) == Commas(EntryTexts(es, isObject))
    ensures es != [] ==> EntriesJson(es, isObject, bound) != ""
    decreases |es|
  {
    hide EntryJson, Size;
    if es != [] {
      var n := |es| - 1;
      EntriesAreCommas(es[..n], isObject, bound);
      assert es[n] in es;
      assert EntryTexts(es, isObject) == EntryTexts(es[..n], isObject) + [EntryJson(es[n], isObject)];
      CommasPush(EntryTexts(es[..n], isObject), EntryJson(es[n], isObject));
      if n == 0 { assert es[..n] == []; }
    }
  }

  lemma ContainerIs(n: Node, isObject: bool, es: seq<Node>)
    requires Collect(n.children, EntryTag(isObject)) == es && forall e :: e in es ==> EntryJson(e, isObject) != ""
    ensures ContainerJson(n, isObject, true)
            == if isObject then "{" + Commas(EntryTexts(es, isObject)) + "}" else "[" + Commas(EntryTexts(es, isObject)) + "]"
  {
    hide EntryJson, Collect, EntriesJson, Size;
    forall e | e in es ensures Size(e) < Size(n) {
      CollectSizes(n, EntryTag(isObject));
    }
    EntriesAreCommas(es, isObject, Size(n));
  }

  lemma CollectSizes(n: Node, tag: Tag)
    ensures forall e :: e in Collect(n.children, tag) ==> Size(e) < Size(n)
  {
  }

  lemma FirstInside(open: Node, rest: seq<Node>, tag: Tag)
    requires open.tag != tag && |open.children| == 1 && open.children[0].tag == tag
    ensures FindByTag([open] + rest, tag, 3) == [open.children[0]]
  {
    assert ([open] + rest)[1..] == rest;
    assert FindByTag(open.children, tag, 2) == [open.children[0]];
  }

  lemma ValueTag(n: Node, v: Value)
    requires HoldsValue(n, v)
    ensures IsValueTag(n.tag)
  {
  }

  lemma MemberEntry(n: Node, m: Member)
    requires HoldsMember(n, m)
    ensures EntryJson(n.children[0], true) == MemberText(m.key, ValueJson([n.children[0].children[1]], true))
  {
    hide FindByTag, ValueJson, HoldsValue, Quoted;
    var arg := n.children[0];
    var parts := arg.children;
    FirstInside(parts[0], parts[1..], ToolArgName);
    assert parts == [parts[0]] + parts[1..];
    ValueTag(parts[1], m.value);
    assert parts[1..][0] == parts[1];
    assert ValueOf(parts[1..]) == [parts[1]];
    assert ValueOf(parts) == ValueOf(parts[1..]);
  }

  lemma ItemEntry(n: Node, v: Value)
    requires HoldsItem(n, v)
    ensures EntryJson(n.children[0], false) == ValueJson([n.children[0].children[0]], true)
  {
    hide ValueJson, HoldsValue;
    ValueTag(n.children[0].children[0], v);
    assert ValueOf(n.children[0].children) == [n.children[0].children[0]];
  }

  // ----- reading back -----

  lemma TextOrRaw(n: Node, v: Value)
    requires HoldsValue(n, v) && RawsRead(v) && (v.Text? || v.Raw?)
    ensures Reads(ValueJson([n], true), JsonOf(v))
  {
    hide Reads, ContainerJson, Escape;
    if v.Text? {
      QuotedIs(v.content);
      StringReads(v.content);
      assert "\"" + Escape(n.text) + "\"" == "\"" + (Escape(n.text) + "\"");
    }
  }

  function ValueTexts(members: seq<Member>, ns: seq<Node>): (r: seq<string>)
    requires HoldsMembers(ns, members)
    ensures |r| == |members|
    ensures forall i :: 0 <= i < |r| ==> HoldsMember(ns[i], members[i]) && r[i] == ValueJson([ns[i].children[0].children[1]], true)
  {
    seq(|members|, i requires 0 <= i < |members| =>
      assert HoldsMember(ns[i], members[i]); ValueJson([ns[i].children[0].children[1]], true))
  }

  function MemberKeys(members: seq<Member>): (r: seq<string>)
    ensures |r| == |members| && forall i :: 0 <= i < |r| ==> r[i] == members[i].key
  {
    seq(|members|, i requires 0 <= i < |members| => members[i].key)
  }

  function MemberValues(members: seq<Member>): (r: seq<Json>)
    ensures |r| == |members| && forall i :: 0 <= i < |r| ==> r[i] == JsonOf(members[i].value)
  {
    seq(|members|, i requires 0 <= i < |members| => JsonOf(members[i].value))
  }

  /** The members of an object, or of a call. */
  lemma {:induction false} MembersReadBack(n: Node, ns: seq<Node>, members: seq<Member>)
    requires HoldsMembers(ns, members) && (forall i :: 0 <= i < |members| ==> RawsRead(members[i].value))
    requires (forall w :: w in ns ==> |w.children| == 1) && Collect(n.children, ToolArg) == Inner(ns)
    ensures Reads(ContainerJson(n, true, true), JsonOf(Object(members)))
    decreases members, 1
  {
    hide ContainerJson, ValueJson, EntryJson, Collect, Reads, HoldsValue, RawsRead, Commas, MemberText;
    var es, keys, texts, vs := Inner(ns), MemberKeys(members), ValueTexts(members, ns), MemberValues(members);
    forall i | 0 <= i < |members|
      ensures Reads(texts[i], vs[i]) && EntryTexts(es, true)[i] == MemberText(keys[i], texts[i])
      ensures EntryJson(es[i], true) != ""
    {
      assert HoldsMember(ns[i], members[i]);
      MemberEntry(ns[i], members[i]);
      ValueReadsBack(ns[i].children[0].children[1], members[i].value);
      MemberNotEmpty(keys[i], texts[i]);
    }
    ContainerIs(n, true, es);
    assert EntryTexts(es, true) == MemberTexts(keys, texts);
    ObjectReads(keys, texts, vs);
    assert JsonOf(Object(members)).members == Pairs(keys, vs);
  }

  lemma MemberNotEmpty(key: string, text: string)
    ensures MemberText(key, text) != ""
  {
  }

  lemma {:induction false} ItemsReadBack(n: Node, items: seq<Value>)
    requires HoldsValue(n, Array(items)) && RawsRead(Array(items))
    ensures Reads(ContainerJson(n, false, true), JsonOf(Array(items)))
    decreases items, 1
  {
    hide ContainerJson, ValueJson, EntryJson, Collect, Reads, Commas;
    forall w | w in n.children ensures IsWrapper(w, ToolArgItem) {
      var i :| 0 <= i < |n.children| && n.children[i] == w;
      assert HoldsItem(n.children[i], items[i]);
    }
    CollectWrapped(n.children, ToolArgItem);
    var es := Inner(n.children);
    var vs := seq(|items|, i requires 0 <= i < |items| => JsonOf(items[i]));
    forall i | 0 <= i < |items| ensures Reads(EntryTexts(es, false)[i], vs[i]) && EntryJson(es[i], false) != "" {
      assert HoldsItem(n.children[i], items[i]);
      ItemEntry(n.children[i], items[i]);
      ValueReadsBack(es[i].children[0], items[i]);
      ReadsNotEmpty(EntryTexts(es, false)[i], vs[i]);
    }
    ContainerIs(n, false, es);
    ArrayReads(EntryTexts(es, false), vs);
  }

  lemma ReadsNotEmpty(text: string, v: Json)
    requires Reads(text, v)
    ensures text != ""
  {
  }

  /** Whatever the value, the text written for its finished node reads back as that value. */
  lemma {:induction false} ValueReadsBack(n: Node, v: Value)
    requires HoldsValue(n, v) && RawsRead(v)
    ensures Reads(ValueJson([n], true), JsonOf(v))
    decreases v, 2
  {
    hide Reads, ContainerJson, Collect;
    match v
    case Text(_) => TextOrRaw(n, v);
    case Raw(_, _) => TextOrRaw(n, v);
    case Object(members) =>
      WrappersOf(n.children, members);
      CollectWrapped(n.children, ToolArg);
      MembersReadBack(n, n.children, members);
    case Array(items) => ItemsReadBack(n, items);
  }

  lemma WrappersOf(ns: seq<Node>, members: seq<Member>)
    requires HoldsMembers(ns, members)
    ensures forall w :: w in ns ==> IsWrapper(w, ToolArg)
  {
    forall w | w in ns ensures IsWrapper(w, ToolArg) {
      var i :| 0 <= i < |ns| && ns[i] == w;
      assert HoldsMember(ns[i], members[i]);
    }
  }

  /** A call: its opening tag with the name, its arguments and, unless it is cut before, its closing tag. */
  predicate HoldsCall(n: Node, name: string, args: seq<Node>, members: seq<Member>) {
    && n.tag == Tool && !n.partial
    && |args| + 1 <= |n.children| <= |args| + 2 && n.children[1..|args| + 1] == args && HoldsMembers(args, members)
    && n.children[0].tag == ToolOpen && |n.children[0].children| == 1
    && IsLeafNode(n.children[0].children[0], ToolName) && n.children[0].children[0].text == name
    && (|n.children| == |args| + 2 ==> IsLeafNode(n.children[|args| + 1], ToolClose))
  }

  /** A finished call has its name, and arguments that read as one object with all its members in order. */
  lemma CallReadsBack(n: Node, name: string, args: seq<Node>, members: seq<Member>)
    requires HoldsCall(n, name, args, members) && forall i :: 0 <= i < |members| ==> RawsRead(members[i].value)
    ensures |CallsOf(MiniMaxM3, n)| == 1
    ensures var call := CallsOf(MiniMaxM3, n)[0];
            call.name == name && ReadValue(call.arguments) == Some((JsonOf(Object(members)), ""))
  {
    hide FindByTag, ContainerJson, Collect, Reads, ReadValue, HoldsMembers, RawsRead;
    var opener, closers := n.children[0], n.children[|args| + 1..];
    FirstInside(opener, n.children[1..], ToolName);
    assert n.children == [opener] + n.children[1..];
    assert n.children == [opener] + args + closers;
    WrappersOf(args, members);
    CollectCall(opener, args, closers);
    MembersReadBack(n, args, members);
    ReadsWhole(ContainerJson(n, true, true), JsonOf(Object(members)));
  }

  lemma CollectNone(n: Node, tag: Tag)
    requires n.tag != tag && forall c :: c in n.children ==> IsLeafNode(c, c.tag) && c.tag != tag
    requires |n.children| <= 1
    ensures Collect([n], tag) == []
  {
    hide Collect;
    CollectOne(n, tag);
    CollectNothing(tag);
    if n.children != [] {
      CollectOne(n.children[0], tag);
      assert n.children == [n.children[0]];
      assert n.children[0] in n.children;
    }
  }

  lemma CollectBetween(opener: Node, ns: seq<Node>, closers: seq<Node>, tag: Tag)
    requires Collect([opener], tag) == Collect(closers, tag) == []
    ensures Collect([opener] + ns + closers, tag) == Collect(ns, tag)
  {
    hide Collect;
    CollectAppend([opener] + ns, closers, tag);
    CollectAppend([opener], ns, tag);
    assert [] + Collect(ns, tag) + [] == Collect(ns, tag);
  }

  lemma CollectCall(opener: Node, args: seq<Node>, closers: seq<Node>)
    requires opener.tag == ToolOpen && |opener.children| == 1 && IsLeafNode(opener.children[0], ToolName)
    requires |closers| <= 1 && (closers != [] ==> IsLeafNode(closers[0], ToolClose))
    requires forall w :: w in args ==> IsWrapper(w, ToolArg)
    ensures forall w :: w in args ==> |w.children| == 1
    ensures Collect([opener] + args + closers, ToolArg) == Inner(args)
  {
    hide Collect, Inner;
    CollectWrapped(args, ToolArg);
    CollectNone(opener, ToolArg);
    if closers == [] {
      CollectNothing(ToolArg);
    } else {
      CollectNone(closers[0], ToolArg);
      assert closers == [closers[0]];
    }
    CollectBetween(opener, args, closers, ToolArg);
  }
}
