/** The JSON written for a finished Gemma 4 tree reads back as the value that the tree stands for. */
module GemmaReads {
  import opened Wrappers
  import opened Ast
  import opened JsonText
  import opened JsonReader
  import opened GemmaJson

  predicate IsValueRule(r: Rule) {
    r == GemmaNumber || r == GemmaBool || r == GemmaNull || r == GemmaString || r == GemmaArray || r == GemmaDict
  }

  /** A finished tree with the parts that the grammar gives each rule. */
  predicate Grammatical(n: Node)
    decreases n
  {
    && WellBuilt(n)
    && match n.rule
       case GemmaNumber => IsNumberText(n.text)
       case GemmaBool => n.text == "true" || n.text == "false"
       case GemmaNull => n.text == "null"
       case GemmaArray => forall c :: c in n.children ==> c.rule == GemmaValue && Grammatical(c)
       case GemmaDictKv =>
         |n.children| == 2 && n.children[0].rule == GemmaDictKey && n.children[1].rule == GemmaValue && Grammatical(n.children[1])
       case GemmaDict => forall c :: c in n.children ==> c.rule == GemmaDictKv && Grammatical(c)
       case GemmaValue => IsValueRule(n.children[0].rule) && Grammatical(n.children[0])
       case _ => true
  }

  /** The key of a member. */
  function KeyOf(kv: Node): string {
    if |kv.children| > 0 && |kv.children[0].children| > 0 then kv.children[0].children[0].text else ""
  }

  /** The value that a tree stands for. */
  function Meaning(n: Node): Json
    decreases n, 1
  {
    match n.rule
    case GemmaNumber => JNumber(n.text)
    case GemmaBool => JBool(n.text == "true")
    case GemmaString => JString(if n.children == [] then "" else n.children[0].text)
    case GemmaArray => JArray(Meanings(n.children))
    case GemmaDict => JObject(Members(n.children))
    case GemmaDictKv => if |n.children| > 1 then Meaning(n.children[1]) else JNull
    case GemmaValue => if n.children == [] then JNull else Meaning(n.children[0])
    case _ => JNull
  }

  function Meanings(ns: seq<Node>): (r: seq<Json>)
    ensures |r| == |ns| && forall i :: 0 <= i < |ns| ==> r[i] == Meaning(ns[i])
    decreases ns, 0
  {
    if ns == [] then [] else [Meaning(ns[0])] + Meanings(ns[1..])
  }

  function Members(ns: seq<Node>): (r: seq<(string, Json)>)
    ensures |r| == |ns| && forall i :: 0 <= i < |ns| ==> r[i] == (KeyOf(ns[i]), Meaning(ns[i]))
    decreases ns, 0
  {
    if ns == [] then [] else [(KeyOf(ns[0]), Meaning(ns[0]))] + Members(ns[1..])
  }

  function Texts(ns: seq<Node>): (r: seq<string>)
    ensures |r| == |ns| && forall i :: 0 <= i < |ns| ==> r[i] == Gemma(ns[i])
  {
    seq(|ns|, i requires 0 <= i < |ns| => Gemma(ns[i]))
  }

  lemma {:induction false} JoinedIsCommas(ns: seq<Node>)
    ensures Joined(ns) == Commas(Texts(ns))
    decreases |ns|
  {
    hide Gemma;
    if |ns| > 1 {
      var n := |ns| - 1;
      JoinedIsCommas(ns[..n]);
      assert Texts(ns) == Texts(ns[..n]) + [Gemma(ns[n])];
      CommasPush(Texts(ns[..n]), Gemma(ns[n]));
    }
  }

  lemma LeafReads(n: Node)
    requires Grammatical(n) && (n.rule == GemmaNumber || n.rule == GemmaBool || n.rule == GemmaNull)
    ensures Reads(Gemma(n), Meaning(n))
  {
    hide Reads;
    WordsRead();
    if n.rule == GemmaNumber { NumberReads(n.text); }
  }

  lemma QuotedIs(content: string)
    ensures "\"" + (Escape(content) + "\"") == Quoted(content) && "\"" + Escape(content) + "\":" == Quoted(content) + ":"
  {
    hide Escape;
  }

  lemma ContentIs(n: Node)
    requires n.rule == GemmaStringContent
    ensures Gemma(n) == Escape(n.text)
  {
    EscapeNothing();
  }

  lemma TextReads(n: Node)
    requires Grammatical(n) && n.rule == GemmaString
    ensures Reads(Gemma(n), Meaning(n))
  {
    hide Reads, Escape, Quoted;
    var content := n.children[0].text;
    ContentIs(n.children[0]);
    QuotedIs(content);
    StringReads(content);
  }

  lemma KeyIs(key: Node)
    requires WellBuilt(key) && key.rule == GemmaDictKey
    ensures Gemma(key) == Quoted(key.children[0].text) + ":"
  {
    hide Escape;
    QuotedIs(key.children[0].text);
  }

  lemma ChainedTwo(a: Node, b: Node)
    ensures Chained([a, b]) == Gemma(a) + Gemma(b)
  {
    hide Gemma;
    assert [a, b][..1] == [a] && [a][..0] == [];
    assert Chained([a]) == "" + Gemma(a) == Gemma(a);
  }

  lemma MemberIs(kv: Node)
    requires Grammatical(kv) && kv.rule == GemmaDictKv
    ensures |kv.children| == 2 && Gemma(kv) == MemberText(KeyOf(kv), Gemma(kv.children[1]))
  {
    hide Joined, Quoted, Chained;
    var key, value := kv.children[0], kv.children[1];
    assert key in kv.children;
    KeyIs(key);
    ChainedTwo(key, value);
    assert kv.children == [key, value];
  }

  lemma {:induction false} ItemsReadBack(ns: seq<Node>)
    requires forall c :: c in ns ==> Grammatical(c) && c.rule == GemmaValue
    ensures AllRead(Texts(ns), Meanings(ns))
    decreases ns, 0
  {
    hide Gemma, Meaning, Reads, Grammatical;
    forall i | 0 <= i < |ns| ensures Reads(Texts(ns)[i], Meanings(ns)[i]) {
      assert ns[i] in ns;
      GemmaReadsBack(ns[i]);
    }
  }

  function Keys(ns: seq<Node>): (r: seq<string>)
    ensures |r| == |ns| && forall i :: 0 <= i < |ns| ==> r[i] == KeyOf(ns[i])
  {
    seq(|ns|, i requires 0 <= i < |ns| => KeyOf(ns[i]))
  }

  function Values(ns: seq<Node>): (r: seq<Node>)
    requires forall c :: c in ns ==> |c.children| == 2
    ensures |r| == |ns| && forall i :: 0 <= i < |ns| ==> r[i] == ns[i].children[1]
  {
    seq(|ns|, i requires 0 <= i < |ns| => assert ns[i] in ns; ns[i].children[1])
  }

  lemma {:induction false} MembersReadBack(ns: seq<Node>)
    requires forall c :: c in ns ==> Grammatical(c) && c.rule == GemmaDictKv
    ensures forall c :: c in ns ==> |c.children| == 2
    ensures Texts(ns) == MemberTexts(Keys(ns), Texts(Values(ns)))
    ensures Members(ns) == Pairs(Keys(ns), Meanings(Values(ns)))
    ensures AllRead(Texts(Values(ns)), Meanings(Values(ns)))
    decreases ns, 0
  {
    hide Gemma, Reads, MemberText, KeyOf;
    forall c | c in ns ensures |c.children| == 2 {
      MemberIs(c);
    }
    var vs := Values(ns);
    forall i | 0 <= i < |ns|
      ensures Texts(ns)[i] == MemberTexts(Keys(ns), Texts(vs))[i]
      ensures Members(ns)[i] == Pairs(Keys(ns), Meanings(vs))[i]
      ensures Reads(Texts(vs)[i], Meanings(vs)[i])
    {
      assert ns[i] in ns;
      MemberIs(ns[i]);
      assert vs[i] in ns[i].children;
      GemmaReadsBack(vs[i]);
    }
  }

  /**
   Whatever a finished tree of the grammar holds, a reader of JSON gets it back from the text that is
   written for it: numbers by their text, booleans, null, strings by their content, and arrays and
   objects by their elements and keys in order.
   */
  lemma {:induction false} GemmaReadsBack(n: Node)
    requires Grammatical(n) && (IsValueRule(n.rule) || n.rule == GemmaValue)
    ensures Reads(Gemma(n), Meaning(n))
    decreases n, 1
  {
    hide Reads, Joined, Commas;
    match n.rule
    case GemmaNumber => LeafReads(n);
    case GemmaBool => LeafReads(n);
    case GemmaNull => LeafReads(n);
    case GemmaString => TextReads(n);
    case GemmaArray =>
      ItemsReadBack(n.children);
      JoinedIsCommas(n.children);
      ArrayReads(Texts(n.children), Meanings(n.children));
    case GemmaDict =>
      MembersReadBack(n.children);
      JoinedIsCommas(n.children);
      var vs := Values(n.children);
      ObjectReads(Keys(n.children), Texts(vs), Meanings(vs));
    case GemmaValue =>
      assert n.children[0] in n.children;
      GemmaReadsBack(n.children[0]);
  }

  /** The arguments of a finished call, read as a whole text. */
  lemma ArgumentsReadBack(n: Node)
    requires Grammatical(n) && n.rule == GemmaDict
    ensures ReadValue(Gemma(n)) == Some((JObject(Members(n.children)), ""))
  {
    hide Gemma, Reads, ReadValue, Grammatical;
    GemmaReadsBack(n);
    ReadsWhole(Gemma(n), Meaning(n));
  }
}
