/** gemma4_to_json: JSON argument text from a Gemma 4 parse tree. */
module GemmaJson {
  import opened Ast
  import opened JsonText

  function Gemma(n: Node): string
    decreases n, 1
  {
    if n.text == "" then ""
    else
      match n.rule
      case GemmaNumber => n.text
      case GemmaBool => n.text
      case GemmaNull => n.text
      case GemmaStringContent => Escape(n.text)
      case GemmaString =>
        "\"" + (if n.children == [] then "" else Gemma(n.children[0]) + (if n.partial then "" else "\""))
      case GemmaArray => "[" + Joined(n.children) + (if n.partial then "" else "]")
      case GemmaDictKeyName => n.text
      case GemmaDictKey =>
        "\"" + (if n.children == [] then "" else Escape(Gemma(n.children[0]))) + (if n.partial then "" else "\":")
      case GemmaDictKv => Chained(n.children)
      case GemmaDict => "{" + Joined(n.children) + (if n.partial then "" else "}")
      case GemmaValue => if n.children == [] then "" else Gemma(n.children[0])
      case OtherRule => ""
  }

  /** The JSON of siblings with commas between. */
  function Joined(ns: seq<Node>): string
    decreases ns, 0
  {
    if ns == [] then ""
    else if |ns| == 1 then Gemma(ns[0])
    else Joined(ns[..|ns| - 1]) + "," + Gemma(ns[|ns| - 1])
  }

  /** The JSON of siblings, one after the other. */
  function Chained(ns: seq<Node>): string
    decreases ns, 0
  {
    if ns == [] then "" else Chained(ns[..|ns| - 1]) + Gemma(ns[|ns| - 1])
  }

  lemma {:induction false} JoinedPrefix(ns: seq<Node>, k: nat)
    requires k <= |ns|
    ensures Joined(ns[..k]) <= Joined(ns) && Chained(ns[..k]) <= Chained(ns)
    decreases |ns|
  {
    if k < |ns| {
      var init := ns[..|ns| - 1];
      JoinedPrefix(init, k);
      assert init[..k] == ns[..k];
    } else {
      assert ns[..k] == ns;
    }
  }

  /** What has been written for a growing tree is never taken back. */
  lemma {:induction false} GemmaGrows(a: Node, b: Node)
    requires Grows(a, b)
    ensures Gemma(a) <= Gemma(b)
    decreases a, 1
  {
    hide Gemma, Joined, Chained, Escape;
    if a == b || a.text == "" || a.rule == OtherRule {
      SilentGrows(a, b);
    } else if IsListRule(a.rule) {
      SiblingsGrow(a.children, b.children);
      ListGrows(a, b);
    } else if IsFirstRule(a.rule) {
      if a.children != [] {
        GrowsAllAt(a.children, b.children, false, 0);
        GemmaGrows(a.children[0], b.children[0]);
      }
      FirstGrows(a, b);
    } else {
      LeafGrows(a, b);
    }
  }

  /** Rules that write all their children. */
  predicate IsListRule(r: Rule) {
    r == GemmaArray || r == GemmaDictKv || r == GemmaDict
  }

  /** Rules that write their first child. */
  predicate IsFirstRule(r: Rule) {
    r == GemmaString || r == GemmaDictKey || r == GemmaValue
  }

  lemma SilentGrows(a: Node, b: Node)
    requires Grows(a, b) && (a == b || a.text == "" || a.rule == OtherRule)
    ensures Gemma(a) <= Gemma(b)
  {
    hide Escape, Joined, Chained;
  }

  lemma LeafGrows(a: Node, b: Node)
    requires Grows(a, b) && a != b && !IsListRule(a.rule) && !IsFirstRule(a.rule) && a.rule != OtherRule
    ensures Gemma(a) <= Gemma(b)
  {
    hide Escape, Joined, Chained;
    EscapeMonotone(a.text, b.text);
  }

  lemma ListGrows(a: Node, b: Node)
    requires Grows(a, b) && a != b && IsListRule(a.rule)
    requires Joined(a.children) <= Joined(b.children) && Chained(a.children) <= Chained(b.children)
    ensures Gemma(a) <= Gemma(b)
  {
    hide Escape, Joined, Chained;
    var open := if a.rule == GemmaArray then "[" else "{";
    var close := if b.partial then "" else if a.rule == GemmaArray then "]" else "}";
    WrapGrows(open, Joined(a.children), Joined(b.children), close);
    assert open + Joined(a.children) + "" == open + Joined(a.children);
  }

  lemma WrapGrows(open: string, x: string, y: string, close: string)
    requires x <= y
    ensures open + x <= open + y + close
  {
  }

  lemma FirstGrows(a: Node, b: Node)
    requires Grows(a, b) && a != b && IsFirstRule(a.rule)
    requires a.children != [] ==> b.children != [] && Gemma(a.children[0]) <= Gemma(b.children[0])
    ensures Gemma(a) <= Gemma(b)
  {
    hide Escape, Joined, Chained;
    if a.children != [] {
      var x, y := Gemma(a.children[0]), Gemma(b.children[0]);
      EscapeMonotone(x, y);
      match a.rule
      case GemmaString =>
        WrapGrows("\"", x, y, if b.partial then "" else "\"");
        assert "\"" + (x + "") == "\"" + x;
        assert "\"" + (y + if b.partial then "" else "\"") == "\"" + y + if b.partial then "" else "\"";
      case GemmaDictKey =>
        WrapGrows("\"", Escape(x), Escape(y), if b.partial then "" else "\":");
        assert "\"" + Escape(x) + "" == "\"" + Escape(x);
      case _ =>
    }
  }

  lemma {:induction false} SiblingsGrow(a: seq<Node>, b: seq<Node>)
    requires GrowsAll(a, b, false)
    ensures Joined(a) <= Joined(b) && Chained(a) <= Chained(b)
    decreases a, 0
  {
    if a != [] {
      var n := |a| - 1;
      GemmaGrows(a[n], b[n]);
      JoinedPrefix(b, n + 1);
      var b' := b[..n + 1];
      assert b'[..n] == b[..n] && b'[n] == b[n];
    }
  }

  // ----- balance -----

  /** A finished tree of the grammar: every rule has the parts the grammar gives it. */
  predicate WellBuilt(n: Node)
    decreases n
  {
    && !n.partial
    && n.text != ""
    && match n.rule
       case GemmaNumber => Flat(n.text)
       case GemmaBool => Flat(n.text)
       case GemmaNull => Flat(n.text)
       case GemmaString => |n.children| == 1 && n.children[0].rule == GemmaStringContent
       case GemmaArray => forall c :: c in n.children ==> WellBuilt(c)
       case GemmaDictKey => |n.children| == 1 && n.children[0].rule == GemmaDictKeyName
       case GemmaDictKv => forall c :: c in n.children ==> WellBuilt(c)
       case GemmaDict => forall c :: c in n.children ==> WellBuilt(c)
       case GemmaValue => |n.children| == 1 && WellBuilt(n.children[0])
       case _ => false
  }

  predicate Flat(s: string) {
    forall i :: 0 <= i < |s| ==> s[i] != '"' && s[i] != '{' && s[i] != '}'
  }

  lemma {:induction false} FlatStays(d: int, s: string)
    requires Flat(s)
    ensures Run(Scan(d, false, false), s) == Scan(d, false, false)
  {
    if s != "" { FlatStays(d, s[1..]); }
  }

  lemma RunWrapped(d: int, open: char, inner: string, close: string, d': int)
    requires Next(Scan(d, false, false), open) == Scan(d', false, false)
    requires Run(Scan(d', false, false), inner) == Scan(d', false, false)
    ensures Run(Scan(d, false, false), [open] + inner + close) == Run(Scan(d', false, false), close)
  {
    RunAppend(Scan(d, false, false), [open] + inner, close);
    RunAppend(Scan(d, false, false), [open], inner);
    RunOne(Scan(d, false, false), open);
  }

  lemma KeyStays(d: int, key: string)
    ensures Run(Scan(d, false, false), "\"" + Escape(key) + "\":") == Scan(d, false, false)
  {
    assert "\"" + Escape(key) + "\":" == Quoted(key) + ":";
    RunAppend(Scan(d, false, false), Quoted(key), ":");
    QuotedStays(d, key);
    RunOne(Scan(d, false, false), ':');
  }

  /** A finished argument tree writes text whose braces balance and whose strings all close. */
  lemma {:induction false} FinishedBalances(n: Node, d: int)
    requires WellBuilt(n)
    ensures Run(Scan(d, false, false), Gemma(n)) == Scan(d, false, false)
    decreases n, 1
  {
    match n.rule
    case GemmaNumber => FlatStays(d, n.text);
    case GemmaBool => FlatStays(d, n.text);
    case GemmaNull => FlatStays(d, n.text);
    case GemmaString =>
      var text := n.children[0].text;
      assert Gemma(n.children[0]) == Escape(text);
      assert Gemma(n) == Quoted(text);
      QuotedStays(d, text);
    case GemmaArray =>
      SiblingsBalance(n.children, d);
      RunWrapped(d, '[', Joined(n.children), "]", d);
      RunOne(Scan(d, false, false), ']');
    case GemmaDictKey => KeyStays(d, Gemma(n.children[0]));
    case GemmaDictKv => SiblingsBalance(n.children, d);
    case GemmaDict =>
      SiblingsBalance(n.children, d + 1);
      RunWrapped(d, '{', Joined(n.children), "}", d + 1);
      RunOne(Scan(d + 1, false, false), '}');
    case GemmaValue => FinishedBalances(n.children[0], d);
  }

  lemma {:induction false} SiblingsBalance(ns: seq<Node>, d: int)
    requires forall c :: c in ns ==> WellBuilt(c)
    ensures Run(Scan(d, false, false), Joined(ns)) == Scan(d, false, false)
    ensures Run(Scan(d, false, false), Chained(ns)) == Scan(d, false, false)
    decreases ns, 0
  {
    if ns != [] {
      var st, init, last := Scan(d, false, false), ns[..|ns| - 1], ns[|ns| - 1];
      SiblingsBalance(init, d);
      FinishedBalances(last, d);
      RunAppend(st, Joined(init) + ",", Gemma(last));
      RunAppend(st, Joined(init), ",");
      RunOne(st, ',');
      RunAppend(st, Chained(init), Gemma(last));
    }
  }
}
