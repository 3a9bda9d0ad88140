/**
 What normalising keeps: a reader of Python text on the input and a reader of JSON text on the output
 see the same tokens.
 */
module QuoteTokens {
  import opened Quotes

  datatype Constant = TrueWord | FalseWord | NullWord

  /**
   Strings are a quote, their characters, and a quote; an escape that means its own character is
   that character. A constant may be cut short, and any other word is a name.
   */
  datatype Token =
    | QuoteMark
    | Char(c: char)
    | Escaped(c: char)
    | HalfEscape
    | Word(constant: Constant, length: nat)
    | Name(text: string)
    | Other(c: char)

  predicate InWord(c: char) {
    'A' <= c <= 'Z' || c == '_' || 'a' <= c <= 'z' || '0' <= c <= '9'
  }

  function WordAtFront(s: string): (w: string)
    ensures w <= s && |w| <= |s|
  {
    if s != "" && InWord(s[0]) then [s[0]] + WordAtFront(s[1..]) else ""
  }

  /** A word of JSON text. */
  function JsonWord(w: string): Token {
    if w <= "true" then Word(TrueWord, |w|)
    else if w <= "false" then Word(FalseWord, |w|)
    else if w <= "null" then Word(NullWord, |w|)
    else Name(w)
  }

  /** A word of Python text; the JSON spellings are let through. */
  function PythonWord(w: string): Token {
    if w <= "True" then Word(TrueWord, |w|)
    else if w <= "False" then Word(FalseWord, |w|)
    else if w <= "None" then Word(NullWord, |w|)
    else JsonWord(w)
  }

  /** Python text from outside strings, or from inside one with this quote. */
  function PythonTokens(s: string, q: Quote): seq<Token>
    decreases |s|
  {
    if s == "" then []
    else if q == Plain then
      if s[0] == '\'' then [QuoteMark] + PythonTokens(s[1..], Single)
      else if s[0] == '"' then [QuoteMark] + PythonTokens(s[1..], Double)
      else if InWord(s[0]) then
        var w := WordAtFront(s);
        [PythonWord(w)] + PythonTokens(s[|w|..], Plain)
      else [Other(s[0])] + PythonTokens(s[1..], Plain)
    else if s[0] == '\\' then
      if |s| == 1 then [HalfEscape]
      else if s[1] == '\'' || s[1] == '"' then [Char(s[1])] + PythonTokens(s[2..], q)
      else [Escaped(s[1])] + PythonTokens(s[2..], q)
    else if s[0] == (if q == Single then '\'' else '"') then [QuoteMark] + PythonTokens(s[1..], Plain)
    else [Char(s[0])] + PythonTokens(s[1..], q)
  }

  /** JSON text from outside strings, or from inside one. */
  function JsonTokens(s: string, inString: bool): seq<Token>
    decreases |s|
  {
    if s == "" then []
    else if !inString then
      if s[0] == '"' then [QuoteMark] + JsonTokens(s[1..], true)
      else if InWord(s[0]) then
        var w := WordAtFront(s);
        [JsonWord(w)] + JsonTokens(s[|w|..], false)
      else [Other(s[0])] + JsonTokens(s[1..], false)
    else if s[0] == '\\' then
      if |s| == 1 then [HalfEscape]
      else if s[1] == '"' then [Char('"')] + JsonTokens(s[2..], true)
      else [Escaped(s[1])] + JsonTokens(s[2..], true)
    else if s[0] == '"' then [QuoteMark] + JsonTokens(s[1..], false)
    else [Char(s[0])] + JsonTokens(s[1..], true)
  }

  /** An escaped apostrophe inside double quotes, which JSON has no escape for. */
  predicate EscapedApostrophe(s: string, q: Quote)
    decreases |s|
  {
    if s == "" then false
    else if q == Plain then
      EscapedApostrophe(s[1..], if s[0] == '\'' then Single else if s[0] == '"' then Double else Plain)
    else if s[0] == '\\' then
      |s| > 1 && ((q == Double && s[1] == '\'') || EscapedApostrophe(s[2..], q))
    else EscapedApostrophe(s[1..], if s[0] == (if q == Single then '\'' else '"') then Plain else q)
  }

  // ----- words -----

  lemma {:induction false} SameWord(s: string)
    ensures |WordAtFront(s)| == WordLen(s) && WordAtFront(s) == s[..WordLen(s)]
    decreases s
  {
    if s != "" && InWord(s[0]) {
      SameWord(s[1..]);
      assert s[..WordLen(s)] == [s[0]] + s[1..][..WordLen(s[1..])];
    }
  }

  lemma {:induction false} WordFront(w: string, rest: string)
    requires (forall i :: 0 <= i < |w| ==> InWord(w[i])) && (rest == "" || !InWord(rest[0]))
    ensures WordAtFront(w + rest) == w
    decreases w
  {
    if w == "" {
      assert w + rest == rest;
    } else {
      assert (w + rest)[1..] == w[1..] + rest;
      WordFront(w[1..], rest);
    }
  }

  /** After a word something else comes, also in the output. */
  lemma NoWordNext(s: string, prev: bool)
    requires s == "" || !InWord(s[0])
    ensures Norm(s, Plain, prev) == "" || !InWord(Norm(s, Plain, prev)[0])
    ensures Norm(s, Plain, prev) == Norm(s, Plain, false)
  {
  }

  lemma FirstOfMany(s: string, n: nat, rest: string)
    requires 0 < n <= |s|
    ensures [s[0]] + (s[1..][..n - 1] + rest) == s[..n] + rest && s[1..][n - 1..] == s[n..]
  {
  }

  lemma WordStep(s: string, prev: bool)
    requires s != "" && InWord(s[0]) && (prev || !StartsLiteral(s[0]) || Literal(s[..WordLen(s)]).None?)
    ensures Norm(s, Plain, prev) == [s[0]] + Norm(s[1..], Plain, true) && WordLen(s) == 1 + WordLen(s[1..])
  {
    hide Literal;
  }

  lemma {:induction false} TailCopies(s: string)
    ensures Norm(s, Plain, true) == s[..WordLen(s)] + Norm(s[WordLen(s)..], Plain, true)
    decreases s
  {
    hide Norm, Literal;
    var n := WordLen(s);
    if n == 0 {
      assert s[..0] == "" && s[0..] == s;
      assert "" + Norm(s, Plain, true) == Norm(s, Plain, true);
    } else {
      WordStep(s, true);
      TailCopies(s[1..]);
      FirstOfMany(s, n, Norm(s[n..], Plain, true));
    }
  }

  /** A name is copied. */
  lemma NameCopies(s: string)
    requires s != "" && InWord(s[0]) && (!StartsLiteral(s[0]) || Literal(s[..WordLen(s)]).None?)
    ensures Norm(s, Plain, false) == s[..WordLen(s)] + Norm(s[WordLen(s)..], Plain, true)
  {
    hide Norm, Literal;
    WordStep(s, false);
    TailCopies(s[1..]);
    FirstOfMany(s, WordLen(s), Norm(s[WordLen(s)..], Plain, true));
  }

  /** What a word becomes, and that the two readers take both for the same. */
  function Rewritten(w: string): string {
    if Literal(w).Some? then Literal(w).value else w
  }

  lemma WordBecomes(s: string)
    requires s != "" && InWord(s[0])
    ensures var n := WordLen(s);
            Norm(s, Plain, false) == Rewritten(s[..n]) + Norm(s[n..], Plain, true)
  {
    hide Norm;
    var n := WordLen(s);
    assert n > 0 && s[..n][0] == s[0];
    if StartsLiteral(s[0]) && Literal(s[..n]).Some? {
      LiteralNorm(s);
    } else {
      if Literal(s[..n]).Some? { LiteralStart(s[..n]); }
      NameCopies(s);
    }
  }

  lemma LiteralNorm(s: string)
    requires s != "" && StartsLiteral(s[0]) && Literal(s[..WordLen(s)]).Some?
    ensures Norm(s, Plain, false) == Literal(s[..WordLen(s)]).value + Norm(s[WordLen(s)..], Plain, true)
  {
  }

  lemma LiteralStart(w: string)
    requires w != "" && Literal(w).Some?
    ensures StartsLiteral(w[0])
  {
  }

  lemma Spelled(w: string)
    requires w != "" && forall i :: 0 <= i < |w| ==> InWord(w[i])
    ensures JsonWord(Rewritten(w)) == PythonWord(w) && |Rewritten(w)| == |w|
    ensures forall i :: 0 <= i < |w| ==> InWord(Rewritten(w)[i])
  {
    if w <= "True" {
      PrefixesOf("true", "false", "null", |w|);
    } else if w <= "False" {
      PrefixesOf("false", "true", "null", |w|);
    } else if w <= "None" {
      PrefixesOf("null", "true", "false", |w|);
    }
  }

  lemma PrefixesOf(x: string, y: string, z: string, n: nat)
    requires 0 < n <= |x| && y != "" && z != "" && x[0] != y[0] && x[0] != z[0]
    ensures x[..n] <= x && !(x[..n] <= y) && !(x[..n] <= z)
  {
    assert x[..n][0] == x[0];
  }

  // ----- the theorem -----

  lemma WordTokens(s: string)
    requires s != "" && InWord(s[0])
    ensures var n := WordLen(s);
            && n > 0 && PythonTokens(s, Plain) == [PythonWord(s[..n])] + PythonTokens(s[n..], Plain)
            && JsonTokens(Norm(s, Plain, false), false)
               == [PythonWord(s[..n])] + JsonTokens(Norm(s[n..], Plain, false), false)
  {
    hide Norm, PythonWord, JsonWord, Rewritten, JsonTokens, PythonTokens;
    var n := WordLen(s);
    SameWord(s);
    PythonWordFirst(s);
    WordBecomes(s);
    NoWordNext(s[n..], true);
    var w := Rewritten(s[..n]);
    var rest := Norm(s[n..], Plain, true);
    Spelled(s[..n]);
    WordFront(w, rest);
    JsonWordFirst(w + rest, w);
    assert (w + rest)[|w|..] == rest;
  }

  lemma PythonWordFirst(s: string)
    requires s != "" && InWord(s[0])
    ensures PythonTokens(s, Plain) == [PythonWord(WordAtFront(s))] + PythonTokens(s[|WordAtFront(s)|..], Plain)
  {
    hide PythonWord;
  }

  lemma JsonWordFirst(s: string, w: string)
    requires WordAtFront(s) == w != ""
    ensures JsonTokens(s, false) == [JsonWord(w)] + JsonTokens(s[|w|..], false)
  {
    hide JsonWord;
  }

  lemma SameRest(t: Token, x: seq<Token>, y: seq<Token>)
    ensures [t] + x == [t] + y <==> x == y
  {
    assert ([t] + x)[1..] == x && ([t] + y)[1..] == y;
  }

  lemma OtherRest(t: Token, u: Token, x: seq<Token>, y: seq<Token>)
    requires t != u
    ensures [t] + x != [u] + y
  {
    assert ([t] + x)[0] == t && ([u] + y)[0] == u;
  }

  lemma WordHasNoString(s: string)
    requires s != "" && InWord(s[0])
    ensures EscapedApostrophe(s, Plain) == EscapedApostrophe(s[WordLen(s)..], Plain)
    decreases s
  {
    var n := WordLen(s);
    assert s[1..][n - 1..] == s[n..];
    if n > 1 {
      WordHasNoString(s[1..]);
    } else {
      assert s[1..] == s[n..];
    }
  }

  /** One character of output outside a string. */
  lemma JsonPlain(c: char, rest: string)
    requires !InWord(c)
    ensures JsonTokens([c] + rest, false) == if c == '"' then [QuoteMark] + JsonTokens(rest, true) else [Other(c)] + JsonTokens(rest, false)
  {
    assert ([c] + rest)[1..] == rest;
  }

  /** One character of output inside a string. */
  lemma JsonInside(c: char, rest: string)
    requires c != '\\'
    ensures JsonTokens([c] + rest, true) == if c == '"' then [QuoteMark] + JsonTokens(rest, false) else [Char(c)] + JsonTokens(rest, true)
  {
    assert ([c] + rest)[1..] == rest;
  }

  lemma JsonPair(c: char, rest: string)
    ensures JsonTokens(['\\', c] + rest, true) == [if c == '"' then Char(c) else Escaped(c)] + JsonTokens(rest, true)
  {
    assert (['\\', c] + rest)[2..] == rest;
  }

  lemma PlainStep(s: string)
    requires s != "" && !InWord(s[0])
    ensures Norm(s, Plain, false)
            == if s[0] == '"' then "\"" + Norm(s[1..], Double, false)
               else if s[0] == '\'' then "\"" + Norm(s[1..], Single, false)
               else [s[0]] + Norm(s[1..], Plain, false)
  {
    if s == "\\" { assert s[1..] == ""; }
  }

  lemma InsideStep(s: string, q: Quote)
    requires s != "" && q != Plain && s[0] != '\\'
    ensures Norm(s, q, false)
            == if s[0] == (if q == Single then '\'' else '"') then "\"" + Norm(s[1..], Plain, false)
               else if s[0] == '"' then "\\\"" + Norm(s[1..], q, false)
               else [s[0]] + Norm(s[1..], q, false)
  {
  }

  lemma PairStep(s: string, q: Quote)
    requires |s| > 1 && q != Plain && s[0] == '\\'
    ensures Norm(s, q, false)
            == if q == Single && s[1] == '\'' then "'" + Norm(s[2..], q, false)
               else ['\\', s[1]] + Norm(s[2..], q, false)
  {
  }

  /** From outside strings. */
  lemma {:induction false} PlainTokens(s: string)
    requires s != ""
    ensures JsonTokens(Norm(s, Plain, false), false) == PythonTokens(s, Plain) <==> !EscapedApostrophe(s, Plain)
    decreases |s|, 0
  {
    hide Norm, JsonTokens;
    if InWord(s[0]) {
      hide PythonTokens, EscapedApostrophe;
      var n := WordLen(s);
      WordTokens(s);
      WordHasNoString(s);
      SameTokens(s[n..], Plain);
      SameRest(PythonWord(s[..n]), JsonTokens(Norm(s[n..], Plain, false), false), PythonTokens(s[n..], Plain));
    } else {
      PlainStep(s);
      var q := if s[0] == '"' then Double else if s[0] == '\'' then Single else Plain;
      var c := if s[0] == '\'' then '"' else s[0];
      JsonPlain(c, Norm(s[1..], q, false));
      SameTokens(s[1..], q);
      SameRest(if q == Plain then Other(c) else QuoteMark,
               JsonTokens(Norm(s[1..], q, false), q != Plain), PythonTokens(s[1..], q));
    }
  }

  /** From inside a string, at a backslash. */
  lemma {:induction false} EscapeTokens(s: string, q: Quote)
    requires s != "" && q != Plain && s[0] == '\\'
    ensures JsonTokens(Norm(s, q, false), true) == PythonTokens(s, q) <==> !EscapedApostrophe(s, q)
    decreases |s|, 0
  {
    if |s| == 1 {
      assert s == "\\";
    } else {
      hide Norm, JsonTokens;
      PairStep(s, q);
      var rest := Norm(s[2..], q, false);
      JsonPair(s[1], rest);
      SameTokens(s[2..], q);
      var x, y := JsonTokens(rest, true), PythonTokens(s[2..], q);
      if s[1] == '\'' {
        JsonInside('\'', rest);
        SameRest(Char(s[1]), x, y);
        OtherRest(Escaped(s[1]), Char(s[1]), x, y);
      } else {
        SameRest(if s[1] == '"' then Char(s[1]) else Escaped(s[1]), x, y);
      }
    }
  }

  /** From inside a string, anywhere else. */
  lemma {:induction false} InsideTokens(s: string, q: Quote)
    requires s != "" && q != Plain && s[0] != '\\'
    ensures JsonTokens(Norm(s, q, false), true) == PythonTokens(s, q) <==> !EscapedApostrophe(s, q)
    decreases |s|, 0
  {
    hide Norm, JsonTokens;
    InsideStep(s, q);
    var ends := s[0] == (if q == Single then '\'' else '"');
    var next := if ends then Plain else q;
    var rest := Norm(s[1..], next, false);
    SameTokens(s[1..], next);
    if ends {
      JsonInside('"', rest);
    } else if s[0] == '"' {
      JsonPair('"', rest);
    } else {
      JsonInside(s[0], rest);
    }
    SameRest(if ends then QuoteMark else Char(s[0]), JsonTokens(rest, next != Plain), PythonTokens(s[1..], next));
  }

  lemma {:induction false} SameTokens(s: string, q: Quote)
    ensures JsonTokens(Norm(s, q, false), q != Plain) == PythonTokens(s, q) <==> !EscapedApostrophe(s, q)
    decreases |s|, 1
  {
    if s != "" {
      hide Norm, JsonTokens, PythonTokens, EscapedApostrophe;
      if q == Plain {
        PlainTokens(s);
      } else if s[0] == '\\' {
        EscapeTokens(s, q);
      } else {
        InsideTokens(s, q);
      }
    }
  }

  /**
   Reading the normalised text as JSON gives exactly the tokens that reading the input as Python gives:
   constants, whole or cut short, strings with the same content, and all other text unchanged. The one
   exception is an escaped apostrophe in double quotes, which is passed on and is no JSON escape.
   */
  lemma NormalizeKeepsTokensExactlyWhen(s: string)
    ensures JsonTokens(Normalize(s), false) == PythonTokens(s, Plain) <==> !EscapedApostrophe(s, Plain)
  {
    SameTokens(s, Plain);
  }

  /** `"it\'s"` */
  lemma ApostropheWitness()
    ensures JsonTokens(Normalize("\"it\\'s\""), false) != PythonTokens("\"it\\'s\"", Plain)
  {
    hide JsonTokens, PythonTokens, Normalize;
    var s := "\"it\\'s\"";
    assert s[1..] == "it\\'s\"" && s[1..][1..] == "t\\'s\"" && s[1..][1..][1..] == "\\'s\"";
    assert EscapedApostrophe("\\'s\"", Double);
    assert EscapedApostrophe("t\\'s\"", Double);
    assert EscapedApostrophe("it\\'s\"", Double);
    NormalizeKeepsTokensExactlyWhen(s);
  }
}
