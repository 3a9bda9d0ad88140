/**
 normalize_quotes_to_json: Python-style quoting and literals rewritten to JSON, on text
 that may be cut off anywhere because it is still being streamed.
 */
module Quotes {
  import opened Wrappers

  datatype Quote = Plain | Single | Double

  predicate IsWordChar(c: char) {
    '0' <= c <= '9' || 'a' <= c <= 'z' || 'A' <= c <= 'Z' || c == '_'
  }

  predicate StartsLiteral(c: char) {
    c == 'T' || c == 'F' || c == 'N'
  }

  /** Length of the run of word characters at the front. */
  function WordLen(s: string): (n: nat)
    ensures n <= |s| && (forall i :: 0 <= i < n ==> IsWordChar(s[i])) && (n < |s| ==> !IsWordChar(s[n]))
  {
    if s == "" || !IsWordChar(s[0]) then 0 else 1 + WordLen(s[1..])
  }

  /** The JSON spelling of a word that is a prefix of True, False or None. */
  function Literal(word: string): (r: Option<string>)
    ensures r.Some? ==> |r.value| == |word| && forall i :: 0 <= i < |word| ==> 'a' <= r.value[i] <= 'z'
  {
    if word <= "True" then Some("true"[..|word|])
    else if word <= "False" then Some("false"[..|word|])
    else if word <= "None" then Some("null"[..|word|])
    else None
  }

  /**
   The rewriting of the rest of the input from a quoting state; prev says whether the
   character before it is a word character, which matters outside quotes only.
   */
  function Norm(s: string, q: Quote, prev: bool): string
    decreases |s|
  {
    if s == "" then ""
    else if s[0] == '\\' && |s| > 1 then
      match q
      case Single =>
        if s[1] == '\'' then "'" + Norm(s[2..], Single, false)
        else if s[1] == '"' then "\\\"" + Norm(s[2..], Single, false)
        else ['\\', s[1]] + Norm(s[2..], Single, false)
      case Double => ['\\', s[1]] + Norm(s[2..], Double, false)
      case Plain => "\\" + Norm(s[1..], Plain, false)
    else if s[0] == '"' then
      match q
      case Single => "\\\"" + Norm(s[1..], Single, false)
      case Double => "\"" + Norm(s[1..], Plain, false)
      case Plain => "\"" + Norm(s[1..], Double, false)
    else if s[0] == '\'' then
      match q
      case Double => "'" + Norm(s[1..], Double, false)
      case Single => "\"" + Norm(s[1..], Plain, false)
      case Plain => "\"" + Norm(s[1..], Single, false)
    else if q == Plain && StartsLiteral(s[0]) && !prev then
      var n := WordLen(s);
      match Literal(s[..n])
      case Some(js) => js + Norm(s[n..], Plain, true)
      case None => [s[0]] + Norm(s[1..], Plain, true)
    else [s[0]] + Norm(s[1..], q, q == Plain && IsWordChar(s[0]))
  }

  function Normalize(s: string): string {
    Norm(s, Plain, false)
  }

  predicate AfterWord(input: string, i: nat)
    requires i <= |input|
  {
    i > 0 && IsWordChar(input[i - 1])
  }

  lemma {:induction false} WordLenIs(s: string, n: nat)
    requires n <= |s| && (forall i :: 0 <= i < n ==> IsWordChar(s[i])) && (n < |s| ==> !IsWordChar(s[n]))
    ensures WordLen(s) == n
  {
    if n > 0 { WordLenIs(s[1..], n - 1); }
  }

  function NormAt(input: string, i: nat, q: Quote): string
    requires i <= |input|
  {
    Norm(input[i..], q, q == Plain && AfterWord(input, i))
  }

  /** A backslash with a character after it. */
  method EscapeStep(input: string, i: nat, q: Quote) returns (chunk: string, i': nat)
    requires i + 1 < |input| && input[i] == '\\'
    ensures i < i' <= |input| && NormAt(input, i, q) == chunk + NormAt(input, i', q)
  {
    var c, next := input[i], input[i + 1];
    assert input[i..][1..] == input[i + 1..] && input[i..][2..] == input[i + 2..];
    if q == Single {
      if next == '\'' { return "'", i + 2; }
      if next == '"' { return "\\\"", i + 2; }
      return [c, next], i + 2;
    }
    if q == Double { return [c, next], i + 2; }
    return [c], i + 1;
  }

  /** A quote character of either kind. */
  method QuoteStep(input: string, i: nat, q: Quote) returns (chunk: string, q': Quote)
    requires i < |input| && (input[i] == '"' || input[i] == '\'')
    ensures NormAt(input, i, q) == chunk + NormAt(input, i + 1, q')
  {
    assert input[i..][1..] == input[i + 1..];
    if input[i] == '"' {
      if q == Single { return "\\\"", q; }
      return "\"", if q == Double then Plain else Double;
    }
    if q == Double { return "'", q; }
    return "\"", if q == Single then Plain else Single;
  }

  /** A word outside quotes that starts like a Python literal. */
  method WordStep(input: string, i: nat) returns (chunk: string, i': nat)
    requires i < |input| && StartsLiteral(input[i]) && !AfterWord(input, i)
    ensures i < i' <= |input| && NormAt(input, i, Plain) == chunk + NormAt(input, i', Plain)
  {
    ghost var rest := input[i..];
    var n := 0;
    while i + n < |input| && IsWordChar(input[i + n])
      invariant i + n <= |input| && forall k :: 0 <= k < n ==> IsWordChar(rest[k])
    {
      n := n + 1;
    }
    WordLenIs(rest, n);
    assert n > 0 by { assert IsWordChar(input[i]); }
    WordAt(input, i, n);
    var js := Literal(input[i..i + n]);
    if js.Some? { return js.value, i + n; }
    return [input[i]], i + 1;
  }

  /** What becomes of a word of n characters at i. */
  lemma WordAt(input: string, i: nat, n: nat)
    requires 0 < n && i + n <= |input| && WordLen(input[i..]) == n
    requires StartsLiteral(input[i]) && !AfterWord(input, i)
    ensures var js := Literal(input[i..i + n]);
      && (js.Some? ==> NormAt(input, i, Plain) == js.value + NormAt(input, i + n, Plain))
      && (js.None? ==> NormAt(input, i, Plain) == [input[i]] + NormAt(input, i + 1, Plain))
  {
    hide Literal, WordLen;
    var rest := input[i..];
    assert rest[..n] == input[i..i + n] && rest[n..] == input[i + n..] && rest[1..] == input[i + 1..];
    WordEnds(input, i, n);
    NormOfLiteral(rest, n);
  }

  /** Both after the word and after its first character a word character stands before. */
  lemma WordEnds(input: string, i: nat, n: nat)
    requires 0 < n && i + n <= |input| && WordLen(input[i..]) == n
    ensures AfterWord(input, i + n) && AfterWord(input, i + 1)
  {
    assert IsWordChar(input[i..][n - 1]) && IsWordChar(input[i..][0]);
  }

  lemma NormOfLiteral(s: string, n: nat)
    requires 0 < n <= |s| && WordLen(s) == n && StartsLiteral(s[0])
    ensures var js := Literal(s[..n]);
      && (js.Some? ==> Norm(s, Plain, false) == js.value + Norm(s[n..], Plain, true))
      && (js.None? ==> Norm(s, Plain, false) == [s[0]] + Norm(s[1..], Plain, true))
  {
    hide Literal, WordLen;
  }

  lemma OtherStep(input: string, i: nat, q: Quote)
    requires i < |input| && input[i] != '"' && input[i] != '\'' && (input[i] == '\\' ==> i + 1 == |input|)
    requires !(q == Plain && StartsLiteral(input[i]) && !AfterWord(input, i))
    ensures NormAt(input, i, q) == [input[i]] + NormAt(input, i + 1, q)
  {
    assert input[i..][1..] == input[i + 1..];
  }

  /** normalize_quotes_to_json: the loop over the input. */
  method NormalizeQuotes(input: string) returns (result: string)
    ensures result == Normalize(input)
  {
    hide NormAt, Norm, StartsLiteral;
    result := "";
    var q := Plain;
    var i := 0;
    AtStart(input);
    while i < |input|
      invariant i <= |input|
      invariant Normalize(input) == result + NormAt(input, i, q)
      decreases |input| - i
    {
      var c := input[i];
      var chunk := [c];
      if c == '\\' && i + 1 < |input| {
        chunk, i := EscapeStep(input, i, q);
      } else if c == '"' || c == '\'' {
        chunk, q := QuoteStep(input, i, q);
        i := i + 1;
      } else if q == Plain && StartsLiteral(c) && !AfterWord(input, i) {
        chunk, i := WordStep(input, i);
      } else {
        OtherStep(input, i, q);
        i := i + 1;
      }
      result := result + chunk;
    }
    AtEnd(input, q);
  }

  lemma AtStart(input: string)
    ensures NormAt(input, 0, Plain) == Normalize(input)
  {
    assert input[0..] == input;
  }

  lemma AtEnd(input: string, q: Quote)
    ensures NormAt(input, |input|, q) == ""
  {
  }
}
