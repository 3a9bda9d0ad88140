/** What normalize_quotes_to_json promises, on every string. */
module QuoteLaws {
  import opened Wrappers
  import opened JsonText
  import opened Quotes

  // ----- how the second pass reads what the first one wrote -----

  predicate IsOrdinary(c: char) {
    c != '\\' && c != '"' && c != '\''
  }

  lemma PassChar(c: char, x: string, q: Quote, prev: bool)
    requires IsOrdinary(c) && !(q == Plain && StartsLiteral(c) && !prev)
    ensures Norm([c] + x, q, prev) == [c] + Norm(x, q, q == Plain && IsWordChar(c))
  {
    assert ([c] + x)[1..] == x;
  }

  lemma PassPair(d: char, x: string)
    ensures Norm(['\\', d] + x, Double, false) == ['\\', d] + Norm(x, Double, false)
  {
    assert (['\\', d] + x)[2..] == x;
  }

  lemma PassQuote(x: string, q: Quote, prev: bool)
    requires q != Single
    ensures Norm("\"" + x, q, prev) == "\"" + Norm(x, if q == Double then Plain else Double, false)
  {
    assert ("\"" + x)[1..] == x;
  }

  lemma PassApostrophe(x: string)
    ensures Norm("'" + x, Double, false) == "'" + Norm(x, Double, false)
  {
    assert ("'" + x)[1..] == x;
  }

  lemma PassBackslash(x: string, prev: bool)
    ensures Norm("\\" + x, Plain, prev) == "\\" + Norm(x, Plain, false)
  {
    assert ("\\" + x)[1..] == x;
  }

  /** A word already in JSON spelling passes unchanged. */
  lemma {:induction false} PassLowerWord(w: string, x: string, prev: bool)
    requires w != "" && forall i :: 0 <= i < |w| ==> 'a' <= w[i] <= 'z'
    ensures Norm(w + x, Plain, prev) == w + Norm(x, Plain, true)
  {
    var rest := w[1..];
    assert w + x == [w[0]] + (rest + x);
    PassChar(w[0], rest + x, Plain, prev);
    if rest == "" {
      assert rest + x == x;
    } else {
      PassLowerWord(rest, x, true);
    }
  }

  /** Inside a word nothing is rewritten, and the word ends where it ended. */
  lemma {:induction false} WordPasses(s: string)
    ensures Norm(s, Plain, true) == s[..WordLen(s)] + Norm(s[WordLen(s)..], Plain, true)
    ensures WordLen(Norm(s[WordLen(s)..], Plain, true)) == 0
  {
    if s == "" || !IsWordChar(s[0]) {
      assert s[WordLen(s)..] == s;
    } else {
      WordPasses(s[1..]);
      var n := WordLen(s);
      assert s == [s[0]] + s[1..];
      PassChar(s[0], s[1..], Plain, true);
      assert s[1..][..n - 1] == s[1..n] && s[1..][n - 1..] == s[n..];
      assert s[..n] == [s[0]] + s[1..n];
    }
  }

  lemma WordLenAppend(w: string, x: string)
    requires (forall i :: 0 <= i < |w| ==> IsWordChar(w[i])) && WordLen(x) == 0
    ensures WordLen(w + x) == |w| && (w + x)[..|w|] == w
  {
    WordLenIs(w + x, |w|);
  }

  /** The second pass keeps a word that the first pass left alone. */
  lemma UnmatchedWord(s: string)
    requires s != "" && StartsLiteral(s[0]) && Literal(s[..WordLen(s)]).None?
    ensures var x := Norm(s[1..], Plain, true);
            Norm([s[0]] + x, Plain, false) == [s[0]] + Norm(x, Plain, true)
  {
    hide Literal, Norm, WordLen;
    var n := WordLen(s);
    var x := Norm(s[1..], Plain, true);
    WordRejoined(s);
    var y := Norm(s[n..], Plain, true);
    var t := [s[0]] + x;
    WordLenAppend(s[..n], y);
    assert t[0] == s[0] && t[1..] == x;
    NormOfWord(t);
  }

  /** The first pass leaves the word as it is, and the word ends where it did. */
  lemma WordRejoined(s: string)
    requires s != "" && StartsLiteral(s[0])
    ensures var n := WordLen(s);
      && [s[0]] + Norm(s[1..], Plain, true) == s[..n] + Norm(s[n..], Plain, true)
      && WordLen(Norm(s[n..], Plain, true)) == 0
      && forall i :: 0 <= i < n ==> IsWordChar(s[..n][i])
  {
    hide Literal, Norm;
    assert IsWordChar(s[0]);
    assert s == [s[0]] + s[1..];
    PassChar(s[0], s[1..], Plain, true);
    WordPasses(s);
  }

  function Second(q: Quote): Quote {
    if q == Plain then Plain else Double
  }

  /**
   The simulation: what the first pass writes from a state, the second pass copies from the
   state in which single-quoted text has become double-quoted.
   */
  lemma {:induction false} SecondPassCopies(s: string, q: Quote, prev: bool)
    requires q != Plain ==> !prev
    ensures Norm(Norm(s, q, prev), Second(q), prev) == Norm(s, q, prev)
    decreases |s|
  {
    if s == "" {
    } else if s[0] == '\\' {
      BackslashCopies(s, q, prev);
    } else if s[0] == '"' {
      var q' := if q == Single then Single else if q == Double then Plain else Double;
      var x := Norm(s[1..], q', false);
      SecondPassCopies(s[1..], q', false);
      if q == Single { PassPair('"', x); } else { PassQuote(x, q, prev); }
    } else if s[0] == '\'' {
      var q' := if q == Double then Double else if q == Single then Plain else Single;
      var x := Norm(s[1..], q', false);
      SecondPassCopies(s[1..], q', false);
      if q == Double { PassApostrophe(x); } else { PassQuote(x, Second(q), prev); }
    } else if q == Plain && StartsLiteral(s[0]) && !prev {
      var n := WordLen(s);
      assert IsWordChar(s[0]) && n > 0;
      if Literal(s[..n]).Some? {
        SecondPassCopies(s[n..], Plain, true);
        PassLowerWord(Literal(s[..n]).value, Norm(s[n..], Plain, true), prev);
      } else {
        SecondPassCopies(s[1..], Plain, true);
        UnmatchedWord(s);
      }
    } else {
      var prev' := q == Plain && IsWordChar(s[0]);
      SecondPassCopies(s[1..], q, prev');
      PassChar(s[0], Norm(s[1..], q, prev'), Second(q), prev);
    }
  }

  lemma {:induction false} BackslashCopies(s: string, q: Quote, prev: bool)
    requires s != "" && s[0] == '\\' && (q != Plain ==> !prev)
    ensures Norm(Norm(s, q, prev), Second(q), prev) == Norm(s, q, prev)
    decreases |s|, 0
  {
    if q == Plain {
      SecondPassCopies(s[1..], Plain, false);
      PassBackslash(Norm(s[1..], Plain, false), prev);
    } else if |s| > 1 {
      var x := Norm(s[2..], q, false);
      SecondPassCopies(s[2..], q, false);
      if q == Single && s[1] == '\'' { PassApostrophe(x); } else { PassPair(s[1], x); }
    } else {
      assert s[1..] == "";
    }
  }

  /** Normalizing twice is normalizing once, on every string. */
  lemma NormalizeIdempotent(s: string)
    ensures Normalize(Normalize(s)) == Normalize(s)
  {
    SecondPassCopies(s, Plain, false);
  }

  // ----- streaming: cutting the input -----

  /** What a cut leaves undecided. */
  datatype Tail = Settled | HalfEscape | OpenWord(word: string)

  function TailOf(s: string, q: Quote, prev: bool): Tail
    decreases |s|
  {
    if s == "" then Settled
    else if s[0] == '\\' then
      if |s| == 1 then (if q == Single then HalfEscape else Settled)
      else if q == Plain then TailOf(s[1..], Plain, false)
      else TailOf(s[2..], q, false)
    else if s[0] == '"' then
      TailOf(s[1..], if q == Single then Single else if q == Double then Plain else Double, false)
    else if s[0] == '\'' then
      TailOf(s[1..], if q == Double then Double else if q == Single then Plain else Single, false)
    else if q == Plain && StartsLiteral(s[0]) && !prev then
      var n := WordLen(s);
      if Literal(s[..n]).None? then TailOf(s[1..], Plain, true)
      else if n == |s| then OpenWord(s)
      else TailOf(s[n..], Plain, true)
    else TailOf(s[1..], q, q == Plain && IsWordChar(s[0]))
  }

  /** The continuation takes back what was written for the undecided end. */
  predicate Retracts(tail: Tail, x: string) {
    match tail
    case Settled => false
    case HalfEscape => x != "" && x[0] == '\''
    case OpenWord(w) => Literal(w + x[..WordLen(x)]).None?
  }

  lemma PrefixCons(c: string, a: string, b: string)
    ensures c + a <= c + b <==> a <= b
  {
    if c + a <= c + b {
      assert a == (c + a)[|c|..] && b == (c + b)[|c|..];
      forall i | 0 <= i < |a| ensures a[i] == b[i] {
        assert (c + a)[|c| + i] == (c + b)[|c| + i];
      }
    }
  }

  lemma LiteralClosed(w: string, v: string)
    requires Literal(w).None?
    ensures Literal(w + v).None?
  {
    assert w <= w + v;
  }

  lemma LiteralGrows(w: string, v: string)
    requires w != "" && Literal(w + v).Some?
    ensures Literal(w).Some? && Literal(w).value <= Literal(w + v).value
  {
    assert (w + v)[0] == w[0];
  }

  lemma WordLenOfExtended(s: string, x: string)
    ensures WordLen(s) < |s| ==> WordLen(s + x) == WordLen(s)
    ensures WordLen(s) == |s| ==> WordLen(s + x) == |s| + WordLen(x)
  {
    var n := WordLen(s);
    if n < |s| {
      WordLenIs(s + x, n);
    } else {
      WordLenIs(s + x, n + WordLen(x));
    }
  }

  /** A cut in the middle of a literal-like word. */
  lemma OpenWordCut(s: string, x: string)
    requires s != "" && StartsLiteral(s[0]) && WordLen(s) == |s| && Literal(s).Some?
    ensures Norm(s, Plain, false) == Literal(s).value
    ensures Norm(s, Plain, false) <= Norm(s + x, Plain, false) <==> Literal(s + x[..WordLen(x)]).Some?
  {
    var w, t := x[..WordLen(x)], s + x;
    WordLenOfExtended(s, x);
    assert s[..|s|] == s && s[|s|..] == "";
    assert t[..WordLen(t)] == s + w;
    if Literal(s + w).Some? {
      LiteralGrows(s, w);
    } else {
      assert Norm(t, Plain, false)[0] == s[0];
      assert 'a' <= Literal(s).value[0] <= 'z';
    }
  }

  /** Outputs after a cut extend each other exactly when nothing undecided is taken back. */
  lemma {:induction false} CutIsPrefix(s: string, x: string, q: Quote, prev: bool)
    requires q != Plain ==> !prev
    ensures Norm(s, q, prev) <= Norm(s + x, q, prev) <==> !Retracts(TailOf(s, q, prev), x)
    decreases |s|
  {
    var t := s + x;
    if s == "" {
    } else if s[0] == '\\' {
      BackslashCut(s, x, q, prev);
    } else {
      assert t[0] == s[0] && t[1..] == s[1..] + x;
      if s[0] == '"' {
        var q' := if q == Single then Single else if q == Double then Plain else Double;
        CutIsPrefix(s[1..], x, q', false);
        PrefixCons(if q == Single then "\\\"" else "\"", Norm(s[1..], q', false), Norm(t[1..], q', false));
      } else if s[0] == '\'' {
        var q' := if q == Double then Double else if q == Single then Plain else Single;
        CutIsPrefix(s[1..], x, q', false);
        PrefixCons(if q == Double then "'" else "\"", Norm(s[1..], q', false), Norm(t[1..], q', false));
      } else if q == Plain && StartsLiteral(s[0]) && !prev {
        WordCut(s, x);
      } else {
        var prev' := q == Plain && IsWordChar(s[0]);
        CutIsPrefix(s[1..], x, q, prev');
        PrefixCons([s[0]], Norm(s[1..], q, prev'), Norm(t[1..], q, prev'));
      }
    }
  }

  lemma NormOfWord(s: string)
    requires s != "" && StartsLiteral(s[0])
    ensures var n := WordLen(s);
            && n > 0
            && (Literal(s[..n]).Some? ==> Norm(s, Plain, false) == Literal(s[..n]).value + Norm(s[n..], Plain, true))
            && (Literal(s[..n]).None? ==> Norm(s, Plain, false) == [s[0]] + Norm(s[1..], Plain, true))
  {
    assert IsWordChar(s[0]);
  }

  lemma TailOfWord(s: string)
    requires s != "" && StartsLiteral(s[0])
    ensures var n := WordLen(s);
            TailOf(s, Plain, false) == if Literal(s[..n]).None? then TailOf(s[1..], Plain, true)
                                       else if n == |s| then OpenWord(s) else TailOf(s[n..], Plain, true)
  {
    hide Literal, WordLen, IsWordChar;
  }

  lemma {:induction false} WordCut(s: string, x: string)
    requires s != "" && StartsLiteral(s[0])
    ensures Norm(s, Plain, false) <= Norm(s + x, Plain, false) <==> !Retracts(TailOf(s, Plain, false), x)
    decreases |s|, 0
  {
    hide Norm, TailOf, Literal, WordLen;
    var t, n := s + x, WordLen(s);
    NormOfWord(s);
    NormOfWord(t);
    TailOfWord(s);
    WordLenOfExtended(s, x);
    if Literal(s[..n]).None? {
      assert t[..WordLen(t)] == s[..n] + t[n..WordLen(t)];
      LiteralClosed(s[..n], t[n..WordLen(t)]);
      assert t[1..] == s[1..] + x;
      CutIsPrefix(s[1..], x, Plain, true);
      PrefixCons([s[0]], Norm(s[1..], Plain, true), Norm(t[1..], Plain, true));
    } else if n == |s| {
      assert s[..n] == s;
      OpenWordCut(s, x);
    } else {
      assert t[..n] == s[..n] && t[n..] == s[n..] + x;
      CutIsPrefix(s[n..], x, Plain, true);
      PrefixCons(Literal(s[..n]).value, Norm(s[n..], Plain, true), Norm(t[n..], Plain, true));
    }
  }

  lemma {:induction false} BackslashCut(s: string, x: string, q: Quote, prev: bool)
    requires s != "" && s[0] == '\\' && (q != Plain ==> !prev)
    ensures Norm(s, q, prev) <= Norm(s + x, q, prev) <==> !Retracts(TailOf(s, q, prev), x)
    decreases |s|, 0
  {
    var t := s + x;
    if |s| == 1 {
      assert s == "\\" && t[1..] == x;
      assert Norm(s, q, prev) == "\\" by { assert s[1..] == ""; }
      if x == "" {
        assert t == s;
      } else {
        assert t[1] == x[0];
      }
    } else if q == Plain {
      assert t[1..] == s[1..] + x;
      CutIsPrefix(s[1..], x, Plain, false);
      PrefixCons("\\", Norm(s[1..], Plain, false), Norm(t[1..], Plain, false));
    } else {
      assert t[1] == s[1] && t[2..] == s[2..] + x;
      CutIsPrefix(s[2..], x, q, false);
      var chunk := if q == Double then ['\\', s[1]] else if s[1] == '\'' then "'" else ['\\', s[1]];
      PrefixCons(chunk, Norm(s[2..], q, false), Norm(t[2..], q, false));
    }
  }

  /**
   Streaming is monotone: the normal form of a cut input is a prefix of that of the whole
   exactly unless the cut splits an escaped apostrophe in single-quoted text, or splits a
   word that began like a Python literal and turns out not to be one.
   */
  lemma NormalizeMonotoneExactlyWhen(cut: string, rest: string)
    ensures Normalize(cut) <= Normalize(cut + rest) <==> !Retracts(TailOf(cut, Plain, false), rest)
  {
    CutIsPrefix(cut, rest, Plain, false);
  }

  // ----- structure -----

  /** A scanner for Python text: brace depth outside quotes, the open quote, a pending backslash. */
  datatype PyScan = PyScan(depth: int, quote: Quote, escaped: bool)

  function PyNext(st: PyScan, c: char): PyScan {
    if st.escaped then st.(escaped := false)
    else if st.quote == Plain then
      if c == '"' then st.(quote := Double)
      else if c == '\'' then st.(quote := Single)
      else if c == '{' then st.(depth := st.depth + 1)
      else if c == '}' then st.(depth := st.depth - 1)
      else st
    else if c == '\\' then st.(escaped := true)
    else if (c == '"' && st.quote == Double) || (c == '\'' && st.quote == Single) then st.(quote := Plain)
    else st
  }

  function PyRun(st: PyScan, s: string): PyScan
    decreases s
  {
    if s == "" then st else PyRun(PyNext(st, s[0]), s[1..])
  }

  /** The JSON scanner's view of a Python state. */
  function Seen(st: PyScan): Scan {
    Scan(st.depth, st.quote != Plain, st.escaped)
  }

  lemma {:induction false} WordIsFlat(d: int, w: string, x: string)
    requires forall i :: 0 <= i < |w| ==> IsWordChar(w[i])
    ensures PyRun(PyScan(d, Plain, false), w + x) == PyRun(PyScan(d, Plain, false), x)
    ensures Run(Scan(d, false, false), w + x) == Run(Scan(d, false, false), x)
  {
    if w == "" {
      assert w + x == x;
    } else {
      assert (w + x)[1..] == w[1..] + x;
      WordIsFlat(d, w[1..], x);
    }
  }

  lemma RunCons(st: Scan, c: char, x: string)
    ensures Run(st, [c] + x) == Run(Next(st, c), x)
  {
    assert ([c] + x)[1..] == x;
  }

  lemma RunPair(st: Scan, c: char, d: char, x: string)
    ensures Run(st, [c, d] + x) == Run(Next(Next(st, c), d), x)
  {
    assert [c, d] + x == [c] + ([d] + x);
    RunCons(st, c, [d] + x);
    RunCons(Next(st, c), d, x);
  }

  lemma {:induction false} NormKeepsStructure(d: int, s: string, q: Quote, prev: bool)
    requires q != Plain ==> !prev
    ensures Run(Scan(d, q != Plain, false), Norm(s, q, prev)) == Seen(PyRun(PyScan(d, q, false), s))
    decreases |s|
  {
    var st, py := Scan(d, q != Plain, false), PyScan(d, q, false);
    if s == "" {
    } else if s[0] == '\\' && |s| > 1 && q != Plain {
      NormKeepsStructure(d, s[2..], q, false);
      assert PyRun(py, s) == PyRun(PyNext(PyNext(py, s[0]), s[1]), s[2..]) by { assert s[1..][1..] == s[2..]; }
      var x := Norm(s[2..], q, false);
      if q == Single && s[1] == '\'' { RunCons(st, '\'', x); } else { RunPair(st, '\\', s[1], x); }
    } else if s[0] == '\\' && |s| == 1 {
      assert s[1..] == "" && s == "\\";
      RunOne(st, '\\');
    } else if s[0] == '"' && q == Single {
      NormKeepsStructure(d, s[1..], q, false);
      RunPair(st, '\\', '"', Norm(s[1..], q, false));
    } else if s[0] == '"' || (s[0] == '\'' && q != Double) {
      var q' := if q == Plain then (if s[0] == '"' then Double else Single) else Plain;
      NormKeepsStructure(d, s[1..], q', false);
      RunCons(st, '"', Norm(s[1..], q', false));
    } else if q == Plain && StartsLiteral(s[0]) && !prev {
      WordKeepsStructure(d, s);
    } else {
      var prev' := q == Plain && IsWordChar(s[0]);
      NormKeepsStructure(PyNext(py, s[0]).depth, s[1..], q, prev');
      RunCons(st, s[0], Norm(s[1..], q, prev'));
    }
  }

  lemma {:induction false} WordKeepsStructure(d: int, s: string)
    requires s != "" && StartsLiteral(s[0])
    ensures Run(Scan(d, false, false), Norm(s, Plain, false)) == Seen(PyRun(PyScan(d, Plain, false), s))
    decreases |s|, 0
  {
    var n := WordLen(s);
    assert IsWordChar(s[0]) && n > 0;
    if Literal(s[..n]).Some? {
      NormKeepsStructure(d, s[n..], Plain, true);
      var js := Literal(s[..n]).value;
      WordIsFlat(d, s[..n], s[n..]);
      WordIsFlat(d, js, Norm(s[n..], Plain, true));
      assert s[..n] + s[n..] == s;
    } else {
      NormKeepsStructure(d, s[1..], Plain, true);
      RunCons(Scan(d, false, false), s[0], Norm(s[1..], Plain, true));
    }
  }

  /**
   Normalizing turns Python structure into the same JSON structure: the brace depth outside
   strings, whether a string is open and whether an escape is pending all agree at the end.
   */
  lemma NormalizeKeepsStructure(s: string)
    ensures Run(START, Normalize(s)) == Seen(PyRun(PyScan(0, Plain, false), s))
  {
    NormKeepsStructure(0, s, Plain, false);
  }
}
