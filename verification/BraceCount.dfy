/** json_brace_depth counts the braces of a JSON text that stand outside its strings. */
module BraceCount {
  import opened JsonText
  import opened QuoteTokens

  function Count(ts: seq<Token>, t: Token): nat {
    if ts == [] then 0 else (if ts[0] == t then 1 else 0) + Count(ts[1..], t)
  }

  /** Opening braces less closing ones. */
  function Open(ts: seq<Token>): int {
    Count(ts, Other('{')) - Count(ts, Other('}'))
  }

  lemma OpenCons(t: Token, ts: seq<Token>)
    ensures Open([t] + ts) == Open(ts) + (if t == Other('{') then 1 else if t == Other('}') then -1 else 0)
  {
    assert ([t] + ts)[1..] == ts;
  }

  /** Whether the text ends inside a string. */
  predicate EndsInside(s: string, inString: bool)
    decreases |s|
  {
    if s == "" then inString
    else if inString && s[0] == '\\' then |s| == 1 || EndsInside(s[2..], true)
    else EndsInside(s[1..], if s[0] == '"' then !inString else inString)
  }

  lemma RunFrom(st: Scan, s: string)
    requires s != ""
    ensures Run(st, s) == Run(Next(st, s[0]), s[1..])
  {
  }

  lemma {:induction false} WordIsFlat(d: int, s: string)
    ensures Run(Scan(d, false, false), s) == Run(Scan(d, false, false), s[|WordAtFront(s)|..])
    ensures EndsInside(s, false) == EndsInside(s[|WordAtFront(s)|..], false)
    decreases s
  {
    var n := |WordAtFront(s)|;
    if n > 0 {
      RunFrom(Scan(d, false, false), s);
      WordIsFlat(d, s[1..]);
      assert s[1..][n - 1..] == s[n..];
    } else {
      assert s[0..] == s;
    }
  }

  lemma {:induction false} DepthFrom(d: int, s: string, inString: bool)
    ensures Run(Scan(d, inString, false), s).depth == d + Open(JsonTokens(s, inString))
    ensures Run(Scan(d, inString, false), s).inString == EndsInside(s, inString)
    decreases |s|
  {
    hide Open, JsonWord, Run;
    if s == "" {
      RunNone(Scan(d, inString, false));
      OpenNone();
    } else if !inString && InWord(s[0]) {
      var w := WordAtFront(s);
      WordIsFlat(d, s);
      DepthFrom(d, s[|w|..], false);
      OpenCons(JsonWord(w), JsonTokens(s[|w|..], false));
      NoBraceWord(w);
    } else if inString && s[0] == '\\' {
      RunFrom(Scan(d, true, false), s);
      if |s| == 1 {
        RunNone(Scan(d, true, true));
        OpenNone();
        OpenCons(HalfEscape, []);
        assert s[1..] == "" && [HalfEscape] + [] == [HalfEscape];
      } else {
        RunFrom(Scan(d, true, true), s[1..]);
        assert s[1..][1..] == s[2..];
        DepthFrom(d, s[2..], true);
        OpenCons(if s[1] == '"' then Char('"') else Escaped(s[1]), JsonTokens(s[2..], true));
      }
    } else {
      RunFrom(Scan(d, inString, false), s);
      var next := Next(Scan(d, inString, false), s[0]);
      DepthFrom(next.depth, s[1..], next.inString);
      OpenCons(if s[0] == '"' then QuoteMark else if inString then Char(s[0]) else Other(s[0]), JsonTokens(s[1..], next.inString));
    }
  }

  lemma RunNone(st: Scan)
    ensures Run(st, "") == st
  {
  }

  lemma OpenNone()
    ensures Open([]) == 0
  {
  }

  lemma NoBraceWord(w: string)
    ensures JsonWord(w) != Other('{') && JsonWord(w) != Other('}')
  {
  }

  /** The depth is the number of opening braces outside strings less that of closing ones. */
  lemma DepthCountsBraces(s: string)
    ensures Run(START, s).depth == Open(JsonTokens(s, false))
    ensures Run(START, s).inString == EndsInside(s, false)
  {
    DepthFrom(0, s, false);
  }
}
