/**
 JSON text at the character level: string escaping (section 7 of RFC 8259), and the scanner
 that counts unclosed braces outside strings.
 */
module JsonText {
  import opened Wrappers

  const HEX: string := "0123456789abcdef"

  /** How one character is written inside a JSON string. */
  function EscapeChar(c: char): (r: string)
    ensures r != ""
  {
    if c == '"' then "\\\""
    else if c == '\\' then "\\\\"
    else if c == '\U{0008}' then "\\b"
    else if c == '\t' then "\\t"
    else if c == '\n' then "\\n"
    else if c == '\U{000C}' then "\\f"
    else if c == '\r' then "\\r"
    else if c < ' ' then "\\u00" + [HEX[c as int / 16], HEX[c as int % 16]]
    else [c]
  }

  function Escape(s: string): string {
    if s == "" then "" else EscapeChar(s[0]) + Escape(s[1..])
  }

  /** A whole JSON string. */
  function Quoted(s: string): string {
    "\"" + Escape(s) + "\""
  }

  lemma {:induction false} EscapeAppend(a: string, b: string)
    ensures Escape(a + b) == Escape(a) + Escape(b)
  {
    hide EscapeChar;
    if a == "" {
      assert a + b == b;
      assert "" + Escape(b) == Escape(b);
    } else {
      EscapeAppend(a[1..], b);
      assert (a + b)[1..] == a[1..] + b;
      var c := EscapeChar(a[0]);
      assert c + (Escape(a[1..]) + Escape(b)) == c + Escape(a[1..]) + Escape(b);
    }
  }

  lemma EscapeNothing()
    ensures Escape("") == ""
  {
  }

  /** Escaping keeps the order of prefixes: longer text only adds to what was written. */
  lemma EscapeMonotone(a: string, b: string)
    requires a <= b
    ensures Escape(a) <= Escape(b)
  {
    EscapeAppend(a, b[|a|..]);
    assert b == a + b[|a|..];
  }

  // ----- reading a string back -----

  function HexValue(c: char): Option<nat> {
    if '0' <= c <= '9' then Some(c as int - '0' as int)
    else if 'a' <= c <= 'f' then Some(c as int - 'a' as int + 10)
    else if 'A' <= c <= 'F' then Some(c as int - 'A' as int + 10)
    else None
  }

  /** One character of a JSON string and how many places it takes; None if malformed. */
  function ReadChar(s: string): Option<(char, nat)>
    requires s != ""
  {
    if s[0] == '"' || s[0] < ' ' then None
    else if s[0] != '\\' then Some((s[0], 1))
    else if |s| < 2 then None
    else if s[1] == '"' || s[1] == '\\' || s[1] == '/' then Some((s[1], 2))
    else if s[1] == 'b' then Some(('\U{0008}', 2))
    else if s[1] == 't' then Some(('\t', 2))
    else if s[1] == 'n' then Some(('\n', 2))
    else if s[1] == 'f' then Some(('\U{000C}', 2))
    else if s[1] == 'r' then Some(('\r', 2))
    else if s[1] == 'u' && |s| >= 6 && s[2] == '0' && s[3] == '0' && HexValue(s[4]).Some? && HexValue(s[5]).Some? then
      Some(((HexValue(s[4]).value * 16 + HexValue(s[5]).value) as char, 6))
    else None
  }

  /** Reads string content up to its closing quote: the text and what follows the quote. */
  function ReadString(s: string): Option<(string, string)>
    decreases |s|
  {
    if s == "" then None
    else if s[0] == '"' then Some(("", s[1..]))
    else
      match ReadChar(s)
      case None => None
      case Some((c, n)) =>
        if n > |s| then None
        else
          match ReadString(s[n..])
          case None => None
          case Some((text, rest)) => Some(([c] + text, rest))
  }

  lemma ReadEscapedChar(c: char, rest: string)
    ensures (EscapeChar(c) + rest)[0] != '"'
    ensures ReadChar(EscapeChar(c) + rest) == Some((c, |EscapeChar(c)|))
  {
    var s := EscapeChar(c) + rest;
    if c < ' ' && |EscapeChar(c)| == 6 {
      var hi, lo := c as int / 16, c as int % 16;
      assert s[0] == '\\' && s[1] == 'u' && s[2] == '0' && s[3] == '0' && s[4] == HEX[hi] && s[5] == HEX[lo];
      HexDigit(hi);
      HexDigit(lo);
      assert hi * 16 + lo == c as int;
    }
  }

  lemma HexDigit(v: nat)
    requires v < 16
    ensures HexValue(HEX[v]) == Some(v)
  {
  }

  /** A reader of JSON strings gets back exactly the text that was quoted. */
  lemma {:induction false} QuotedReadsBack(s: string, rest: string)
    ensures ReadString(Escape(s) + "\"" + rest) == Some((s, rest))
  {
    hide ReadChar, EscapeChar;
    var t := Escape(s) + "\"" + rest;
    if s == "" {
      assert t == "\"" + rest;
    } else {
      var tail := Escape(s[1..]) + "\"" + rest;
      assert t == EscapeChar(s[0]) + tail;
      ReadEscapedChar(s[0], tail);
      assert t[|EscapeChar(s[0])|..] == tail;
      QuotedReadsBack(s[1..], rest);
      assert [s[0]] + s[1..] == s;
    }
  }

  // ----- brace depth -----

  datatype Scan = Scan(depth: int, inString: bool, escaped: bool)

  const START: Scan := Scan(0, false, false)

  function Next(st: Scan, c: char): Scan {
    if st.escaped then st.(escaped := false)
    else if c == '\\' && st.inString then st.(escaped := true)
    else if c == '"' then st.(inString := !st.inString)
    else if !st.inString && c == '{' then st.(depth := st.depth + 1)
    else if !st.inString && c == '}' then st.(depth := st.depth - 1)
    else st
  }

  function Run(st: Scan, s: string): Scan
    decreases s
  {
    if s == "" then st else Run(Next(st, s[0]), s[1..])
  }

  lemma {:induction false} RunAppend(st: Scan, a: string, b: string)
    ensures Run(st, a + b) == Run(Run(st, a), b)
    decreases a
  {
    if a == "" {
      assert a + b == b;
    } else {
      RunAppend(Next(st, a[0]), a[1..], b);
      assert (a + b)[1..] == a[1..] + b;
    }
  }

  lemma RunOne(st: Scan, c: char)
    ensures Run(st, [c]) == Next(st, c)
  {
    assert [c][1..] == "";
  }

  /** json_brace_depth. */
  method JsonBraceDepth(s: string) returns (depth: int)
    ensures depth == Run(START, s).depth
  {
    depth := 0;
    var inString, escaped := false, false;
    for i := 0 to |s|
      invariant Run(START, s) == Run(Scan(depth, inString, escaped), s[i..])
    {
      var c := s[i];
      assert s[i..][0] == c && s[i..][1..] == s[i + 1..];
      if escaped { escaped := false; continue; }
      if c == '\\' && inString { escaped := true; continue; }
      if c == '"' { inString := !inString; continue; }
      if !inString {
        if c == '{' { depth := depth + 1; } else if c == '}' { depth := depth - 1; }
      }
    }
    assert s[|s|..] == "";
  }

  lemma EscapedCharStays(d: int, c: char)
    ensures Run(Scan(d, true, false), EscapeChar(c)) == Scan(d, true, false)
  {
    var st, e := Scan(d, true, false), EscapeChar(c);
    if |e| == 1 {
      RunOne(st, e[0]);
    } else if |e| == 2 {
      assert e == [e[0]] + [e[1]];
      RunAppend(st, [e[0]], [e[1]]);
      RunOne(st, e[0]);
      RunOne(st.(escaped := true), e[1]);
    } else {
      assert e == [e[0]] + [e[1]] + [e[2]] + [e[3]] + [e[4]] + [e[5]];
      PlainStays(d, e[2..]);
      assert e == [e[0]] + ([e[1]] + e[2..]);
      RunAppend(st, [e[0]], [e[1]] + e[2..]);
      RunOne(st, e[0]);
      RunAppend(st.(escaped := true), [e[1]], e[2..]);
      RunOne(st.(escaped := true), e[1]);
    }
  }

  lemma {:induction false} PlainStays(d: int, s: string)
    requires forall i :: 0 <= i < |s| ==> s[i] != '"' && s[i] != '\\'
    ensures Run(Scan(d, true, false), s) == Scan(d, true, false)
  {
    if s != "" {
      PlainStays(d, s[1..]);
    }
  }

  /** Escaped text neither ends the string it is in nor counts any of its braces. */
  lemma {:induction false} EscapeStays(d: int, s: string)
    ensures Run(Scan(d, true, false), Escape(s)) == Scan(d, true, false)
  {
    if s != "" {
      EscapedCharStays(d, s[0]);
      RunAppend(Scan(d, true, false), EscapeChar(s[0]), Escape(s[1..]));
      EscapeStays(d, s[1..]);
    }
  }

  /** A whole JSON string leaves the scanner where it was. */
  lemma QuotedStays(d: int, s: string)
    ensures Run(Scan(d, false, false), Quoted(s)) == Scan(d, false, false)
  {
    var open := Scan(d, true, false);
    RunAppend(Scan(d, false, false), "\"" + Escape(s), "\"");
    RunAppend(Scan(d, false, false), "\"", Escape(s));
    RunOne(Scan(d, false, false), '"');
    EscapeStays(d, s);
    RunOne(open, '"');
  }

  lemma {:induction false} RunShift(st: Scan, k: int, s: string)
    ensures Run(st.(depth := st.depth + k), s) == Run(st, s).(depth := Run(st, s).depth + k)
    decreases s
  {
    if s != "" {
      RunShift(Next(st, s[0]), k, s[1..]);
    }
  }
}
