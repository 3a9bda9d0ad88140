/**
 A reader of JSON text (RFC 8259) that knows nothing of the emitters: strings by their content,
 numbers by their text, arrays and objects in order, white space between tokens.
 */
module JsonReader {
  import opened Wrappers
  import opened JsonText

  datatype Json =
    | JNull
    | JBool(value: bool)
    | JNumber(text: string)
    | JString(content: string)
    | JArray(items: seq<Json>)
    | JObject(members: seq<(string, Json)>)

  predicate IsBlank(c: char) {
    c == ' ' || c == '\t' || c == '\n' || c == '\r'
  }

  function Skip(s: string): (r: string)
    ensures |r| <= |s|
    decreases |s|
  {
    if s != "" && IsBlank(s[0]) then Skip(s[1..]) else s
  }

  predicate IsNumberChar(c: char) {
    '0' <= c <= '9' || c == '-' || c == '+' || c == '.' || c == 'e' || c == 'E'
  }

  /** How many characters at the beginning belong to a number. */
  function NumberLen(s: string): (n: nat)
    ensures n <= |s|
    decreases |s|
  {
    if s != "" && IsNumberChar(s[0]) then 1 + NumberLen(s[1..]) else 0
  }

  lemma {:induction false} ReadStringShrinks(s: string)
    ensures ReadString(s).Some? ==> |ReadString(s).value.1| < |s|
    decreases |s|
  {
    if s != "" && s[0] != '"' {
      match ReadChar(s)
      case None =>
      case Some((c, n)) => if n <= |s| { ReadStringShrinks(s[n..]); }
    }
  }

  function ReadValue(s: string): (r: Option<(Json, string)>)
    ensures r.Some? ==> |r.value.1| < |s|
    decreases |s|, 0
  {
    var t := Skip(s);
    if t == "" then None
    else if t[0] == '"' then
      ReadStringShrinks(t[1..]);
      match ReadString(t[1..])
      case None => None
      case Some((content, rest)) => Some((JString(content), rest))
    else if t[0] == '[' then
      if Skip(t[1..]) != "" && Skip(t[1..])[0] == ']' then Some((JArray([]), Skip(t[1..])[1..]))
      else
        match ReadItems(t[1..])
        case None => None
        case Some((items, rest)) => Some((JArray(items), rest))
    else if t[0] == '{' then
      if Skip(t[1..]) != "" && Skip(t[1..])[0] == '}' then Some((JObject([]), Skip(t[1..])[1..]))
      else
        match ReadMembers(t[1..])
        case None => None
        case Some((members, rest)) => Some((JObject(members), rest))
    else if "true" <= t then Some((JBool(true), t[4..]))
    else if "false" <= t then Some((JBool(false), t[5..]))
    else if "null" <= t then Some((JNull, t[4..]))
    else if NumberLen(t) > 0 then Some((JNumber(t[..NumberLen(t)]), t[NumberLen(t)..]))
    else None
  }

  /** Items up to the closing bracket. */
  function ReadItems(s: string): (r: Option<(seq<Json>, string)>)
    ensures r.Some? ==> |r.value.1| < |s|
    decreases |s|, 1
  {
    match ReadValue(s)
    case None => None
    case Some((v, after)) =>
      var t := Skip(after);
      if t == "" then None
      else if t[0] == ']' then Some(([v], t[1..]))
      else if t[0] != ',' then None
      else
        match ReadItems(t[1..])
        case None => None
        case Some((items, rest)) => Some(([v] + items, rest))
  }

  /** Members up to the closing brace. */
  function ReadMembers(s: string): (r: Option<(seq<(string, Json)>, string)>)
    ensures r.Some? ==> |r.value.1| < |s|
    decreases |s|, 1
  {
    var k := Skip(s);
    if k == "" || k[0] != '"' then None
    else
      ReadStringShrinks(k[1..]);
      match ReadString(k[1..])
      case None => None
      case Some((key, afterKey)) =>
        var c := Skip(afterKey);
        if c == "" || c[0] != ':' then None
        else
          match ReadValue(c[1..])
          case None => None
          case Some((v, after)) =>
            var t := Skip(after);
            if t == "" then None
            else if t[0] == '}' then Some(([(key, v)], t[1..]))
            else if t[0] != ',' then None
            else
              match ReadMembers(t[1..])
              case None => None
              case Some((members, rest)) => Some(([(key, v)] + members, rest))
  }

  // ----- what is read whatever follows -----

  /** What may follow a value inside a text. */
  predicate Ends(rest: string) {
    rest == "" || rest[0] == ',' || rest[0] == ']' || rest[0] == '}'
  }

  /** The text, and no more of what follows it, is read as the value. */
  ghost predicate Reads(text: string, v: Json) {
    text != "" && !IsBlank(text[0]) && text[0] != ']' && text[0] != '}'
    && forall rest: string :: Ends(rest) ==> ReadValue(text + rest) == Some((v, rest))
  }

  lemma ReadsAt(text: string, v: Json, rest: string)
    requires Reads(text, v) && Ends(rest)
    ensures ReadValue(text + rest) == Some((v, rest))
  {
  }

  lemma ReadsWhole(text: string, v: Json)
    requires Reads(text, v)
    ensures ReadValue(text) == Some((v, ""))
  {
    hide ReadValue;
    ReadsAt(text, v, "");
    assert text + "" == text;
  }

  lemma NoSkip(s: string)
    requires s != "" && !IsBlank(s[0])
    ensures Skip(s) == s
  {
  }

  lemma StringReads(content: string)
    ensures Reads(Quoted(content), JString(content))
  {
    hide Escape, ReadString, ReadItems, ReadMembers;
    forall rest: string | Ends(rest) ensures ReadValue(Quoted(content) + rest) == Some((JString(content), rest)) {
      var s := Quoted(content) + rest;
      NoSkip(s);
      QuotedReadsBack(content, rest);
      assert s[1..] == Escape(content) + "\"" + rest;
    }
  }

  predicate IsNumberText(text: string) {
    text != "" && forall i :: 0 <= i < |text| ==> IsNumberChar(text[i])
  }

  lemma {:induction false} NumberLenIs(text: string, rest: string)
    requires (forall i :: 0 <= i < |text| ==> IsNumberChar(text[i])) && Ends(rest)
    ensures NumberLen(text + rest) == |text|
    decreases |text|
  {
    if text == "" {
      assert text + rest == rest;
    } else {
      assert (text + rest)[1..] == text[1..] + rest;
      NumberLenIs(text[1..], rest);
    }
  }

  lemma NumberReads(text: string)
    requires IsNumberText(text)
    ensures Reads(text, JNumber(text))
  {
    hide ReadItems, ReadMembers, ReadString;
    assert IsNumberChar(text[0]);
    forall rest: string | Ends(rest) ensures ReadValue(text + rest) == Some((JNumber(text), rest)) {
      var s := text + rest;
      NoSkip(s);
      NumberLenIs(text, rest);
      assert s[0] == text[0];
      assert s[..|text|] == text && s[|text|..] == rest;
    }
  }

  lemma WordsRead()
    ensures Reads("true", JBool(true)) && Reads("false", JBool(false)) && Reads("null", JNull)
  {
    hide ReadItems, ReadMembers, ReadString;
    forall rest: string | Ends(rest)
      ensures ReadValue("true" + rest) == Some((JBool(true), rest))
      ensures ReadValue("false" + rest) == Some((JBool(false), rest))
      ensures ReadValue("null" + rest) == Some((JNull, rest))
    {
      WordAt("true", rest);
      WordAt("false", rest);
      WordAt("null", rest);
    }
  }

  lemma WordAt(word: string, rest: string)
    requires word == "true" || word == "false" || word == "null"
    ensures ReadValue(word + rest) == Some((if word == "null" then JNull else JBool(word == "true"), rest))
  {
    hide ReadItems, ReadMembers, ReadString;
    var s := word + rest;
    assert s[0] == word[0] && word <= s && s[|word|..] == rest;
    NoSkip(s);
    if word != "true" { assert !("true" <= s) by { assert s[0] != 't'; } }
    if word == "null" { assert !("false" <= s) by { assert s[0] != 'f'; } }
  }

  // ----- lists -----

  /** Texts with commas between. */
  function Commas(texts: seq<string>): string {
    if texts == [] then "" else if |texts| == 1 then texts[0] else texts[0] + "," + Commas(texts[1..])
  }

  lemma {:induction false} CommasPush(texts: seq<string>, last: string)
    ensures Commas(texts + [last]) == if texts == [] then last else Commas(texts) + "," + last
    decreases texts
  {
    if texts == [] {
      assert texts + [last] == [last];
    } else {
      assert (texts + [last])[1..] == texts[1..] + [last] && (texts + [last])[0] == texts[0];
      CommasPush(texts[1..], last);
      if |texts| > 1 {
        assert texts[0] + "," + (Commas(texts[1..]) + "," + last) == texts[0] + "," + Commas(texts[1..]) + "," + last;
      }
    }
  }

  ghost predicate AllRead(texts: seq<string>, vs: seq<Json>) {
    |texts| == |vs| && forall i :: 0 <= i < |texts| ==> Reads(texts[i], vs[i])
  }

  lemma {:induction false} ItemsRead(texts: seq<string>, vs: seq<Json>, rest: string)
    requires texts != [] && AllRead(texts, vs)
    ensures ReadItems(Commas(texts) + "]" + rest) == Some((vs, rest))
    decreases |texts|
  {
    hide ReadValue, Reads;
    var s := Commas(texts) + "]" + rest;
    if |texts| == 1 {
      var after := "]" + rest;
      assert s == texts[0] + after;
      ReadsAt(texts[0], vs[0], after);
      NoSkip(after);
      assert after[1..] == rest;
      assert vs == [vs[0]];
    } else {
      var more := Commas(texts[1..]) + "]" + rest;
      var after := "," + more;
      assert s == texts[0] + after by { Regroup(texts[0], Commas(texts[1..]), rest); }
      ReadsAt(texts[0], vs[0], after);
      NoSkip(after);
      assert after[1..] == more;
      ItemsRead(texts[1..], vs[1..], rest);
      assert vs == [vs[0]] + vs[1..];
    }
  }

  lemma Regroup(x: string, y: string, rest: string)
    ensures x + "," + y + "]" + rest == x + ("," + (y + "]" + rest))
    ensures x + "," + y + "}" + rest == x + ("," + (y + "}" + rest))
  {
  }

  /** An array reads as its items. */
  lemma ArrayReads(texts: seq<string>, vs: seq<Json>)
    requires AllRead(texts, vs)
    ensures Reads("[" + Commas(texts) + "]", JArray(vs))
  {
    hide ReadItems, ReadMembers, ReadString, Reads, Commas;
    var text := "[" + Commas(texts) + "]";
    forall rest: string | Ends(rest) ensures ReadValue(text + rest) == Some((JArray(vs), rest)) {
      var s := text + rest;
      var inner := Commas(texts) + "]" + rest;
      assert s == "[" + inner;
      NoSkip(s);
      assert s[1..] == inner;
      if texts == [] {
        assert inner == "]" + rest by { NoCommas(); }
        NoSkip(inner);
        assert inner[1..] == rest;
      } else {
        ItemsRead(texts, vs, rest);
        CommasBegin(texts, vs);
        assert inner[0] == texts[0][0];
        NoSkip(inner);
      }
    }
    ReadsIs(text, JArray(vs));
  }

  lemma ReadsIs(text: string, v: Json)
    requires text != "" && !IsBlank(text[0]) && text[0] != ']' && text[0] != '}'
    requires forall rest: string :: Ends(rest) ==> ReadValue(text + rest) == Some((v, rest))
    ensures Reads(text, v)
  {
  }

  lemma NoCommas()
    ensures Commas([]) == ""
  {
  }

  lemma CommasBegin(texts: seq<string>, vs: seq<Json>)
    requires texts != [] && AllRead(texts, vs)
    ensures texts[0] != "" && texts[0] <= Commas(texts)
    ensures !IsBlank(texts[0][0]) && texts[0][0] != ']'
  {
    assert Reads(texts[0], vs[0]);
  }

  function MemberText(key: string, text: string): string {
    Quoted(key) + ":" + text
  }

  function MemberTexts(keys: seq<string>, texts: seq<string>): (r: seq<string>)
    requires |keys| == |texts|
    ensures |r| == |keys|
  {
    seq(|keys|, i requires 0 <= i < |keys| => MemberText(keys[i], texts[i]))
  }

  function Pairs(keys: seq<string>, vs: seq<Json>): (r: seq<(string, Json)>)
    requires |keys| == |vs|
    ensures |r| == |keys|
  {
    seq(|keys|, i requires 0 <= i < |keys| => (keys[i], vs[i]))
  }

  lemma KeyReads(key: string, rest: string)
    ensures var s := Quoted(key) + ":" + rest;
            s != "" && s[0] == '"' && ReadString(s[1..]) == Some((key, ":" + rest))
  {
    hide Escape, ReadString;
    var s := Quoted(key) + ":" + rest;
    QuotedReadsBack(key, ":" + rest);
    assert s[1..] == Escape(key) + "\"" + (":" + rest);
  }

  lemma OneMember(key: string, text: string, v: Json, rest: string)
    requires Reads(text, v) && Ends(rest) && rest != ""
    ensures var s := MemberText(key, text) + rest;
            ReadMembers(s) == if rest[0] == '}' then Some(([(key, v)], rest[1..]))
                              else if rest[0] != ',' then None
                              else match ReadMembers(rest[1..])
                                   case None => None
                                   case Some((members, r)) => Some(([(key, v)] + members, r))
  {
    hide ReadValue, Reads, ReadString, Quoted;
    var s := MemberText(key, text) + rest;
    assert s == Quoted(key) + ":" + (text + rest);
    KeyReads(key, text + rest);
    NoSkip(s);
    var c := ":" + (text + rest);
    NoSkip(c);
    assert c[1..] == text + rest;
    ReadsAt(text, v, rest);
    NoSkip(rest);
  }

  lemma {:induction false} MembersRead(keys: seq<string>, texts: seq<string>, vs: seq<Json>, rest: string)
    requires texts != [] && |keys| == |texts| && AllRead(texts, vs)
    ensures ReadMembers(Commas(MemberTexts(keys, texts)) + "}" + rest) == Some((Pairs(keys, vs), rest))
    decreases |texts|
  {
    hide ReadValue, Reads, ReadMembers, MemberText;
    var all := MemberTexts(keys, texts);
    var s := Commas(all) + "}" + rest;
    if |texts| == 1 {
      var after := "}" + rest;
      assert s == MemberText(keys[0], texts[0]) + after;
      OneMember(keys[0], texts[0], vs[0], after);
      assert after[1..] == rest;
      assert Pairs(keys, vs) == [(keys[0], vs[0])];
    } else {
      assert all[1..] == MemberTexts(keys[1..], texts[1..]);
      var more := Commas(all[1..]) + "}" + rest;
      var after := "," + more;
      assert s == all[0] + after by { Regroup(all[0], Commas(all[1..]), rest); }
      OneMember(keys[0], texts[0], vs[0], after);
      assert after[1..] == more;
      MembersRead(keys[1..], texts[1..], vs[1..], rest);
      assert Pairs(keys, vs) == [(keys[0], vs[0])] + Pairs(keys[1..], vs[1..]);
    }
  }

  /** An object reads as its members, in order. */
  lemma ObjectReads(keys: seq<string>, texts: seq<string>, vs: seq<Json>)
    requires |keys| == |texts| && AllRead(texts, vs)
    ensures Reads("{" + Commas(MemberTexts(keys, texts)) + "}", JObject(Pairs(keys, vs)))
  {
    hide ReadItems, ReadMembers, ReadString, Reads, Commas, MemberText;
    var body := Commas(MemberTexts(keys, texts));
    var text := "{" + body + "}";
    forall rest: string | Ends(rest) ensures ReadValue(text + rest) == Some((JObject(Pairs(keys, vs)), rest)) {
      var s := text + rest;
      var inner := body + "}" + rest;
      assert s == "{" + inner;
      NoSkip(s);
      assert s[1..] == inner;
      if texts == [] {
        assert MemberTexts(keys, texts) == [];
        assert inner == "}" + rest by { NoCommas(); }
        NoSkip(inner);
        assert inner[1..] == rest;
        assert Pairs(keys, vs) == [];
      } else {
        MembersRead(keys, texts, vs, rest);
        MembersBegin(keys, texts);
        assert inner[0] == '"';
        NoSkip(inner);
      }
    }
    ReadsIs(text, JObject(Pairs(keys, vs)));
  }

  lemma MembersBegin(keys: seq<string>, texts: seq<string>)
    requires |keys| == |texts| > 0
    ensures var body := Commas(MemberTexts(keys, texts)); body != "" && body[0] == '"'
  {
    var first := MemberText(keys[0], texts[0]);
    assert first[0] == '"';
    assert first <= Commas(MemberTexts(keys, texts));
  }
}
