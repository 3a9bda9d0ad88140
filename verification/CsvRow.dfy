/** parse_csv_row: one comma-separated row with quoted fields (section 2 of RFC 4180). */
module CsvRow {
  /** The fields still to come, given the field being built and whether it is in quotes. */
  function ParseFrom(s: string, field: string, inQuotes: bool): (fields: seq<string>)
    ensures |fields| > 0
    decreases |s|
  {
    if s == "" then [field]
    else if s[0] == '"' then
      if !inQuotes then
        if field != "" then ParseFrom(s[1..], field + "\"", false) else ParseFrom(s[1..], field, true)
      else if |s| > 1 && s[1] == '"' then ParseFrom(s[2..], field + "\"", true)
      else ParseFrom(s[1..], field, false)
    else if s[0] == ',' && !inQuotes then [field] + ParseFrom(s[1..], "", false)
    else ParseFrom(s[1..], field + [s[0]], inQuotes)
  }

  function Parse(s: string): seq<string> {
    ParseFrom(s, "", false)
  }

  method ParseCsvRow(input: string) returns (fields: seq<string>)
    ensures fields == Parse(input)
  {
    fields := [];
    var field := "";
    var inQuotes := false;
    var i := 0;
    assert input[0..] == input;
    while i < |input|
      invariant i <= |input|
      invariant Parse(input) == fields + ParseFrom(input[i..], field, inQuotes)
    {
      ghost var rest := input[i..];
      assert rest[1..] == input[i + 1..] && (i + 1 < |input| ==> rest[2..] == input[i + 2..]);
      var ch := input[i];
      if ch == '"' {
        if !inQuotes {
          if field != "" { field := field + "\""; } else { inQuotes := true; }
        } else if i + 1 < |input| && input[i + 1] == '"' {
          field := field + "\"";
          i := i + 1;
        } else {
          inQuotes := false;
        }
      } else if ch == ',' {
        if inQuotes {
          field := field + ",";
        } else {
          assert fields + ([field] + ParseFrom(input[i + 1..], "", false)) == fields + [field] + ParseFrom(input[i + 1..], "", false);
          fields := fields + [field];
          field := "";
        }
      } else {
        field := field + [ch];
      }
      i := i + 1;
    }
    assert input[|input|..] == "";
    fields := fields + [field];
  }

  // ----- printing -----

  function Doubled(f: string): string {
    if f == "" then "" else (if f[0] == '"' then "\"\"" else [f[0]]) + Doubled(f[1..])
  }

  function PrintField(f: string, quoted: bool): string {
    if quoted then "\"" + Doubled(f) + "\"" else f
  }

  /** A row whose i-th field is quoted when marked so. */
  function PrintRow(fields: seq<string>, quoted: seq<bool>): string
    requires |quoted| == |fields| > 0
  {
    PrintField(fields[0], quoted[0])
    + (if |fields| == 1 then "" else "," + PrintRow(fields[1..], quoted[1..]))
  }

  /** A field that reads back without quotes. */
  predicate RawSafe(f: string) {
    ',' !in f && (f != "" ==> f[0] != '"')
  }

  predicate EndsField(rest: string) {
    rest == "" || rest[0] == ','
  }

  lemma {:induction false} QuotedReads(f: string, rest: string, acc: string)
    requires EndsField(rest)
    ensures ParseFrom(Doubled(f) + "\"" + rest, acc, true) == ParseFrom(rest, acc + f, false)
    decreases |f|
  {
    var s := Doubled(f) + "\"" + rest;
    if f == "" {
      assert s == "\"" + rest && s[1..] == rest && acc + f == acc;
    } else {
      var tail := Doubled(f[1..]) + "\"" + rest;
      QuotedReads(f[1..], rest, acc + [f[0]]);
      assert acc + [f[0]] + f[1..] == acc + f;
      QuotedCharacter(f[0], tail, acc);
      assert s == (if f[0] == '"' then "\"\"" else [f[0]]) + tail;
    }
  }

  /** One character of a quoted field. */
  lemma QuotedCharacter(c: char, tail: string, acc: string)
    ensures ParseFrom((if c == '"' then "\"\"" else [c]) + tail, acc, true) == ParseFrom(tail, acc + [c], true)
  {
    if c == '"' {
      assert ("\"\"" + tail)[2..] == tail;
    } else {
      assert ([c] + tail)[1..] == tail;
    }
  }

  lemma {:induction false} RawReads(f: string, rest: string, acc: string)
    requires ',' !in f && (acc == "" && f != "" ==> f[0] != '"')
    ensures ParseFrom(f + rest, acc, false) == ParseFrom(rest, acc + f, false)
    decreases |f|
  {
    if f == "" {
      assert f + rest == rest && acc + f == acc;
    } else {
      assert f[0] in f && (f + rest)[1..] == f[1..] + rest;
      RawReads(f[1..], rest, acc + [f[0]]);
      assert acc + [f[0]] + f[1..] == acc + f;
    }
  }

  lemma FieldReads(f: string, quoted: bool, rest: string)
    requires (quoted || RawSafe(f)) && EndsField(rest)
    ensures ParseFrom(PrintField(f, quoted) + rest, "", false) == ParseFrom(rest, f, false)
  {
    assert "" + f == f;
    if quoted {
      var s := PrintField(f, quoted) + rest;
      assert s == "\"" + (Doubled(f) + "\"" + rest);
      assert s[1..] == Doubled(f) + "\"" + rest;
      QuotedReads(f, rest, "");
    } else {
      RawReads(f, rest, "");
    }
  }

  lemma NextField(f: string, rest: string)
    ensures ParseFrom("," + rest, f, false) == [f] + Parse(rest)
  {
    assert ("," + rest)[1..] == rest;
  }

  lemma LastField(f: string)
    ensures ParseFrom("", f, false) == [f]
  {
  }

  /**
   Parsing inverts printing: any choice of which fields to quote reads back, as long as the
   unquoted ones hold no comma and do not begin with a quote.
   */
  lemma {:induction false} RowReadsBack(fields: seq<string>, quoted: seq<bool>)
    requires |quoted| == |fields| > 0
    requires forall i :: 0 <= i < |fields| ==> quoted[i] || RawSafe(fields[i])
    ensures Parse(PrintRow(fields, quoted)) == fields
    decreases |fields|
  {
    hide ParseFrom, Doubled, PrintField;
    var f := fields[0];
    var rest := if |fields| == 1 then "" else "," + PrintRow(fields[1..], quoted[1..]);
    FieldReads(f, quoted[0], rest);
    if |fields| > 1 {
      RowReadsBack(fields[1..], quoted[1..]);
      NextField(f, PrintRow(fields[1..], quoted[1..]));
      assert fields == [f] + fields[1..];
    } else {
      LastField(f);
    }
  }

  /** The printer that quotes every field. */
  lemma AlwaysQuotedReadsBack(fields: seq<string>)
    requires |fields| > 0
    ensures Parse(PrintRow(fields, seq(|fields|, _ => true))) == fields
  {
    RowReadsBack(fields, seq(|fields|, _ => true));
  }

  predicate NeedsQuotes(f: string) {
    ',' in f || '"' in f
  }

  /** The printer that quotes only fields with a comma or a quote. */
  lemma MinimallyQuotedReadsBack(fields: seq<string>)
    requires |fields| > 0
    ensures Parse(PrintRow(fields, seq(|fields|, i requires 0 <= i < |fields| => NeedsQuotes(fields[i])))) == fields
  {
    RowReadsBack(fields, seq(|fields|, i requires 0 <= i < |fields| => NeedsQuotes(fields[i])));
  }

  // ----- exactness -----

  function TotalLen(fields: seq<string>): nat {
    if fields == [] then 0 else |fields[0]| + TotalLen(fields[1..])
  }

  lemma {:induction false} ParseShrinks(s: string, field: string, inQuotes: bool)
    ensures TotalLen(ParseFrom(s, field, inQuotes)) <= |field| + |s|
    decreases |s|
  {
    if s == "" {
      assert [field][1..] == [];
    } else if s[0] == '"' {
      if !inQuotes {
        if field != "" { ParseShrinks(s[1..], field + "\"", false); } else { ParseShrinks(s[1..], field, true); }
      } else if |s| > 1 && s[1] == '"' {
        ParseShrinks(s[2..], field + "\"", true);
      } else {
        ParseShrinks(s[1..], field, false);
      }
    } else if s[0] == ',' && !inQuotes {
      ParseShrinks(s[1..], "", false);
      assert ParseFrom(s, field, inQuotes)[1..] == ParseFrom(s[1..], "", false);
    } else {
      ParseShrinks(s[1..], field + [s[0]], inQuotes);
    }
  }

  function CommaAt(f: string): (k: nat)
    requires ',' in f
    ensures k < |f| && f[k] == ',' && ',' !in f[..k]
  {
    if f[0] == ',' then 0
    else
      assert f == [f[0]] + f[1..];
      var k := 1 + CommaAt(f[1..]);
      assert f[..k] == [f[0]] + f[1..][..k - 1];
      k
  }

  /** A single field reads back unquoted exactly when it is safe to leave unquoted. */
  lemma RawExactlyWhen(f: string)
    ensures Parse(f) == [f] <==> RawSafe(f)
  {
    if RawSafe(f) {
      RawReads(f, "", "");
      assert f + "" == f && "" + f == f;
    } else if f[0] == '"' {
      ParseShrinks(f[1..], "", true);
      assert TotalLen([f]) == |f| by { assert [f][1..] == []; }
    } else {
      var k := CommaAt(f);
      assert f == f[..k] + f[k..];
      if k > 0 { assert f[..k][0] == f[0]; }
      RawReads(f[..k], f[k..], "");
    }
  }

  /** Plain comma splitting. */
  function SplitOnCommas(s: string, field: string): seq<string>
    decreases |s|
  {
    if s == "" then [field]
    else if s[0] == ',' then [field] + SplitOnCommas(s[1..], "")
    else SplitOnCommas(s[1..], field + [s[0]])
  }

  lemma {:induction false} QuoteFreeSplits(s: string, field: string)
    requires '"' !in s
    ensures ParseFrom(s, field, false) == SplitOnCommas(s, field)
    decreases |s|
  {
    if s != "" {
      assert s[0] in s;
      if s[0] == ',' { QuoteFreeSplits(s[1..], ""); } else { QuoteFreeSplits(s[1..], field + [s[0]]); }
    }
  }

  // ----- every row -----

  /** How a field may be written: without quotes, with quotes around its beginning, or with quotes that are never closed. */
  datatype Form = Raw(text: string) | Closed(quoted: string, tail: string) | Open(quoted: string)

  function Written(f: Form): string {
    match f
    case Raw(text) => text
    case Closed(quoted, tail) => "\"" + Doubled(quoted) + "\"" + tail
    case Open(quoted) => "\"" + Doubled(quoted)
  }

  function Meant(f: Form): string {
    match f
    case Raw(text) => text
    case Closed(quoted, tail) => quoted + tail
    case Open(quoted) => quoted
  }

  /** Text outside quotes has no comma and begins with no quote; quotes stay open at the end of the row only. */
  predicate Proper(f: Form, last: bool) {
    match f
    case Raw(text) => RawSafe(text)
    case Closed(_, tail) => RawSafe(tail)
    case Open(_) => last
  }

  function WrittenRow(forms: seq<Form>): string
    requires |forms| > 0
  {
    Written(forms[0]) + if |forms| == 1 then "" else "," + WrittenRow(forms[1..])
  }

  function MeantRow(forms: seq<Form>): (r: seq<string>)
    ensures |r| == |forms|
  {
    if forms == [] then [] else [Meant(forms[0])] + MeantRow(forms[1..])
  }

  predicate ProperRow(forms: seq<Form>) {
    |forms| > 0 && forall i :: 0 <= i < |forms| ==> Proper(forms[i], i == |forms| - 1)
  }

  lemma {:induction false} OpenReads(f: string, acc: string)
    ensures ParseFrom(Doubled(f), acc, true) == [acc + f]
    decreases |f|
  {
    if f == "" {
      assert acc + f == acc;
    } else {
      OpenReads(f[1..], acc + [f[0]]);
      assert acc + [f[0]] + f[1..] == acc + f;
      QuotedCharacter(f[0], Doubled(f[1..]), acc);
    }
  }

  lemma {:induction false} ClosedReads(f: string, rest: string, acc: string)
    requires rest == "" || rest[0] != '"'
    ensures ParseFrom(Doubled(f) + "\"" + rest, acc, true) == ParseFrom(rest, acc + f, false)
    decreases |f|
  {
    var s := Doubled(f) + "\"" + rest;
    if f == "" {
      assert s == "\"" + rest && s[1..] == rest && acc + f == acc;
    } else {
      var tail := Doubled(f[1..]) + "\"" + rest;
      ClosedReads(f[1..], rest, acc + [f[0]]);
      assert acc + [f[0]] + f[1..] == acc + f;
      QuotedCharacter(f[0], tail, acc);
      assert s == (if f[0] == '"' then "\"\"" else [f[0]]) + tail;
    }
  }

  lemma FormReads(f: Form, rest: string)
    requires Proper(f, rest == "") && EndsField(rest)
    ensures ParseFrom(Written(f) + rest, "", false) == ParseFrom(rest, Meant(f), false)
  {
    hide Doubled, ParseFrom;
    match f
    case Raw(text) =>
      RawReads(text, rest, "");
      assert "" + text == text;
    case Closed(quoted, tail) =>
      var s := Written(f) + rest;
      assert s == "\"" + (Doubled(quoted) + "\"" + (tail + rest));
      QuoteOpens(Doubled(quoted) + "\"" + (tail + rest));
      ClosedReads(quoted, tail + rest, "");
      assert "" + quoted == quoted;
      RawReads(tail, rest, quoted);
    case Open(quoted) =>
      QuoteOpens(Doubled(quoted));
      OpenReads(quoted, "");
      assert Written(f) + rest == "\"" + Doubled(quoted) && "" + quoted == quoted;
      LastField(quoted);
  }

  lemma QuoteOpens(rest: string)
    ensures ParseFrom("\"" + rest, "", false) == ParseFrom(rest, "", true)
  {
    assert ("\"" + rest)[1..] == rest;
  }

  /** Every way to write the fields of a row reads back, whatever stands after a closing quote. */
  lemma {:induction false} FormsReadBack(forms: seq<Form>)
    requires ProperRow(forms)
    ensures Parse(WrittenRow(forms)) == MeantRow(forms)
    decreases |forms|
  {
    hide ParseFrom, Written, Meant, Proper;
    var rest := if |forms| == 1 then "" else "," + WrittenRow(forms[1..]);
    FormReads(forms[0], rest);
    if |forms| > 1 {
      assert forall i :: 0 <= i < |forms| - 1 ==> forms[1..][i] == forms[i + 1];
      FormsReadBack(forms[1..]);
      NextField(Meant(forms[0]), WrittenRow(forms[1..]));
    } else {
      LastField(Meant(forms[0]));
      assert MeantRow(forms[1..]) == [];
    }
  }

  /** And every row is written so, so that the two lemmas give the fields of any row. */
  lemma {:induction false} EveryRowIsWritten(s: string) returns (forms: seq<Form>)
    ensures ProperRow(forms) && WrittenRow(forms) == s
    decreases |s|
  {
    hide Doubled;
    var f, rest := FirstForm(s);
    if rest == "" {
      forms := [f];
    } else {
      var more := EveryRowIsWritten(rest[1..]);
      forms := [f] + more;
      assert forms[1..] == more && rest == "," + rest[1..];
    }
  }

  lemma FirstForm(s: string) returns (f: Form, rest: string)
    ensures Written(f) + rest == s && EndsField(rest) && Proper(f, rest == "") && |rest| <= |s|
  {
    hide Doubled;
    if s == "" || s[0] != '"' {
      var text, rest' := UpToComma(s);
      f, rest := Raw(text), rest';
    } else {
      var quoted, after, closed := QuotedPart(s[1..]);
      if closed {
        var tail, rest' := UpToComma(after);
        assert Proper(Closed(quoted, tail), rest' == "");
        f, rest := Closed(quoted, tail), rest';
        WrittenClosed(quoted, tail, rest);
        assert s == "\"" + s[1..];
      } else {
        f, rest := Open(quoted), "";
        assert s == "\"" + s[1..] && Written(f) + "" == Written(f);
      }
    }
  }

  lemma WrittenClosed(quoted: string, tail: string, rest: string)
    ensures Written(Closed(quoted, tail)) + rest == "\"" + (Doubled(quoted) + ("\"" + (tail + rest)))
  {
    hide Doubled;
  }

  lemma UpToComma(s: string) returns (text: string, rest: string)
    ensures text + rest == s && EndsField(rest) && ',' !in text && |rest| <= |s|
    ensures text != "" ==> s != "" && text[0] == s[0]
  {
    if ',' in s {
      text, rest := s[..CommaAt(s)], s[CommaAt(s)..];
    } else {
      text, rest := s, "";
    }
  }

  lemma {:induction false} QuotedPart(s: string) returns (quoted: string, after: string, closed: bool)
    ensures s == Doubled(quoted) + if closed then "\"" + after else ""
    ensures |after| <= |s|
    ensures closed ==> after == "" || after[0] != '"'
    decreases |s|
  {
    if s == "" {
      quoted, after, closed := "", "", false;
    } else if s[0] == '"' && (|s| == 1 || s[1] != '"') {
      quoted, after, closed := "", s[1..], true;
    } else {
      var k := if s[0] == '"' then 2 else 1;
      quoted, after, closed := QuotedPart(s[k..]);
      assert s == s[..k] + s[k..];
      quoted := [s[0]] + quoted;
      assert Doubled(quoted) == s[..k] + Doubled(quoted[1..]);
    }
  }
}
