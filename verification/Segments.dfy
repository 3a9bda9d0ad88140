/** Splitting rendered template text into markers (<...> or [...]) and the text between. */
module Segments {
  datatype SegmentType = Text | Marker

  datatype Segment = Segment(kind: SegmentType, value: string)

  predicate IsOpener(c: char) {
    c == '<' || c == '['
  }

  predicate IsCloser(opener: char, c: char) {
    (opener == '<' && c == '>') || (opener == '[' && c == ']')
  }

  /** First position at or after `from` that opens a marker; |t| if there is none. */
  function NextOpener(t: string, from: nat): (k: nat)
    requires from <= |t|
    ensures from <= k <= |t| && (k < |t| ==> IsOpener(t[k]))
    ensures forall i :: from <= i < k ==> !IsOpener(t[i])
    decreases |t| - from
  {
    if from == |t| || IsOpener(t[from]) then from else NextOpener(t, from + 1)
  }

  /** First position at or after `from` that closes `opener`; |t| if there is none. */
  function NextCloser(t: string, opener: char, from: nat): (k: nat)
    requires from <= |t|
    ensures from <= k <= |t| && (k < |t| ==> IsCloser(opener, t[k]))
    ensures forall i :: from <= i < k ==> !IsCloser(opener, t[i])
    decreases |t| - from
  {
    if from == |t| || IsCloser(opener, t[from]) then from else NextCloser(t, opener, from + 1)
  }

  function Segmentize(t: string): (segs: seq<Segment>)
    decreases |t|
  {
    if t == "" then []
    else if IsOpener(t[0]) then
      var k := NextCloser(t, t[0], 1);
      if k < |t| then [Segment(Marker, t[..k + 1])] + Segmentize(t[k + 1..])
      else [Segment(Text, t)]
    else
      var k := NextOpener(t, 0);
      [Segment(Text, t[..k])] + Segmentize(t[k..])
  }

  function Concat(segs: seq<Segment>): string {
    if segs == [] then "" else segs[0].value + Concat(segs[1..])
  }

  lemma {:induction false} ConcatAppend(a: seq<Segment>, b: seq<Segment>)
    ensures Concat(a + b) == Concat(a) + Concat(b)
  {
    if a == [] {
      assert a + b == b;
      assert "" + Concat(b) == Concat(b);
    } else {
      ConcatAppend(a[1..], b);
      assert (a + b)[1..] == a[1..] + b;
      Reassociate(a[0].value, Concat(a[1..]), Concat(b));
    }
  }

  lemma Reassociate(a: string, b: string, c: string)
    ensures a + (b + c) == a + b + c
  {
  }

  lemma ConcatLed(s: Segment, rest: seq<Segment>)
    ensures Concat([s] + rest) == s.value + Concat(rest)
  {
    assert ([s] + rest)[1..] == rest;
  }

  /** A bracketed run that ends at the first closing bracket of its kind. */
  predicate MarkerRun(v: string) {
    && |v| >= 2 && IsOpener(v[0]) && IsCloser(v[0], v[|v| - 1])
    && forall i :: 1 <= i < |v| - 1 ==> !IsCloser(v[0], v[i])
  }

  predicate OpenerFree(v: string) {
    forall i :: 0 <= i < |v| ==> !IsOpener(v[i])
  }

  /** A run whose opening bracket is never closed; brackets of the other kind may stand in it. */
  predicate UnclosedRun(v: string) {
    v != "" && IsOpener(v[0]) && forall i :: 1 <= i < |v| ==> !IsCloser(v[0], v[i])
  }

  predicate WellFormed(s: Segment) {
    && s.value != ""
    && match s.kind
       case Marker => MarkerRun(s.value)
       case Text => OpenerFree(s.value) || UnclosedRun(s.value)
  }

  /** Text before another segment is free of opening brackets and meets one: text segments never adjoin otherwise. */
  predicate IsSegmentation(segs: seq<Segment>) {
    && (forall i :: 0 <= i < |segs| ==> WellFormed(segs[i]))
    && forall i :: 0 <= i < |segs| - 1 && segs[i].kind == Text ==> Separated(segs[i], segs[i + 1])
  }

  predicate Separated(s: Segment, next: Segment) {
    OpenerFree(s.value) && next.value != "" && IsOpener(next.value[0])
  }

  lemma SegmentationLed(s: Segment, rest: seq<Segment>)
    requires WellFormed(s) && IsSegmentation(rest) && (s.kind == Text && rest != [] ==> Separated(s, rest[0]))
    ensures IsSegmentation([s] + rest)
  {
    hide WellFormed, Separated;
    var all := [s] + rest;
    forall i | 0 <= i < |all| ensures WellFormed(all[i]) {
      assert i > 0 ==> all[i] == rest[i - 1];
    }
    forall i | 0 <= i < |all| - 1 && all[i].kind == Text ensures Separated(all[i], all[i + 1]) {
      assert i > 0 ==> all[i] == rest[i - 1] && all[i + 1] == rest[i];
    }
  }

  lemma SegmentationRest(segs: seq<Segment>)
    requires IsSegmentation(segs) && segs != []
    ensures IsSegmentation(segs[1..])
  {
    hide WellFormed, Separated;
    var rest := segs[1..];
    forall i | 0 <= i < |rest| - 1 && rest[i].kind == Text ensures Separated(rest[i], rest[i + 1]) {
      assert rest[i] == segs[i + 1] && rest[i + 1] == segs[i + 2];
    }
  }

  /** The segments, in order and without gaps, are the text, and they are properly divided. */
  lemma {:induction false} SegmentsRebuildText(t: string)
    ensures Concat(Segmentize(t)) == t
    ensures IsSegmentation(Segmentize(t))
    ensures forall s :: s in Segmentize(t) ==> WellFormed(s)
    ensures Segmentize(t) == [] <==> t == ""
    decreases |t|
  {
    hide WellFormed, Concat, IsSegmentation;
    if t == "" {
      NoSegments();
    } else if IsOpener(t[0]) {
      var k := NextCloser(t, t[0], 1);
      if k < |t| {
        SegmentsRebuildText(t[k + 1..]);
        assert t == t[..k + 1] + t[k + 1..];
        MarkerWellFormed(t, k);
        ConcatLed(Segment(Marker, t[..k + 1]), Segmentize(t[k + 1..]));
        SegmentationLed(Segment(Marker, t[..k + 1]), Segmentize(t[k + 1..]));
      } else {
        OneSegment(Segment(Text, t));
      }
    } else {
      var k := NextOpener(t, 0);
      SegmentsRebuildText(t[k..]);
      assert t == t[..k] + t[k..];
      TextWellFormed(t, k);
      ConcatLed(Segment(Text, t[..k]), Segmentize(t[k..]));
      SegmentationLed(Segment(Text, t[..k]), Segmentize(t[k..]));
    }
    AllWellFormed(Segmentize(t));
  }

  lemma AllWellFormed(segs: seq<Segment>)
    requires IsSegmentation(segs)
    ensures forall s :: s in segs ==> WellFormed(s)
  {
    hide WellFormed, Separated;
  }

  lemma NoSegments()
    ensures Concat([]) == "" && IsSegmentation([])
  {
  }

  lemma OneSegment(s: Segment)
    requires s.kind == Text && UnclosedRun(s.value)
    ensures Concat([s]) == s.value && IsSegmentation([s])
  {
    assert [s][1..] == [];
  }

  lemma MarkerWellFormed(t: string, k: nat)
    requires 0 < k < |t| && IsOpener(t[0]) && IsCloser(t[0], t[k])
    requires forall i :: 1 <= i < k ==> !IsCloser(t[0], t[i])
    ensures WellFormed(Segment(Marker, t[..k + 1]))
  {
  }

  lemma TextWellFormed(t: string, k: nat)
    requires 0 < k <= |t| && (forall i :: 0 <= i < k ==> !IsOpener(t[i])) && (k < |t| ==> IsOpener(t[k]))
    ensures WellFormed(Segment(Text, t[..k]))
    ensures Segmentize(t[k..]) != [] ==> Separated(Segment(Text, t[..k]), Segmentize(t[k..])[0])
  {
    if k < |t| {
      assert t[k..][0] == t[k];
    }
  }

  /** There is only one proper division of a text: the one that segmentize_markers makes. */
  lemma {:induction false} SegmentationUnique(segs: seq<Segment>)
    requires IsSegmentation(segs)
    ensures Segmentize(Concat(segs)) == segs
    decreases |segs|
  {
    hide IsSegmentation, WellFormed;
    if segs != [] {
      var s, rest := segs[0], segs[1..];
      assert segs == [s] + rest;
      SegmentationRest(segs);
      SegmentationUnique(rest);
      ConcatLed(s, rest);
      FirstSegment(segs);
    }
  }

  lemma FirstSegment(segs: seq<Segment>)
    requires IsSegmentation(segs) && segs != []
    ensures var t := segs[0].value + Concat(segs[1..]);
      Segmentize(t) == [segs[0]] + Segmentize(Concat(segs[1..]))
  {
    hide Segmentize;
    var s, rest := segs[0], Concat(segs[1..]);
    var n, t := |s.value|, s.value + rest;
    assert WellFormed(s);
    assert t[..n] == s.value && t[n..] == rest && forall i :: 0 <= i < n ==> t[i] == s.value[i];
    if s.kind == Marker {
      SegmentizeMarker(t, n - 1);
    } else if |segs| == 1 {
      assert segs[1..] == [] && rest == "" && t == s.value;
      SegmentizeAll(t);
    } else {
      assert Separated(s, segs[1]);
      assert segs[1..][0] == segs[1] && rest[0] == segs[1].value[0] == t[n];
      SegmentizeText(t, n);
    }
  }

  lemma SegmentizeMarker(t: string, k: nat)
    requires 0 < k < |t| && IsOpener(t[0]) && IsCloser(t[0], t[k])
    requires forall i :: 1 <= i < k ==> !IsCloser(t[0], t[i])
    ensures Segmentize(t) == [Segment(Marker, t[..k + 1])] + Segmentize(t[k + 1..])
  {
    hide IsCloser, IsOpener;
    NextCloserIs(t, t[0], 1, k);
    assert NextCloser(t, t[0], 1) == k;
  }

  lemma SegmentizeText(t: string, k: nat)
    requires 0 < k < |t| && IsOpener(t[k]) && forall i :: 0 <= i < k ==> !IsOpener(t[i])
    ensures Segmentize(t) == [Segment(Text, t[..k])] + Segmentize(t[k..])
  {
    NextOpenerIs(t, 0, k);
  }

  lemma SegmentizeAll(t: string)
    requires t != "" && (OpenerFree(t) || UnclosedRun(t))
    ensures Segmentize(t) == [Segment(Text, t)] + Segmentize("")
  {
    assert Segmentize("") == [];
    if IsOpener(t[0]) {
      NextCloserIs(t, t[0], 1, |t|);
    } else {
      assert NextOpener(t, 0) == |t|;
      assert t[..|t|] == t && t[|t|..] == "";
    }
  }

  lemma NextOpenerIs(t: string, from: nat, k: nat)
    requires from <= k < |t| && IsOpener(t[k]) && forall i :: from <= i < k ==> !IsOpener(t[i])
    ensures NextOpener(t, from) == k
    decreases k - from
  {
  }

  lemma NextCloserIs(t: string, opener: char, from: nat, k: nat)
    requires from <= k <= |t| && (k < |t| ==> IsCloser(opener, t[k]))
    requires forall i :: from <= i < k ==> !IsCloser(opener, t[i])
    ensures NextCloser(t, opener, from) == k
    decreases k - from
  {
  }

  /** The text from the border up to an opener is the next segment. */
  lemma TextStep(text: string, border: nat, k: nat)
    requires border < k < |text| && IsOpener(text[k])
    requires forall i :: border <= i < k ==> !IsOpener(text[i])
    ensures Segmentize(text[border..]) == [Segment(Text, text[border..k])] + Segmentize(text[k..])
  {
    var rest := text[border..];
    NextOpenerIs(rest, 0, k - border);
    assert rest[..k - border] == text[border..k] && rest[k - border..] == text[k..];
  }

  /** The run from an opener at the border to its closer is the next segment. */
  lemma MarkerStep(text: string, border: nat, k: nat)
    requires border < k < |text| && IsOpener(text[border]) && IsCloser(text[border], text[k])
    requires forall i :: border < i < k ==> !IsCloser(text[border], text[i])
    ensures Segmentize(text[border..]) == [Segment(Marker, text[border..k + 1])] + Segmentize(text[k + 1..])
  {
    var rest := text[border..];
    NextCloserIs(rest, text[border], 1, k - border);
    assert rest[..k - border + 1] == text[border..k + 1] && rest[k - border + 1..] == text[k + 1..];
  }

  lemma LastStep(text: string, border: nat)
    requires border < |text|
    requires || (forall i :: border <= i < |text| ==> !IsOpener(text[i]))
             || (IsOpener(text[border]) && forall i :: border < i < |text| ==> !IsCloser(text[border], text[i]))
    ensures Segmentize(text[border..]) == [Segment(Text, text[border..])]
  {
    var rest := text[border..];
    if IsOpener(text[border]) {
      NextCloserIs(rest, text[border], 1, |rest|);
    } else {
      assert NextOpener(rest, 0) == |rest|;
      assert rest[..|rest|] == rest && rest[|rest|..] == "";
    }
  }

  lemma NothingLeft(text: string)
    ensures Segmentize(text[|text|..]) == []
  {
  }

  lemma Regroup(a: seq<Segment>, s: Segment, b: seq<Segment>)
    ensures a + ([s] + b) == (a + [s]) + b
  {
  }

  /** segmentize_markers: one pass with the start of the open segment as a cursor. */
  method SegmentizeMarkers(text: string) returns (retval: seq<Segment>)
    ensures retval == Segmentize(text)
  {
    hide Segmentize, IsOpener, IsCloser;
    retval := [];
    var inMarker := false;
    var markerOpener := '\0';
    var lastBorder := 0;
    var curPos := 0;
    assert text[0..] == text;
    while curPos < |text|
      invariant 0 <= lastBorder <= curPos <= |text|
      invariant Segmentize(text) == retval + Segmentize(text[lastBorder..])
      invariant inMarker ==> lastBorder < curPos && markerOpener == text[lastBorder] && IsOpener(markerOpener)
      invariant inMarker ==> forall i :: lastBorder < i < curPos ==> !IsCloser(markerOpener, text[i])
      invariant !inMarker ==> forall i :: lastBorder <= i < curPos ==> !IsOpener(text[i])
    {
      if !inMarker && IsOpener(text[curPos]) {
        if lastBorder < curPos {
          TextStep(text, lastBorder, curPos);
          Regroup(retval, Segment(Text, text[lastBorder..curPos]), Segmentize(text[curPos..]));
          retval := retval + [Segment(Text, text[lastBorder..curPos])];
        }
        lastBorder := curPos;
        inMarker := true;
        markerOpener := text[curPos];
      } else if inMarker && IsCloser(markerOpener, text[curPos]) {
        MarkerStep(text, lastBorder, curPos);
        Regroup(retval, Segment(Marker, text[lastBorder..curPos + 1]), Segmentize(text[curPos + 1..]));
        retval := retval + [Segment(Marker, text[lastBorder..curPos + 1])];
        lastBorder := curPos + 1;
        inMarker := false;
        markerOpener := '\0';
      }
      curPos := curPos + 1;
    }
    if lastBorder < |text| {
      LastStep(text, lastBorder);
      retval := retval + [Segment(Text, text[lastBorder..])];
    } else {
      NothingLeft(text);
    }
  }
}
