/** Common prefixes and suffixes of two strings, and the searches built on them. */
module Affixes {
  import opened Wrappers

  function Min(a: nat, b: nat): nat {
    if a <= b then a else b
  }

  /** Length of the longest common prefix. */
  function PrefixLen(l: string, r: string): (n: nat)
    ensures n <= |l| && n <= |r| && forall i :: 0 <= i < n ==> l[i] == r[i]
    ensures n < |l| && n < |r| ==> l[n] != r[n]
  {
    if l == "" || r == "" || l[0] != r[0] then 0
    else
      var n := PrefixLen(l[1..], r[1..]);
      assert forall i :: 0 < i <= n ==> l[i] == l[1..][i - 1] && r[i] == r[1..][i - 1];
      n + 1
  }

  /** The character i places before the last one. */
  function Back(s: string, i: nat): char
    requires i < |s|
  {
    s[|s| - 1 - i]
  }

  /** Length of the longest common suffix. */
  function SuffixLen(l: string, r: string): (n: nat)
    ensures n <= |l| && n <= |r| && forall i :: 0 <= i < n ==> Back(l, i) == Back(r, i)
    ensures n < |l| && n < |r| ==> Back(l, n) != Back(r, n)
  {
    if l == "" || r == "" || l[|l| - 1] != r[|r| - 1] then 0
    else
      var l', r' := l[..|l| - 1], r[..|r| - 1];
      var n := SuffixLen(l', r');
      assert forall i :: 0 < i <= n ==> Back(l, i) == Back(l', i - 1) && Back(r, i) == Back(r', i - 1);
      n + 1
  }

  lemma PrefixLenIs(l: string, r: string, n: nat)
    requires n <= |l| && n <= |r| && forall i :: 0 <= i < n ==> l[i] == r[i]
    requires n < |l| && n < |r| ==> l[n] != r[n]
    ensures PrefixLen(l, r) == n
  {
  }

  lemma SuffixLenIs(l: string, r: string, n: nat)
    requires n <= |l| && n <= |r| && forall i :: 0 <= i < n ==> Back(l, i) == Back(r, i)
    requires n < |l| && n < |r| ==> Back(l, n) != Back(r, n)
    ensures SuffixLen(l, r) == n
  {
  }

  lemma SharedPrefix(l: string, r: string)
    ensures l[..PrefixLen(l, r)] == r[..PrefixLen(l, r)]
  {
  }

  lemma SharedSuffix(l: string, r: string)
    ensures l[|l| - SuffixLen(l, r)..] == r[|r| - SuffixLen(l, r)..]
  {
    var n := SuffixLen(l, r);
    var a, b := l[|l| - n..], r[|r| - n..];
    forall i | 0 <= i < |a| ensures a[i] == b[i] {
      assert Back(l, n - 1 - i) == Back(r, n - 1 - i);
    }
  }

  method CommonPrefixLen(left: string, right: string) returns (prefixLen: nat)
    ensures prefixLen == PrefixLen(left, right)
  {
    prefixLen := 0;
    var minLen := Min(|left|, |right|);
    while prefixLen < minLen && left[prefixLen] == right[prefixLen]
      invariant prefixLen <= minLen
      invariant forall i :: 0 <= i < prefixLen ==> left[i] == right[i]
    {
      prefixLen := prefixLen + 1;
    }
    PrefixLenIs(left, right, prefixLen);
  }

  method CommonSuffixLen(left: string, right: string) returns (suffixLen: nat)
    ensures suffixLen == SuffixLen(left, right)
  {
    suffixLen := 0;
    var minLen := Min(|left|, |right|);
    while suffixLen < minLen && Back(left, suffixLen) == Back(right, suffixLen)
      invariant suffixLen <= minLen
      invariant forall i :: 0 <= i < suffixLen ==> Back(left, i) == Back(right, i)
    {
      suffixLen := suffixLen + 1;
    }
    SuffixLenIs(left, right, suffixLen);
  }

  predicate OccursAt(full: string, pat: string, i: nat) {
    i + |pat| <= |full| && full[i..i + |pat|] == pat
  }

  /** std::string::find: the first occurrence. */
  function FindFirst(full: string, pat: string, from: nat := 0): (r: Option<nat>)
    requires from <= |full|
    ensures r.Some? ==> from <= r.value && OccursAt(full, pat, r.value)
    ensures r.Some? ==> forall i :: from <= i < r.value ==> !OccursAt(full, pat, i)
    ensures r.None? ==> forall i :: from <= i ==> !OccursAt(full, pat, i)
    decreases |full| - from
  {
    if OccursAt(full, pat, from) then Some(from)
    else if from == |full| then None
    else FindFirst(full, pat, from + 1)
  }

  /** std::string::rfind: the last occurrence. */
  function FindLast(full: string, pat: string, upTo: nat): (r: Option<nat>)
    ensures r.Some? ==> r.value <= upTo && OccursAt(full, pat, r.value)
    ensures r.Some? ==> forall i :: r.value < i <= upTo ==> !OccursAt(full, pat, i)
    ensures r.None? ==> forall i :: 0 <= i <= upTo ==> !OccursAt(full, pat, i)
  {
    if OccursAt(full, pat, upTo) then Some(upTo)
    else if upTo == 0 then None
    else FindLast(full, pat, upTo - 1)
  }

  function Until(full: string, left: string, right: string): string {
    var n := PrefixLen(left, right);
    if n == 0 then ""
    else
      match FindFirst(full, left[..n])
      case Some(pos) => full[..pos]
      case None => ""
  }

  function After(full: string, left: string, right: string): string {
    var n := SuffixLen(left, right);
    if n == 0 then ""
    else
      match FindLast(full, left[|left| - n..], |full|)
      case Some(pos) => full[pos + n..]
      case None => ""
  }

  method UntilCommonPrefix(full: string, left: string, right: string) returns (r: string)
    ensures r == Until(full, left, right)
  {
    var commonPrefixLen := CommonPrefixLen(left, right);
    if commonPrefixLen == 0 { return ""; }
    var commonPrefix := left[..commonPrefixLen];
    var pos := FindFirst(full, commonPrefix);
    if pos.None? { return ""; }
    r := full[..pos.value];
  }

  method AfterCommonSuffix(full: string, left: string, right: string) returns (r: string)
    ensures r == After(full, left, right)
  {
    var commonSuffixLen := CommonSuffixLen(left, right);
    if commonSuffixLen == 0 { return ""; }
    var commonSuffix := left[|left| - commonSuffixLen..];
    var pos := FindLast(full, commonSuffix, |full|);
    if pos.None? { return ""; }
    r := full[pos.value + commonSuffixLen..];
  }

  function Rev(s: string): (r: string)
    ensures |r| == |s| && forall i :: 0 <= i < |s| ==> r[i] == s[|s| - 1 - i]
  {
    seq(|s|, i requires 0 <= i < |s| => s[|s| - 1 - i])
  }

  lemma RevSlice(s: string, i: nat, j: nat)
    requires i <= j <= |s|
    ensures Rev(s)[i..j] == Rev(s[|s| - j..|s| - i])
  {
  }

  lemma SuffixIsReversedPrefix(l: string, r: string)
    ensures SuffixLen(l, r) == PrefixLen(Rev(l), Rev(r))
  {
    var n := SuffixLen(l, r);
    forall i | 0 <= i < n ensures Rev(l)[i] == Rev(r)[i] {
      assert Rev(l)[i] == Back(l, i) && Rev(r)[i] == Back(r, i);
    }
    PrefixLenIs(Rev(l), Rev(r), n);
  }

  lemma OccursReversed(full: string, pat: string, i: nat)
    requires i + |pat| <= |full|
    ensures OccursAt(full, pat, i) <==> OccursAt(Rev(full), Rev(pat), |full| - |pat| - i)
  {
    var j := |full| - |pat| - i;
    RevSlice(full, j, j + |pat|);
    assert full[|full| - (j + |pat|)..|full| - j] == full[i..i + |pat|];
    if Rev(full)[j..j + |pat|] == Rev(pat) {
      RevInjective(full[i..i + |pat|], pat);
    }
  }

  lemma RevInjective(a: string, b: string)
    requires Rev(a) == Rev(b)
    ensures a == b
  {
    assert |a| == |b|;
    forall i | 0 <= i < |a| ensures a[i] == b[i] {
      assert Rev(a)[|a| - 1 - i] == a[i] && Rev(b)[|a| - 1 - i] == b[i];
    }
  }

  /** The last occurrence is the first one in the mirror image. */
  lemma FindMirrored(full: string, pat: string)
    ensures FindLast(full, pat, |full|).Some? <==> FindFirst(Rev(full), Rev(pat)).Some?
    ensures FindLast(full, pat, |full|).Some? ==>
              FindFirst(Rev(full), Rev(pat)).value == |full| - |pat| - FindLast(full, pat, |full|).value
  {
    var last, first := FindLast(full, pat, |full|), FindFirst(Rev(full), Rev(pat));
    if last.Some? { OccursReversed(full, pat, last.value); }
    if first.Some? { OccursReversed(full, pat, |full| - |pat| - first.value); }
  }

  lemma RevOfPrefix(s: string, n: nat)
    requires n <= |s|
    ensures Rev(s)[..n] == Rev(s[|s| - n..]) && Rev(Rev(s)[..n]) == s[|s| - n..]
  {
    var r := Rev(s)[..n];
    assert forall i :: 0 <= i < n ==> r[i] == Rev(s)[i] == s[|s| - 1 - i];
  }

  /** The two searches are mirror images of each other, on every input. */
  lemma AfterMirrorsUntil(full: string, left: string, right: string)
    ensures After(full, left, right) == Rev(Until(Rev(full), Rev(left), Rev(right)))
  {
    hide Rev, OccursAt, FindFirst, FindLast, PrefixLen, SuffixLen;
    SuffixIsReversedPrefix(left, right);
    var n := SuffixLen(left, right);
    RevOfPrefix(left, n);
    var pat := left[|left| - n..];
    FindMirrored(full, pat);
    RevOfNothing();
    if n > 0 && FindLast(full, pat, |full|).Some? {
      AfterIsMirrored(full, pat);
    }
  }

  lemma RevOfNothing()
    ensures Rev("") == ""
  {
  }

  lemma AfterIsMirrored(full: string, pat: string)
    requires FindLast(full, pat, |full|).Some? && FindFirst(Rev(full), Rev(pat)).Some?
    ensures var pos, first := FindLast(full, pat, |full|).value, FindFirst(Rev(full), Rev(pat)).value;
      pos + |pat| <= |full| && first <= |full| && full[pos + |pat|..] == Rev(Rev(full)[..first])
  {
    hide Rev, FindFirst, FindLast;
    FindMirrored(full, pat);
    var pos, first := FindLast(full, pat, |full|).value, FindFirst(Rev(full), Rev(pat)).value;
    assert first == |full| - |pat| - pos;
    RevOfPrefix(full, first);
  }

  // ----- what the two searches return -----

  /** p is all that both begin with. */
  predicate SharedBegin(p: string, left: string, right: string) {
    && p <= left && p <= right
    && (|p| == |left| || |p| == |right| || left[|p|] != right[|p|])
  }

  /** p is all that both end with. */
  predicate SharedEnd(p: string, left: string, right: string) {
    && |p| <= |left| && |p| <= |right| && left[|left| - |p|..] == p == right[|right| - |p|..]
    && (|p| == |left| || |p| == |right| || left[|left| - |p| - 1] != right[|right| - |p| - 1])
  }

  /** What comes before the first place of p in full: r and p begin full, and nothing shorter than r does so. */
  ghost predicate BeforeFirst(r: string, p: string, full: string) {
    r + p <= full && forall shorter: string :: shorter + p <= full ==> |r| <= |shorter|
  }

  /** full is front, then p, then back. */
  predicate Around(full: string, front: string, p: string, back: string) {
    front + p + back == full
  }

  /** What comes after the last place of p in full. */
  ghost predicate AfterLast(r: string, p: string, full: string) {
    && (exists front: string :: Around(full, front, p, r))
    && forall front: string, back: string :: Around(full, front, p, back) ==> |r| <= |back|
  }

  lemma PlaceIs(full: string, p: string, i: nat)
    requires OccursAt(full, p, i)
    ensures full[..i] + p <= full && full == full[..i] + p + full[i + |p|..]
  {
  }

  lemma PlaceOf(full: string, front: string, p: string)
    requires front + p <= full
    ensures OccursAt(full, p, |front|)
  {
    assert full[..|front| + |p|] == front + p;
    assert full[|front|..|front| + |p|] == (front + p)[|front|..];
  }

  lemma SharedBeginIs(p: string, left: string, right: string)
    requires SharedBegin(p, left, right)
    ensures |p| == PrefixLen(left, right) && p == left[..|p|]
  {
    assert forall i :: 0 <= i < |p| ==> left[i] == p[i] == right[i];
    PrefixLenIs(left, right, |p|);
  }

  lemma EndAt(p: string, s: string, i: nat)
    requires |p| <= |s| && s[|s| - |p|..] == p && i < |p|
    ensures Back(s, i) == p[|p| - 1 - i]
  {
    assert p[|p| - 1 - i] == s[|s| - |p|..][|p| - 1 - i];
  }

  lemma EndStops(p: string, left: string, right: string)
    requires SharedEnd(p, left, right)
    ensures |p| <= |left| && |p| <= |right|
    ensures |p| < |left| && |p| < |right| ==> Back(left, |p|) != Back(right, |p|)
  {
  }

  lemma SharedEndIs(p: string, left: string, right: string)
    requires SharedEnd(p, left, right)
    ensures |p| == SuffixLen(left, right) && p == left[|left| - |p|..]
  {
    EndStops(p, left, right);
    hide Back, SuffixLen;
    forall i | 0 <= i < |p| ensures Back(left, i) == Back(right, i) {
      EndAt(p, left, i);
      EndAt(p, right, i);
    }
    SuffixLenIs(left, right, |p|);
  }

  /** With p all that left and right begin with: what comes before its first place in full, or nothing. */
  lemma UntilMeans(full: string, left: string, right: string, p: string)
    requires SharedBegin(p, left, right)
    ensures var r := Until(full, left, right);
            if p == "" || forall front: string :: !(front + p <= full) then r == "" else BeforeFirst(r, p, full)
  {
    hide PrefixLen, FindFirst, SharedBegin;
    SharedBeginIs(p, left, right);
    if p != "" {
      var found := FindFirst(full, p);
      if found.Some? {
        PlaceIs(full, p, found.value);
        forall shorter: string | shorter + p <= full ensures |full[..found.value]| <= |shorter| {
          PlaceOf(full, shorter, p);
        }
      } else {
        forall front: string ensures !(front + p <= full) {
          if front + p <= full { PlaceOf(full, front, p); }
        }
      }
    }
  }

  lemma PlaceBefore(full: string, front: string, p: string, back: string, pos: nat)
    requires p != "" && FindLast(full, p, |full|) == Some(pos) && Around(full, front, p, back)
    ensures pos + |p| <= |full| && |full[pos + |p|..]| <= |back|
  {
    hide FindLast;
    assert front + p <= full;
    PlaceOf(full, front, p);
  }

  lemma AfterLastIs(full: string, p: string, pos: nat)
    requires p != "" && FindLast(full, p, |full|) == Some(pos)
    ensures pos + |p| <= |full| && AfterLast(full[pos + |p|..], p, full)
  {
    hide FindLast, OccursAt;
    PlaceIs(full, p, pos);
    assert Around(full, full[..pos], p, full[pos + |p|..]);
    forall front: string, back: string | Around(full, front, p, back) ensures |full[pos + |p|..]| <= |back| {
      PlaceBefore(full, front, p, back, pos);
    }
  }

  lemma NowhereIs(full: string, p: string)
    requires p != "" && FindLast(full, p, |full|).None?
    ensures forall front: string :: !(front + p <= full)
  {
    forall front: string ensures !(front + p <= full) {
      if front + p <= full { PlaceOf(full, front, p); }
    }
  }

  /** With p all that left and right end with: what comes after its last place in full, or nothing. */
  lemma AfterMeans(full: string, left: string, right: string, p: string)
    requires SharedEnd(p, left, right)
    ensures var r := After(full, left, right);
            if p == "" || forall front: string :: !(front + p <= full) then r == "" else AfterLast(r, p, full)
  {
    hide SuffixLen, FindLast, SharedEnd, AfterLast, OccursAt;
    SharedEndIs(p, left, right);
    if p != "" {
      var found := FindLast(full, p, |full|);
      if found.Some? {
        AfterLastIs(full, p, found.value);
        PlaceIs(full, p, found.value);
      } else {
        NowhereIs(full, p);
      }
    }
  }
}
