/** Token stream splitting at role delimiters (common/chat.cpp), with ranges that must not be searched. */
module Delimiters {
  import opened Wrappers

  datatype Role = Unknown | System | Assistant | User | Tool

  datatype Delimiter = Delimiter(role: Role, tokens: seq<int>)

  datatype Match = Match(role: Role, pos: nat)

  datatype Span = Span(role: Role, pos: nat, len: nat)

  datatype Skip = Skip(first: nat, len: nat)

  /** Iteration order of a map keyed by the first position. */
  predicate Ordered(skips: seq<Skip>) {
    forall j, k :: 0 <= j < k < |skips| ==> skips[j].first < skips[k].first
  }

  predicate Disjoint(skips: seq<Skip>) {
    forall j, k :: 0 <= j < k < |skips| ==> skips[j].first + skips[j].len <= skips[k].first
  }

  predicate Covers(skip: Skip, i: int) {
    skip.first <= i < skip.first + skip.len
  }

  predicate InSkip(skips: seq<Skip>, i: int) {
    exists k :: 0 <= k < |skips| && Covers(skips[k], i)
  }

  /** The skips the scan takes: it stops at the first one that begins inside its predecessor. */
  function Reached(skips: seq<Skip>): seq<Skip>
    decreases |skips|
  {
    if |skips| <= 1 then skips
    else if skips[0].first + skips[0].len <= skips[1].first then [skips[0]] + Reached(skips[1..])
    else [skips[0]]
  }

  lemma {:induction false} ReachedShape(skips: seq<Skip>)
    requires Ordered(skips)
    ensures Reached(skips) <= skips
    ensures Disjoint(Reached(skips))
    ensures skips != [] ==> Reached(skips) != []
    ensures |Reached(skips)| < |skips| ==>
      var k := |Reached(skips)|;
      k > 0 && skips[k].first < skips[k - 1].first + skips[k - 1].len
    decreases |skips|
  {
    if |skips| > 1 && skips[0].first + skips[0].len <= skips[1].first {
      var rest := skips[1..];
      ReachedShape(rest);
      var r := Reached(skips);
      assert r == [skips[0]] + Reached(rest);
      assert r <= skips by {
        assert skips == [skips[0]] + rest;
      }
      forall j, k | 0 <= j < k < |r| ensures r[j].first + r[j].len <= r[k].first {
        if j == 0 {
          assert r[k] == skips[k];
          assert k == 1 || skips[1].first < skips[k].first;
        } else {
          assert r[j] == Reached(rest)[j - 1] && r[k] == Reached(rest)[k - 1];
        }
      }
      if |r| < |skips| {
        var k := |Reached(rest)|;
        assert rest[k] == skips[k + 1] && rest[k - 1] == skips[k];
      }
    }
  }

  /** All the skips are taken exactly when none begins inside an earlier one. */
  lemma ReachedAllExactlyWhen(skips: seq<Skip>)
    requires Ordered(skips)
    ensures Reached(skips) == skips <==> Disjoint(skips)
  {
    ReachedShape(skips);
    var k := |Reached(skips)|;
    if k == |skips| {
      assert Reached(skips) == skips;
    } else {
      assert !(skips[k - 1].first + skips[k - 1].len <= skips[k].first);
    }
  }

  predicate Occurs(d: Delimiter, tokens: seq<int>, i: nat) {
    i + |d.tokens| <= |tokens| && tokens[i..i + |d.tokens|] == d.tokens
  }

  /** d is the first listed delimiter found at i. */
  ghost predicate FirstListed(delimiters: seq<Delimiter>, tokens: seq<int>, i: nat, role: Role) {
    exists k :: 0 <= k < |delimiters| && FirstListedAt(delimiters, tokens, i, k) && delimiters[k].role == role
  }

  predicate FirstListedAt(delimiters: seq<Delimiter>, tokens: seq<int>, i: nat, k: nat)
    requires k < |delimiters|
  {
    && Occurs(delimiters[k], tokens, i)
    && forall j :: 0 <= j < k ==> !Occurs(delimiters[j], tokens, i)
  }

  predicate AnyOccurs(delimiters: seq<Delimiter>, tokens: seq<int>, i: nat) {
    exists k :: 0 <= k < |delimiters| && Occurs(delimiters[k], tokens, i)
  }

  /** A span starts at i: a token outside every skip, where a delimiter occurs. */
  predicate Starts(tokens: seq<int>, delimiters: seq<Delimiter>, skips: seq<Skip>, i: nat) {
    i < |tokens| && !InSkip(skips, i) && AnyOccurs(delimiters, tokens, i)
  }

  predicate SpanAt(spans: seq<Span>, i: nat) {
    exists k :: 0 <= k < |spans| && spans[k].pos == i
  }

  /** Non-empty, back to back, and the last one runs to the end. */
  predicate Tiles(spans: seq<Span>, n: nat) {
    && (forall k :: 0 <= k < |spans| ==> spans[k].len > 0 && spans[k].pos + spans[k].len == EndOf(spans, n, k))
  }

  function EndOf(spans: seq<Span>, n: nat, k: nat): nat
    requires k < |spans|
  {
    if k + 1 < |spans| then spans[k + 1].pos else n
  }

  /** What a split is, given the ranges that are really skipped. */
  ghost predicate IsSplit(tokens: seq<int>, delimiters: seq<Delimiter>, skips: seq<Skip>, spans: seq<Span>) {
    && Tiles(spans, |tokens|)
    && (forall i: nat :: SpanAt(spans, i) <==> Starts(tokens, delimiters, skips, i))
    && (forall k :: 0 <= k < |spans| ==> FirstListed(delimiters, tokens, spans[k].pos, spans[k].role))
  }

  method FindDelimiter(tokens: seq<int>, delimiters: seq<Delimiter>, i: nat) returns (found: Option<Role>)
    ensures found.Some? <==> AnyOccurs(delimiters, tokens, i)
    ensures found.Some? ==> FirstListed(delimiters, tokens, i, found.value)
  {
    for k := 0 to |delimiters|
      invariant forall j :: 0 <= j < k ==> !Occurs(delimiters[j], tokens, i)
    {
      var d := delimiters[k];
      if i + |d.tokens| > |tokens| {
        continue;
      }
      if d.tokens == tokens[i..i + |d.tokens|] {
        assert FirstListedAt(delimiters, tokens, i, k);
        return Some(d.role);
      }
    }
    return None;
  }

  /** The matches recorded before position i. */
  ghost predicate MatchesUpTo(tokens: seq<int>, delimiters: seq<Delimiter>, skips: seq<Skip>,
                              matches: seq<Match>, i: nat) {
    && (forall k :: 0 <= k < |matches| ==> matches[k].pos < i)
    && (forall j, k :: 0 <= j < k < |matches| ==> matches[j].pos < matches[k].pos)
    && (forall k :: 0 <= k < |matches| ==>
          && Starts(tokens, delimiters, skips, matches[k].pos)
          && FirstListed(delimiters, tokens, matches[k].pos, matches[k].role))
    && (forall p: nat :: p < i && Starts(tokens, delimiters, skips, p) ==> MatchAt(matches, p))
  }

  predicate MatchAt(matches: seq<Match>, p: nat) {
    exists k :: 0 <= k < |matches| && matches[k].pos == p
  }

  /** The skip iterator stands at k: all before it are taken, and it is ahead of i unless it can never be met. */
  predicate SkipCursor(skips: seq<Skip>, k: nat, i: nat) {
    && k <= |Reached(skips)| <= |skips|
    && (forall j :: 0 <= j < k ==> skips[j].first + skips[j].len <= i)
    && (k < |Reached(skips)| ==> i <= skips[k].first)
    && (|Reached(skips)| == k < |skips| ==> skips[k].first < i)
  }

  lemma CursorTakes(skips: seq<Skip>, k: nat, i: nat)
    requires Ordered(skips) && SkipCursor(skips, k, i) && k < |skips| && i == skips[k].first
    ensures SkipCursor(skips, k + 1, i + skips[k].len)
    ensures forall p: nat :: i <= p < i + skips[k].len ==> InSkip(Reached(skips), p)
  {
    ReachedShape(skips);
    var r := Reached(skips);
    assert r[k] == skips[k];
    forall p: nat | i <= p < i + skips[k].len ensures InSkip(r, p) {
      assert Covers(r[k], p);
    }
    if k + 1 < |r| {
      assert r[k + 1] == skips[k + 1];
    }
  }

  lemma CursorClear(skips: seq<Skip>, k: nat, i: nat)
    requires Ordered(skips) && SkipCursor(skips, k, i) && (k < |skips| ==> i != skips[k].first)
    ensures SkipCursor(skips, k, i + 1)
    ensures !InSkip(Reached(skips), i)
  {
    ReachedShape(skips);
    var r := Reached(skips);
    forall j | 0 <= j < |r| ensures !Covers(r[j], i) {
      assert r[j] == skips[j];
      if j > k {
        assert skips[k].first < skips[j].first;
      }
    }
  }

  method FindMatches(tokens: seq<int>, delimiters: seq<Delimiter>, skips: seq<Skip>) returns (matches: seq<Match>)
    requires Ordered(skips)
    ensures MatchesUpTo(tokens, delimiters, Reached(skips), matches, |tokens|)
  {
    hide MatchesUpTo, AnyOccurs, FirstListed, Reached, InSkip;
    ghost var reached := Reached(skips);
    NoMatches(tokens, delimiters, reached);
    matches := [];
    var skip: nat := 0;
    var i: nat := 0;
    ReachedShape(skips);
    while i < |tokens|
      invariant SkipCursor(skips, skip, i)
      invariant MatchesUpTo(tokens, delimiters, reached, matches, i)
      decreases |skips| - skip, |tokens| - i
    {
      if skip < |skips| && i == skips[skip].first {
        CursorTakes(skips, skip, i);
        MatchesSkipped(tokens, delimiters, reached, matches, i, i + skips[skip].len);
        i := i + skips[skip].len;
        skip := skip + 1;
        continue;
      }
      CursorClear(skips, skip, i);
      var found := FindDelimiter(tokens, delimiters, i);
      if found.Some? {
        MatchPushed(tokens, delimiters, reached, matches, found.value, i);
        matches := matches + [Match(found.value, i)];
      } else {
        NoMatchHere(tokens, delimiters, reached, matches, i);
      }
      i := i + 1;
    }
    MatchesPastEnd(tokens, delimiters, reached, matches, i);
  }

  lemma NoMatches(tokens: seq<int>, delimiters: seq<Delimiter>, skips: seq<Skip>)
    ensures MatchesUpTo(tokens, delimiters, skips, [], 0)
  {
  }

  lemma NoMatchHere(tokens: seq<int>, delimiters: seq<Delimiter>, skips: seq<Skip>, matches: seq<Match>, i: nat)
    requires MatchesUpTo(tokens, delimiters, skips, matches, i) && !Starts(tokens, delimiters, skips, i)
    ensures MatchesUpTo(tokens, delimiters, skips, matches, i + 1)
  {
    hide Starts, FirstListed;
  }

  lemma MatchesSkipped(tokens: seq<int>, delimiters: seq<Delimiter>, skips: seq<Skip>, matches: seq<Match>,
                       i: nat, j: nat)
    requires MatchesUpTo(tokens, delimiters, skips, matches, i) && i <= j
    requires forall p: nat :: i <= p < j ==> InSkip(skips, p)
    ensures MatchesUpTo(tokens, delimiters, skips, matches, j)
  {
    hide InSkip, AnyOccurs, FirstListed;
  }

  lemma MatchesPastEnd(tokens: seq<int>, delimiters: seq<Delimiter>, skips: seq<Skip>, matches: seq<Match>, i: nat)
    requires MatchesUpTo(tokens, delimiters, skips, matches, i) && i >= |tokens|
    ensures MatchesUpTo(tokens, delimiters, skips, matches, |tokens|)
  {
    hide InSkip, AnyOccurs, FirstListed;
  }

  lemma MatchPushed(tokens: seq<int>, delimiters: seq<Delimiter>, skips: seq<Skip>, matches: seq<Match>,
                    role: Role, i: nat)
    requires MatchesUpTo(tokens, delimiters, skips, matches, i)
    requires Starts(tokens, delimiters, skips, i) && FirstListed(delimiters, tokens, i, role)
    ensures MatchesUpTo(tokens, delimiters, skips, matches + [Match(role, i)], i + 1)
  {
    hide Starts, FirstListed;
    var longer := matches + [Match(role, i)];
    forall p: nat | p < i + 1 && Starts(tokens, delimiters, skips, p) ensures MatchAt(longer, p) {
      if p == i {
        assert longer[|matches|].pos == i;
      } else {
        assert MatchAt(matches, p);
        var k :| 0 <= k < |matches| && matches[k].pos == p;
        assert longer[k].pos == p;
      }
    }
  }

  /** split: the scan, then one span from each match to the next. Only the reachable skips are honoured. */
  method Split(tokens: seq<int>, delimiters: seq<Delimiter>, skips: seq<Skip>) returns (spans: seq<Span>)
    requires Ordered(skips)
    ensures IsSplit(tokens, delimiters, Reached(skips), spans)
  {
    hide MatchesUpTo, IsSplit;
    var found := FindMatches(tokens, delimiters, skips);
    MatchesIncrease(tokens, delimiters, Reached(skips), found);
    var matches := found + [Match(Unknown, |tokens|)];
    spans := [];
    var i := 0;
    while i + 1 < |matches|
      invariant 0 <= i <= |found| && |spans| == i
      invariant forall k :: 0 <= k < i ==> spans[k] == SpanBetween(matches, k)
    {
      var curr := matches[i];
      var next := matches[i + 1];
      spans := spans + [Span(curr.role, curr.pos, next.pos - curr.pos)];
      i := i + 1;
    }
    SpansSplit(tokens, delimiters, Reached(skips), found, spans);
  }

  lemma MatchesIncrease(tokens: seq<int>, delimiters: seq<Delimiter>, skips: seq<Skip>, found: seq<Match>)
    requires MatchesUpTo(tokens, delimiters, skips, found, |tokens|)
    ensures var matches := found + [Match(Unknown, |tokens|)];
      forall k :: 0 <= k < |found| ==> matches[k].pos < matches[k + 1].pos
  {
  }

  function SpanBetween(matches: seq<Match>, k: nat): Span
    requires k + 1 < |matches| && matches[k].pos <= matches[k + 1].pos
  {
    Span(matches[k].role, matches[k].pos, matches[k + 1].pos - matches[k].pos)
  }

  lemma SpansSplit(tokens: seq<int>, delimiters: seq<Delimiter>, skips: seq<Skip>, found: seq<Match>, spans: seq<Span>)
    requires MatchesUpTo(tokens, delimiters, skips, found, |tokens|)
    requires |spans| == |found|
    requires var matches := found + [Match(Unknown, |tokens|)];
      forall k :: 0 <= k < |found| ==> matches[k].pos <= matches[k + 1].pos && spans[k] == SpanBetween(matches, k)
    ensures IsSplit(tokens, delimiters, skips, spans)
  {
    hide Starts, FirstListed;
    forall i: nat ensures SpanAt(spans, i) <==> Starts(tokens, delimiters, skips, i) {
      if Starts(tokens, delimiters, skips, i) {
        assert i < |tokens| by { StartsInRange(tokens, delimiters, skips, i); }
        assert MatchAt(found, i);
        var k :| 0 <= k < |found| && found[k].pos == i;
        assert spans[k].pos == i;
      }
    }
  }

  lemma StartsInRange(tokens: seq<int>, delimiters: seq<Delimiter>, skips: seq<Skip>, i: nat)
    requires Starts(tokens, delimiters, skips, i)
    ensures i < |tokens|
  {
  }

  /** Spans are in increasing order of position. */
  lemma {:induction false} TilesIncrease(spans: seq<Span>, n: nat, j: nat, k: nat)
    requires Tiles(spans, n) && j < k < |spans|
    ensures spans[j].pos + spans[j].len <= spans[k].pos
    decreases k - j
  {
    assert spans[j].pos + spans[j].len == EndOf(spans, n, j);
    if j + 1 < k {
      TilesIncrease(spans, n, j + 1, k);
    }
  }

  /** Every token from the first match on is in exactly one span; no token before it is in any. */
  lemma SpansCover(tokens: seq<int>, delimiters: seq<Delimiter>, skips: seq<Skip>, spans: seq<Span>, p: nat)
    requires IsSplit(tokens, delimiters, skips, spans) && p < |tokens|
    ensures (exists k :: 0 <= k < |spans| && Holds(spans[k], p))
            <==> (exists i: nat :: i <= p && Starts(tokens, delimiters, skips, i))
    ensures forall j, k :: 0 <= j < k < |spans| ==> !(Holds(spans[j], p) && Holds(spans[k], p))
  {
    hide Starts, FirstListed;
    forall j, k | 0 <= j < k < |spans| ensures !(Holds(spans[j], p) && Holds(spans[k], p)) {
      TilesIncrease(spans, |tokens|, j, k);
    }
    if k :| 0 <= k < |spans| && Holds(spans[k], p) {
      assert SpanAt(spans, spans[k].pos);
    }
    if i: nat :| i <= p && Starts(tokens, delimiters, skips, i) {
      assert SpanAt(spans, i);
      var k :| 0 <= k < |spans| && spans[k].pos == i;
      var m := SpanOver(spans, |tokens|, k, p);
    }
  }

  predicate Holds(span: Span, p: int) {
    span.pos <= p < span.pos + span.len
  }

  lemma {:induction false} SpanOver(spans: seq<Span>, n: nat, k: nat, p: nat) returns (m: nat)
    requires Tiles(spans, n) && k < |spans| && spans[k].pos <= p < n
    ensures m < |spans| && Holds(spans[m], p)
    decreases |spans| - k
  {
    assert spans[k].pos + spans[k].len == EndOf(spans, n, k);
    if p < spans[k].pos + spans[k].len {
      m := k;
    } else {
      m := SpanOver(spans, n, k + 1, p);
    }
  }

  /** The description leaves no choice: it fixes the list of spans. */
  lemma SplitUnique(tokens: seq<int>, delimiters: seq<Delimiter>, skips: seq<Skip>, a: seq<Span>, b: seq<Span>)
    requires IsSplit(tokens, delimiters, skips, a) && IsSplit(tokens, delimiters, skips, b)
    ensures a == b
  {
    hide Starts, FirstListed;
    forall i: nat ensures SpanAt(a, i) <==> SpanAt(b, i) {
      assert SpanAt(a, i) <==> Starts(tokens, delimiters, skips, i);
    }
    SamePositions(a, b, |tokens|, |a|);
    SamePositions(b, a, |tokens|, |b|);
    forall k | 0 <= k < |a| ensures a[k] == b[k] {
      assert EndOf(a, |tokens|, k) == EndOf(b, |tokens|, k);
      assert FirstListed(delimiters, tokens, a[k].pos, a[k].role);
      assert FirstListed(delimiters, tokens, b[k].pos, b[k].role);
      FirstListedUnique(delimiters, tokens, a[k].pos, a[k].role, b[k].role);
    }
  }

  lemma FirstListedUnique(delimiters: seq<Delimiter>, tokens: seq<int>, i: nat, r: Role, s: Role)
    requires FirstListed(delimiters, tokens, i, r) && FirstListed(delimiters, tokens, i, s)
    ensures r == s
  {
    var j :| 0 <= j < |delimiters| && FirstListedAt(delimiters, tokens, i, j) && delimiters[j].role == r;
    var k :| 0 <= k < |delimiters| && FirstListedAt(delimiters, tokens, i, k) && delimiters[k].role == s;
    assert j == k;
  }

  lemma {:induction false} SamePositions(a: seq<Span>, b: seq<Span>, n: nat, k: nat)
    requires Tiles(a, n) && Tiles(b, n) && k <= |a|
    requires forall i: nat :: SpanAt(a, i) <==> SpanAt(b, i)
    ensures k <= |b| && forall j :: 0 <= j < k ==> a[j].pos == b[j].pos
    decreases k
  {
    hide Tiles, SpanAt;
    if k > 0 {
      SamePositions(a, b, n, k - 1);
      NoLater(a, b, n, k - 1);
      NoLater(b, a, n, k - 1);
    }
  }

  /** With the first k positions equal, the next one of b is not after the next one of a. */
  lemma NoLater(a: seq<Span>, b: seq<Span>, n: nat, k: nat)
    requires Tiles(a, n) && Tiles(b, n) && k < |a| && k <= |b|
    requires forall j :: 0 <= j < k ==> a[j].pos == b[j].pos
    requires forall i: nat :: SpanAt(a, i) <==> SpanAt(b, i)
    ensures k < |b| && b[k].pos <= a[k].pos
  {
    hide Tiles;
    var x := a[k].pos;
    assert SpanAt(a, x);
    assert SpanAt(b, x);
    var m :| 0 <= m < |b| && b[m].pos == x;
    if m < k {
      TilesIncrease(a, n, m, k);
      SpanNotEmpty(a, n, m);
      assert false;
    } else if k < m {
      TilesIncrease(b, n, k, m);
    }
  }

  lemma SpanNotEmpty(spans: seq<Span>, n: nat, k: nat)
    requires Tiles(spans, n) && k < |spans|
    ensures spans[k].len > 0
  {
  }

  /** No span of the result starts inside any of the skips the caller gave. */
  predicate RespectsSkips(skips: seq<Skip>, spans: seq<Span>) {
    forall k :: 0 <= k < |spans| ==> !InSkip(skips, spans[k].pos)
  }

  /** Every split made with these skips keeps out of them. */
  ghost predicate AlwaysRespects(skips: seq<Skip>) {
    forall tokens, delimiters, spans ::
      IsSplit(tokens, delimiters, Reached(skips), spans) ==> RespectsSkips(skips, spans)
  }

  /** Whatever an unreached skip covers, a reached one covers too. */
  ghost predicate ReachedCoverAll(skips: seq<Skip>) {
    forall i: nat :: InSkip(skips, i) ==> InSkip(Reached(skips), i)
  }

  /** Skips are respected on every input exactly when the reached ones cover them all; disjoint skips do. */
  lemma SkipsRespectedExactlyWhen(skips: seq<Skip>)
    requires Ordered(skips)
    ensures AlwaysRespects(skips) <==> ReachedCoverAll(skips)
    ensures Disjoint(skips) ==> AlwaysRespects(skips)
  {
    ReachedAllExactlyWhen(skips);
    if ReachedCoverAll(skips) {
      forall tokens, delimiters, spans | IsSplit(tokens, delimiters, Reached(skips), spans)
        ensures RespectsSkips(skips, spans)
      {
        StartsKeepOut(tokens, delimiters, skips, spans);
      }
    } else {
      var i: nat :| InSkip(skips, i) && !InSkip(Reached(skips), i);
      var tokens, delimiters, spans := StartAt(skips, i);
      assert !RespectsSkips(skips, spans);
    }
  }

  lemma StartsKeepOut(tokens: seq<int>, delimiters: seq<Delimiter>, skips: seq<Skip>, spans: seq<Span>)
    requires ReachedCoverAll(skips) && IsSplit(tokens, delimiters, Reached(skips), spans)
    ensures RespectsSkips(skips, spans)
  {
    forall k | 0 <= k < |spans| ensures !InSkip(skips, spans[k].pos) {
      assert SpanAt(spans, spans[k].pos);
      assert Starts(tokens, delimiters, Reached(skips), spans[k].pos);
    }
  }

  /** A stream whose only delimiter token is at i, so its one span starts there. */
  lemma StartAt(skips: seq<Skip>, i: nat)
    returns (tokens: seq<int>, delimiters: seq<Delimiter>, spans: seq<Span>)
    requires !InSkip(Reached(skips), i)
    ensures IsSplit(tokens, delimiters, Reached(skips), spans)
    ensures |spans| == 1 && spans[0].pos == i
  {
    tokens := seq(i, _ => 0) + [1];
    delimiters := [Delimiter(User, [1])];
    spans := [Span(User, i, 1)];
    assert Occurs(delimiters[0], tokens, i);
    assert FirstListedAt(delimiters, tokens, i, 0);
    forall p: nat ensures SpanAt(spans, p) <==> Starts(tokens, delimiters, Reached(skips), p) {
      if p == i {
        assert spans[0].pos == i;
      } else if p < |tokens| {
        assert tokens[p..p + 1][0] == tokens[p] == 0;
      }
    }
  }

  /** Two overlapping skips: the second is never met, and it keeps the third from being taken. */
  lemma OverlapBlocksLaterSkips()
    ensures var skips := [Skip(0, 3), Skip(1, 1), Skip(5, 2)];
      && Ordered(skips) && Reached(skips) == [Skip(0, 3)] && !AlwaysRespects(skips)
  {
    var skips := [Skip(0, 3), Skip(1, 1), Skip(5, 2)];
    SkipsRespectedExactlyWhen(skips);
    assert Covers(skips[2], 5);
    assert InSkip(skips, 5);
    assert !InSkip(Reached(skips), 5);
  }
}
