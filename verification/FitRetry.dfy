/** The exact-validation retry loop: candidates that do not fit raise the margins and are not tried twice. */
module FitRetry {
  const SIZE_MAX: int := 0xFFFF_FFFF_FFFF_FFFF
  const INT64_MAX: int := 0x7FFF_FFFF_FFFF_FFFF

  type Size = x: int | 0 <= x <= SIZE_MAX
  type Int64 = x: int | -INT64_MAX - 1 <= x <= INT64_MAX

  datatype Action = Accept | Retry | RepeatedCandidate | InvalidShortfall

  datatype State = State(rejected: set<string>, margins: seq<Size>)

  datatype Call = Call(identity: string, shortfalls: seq<Int64>)

  predicate NonePositive(shortfalls: seq<Int64>) {
    forall i :: 0 <= i < |shortfalls| ==> shortfalls[i] <= 0
  }

  function Positive(x: Int64): nat {
    if x > 0 then x else 0
  }

  /** Whether every margin up to i can take its shortfall. */
  predicate Fits(margins: seq<Size>, shortfalls: seq<Int64>, i: nat)
    requires |margins| == |shortfalls| && i <= |margins|
  {
    forall k :: 0 <= k < i ==> margins[k] + Positive(shortfalls[k]) <= SIZE_MAX
  }

  /** First margin that cannot take its shortfall; the length if all can. */
  function FirstOverflow(margins: seq<Size>, shortfalls: seq<Int64>, i: nat): (k: nat)
    requires |margins| == |shortfalls| && i <= |margins|
    ensures i <= k <= |margins|
    ensures k < |margins| ==> margins[k] + Positive(shortfalls[k]) > SIZE_MAX
    ensures forall j :: i <= j < k ==> margins[j] + Positive(shortfalls[j]) <= SIZE_MAX
    decreases |margins| - i
  {
    if i == |margins| || margins[i] + Positive(shortfalls[i]) > SIZE_MAX then i
    else FirstOverflow(margins, shortfalls, i + 1)
  }

  /** The margins after the first k have taken their shortfalls. */
  function Raised(margins: seq<Size>, shortfalls: seq<Int64>, k: nat): (r: seq<Size>)
    requires |margins| == |shortfalls| && k <= |margins| && Fits(margins, shortfalls, k)
    ensures |r| == |margins|
    ensures forall i :: 0 <= i < |r| ==> r[i] == margins[i] + (if i < k then Positive(shortfalls[i]) else 0)
  {
    seq(|margins|, i requires 0 <= i < |margins| => if i < k then margins[i] + Positive(shortfalls[i]) else margins[i])
  }

  /** observe: the action and the state it leaves. An overflow stops half way. */
  function Step(st: State, c: Call): (Action, State) {
    if |c.shortfalls| != |st.margins| then (InvalidShortfall, st)
    else if NonePositive(c.shortfalls) then (Accept, st)
    else if c.identity in st.rejected then (RepeatedCandidate, st)
    else
      var k := FirstOverflow(st.margins, c.shortfalls, 0);
      (if k < |st.margins| then InvalidShortfall else Retry,
       State(st.rejected + {c.identity}, Raised(st.margins, c.shortfalls, k)))
  }

  class FitRetryState {
    var rejectedCandidates: set<string>

    constructor ()
      ensures rejectedCandidates == {}
    {
      rejectedCandidates := {};
    }

    method Observe(identity: string, shortfalls: seq<Int64>, margins: array<Size>) returns (action: Action)
      modifies this, margins
      ensures (action, State(rejectedCandidates, margins[..]))
              == Step(old(State(rejectedCandidates, margins[..])), Call(identity, shortfalls))
    {
      if |shortfalls| != margins.Length { return InvalidShortfall; }
      if NonePositive(shortfalls) { return Accept; }
      if identity in rejectedCandidates { return RepeatedCandidate; }
      rejectedCandidates := rejectedCandidates + {identity};
      ghost var start := margins[..];
      ghost var k := FirstOverflow(start, shortfalls, 0);
      var i := 0;
      while i < margins.Length
        invariant i <= margins.Length && i <= k
        invariant rejectedCandidates == old(rejectedCandidates) + {identity}
        invariant Fits(start, shortfalls, i) && margins[..] == Raised(start, shortfalls, i)
      {
        if shortfalls[i] > 0 {
          if shortfalls[i] > SIZE_MAX - margins[i] {
            assert margins[i] == start[i] && i == k < |start|;
            assert Step(State(old(rejectedCandidates), start), Call(identity, shortfalls)).0 == InvalidShortfall;
            return InvalidShortfall;
          }
          margins[i] := margins[i] + shortfalls[i];
        }
        i := i + 1;
      }
      assert k == |start|;
      return Retry;
    }
  }

  predicate SomePositive(shortfalls: seq<Int64>) {
    exists i :: 0 <= i < |shortfalls| && shortfalls[i] > 0
  }

  /** A margin that would pass the largest size. */
  predicate Overflows(margins: seq<Size>, shortfalls: seq<Int64>)
    requires |margins| == |shortfalls|
  {
    exists i :: 0 <= i < |margins| && shortfalls[i] > 0 && margins[i] + shortfalls[i] > 0xFFFF_FFFF_FFFF_FFFF
  }

  /** Which answer each call gets, and which candidates it leaves rejected. */
  lemma ActionExactlyWhen(st: State, c: Call)
    ensures var (a, st') := Step(st, c);
            var sized := |c.shortfalls| == |st.margins|;
            var known := c.identity in st.rejected;
            && (a == Accept <==> sized && !SomePositive(c.shortfalls))
            && (a == RepeatedCandidate <==> sized && SomePositive(c.shortfalls) && known)
            && (a == Retry <==> sized && SomePositive(c.shortfalls) && !known && !Overflows(st.margins, c.shortfalls))
            && (a == InvalidShortfall <==>
                  !sized || (SomePositive(c.shortfalls) && !known && Overflows(st.margins, c.shortfalls)))
            && st'.rejected == if sized && SomePositive(c.shortfalls) then st.rejected + {c.identity} else st.rejected
  {
    if |c.shortfalls| == |st.margins| {
      assert NonePositive(c.shortfalls) <==> !SomePositive(c.shortfalls);
      var k := FirstOverflow(st.margins, c.shortfalls, 0);
      if k < |st.margins| {
        assert c.shortfalls[k] > 0;
      }
    }
  }

  // ----- whole runs -----

  function Run(st: State, calls: seq<Call>): (seq<Action>, State)
    decreases calls
  {
    if calls == [] then ([], st)
    else
      var (a, st') := Step(st, calls[0]);
      var (rest, end) := Run(st', calls[1..]);
      ([a] + rest, end)
  }

  function Retries(actions: seq<Action>): nat {
    if actions == [] then 0 else (if actions[0] == Retry then 1 else 0) + Retries(actions[1..])
  }

  lemma StepRejects(st: State, c: Call)
    ensures var (a, st') := Step(st, c);
            && st.rejected <= st'.rejected <= st.rejected + {c.identity}
            && (a == Retry ==> |st'.rejected| == |st.rejected| + 1)
  {
  }

  /** With candidates from a finite pool, a run retries at most once for each of them. */
  lemma {:induction false} RetriesBounded(st: State, calls: seq<Call>, pool: set<string>)
    requires st.rejected <= pool && forall i :: 0 <= i < |calls| ==> calls[i].identity in pool
    ensures Retries(Run(st, calls).0) + |st.rejected| <= |pool|
    decreases calls
  {
    hide Step;
    if calls == [] {
      Subset(st.rejected, pool);
    } else {
      var (a, st') := Step(st, calls[0]);
      StepRejects(st, calls[0]);
      RetriesBounded(st', calls[1..], pool);
      Subset(st.rejected, st'.rejected);
      assert Run(st, calls).0[1..] == Run(st', calls[1..]).0;
    }
  }

  lemma Subset<T>(a: set<T>, b: set<T>)
    requires a <= b
    ensures |a| <= |b|
  {
    assert b == a + (b - a);
  }

  /** What the retries of a run have asked of margin i. */
  function Asked(calls: seq<Call>, actions: seq<Action>, i: nat): nat
    requires |calls| == |actions|
    decreases calls
  {
    if calls == [] then 0
    else (if actions[0] == Retry && i < |calls[0].shortfalls| then Positive(calls[0].shortfalls[i]) else 0)
         + Asked(calls[1..], actions[1..], i)
  }

  lemma {:induction false} RunLength(st: State, calls: seq<Call>)
    ensures |Run(st, calls).0| == |calls|
    decreases calls
  {
    if calls != [] { RunLength(Step(st, calls[0]).1, calls[1..]); }
  }

  /**
   What one call adds to margin i: its shortfall there, if the call is neither ill-sized, accepted nor
   repeated and no earlier margin has overflowed.
   */
  function Raise(st: State, c: Call, i: nat): nat
    requires i < |st.margins|
  {
    if |c.shortfalls| != |st.margins| || NonePositive(c.shortfalls) || c.identity in st.rejected then 0
    else if Fits(st.margins, c.shortfalls, i + 1) then Positive(c.shortfalls[i]) else 0
  }

  /** What all calls of a run add to margin i. */
  function Ledger(st: State, calls: seq<Call>, i: nat): nat
    requires i < |st.margins|
    decreases calls
  {
    if calls == [] then 0
    else
      StepLedger(st, calls[0], i);
      Raise(st, calls[0], i) + Ledger(Step(st, calls[0]).1, calls[1..], i)
  }

  lemma StepLedger(st: State, c: Call, i: nat)
    requires i < |st.margins|
    ensures |Step(st, c).1.margins| == |st.margins|
    ensures Step(st, c).1.margins[i] == st.margins[i] + Raise(st, c, i)
    ensures Step(st, c).0 == Retry ==> Raise(st, c, i) == Positive(c.shortfalls[i])
  {
  }

  /**
   Margins never go down and never wrap, whatever the calls, and each one is its start plus what the
   calls have added; as long as no shortfall is rejected as invalid, that is what the retries asked of it.
   */
  lemma {:induction false} MarginsAccount(st: State, calls: seq<Call>, i: nat)
    requires i < |st.margins|
    ensures var (actions, end) := Run(st, calls);
            && |end.margins| == |st.margins| && |actions| == |calls|
            && st.margins[i] <= end.margins[i] <= SIZE_MAX
            && end.margins[i] == st.margins[i] + Ledger(st, calls, i)
            && (InvalidShortfall !in actions ==> end.margins[i] == st.margins[i] + Asked(calls, actions, i))
    decreases calls
  {
    hide Step, Raise;
    if calls != [] {
      var (a, st') := Step(st, calls[0]);
      StepLedger(st, calls[0], i);
      StepRaises(st, calls[0]);
      MarginsAccount(st', calls[1..], i);
      var rest := Run(st', calls[1..]).0;
      assert Run(st, calls).0 == [a] + rest && Run(st, calls).0[1..] == rest;
      if InvalidShortfall !in [a] + rest {
        assert a in [a] + rest;
        assert forall x :: x in rest ==> x in [a] + rest;
      }
    }
  }

  lemma StepRaises(st: State, c: Call)
    ensures Step(st, c).0 in {Accept, RepeatedCandidate} ==> Step(st, c).1 == st
    ensures Step(st, c).0 == Retry ==> |c.shortfalls| == |st.margins|
  {
  }

  /** The same candidate is never retried twice in a row of calls. */
  lemma {:induction false} RejectedStayRejected(st: State, calls: seq<Call>, c: Call)
    requires c.identity in st.rejected
    ensures Step(Run(st, calls).1, c).0 != Retry
    decreases calls
  {
    if calls != [] {
      StepRejects(st, calls[0]);
      RejectedStayRejected(Step(st, calls[0]).1, calls[1..], c);
    }
  }
}
