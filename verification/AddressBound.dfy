/** How long the bound of 25 + T/60 guesses holds for an address: exactly for every span of
    less than 15 minutes and a second. */
module AddressBound {
  import opened Common
  import opened OrderedDicts
  import opened Buckets
  import opened Windows
  import opened Throttle
  import opened ThrottleHistory
  import opened ThrottleBounds

  // ---- sign-ins from one address under changing names ----

  /** Twenty at once, one when its wait is over, silence until they are forgotten, twenty
      more, and then one a minute. */
  function GuessTime(i: nat): int {
    if i < 20 then 0
    else if i == 20 then 1000
    else if i <= 40 then 901_000
    else 902_000 + 60_000 * (i - 41)
  }

  function Numbered(i: nat): nat {
    if i < 41 then i else 41 + i % 16
  }

  /** A name no one has tried, or at least 16 minutes ago: 57 names are enough. */
  function Stranger(i: nat): Key {
    Key(User, Decimal(Numbered(i)))
  }

  function SignIn(key: Key, i: nat): seq<Timed> {
    SignInSteps(Stranger(i), key, GuessTime(i))
  }

  function SignIns(key: Key, n: nat): seq<Timed> {
    if n == 0 then [] else SignIns(key, n - 1) + SignIn(key, n - 1)
  }

  lemma {:induction false} SignInsAt(key: Key, n: nat)
    requires key.kind == Addr
    ensures |SignIns(key, n)| == 4 * n
    ensures forall i :: 0 <= i < 4 * n ==> WellFormed(SignIns(key, n)[i].op) && SignIns(key, n)[i].t == GuessTime(i / 4)
  {
    hide GuessTime, Stranger, Numbered;
    if n > 0 {
      SignInsAt(key, n - 1);
      StrangerIs(n - 1);
    }
  }

  lemma GuessTimeGrows(i: nat, j: nat)
    requires i <= j
    ensures 0 <= GuessTime(i) <= GuessTime(j)
  {}

  lemma SignInsInTime(key: Key, n: nat)
    requires key.kind == Addr
    ensures |SignIns(key, n)| == 4 * n && GoodRun(SignIns(key, n))
    ensures forall i :: 0 <= i < 4 * n ==> 0 <= SignIns(key, n)[i].t <= GuessTime(n - 1)
  {
    SignInsAt(key, n);
    hide GuessTime, SignIns, WellFormed;
    var ops := SignIns(key, n);
    forall i, j | 0 <= i < j < 4 * n ensures ops[i].t <= ops[j].t {
      GuessTimeGrows(i / 4, j / 4);
    }
    forall i | 0 <= i < 4 * n ensures 0 <= ops[i].t <= GuessTime(n - 1) {
      GuessTimeGrows(i / 4, n - 1);
    }
  }

  // ---- runs put together ----

  lemma {:induction false} GuessesAppend(s: State, xs: seq<Timed>, ys: seq<Timed>, key: Key)
    requires (forall i :: 0 <= i < |xs| ==> WellFormed(xs[i].op)) && forall i :: 0 <= i < |ys| ==> WellFormed(ys[i].op)
    ensures Guesses(s, xs + ys, key) == Guesses(s, xs, key) + Guesses(Run(s, xs), ys, key)
    ensures LetThrough(s, xs + ys, EveryCheck) == LetThrough(s, xs, EveryCheck) + LetThrough(Run(s, xs), ys, EveryCheck)
  {
    hide After, WellFormed, CountsKey, Asks;
    if ys == [] {
      assert xs + ys == xs;
    } else {
      var n := |ys| - 1;
      assert (xs + ys)[..|xs| + n] == xs + ys[..n];
      GuessesAppend(s, xs, ys[..n], key);
      RunAppend(s, xs, ys[..n]);
    }
  }

  lemma {:induction false} KeptAppend(s: State, xs: seq<Timed>, ys: seq<Timed>, key: Key)
    requires (forall i :: 0 <= i < |xs| ==> WellFormed(xs[i].op)) && forall i :: 0 <= i < |ys| ==> WellFormed(ys[i].op)
    requires KeptThrough(s, xs, key) && KeptThrough(Run(s, xs), ys, key)
    ensures KeptThrough(s, xs + ys, key)
  {
    hide WellFormed, KeptBy, Run;
    forall i | 0 <= i < |xs + ys|
      ensures KeptBy(Run(s, (xs + ys)[..i]), (xs + ys)[i].op, (xs + ys)[i].t, key)
    {
      if i < |xs| {
        assert (xs + ys)[..i] == xs[..i];
      } else {
        assert (xs + ys)[..i] == xs + ys[..i - |xs|];
        RunAppend(s, xs, ys[..i - |xs|]);
      }
    }
  }

  lemma OneStep(s: State, op: Op, t: int, key: Key)
    requires WellFormed(op)
    ensures var one := [Timed(op, t)];
      && Run(s, one) == After(s, op, t).state
      && Guesses(s, one, key) == (if op.Attempt? && CountsKey(s, op, t, key) then 1 else 0)
      && |LetThrough(s, one, EveryCheck)| == (if op == CheckGlobal && After(s, op, t).wait == 0 then 1 else 0)
      && (KeptThrough(s, one, key) <==> KeptBy(s, op, t, key))
  {
    hide After, CountsKey, KeptBy;
    assert [Timed(op, t)][..0] == [];
    assert Run(s, []) == s;
  }

  // ---- the state after so many ----

  /** The address's bucket after so many sign-ins. */
  function BucketOf(n: nat): Option<Entry> {
    if n == 0 then None else Some(Entry(if n <= 21 then n else n - 21, GuessTime(n - 1)))
  }

  ghost predicate Tried(s: State, key: Key, n: nat) {
    && AllUnique(s)
    && (s.flagSeen.None? || s.flagSeen == Some(Absent))
    && BucketAt(s, key) == BucketOf(n)
    && (forall j: nat :: n <= j ==> Live(BucketAt(s, Stranger(j)), GuessTime(j)) == None)
    && |s.checks| <= n && |s.checks| <= 42
    && (forall i :: 0 <= i < |s.checks| ==> s.checks[i] <= GuessTime(n - 1))
  }

  /** Each sign-in comes when the bucket lets it through. */
  lemma BucketGoesOn(n: nat)
    ensures Wait(Addr, BucketOf(n), GuessTime(n)) == 0
    ensures BucketOf(n + 1) == Some(Counted(BucketOf(n), GuessTime(n)))
  {
    if n >= 41 {
      BackoffCurve(n - 41);
    } else if n == 20 {
      BackoffCurve(0);
    }
  }

  /** A name comes back after it was forgotten. */
  lemma StrangersDiffer(i: nat, j: nat)
    requires i < j
    ensures Stranger(i) == Stranger(j) ==> GuessTime(j) - GuessTime(i) >= WINDOW
  {
    hide Decimal;
    if Stranger(i) == Stranger(j) {
      DecimalInjective(Numbered(i), Numbered(j));
      if i >= 41 {
        Sixteen(i, j);
      }
    }
  }

  lemma Sixteen(i: nat, j: nat)
    requires i < j && i % 16 == j % 16
    ensures j >= i + 16
  {
    assert (j - i) % 16 == 0;
  }

  lemma LookKeeps(s: State, key: Key, n: nat, t: int)
    requires Tried(s, key, n)
    ensures var after := AfterLook(s, Absent).state;
      after == s.(flagSeen := Some(Absent)) && Tried(after, key, n)
  {}

  lemma LookKept(s: State, t: int, key: Key)
    ensures KeptBy(s, LookAtFlag(Absent, User), t, key)
  {}

  lemma NewestKept(table: Table, u: Key, key: Key, t: int)
    requires Unique(table)
    ensures Lookup(Trim(CountAll(table, [u, key], t)), key).Some?
  {
    assert [u, key][..1] == [u] && [u][..0] == [];
    var once := CountAll(table, [u], t);
    CountAllUnique(table, [u], t);
    CountUnique(once, key, t);
    assert CountAll(table, [u, key], t) == Count(once, key, t);
    TrimKeepsLast(Count(once, key, t));
  }

  lemma CountedOnce(b: Option<Entry>, u: Key, key: Key, t: int)
    requires u != key
    ensures CountedTimes(b, [u, key], key, t) == Some(Counted(b, t))
  {
    assert [u, key][..1] == [u] && [u][..0] == [];
    assert CountedTimes(b, [], key, t) == b;
    assert CountedTimes(b, [u], key, t) == b;
  }

  /** The attempt is let through and counted, and the other names stay unknown. */
  lemma AttemptGoesOn(s: State, key: Key, n: nat)
    requires key.kind == Addr && Tried(s, key, n)
    ensures var op, t := Attempt([Stranger(n), key]), GuessTime(n);
      var after := After(s, op, t).state;
      && CountsKey(s, op, t, key) && KeptBy(s, op, t, key)
      && AllUnique(after) && after.checks == s.checks && after.flagSeen == s.flagSeen
      && BucketAt(after, key) == BucketOf(n + 1)
      && forall j: nat :: n + 1 <= j ==> Live(BucketAt(after, Stranger(j)), GuessTime(j)) == None
  {
    hide Lookup, Wait, Counted, BucketOf, GuessTime, ForgetAll, CountAll, Trim, Longest, AllUnique, Stranger;
    var op, t, u := Attempt([Stranger(n), key]), GuessTime(n), Stranger(n);
    StrangerIs(n);
    BucketGoesOn(n);
    UnknownWaits(BucketAt(s, u), t);
    BothOpen(s, u, key, t);
    ForgottenUnique(s, [u, key], t);
    NewestKept(ForgetAll(s.main, [u, key], t), u, key, t);
    AfterUnique(s, op, t);
    CountedBucket(s, op, t, key);
    var b :| Live(b, t) == Live(BucketAt(s, key), t)
      && BucketAt(After(s, op, t).state, key) == CountedTimes(b, op.buckets, key, t);
    CountedOnce(b, u, key, t);
    CountedLive(b, BucketAt(s, key), t);
    forall j: nat | n + 1 <= j
      ensures Live(BucketAt(After(s, op, t).state, Stranger(j)), GuessTime(j)) == None
    {
      StrangerGoesOn(s, key, n, j);
    }
  }

  /** A later name is as unknown, or as long forgotten, as before. */
  lemma StrangerGoesOn(s: State, key: Key, n: nat, j: nat)
    requires key.kind == Addr && AllUnique(s) && n < j && Live(BucketAt(s, Stranger(j)), GuessTime(j)) == None
    ensures var after := After(s, Attempt([Stranger(n), key]), GuessTime(n)).state;
      Live(BucketAt(after, Stranger(j)), GuessTime(j)) == None
  {
    hide Lookup, After, Stranger, AllUnique, GuessTime;
    var op, t, u := Attempt([Stranger(n), key]), GuessTime(n), Stranger(j);
    StrangerIs(n);
    StrangerIs(j);
    var left := BucketAt(After(s, op, t).state, u);
    StrangersDiffer(n, j);
    if left.Some? {
      if CountsKey(s, op, t, u) {
        CountedBucket(s, op, t, u);
        var b :| left == CountedTimes(b, op.buckets, u, t);
        CountedNow(b, Stranger(n), key, t);
      } else {
        UncountedBucket(s, op, t, u);
      }
    }
  }

  lemma CountedNow(b: Option<Entry>, u: Key, key: Key, t: int)
    requires u != key
    ensures CountedTimes(b, [u, key], u, t) == Some(Counted(b, t)) && Counted(b, t).last == t
  {
    assert [u, key][..1] == [u] && [u][..0] == [];
    assert CountedTimes(b, [], u, t) == b;
  }

  lemma StrangerIs(i: nat)
    ensures Stranger(i).kind == User
  {}

  lemma UnknownWaits(b: Option<Entry>, t: int)
    requires Live(b, t) == None
    ensures Wait(User, b, t) == 0
  {}

  lemma {:induction false} ForgottenUnique(s: State, buckets: seq<Key>, t: int)
    requires AllUnique(s)
    ensures Unique(ForgetAll(s.main, buckets, t))
  {
    ForgetAllKeeps(s.main, buckets, t, Key(User, ""));
  }

  lemma CountedLive(a: Option<Entry>, b: Option<Entry>, t: int)
    requires Live(a, t) == Live(b, t)
    ensures Counted(a, t) == Counted(b, t)
  {}

  lemma {:induction false} AllOld(queue: seq<int>, t: int)
    requires forall i :: 0 <= i < |queue| ==> t - queue[i] >= MINUTE
    ensures Expire(queue, t, MINUTE) == []
    decreases |queue|
  {
    if queue != [] {
      AllOld(queue[1..], t);
    }
  }

  lemma {:induction false} ExpireAmong(queue: seq<int>, t: int, now: int)
    requires forall i :: 0 <= i < |queue| ==> queue[i] <= now
    ensures |Expire(queue, t, MINUTE)| <= |queue|
    ensures forall i :: 0 <= i < |Expire(queue, t, MINUTE)| ==> Expire(queue, t, MINUTE)[i] <= now
    decreases |queue|
  {
    if queue != [] && t - queue[0] >= MINUTE {
      ExpireAmong(queue[1..], t, now);
    }
  }

  /** The global check lets it through too. */
  lemma CheckGoesOn(s: State, key: Key, n: nat)
    requires key.kind == Addr && AllUnique(s) && s.flagSeen == Some(Absent)
    requires BucketAt(s, key) == BucketOf(n + 1)
    requires forall j: nat :: n + 1 <= j ==> Live(BucketAt(s, Stranger(j)), GuessTime(j)) == None
    requires |s.checks| <= n && |s.checks| <= 42
    requires forall i :: 0 <= i < |s.checks| ==> s.checks[i] <= GuessTime(n - 1)
    ensures var t := GuessTime(n);
      && AfterCheck(s, t).wait == 0 && Tried(AfterCheck(s, t).state, key, n + 1)
      && KeptBy(s, CheckGlobal, t, key)
  {
    hide Lookup, BucketOf, Stranger;
    var t := GuessTime(n);
    if |s.checks| > 0 {
      assert GuessTime(n - 1) <= t;
      ExpireAmong(s.checks, t, t);
      if n >= 42 {
        AllOld(s.checks, t);
      }
    }
  }

  /** One more sign-in. */
  lemma SignInGoesOn(s: State, key: Key, n: nat)
    requires key.kind == Addr && Tried(s, key, n)
    ensures var ops := SignIn(key, n);
      && (forall i :: 0 <= i < |ops| ==> WellFormed(ops[i].op))
      && Tried(Run(s, ops), key, n + 1) && KeptThrough(s, ops, key)
      && Guesses(s, ops, key) == 1 && |LetThrough(s, ops, EveryCheck)| == 1
  {
    hide Tried, After, CountsKey, KeptBy, KeptThrough, Guesses, LetThrough, Run, Stranger, GuessTime, AllUnique,
      BucketAt, BucketOf;
    var t := GuessTime(n);
    var look, attempt := LookAtFlag(Absent, User), Attempt([Stranger(n), key]);
    StrangerIs(n);
    AfterEach(s, attempt, t);
    var s1 := AfterLook(s, Absent).state;
    var s2 := After(s1, attempt, t).state;
    var s3 := AfterLook(s2, Absent).state;
    LookKeeps(s, key, n, t);
    LookKept(s, t, key);
    LookKept(s2, t, key);
    AttemptGoesOn(s1, key, n);
    TriedChecks(s1, key, n);
    AfterEach(s2, attempt, t);
    LookSame(s2);
    CheckGoesOn(s3, key, n);
    AfterEach(s3, attempt, t);
    OneStep(s, look, t, key);
    OneStep(s1, attempt, t, key);
    OneStep(s2, look, t, key);
    OneStep(s3, CheckGlobal, t, key);
    var a, b, c, d := [Timed(look, t)], [Timed(attempt, t)], [Timed(look, t)], [Timed(CheckGlobal, t)];
    assert SignIn(key, n) == a + b + c + d;
    TwoRuns(s, a, b, key);
    TwoRuns(s, a + b, c, key);
    TwoRuns(s, a + b + c, d, key);
  }

  lemma AfterEach(s: State, attempt: Op, t: int)
    requires attempt.Attempt? && WellFormed(attempt)
    ensures WellFormed(LookAtFlag(Absent, User)) && WellFormed(CheckGlobal)
    ensures After(s, LookAtFlag(Absent, User), t) == AfterLook(s, Absent)
      && After(s, CheckGlobal, t) == AfterCheck(s, t)
  {
    hide AfterLook, AfterCheck;
  }

  lemma TriedChecks(s: State, key: Key, n: nat)
    requires Tried(s, key, n)
    ensures |s.checks| <= n && |s.checks| <= 42 && forall i :: 0 <= i < |s.checks| ==> s.checks[i] <= GuessTime(n - 1)
    ensures s.flagSeen.None? || s.flagSeen == Some(Absent)
  {}

  lemma LookSame(s: State)
    ensures AfterLook(s, Absent).state == s.(flagSeen := Some(Absent))
    ensures AllUnique(s) ==> AllUnique(AfterLook(s, Absent).state)
    ensures forall key :: BucketAt(AfterLook(s, Absent).state, key) == BucketAt(s, key)
  {}

  lemma {:induction false} TwoRuns(s: State, xs: seq<Timed>, ys: seq<Timed>, key: Key)
    requires (forall i :: 0 <= i < |xs| ==> WellFormed(xs[i].op)) && forall i :: 0 <= i < |ys| ==> WellFormed(ys[i].op)
    requires KeptThrough(s, xs, key) && KeptThrough(Run(s, xs), ys, key)
    ensures Run(s, xs + ys) == Run(Run(s, xs), ys) && KeptThrough(s, xs + ys, key)
    ensures Guesses(s, xs + ys, key) == Guesses(s, xs, key) + Guesses(Run(s, xs), ys, key)
    ensures |LetThrough(s, xs + ys, EveryCheck)| ==
      |LetThrough(s, xs, EveryCheck)| + |LetThrough(Run(s, xs), ys, EveryCheck)|
  {
    hide WellFormed, KeptThrough, Guesses, LetThrough, Run;
    RunAppend(s, xs, ys);
    KeptAppend(s, xs, ys, key);
    GuessesAppend(s, xs, ys, key);
  }

  lemma {:induction false} SignInsGoOn(key: Key, n: nat)
    requires key.kind == Addr
    ensures var ops := SignIns(key, n);
      && (forall i :: 0 <= i < |ops| ==> WellFormed(ops[i].op))
      && Tried(Run(EMPTY, ops), key, n) && KeptThrough(EMPTY, ops, key)
      && Guesses(EMPTY, ops, key) == n && |LetThrough(EMPTY, ops, EveryCheck)| == n
  {
    hide Tried, WellFormed, KeptThrough, Guesses, LetThrough, Run, SignIn, EMPTY;
    if n == 0 {
      NoneTried(key);
      NothingRun(key);
    } else {
      SignInsGoOn(key, n - 1);
      SignInGoesOn(Run(EMPTY, SignIns(key, n - 1)), key, n - 1);
      TwoRuns(EMPTY, SignIns(key, n - 1), SignIn(key, n - 1), key);
    }
  }

  lemma NothingRun(key: Key)
    ensures Run(EMPTY, []) == EMPTY && KeptThrough(EMPTY, [], key)
    ensures Guesses(EMPTY, [], key) == 0 && LetThrough(EMPTY, [], EveryCheck) == []
  {}

  lemma NoneTried(key: Key)
    ensures Tried(EMPTY, key, 0)
  {
    EmptyLookup(key);
    forall j: nat ensures BucketAt(EMPTY, Stranger(j)) == None { EmptyLookup(Stranger(j)); }
  }

  // ---- the exact span ----

  /** The most sign-ins of the run that come within the span. */
  function SignInsWithin(span: nat): nat {
    if span < 902_000 then 41 else 42 + (span - 902_000) / 60_000
  }

  /** In any span of 901 seconds or more: sign-ins under changing names, each let through by
      its buckets and by the global check, are more than 25 + T/60. */
  lemma {:induction false} SignInsExceed(key: Key, span: nat)
    requires key.kind == Addr && span >= SHORT
    ensures var ops := SignIns(key, SignInsWithin(span));
      && Measured(EMPTY, ops, key, 0, span)
      && |LetThrough(EMPTY, ops, EveryCheck)| == Guesses(EMPTY, ops, key) == SignInsWithin(span)
      && !Bounded(Free(Addr), 60_000, 0, span, Guesses(EMPTY, ops, key))
  {
    hide KeptThrough, Run, Guesses, LetThrough, SignIns;
    var n := SignInsWithin(span);
    SignInsGoOn(key, n);
    SignInsInTime(key, n);
    EmptyLookup(key);
    LastInSpan(span);
  }

  lemma LastInSpan(span: nat)
    requires span >= SHORT
    ensures var n := SignInsWithin(span);
      n > 0 && GuessTime(n - 1) <= span && 60_000 * n > span + 60_000 * 25
  {}

  ghost predicate BoundHolds(span: nat) {
    forall s, ops, key, start, end :: Measured(s, ops, key, start, end) && key.kind == Addr && end - start == span ==>
      Bounded(Free(Addr), 60_000, start, end, Guesses(s, ops, key))
  }

  /** 25 + T/60 holds for every address and every span of T exactly when T is under 901 seconds. */
  lemma {:induction false} AddressBoundExactly(span: nat)
    ensures BoundHolds(span) <==> span < 901_000
  {
    hide Guesses, Bounded, KeptThrough, SignIns, AllUnique;
    if span < SHORT {
      forall s, ops, key, start, end | Measured(s, ops, key, start, end) && key.kind == Addr && end - start == span
        ensures Bounded(Free(Addr), 60_000, start, end, Guesses(s, ops, key))
      {
        ShortSpanGuesses(s, ops, key, start, end);
      }
    } else {
      SignInsExceed(Key(Addr, ""), span);
    }
  }
}
