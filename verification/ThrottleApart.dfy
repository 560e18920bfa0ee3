/** Whether share and single sign-on calls change what a sign-in is answered: their maps
    are apart, but `wait` looks at the reset flag for them too (throttle.py, lines 69-84,
    123-129 and 277-287). */
module ThrottleApart {
  import opened Common
  import opened OrderedDicts
  import opened Buckets
  import opened Windows
  import opened Throttle
  import opened ThrottleHistory

  /** A step of a share or single sign-on call. */
  predicate Elsewhere(op: Op) {
    match op
    case AddressFailure(_) => true
    case Waiting(key) => Apart(key.kind)
    case Fail(key) => Apart(key.kind)
    case Succeed(key) => Apart(key.kind)
    case LookAtFlag(_, caller) => Apart(caller)
    case _ => false
  }

  /** The run without those steps. */
  function SignInOnly(ops: seq<Timed>): (kept: seq<Timed>)
    ensures (forall i :: 0 <= i < |ops| ==> WellFormed(ops[i].op)) ==>
      forall i :: 0 <= i < |kept| ==> WellFormed(kept[i].op)
  {
    if ops == [] then []
    else
      var n := |ops| - 1;
      if Elsewhere(ops[n].op) then SignInOnly(ops[..n]) else SignInOnly(ops[..n]) + [ops[n]]
  }

  /** Everything a sign-in's answer depends on. */
  ghost predicate SameSignIn(a: State, b: State) {
    a.main == b.main && a.checks == b.checks && a.flagSeen == b.flagSeen
  }

  /** The look a share or single sign-on call opens with. */
  predicate LooksElsewhere(op: Op) {
    op.LookAtFlag? && Apart(op.caller)
  }

  lemma ElsewhereStep(s: State, op: Op, t: int)
    requires WellFormed(op) && Elsewhere(op) && !LooksElsewhere(op)
    ensures SameSignIn(After(s, op, t).state, s)
  {}

  /** A look leaves the sign-in part alone exactly when it finds the flag as last noted. */
  lemma {:induction false} LookExactly(s: State, flag: Flag)
    ensures SameSignIn(AfterLook(s, flag).state, s) <==> s.flagSeen == Some(flag)
  {}

  lemma SignInStep(a: State, b: State, op: Op, t: int)
    requires WellFormed(op) && !Elsewhere(op) && SameSignIn(a, b)
    ensures SameSignIn(After(a, op, t).state, After(b, op, t).state)
    ensures After(a, op, t).wait == After(b, op, t).wait
  {
    hide Forget, ForgetAll, CountAll, Trim, Longest, Count, WaitOf, Expire, Without;
  }

  // ---- the state ----

  ghost predicate NotedAt(s: State, ops: seq<Timed>, i: nat)
    requires i < |ops| && forall i :: 0 <= i < |ops| ==> WellFormed(ops[i].op)
  {
    LooksElsewhere(ops[i].op) ==> Run(s, ops[..i]).flagSeen == Some(ops[i].op.flag)
  }

  /** Every look of a share or single sign-on call finds the flag as last noted. */
  ghost predicate Noted(s: State, ops: seq<Timed>)
    requires forall i :: 0 <= i < |ops| ==> WellFormed(ops[i].op)
  {
    forall i :: 0 <= i < |ops| ==> NotedAt(s, ops, i)
  }

  lemma {:induction false} PrefixNoted(s: State, ops: seq<Timed>, n: nat)
    requires n <= |ops| && forall i :: 0 <= i < |ops| ==> WellFormed(ops[i].op)
    requires forall i :: 0 <= i < n ==> NotedAt(s, ops, i)
    ensures Noted(s, ops[..n])
  {
    forall i | 0 <= i < n ensures NotedAt(s, ops[..n], i) {
      assert NotedAt(s, ops, i);
      assert ops[..n][..i] == ops[..i];
    }
  }

  lemma {:induction false} NotedStaysApart(s: State, ops: seq<Timed>)
    requires (forall i :: 0 <= i < |ops| ==> WellFormed(ops[i].op)) && Noted(s, ops)
    ensures SameSignIn(Run(s, ops), Run(s, SignInOnly(ops)))
  {
    hide After, WellFormed, SameSignIn, NotedAt;
    if ops == [] {
      StaySame(s);
    } else {
      var n := |ops| - 1;
      PrefixNoted(s, ops, n);
      NotedStaysApart(s, ops[..n]);
      var kept := SignInOnly(ops[..n]);
      var a, b := Run(s, ops[..n]), Run(s, kept);
      assert (kept + [ops[n]])[..|kept|] == kept;
      if Elsewhere(ops[n].op) {
        NotedStep(s, ops);
        SameThrough(After(a, ops[n].op, ops[n].t).state, a, b);
      } else {
        SignInStep(a, b, ops[n].op, ops[n].t);
      }
    }
  }

  lemma {:induction false} NotedStep(s: State, ops: seq<Timed>)
    requires ops != [] && forall i :: 0 <= i < |ops| ==> WellFormed(ops[i].op)
    requires NotedAt(s, ops, |ops| - 1) && Elsewhere(ops[|ops| - 1].op)
    ensures SameSignIn(Run(s, ops), Run(s, ops[..|ops| - 1]))
  {
    var before, op := Run(s, ops[..|ops| - 1]), ops[|ops| - 1].op;
    if LooksElsewhere(op) {
      LookExactly(before, op.flag);
    } else {
      ElsewhereStep(before, op, ops[|ops| - 1].t);
    }
  }

  lemma StaySame(a: State)
    ensures SameSignIn(a, a)
  {}

  lemma SameThrough(a: State, b: State, c: State)
    requires SameSignIn(a, b) && SameSignIn(b, c)
    ensures SameSignIn(a, c)
  {}

  /** At every moment of the run the sign-in part is as if those calls had not been. */
  ghost predicate ApartThroughout(s: State, ops: seq<Timed>)
    requires forall i :: 0 <= i < |ops| ==> WellFormed(ops[i].op)
  {
    forall k :: 0 <= k <= |ops| ==> SameSignIn(Run(s, ops[..k]), Run(s, SignInOnly(ops[..k])))
  }

  /** It is so exactly when every look of theirs finds the flag as last noted. */
  lemma {:induction false} FloodsStayApartExactly(s: State, ops: seq<Timed>)
    requires forall i :: 0 <= i < |ops| ==> WellFormed(ops[i].op)
    ensures Noted(s, ops) <==> ApartThroughout(s, ops)
  {
    hide SignInOnly;
    if Noted(s, ops) {
      forall k | 0 <= k <= |ops| ensures SameSignIn(Run(s, ops[..k]), Run(s, SignInOnly(ops[..k]))) {
        PrefixNoted(s, ops, k);
        NotedStaysApart(s, ops[..k]);
      }
    }
    if ApartThroughout(s, ops) {
      forall i | 0 <= i < |ops| ensures NotedAt(s, ops, i) {
        AfterLookRun(s, ops, i);
        assert SameSignIn(Run(s, ops[..i]), Run(s, SignInOnly(ops[..i])));
        assert SameSignIn(Run(s, ops[..i + 1]), Run(s, SignInOnly(ops[..i + 1])));
      }
    }
  }

  /** What a look elsewhere does to the run, and that the other run does not have it. */
  lemma {:induction false} AfterLookRun(s: State, ops: seq<Timed>, i: nat)
    requires i < |ops| && forall i :: 0 <= i < |ops| ==> WellFormed(ops[i].op)
    ensures LooksElsewhere(ops[i].op) ==>
      && Run(s, ops[..i + 1]) == AfterLook(Run(s, ops[..i]), ops[i].op.flag).state
      && SignInOnly(ops[..i + 1]) == SignInOnly(ops[..i])
  {
    assert ops[..i + 1][..i] == ops[..i];
  }

  // ---- the answers ----

  /** Sign-in steps that could come next. */
  ghost predicate Follows(ops: seq<Timed>, now: int) {
    && GoodRun(ops)
    && (forall i :: 0 <= i < |ops| ==> now <= ops[i].t && !Elsewhere(ops[i].op))
  }

  /** Whatever sign-in steps come next, each is answered alike. */
  ghost predicate AnswersAlike(a: State, b: State, now: int) {
    forall next: seq<Timed> :: next != [] && Follows(next, now) ==> LastAnswer(a, next) == LastAnswer(b, next)
  }

  function LastAnswer(s: State, ops: seq<Timed>): int
    requires ops != [] && forall i :: 0 <= i < |ops| ==> WellFormed(ops[i].op)
  {
    After(Run(s, ops[..|ops| - 1]), ops[|ops| - 1].op, ops[|ops| - 1].t).wait
  }

  lemma {:induction false} SameRuns(a: State, b: State, ops: seq<Timed>, now: int)
    requires SameSignIn(a, b) && Follows(ops, now)
    ensures SameSignIn(Run(a, ops), Run(b, ops))
  {
    hide After, WellFormed, SameSignIn, Elsewhere;
    if ops != [] {
      var n := |ops| - 1;
      SameRuns(a, b, ops[..n], now);
      SignInStep(Run(a, ops[..n]), Run(b, ops[..n]), ops[n].op, ops[n].t);
    }
  }

  lemma SameAnswersAlike(a: State, b: State, now: int)
    requires SameSignIn(a, b)
    ensures AnswersAlike(a, b, now)
  {
    hide SameSignIn, After;
    forall next: seq<Timed> | next != [] && Follows(next, now)
      ensures LastAnswer(a, next) == LastAnswer(b, next)
    {
      var n := |next| - 1;
      SameRuns(a, b, next[..n], now);
      SignInStep(Run(a, next[..n]), Run(b, next[..n]), next[n].op, next[n].t);
    }
  }

  /** n failures of a bucket, one after the other. */
  function FailTimes(key: Key, t: int, n: nat): (ops: seq<Timed>)
    ensures |ops| == n
  {
    seq(n, _ => Timed(Fail(key), t))
  }

  /** The bucket that fails is the newest of its map. */
  lemma FailCounts(s: State, key: Key, t: int)
    requires AllUnique(s) && !Apart(key.kind)
    ensures var after := AfterFail(s, key, t).state;
      && AllUnique(after) && after.flagSeen == s.flagSeen
      && Lookup(after.main, key) == Some(Counted(Lookup(s.main, key), t))
  {
    AfterUnique(s, Fail(key), t);
    CountUnique(s.main, key, t);
    TrimKeepsLast(Count(s.main, key, t));
  }

  ghost predicate Piled(b: Option<Entry>, n: nat, t: int) {
    b.Some? && b.value.failures >= n && b.value.last == t
  }

  lemma {:induction false} FailuresPile(s: State, key: Key, t: int, n: nat)
    requires AllUnique(s) && !Apart(key.kind)
    ensures var after := Run(s, FailTimes(key, t, n));
      && AllUnique(after) && after.flagSeen == s.flagSeen
      && (n > 0 ==> Piled(Lookup(after.main, key), n, t))
  {
    hide Lookup, AllUnique;
    if n > 0 {
      assert FailTimes(key, t, n)[..n - 1] == FailTimes(key, t, n - 1);
      FailuresPile(s, key, t, n - 1);
      FailCounts(Run(s, FailTimes(key, t, n - 1)), key, t);
    }
  }

  /** A look that clears one of two states and not the other. */
  function Telling(flag: Flag, seen: Option<Flag>): Flag {
    match flag
    case Absent => if seen.Some? then seen.value else There(0)
    case There(mtime) => if seen.Some? then flag else There(mtime + 1)
  }

  const STRANGER := Key(User, "")

  function Probe(t: int, flag: Flag): (ops: seq<Timed>)
    ensures forall i :: 0 <= i < |ops| ==> WellFormed(ops[i].op)
  {
    FailTimes(STRANGER, t, 5) + [Timed(LookAtFlag(flag, User), t), Timed(Attempt([STRANGER]), t)]
  }

  lemma ProbeRuns(s: State, t: int, flag: Flag)
    ensures var ops := Probe(t, flag);
      && ops != [] && Follows(ops, t)
      && LastAnswer(s, ops) == AfterAttempt(AfterLook(Run(s, FailTimes(STRANGER, t, 5)), flag).state, [STRANGER],
        t).wait
  {
    hide AfterAttempt, AfterLook, AfterFail;
    var five, ops := FailTimes(STRANGER, t, 5), Probe(t, flag);
    assert ops[..6][..5] == five && ops[..|ops| - 1] == ops[..6];
  }

  lemma OneBucketWaits(s: State, key: Key, t: int)
    ensures AfterAttempt(s, [key], t).wait == WaitOf(s.main, key, t)
  {
    hide ForgetAll, CountAll, Trim;
    assert [key][..0] == [];
    assert Longest(s.main, [], t) == 0;
  }

  /** Five failures, a look, an attempt: let through exactly when the look cleared them. */
  lemma ProbeAnswers(s: State, t: int, flag: Flag)
    requires AllUnique(s)
    ensures Follows(Probe(t, flag), t) && Probe(t, flag) != []
    ensures LastAnswer(s, Probe(t, flag)) == 0 <==> Resets(s, flag)
  {
    var before := Run(s, FailTimes(STRANGER, t, 5));
    FailuresPile(s, STRANGER, t, 5);
    ProbeRuns(s, t, flag);
    hide Run, LastAnswer, Probe, Follows, AllUnique, AfterAttempt, Lookup;
    OneBucketWaits(AfterLook(before, flag).state, STRANGER, t);
    PiledWaits(Lookup(before.main, STRANGER), t);
    EmptyLookup(STRANGER);
  }

  lemma PiledWaits(b: Option<Entry>, t: int)
    requires Piled(b, 5, t)
    ensures Wait(User, b, t) > 0
  {
    BackoffPositive(b.value.failures - 5);
  }

  lemma BackoffPositive(n: nat)
    ensures Backoff(n) > 0
  {}

  /** Two states that noted the flag differently are told apart by some sign-in. */
  lemma FlagTells(a: State, b: State, flag: Flag, now: int)
    requires AllUnique(a) && AllUnique(b) && a.flagSeen == Some(flag) && b.flagSeen != Some(flag)
    ensures !AnswersAlike(a, b, now)
  {
    hide LastAnswer, Follows;
    var telling := Telling(flag, b.flagSeen);
    ProbeAnswers(a, now, telling);
    ProbeAnswers(b, now, telling);
    assert LastAnswer(a, Probe(now, telling)) != LastAnswer(b, Probe(now, telling));
  }

  /** At every moment of the run a sign-in is answered as if those calls had not been. */
  ghost predicate AnsweredApart(s: State, ops: seq<Timed>, now: int)
    requires forall i :: 0 <= i < |ops| ==> WellFormed(ops[i].op)
  {
    forall k :: 0 <= k <= |ops| ==> AnswersAlike(Run(s, ops[..k]), Run(s, SignInOnly(ops[..k])), now)
  }

  /** That too is so exactly when every look of theirs finds the flag as last noted. */
  lemma {:induction false} SignInAnswersUnchangedExactly(s: State, ops: seq<Timed>, now: int)
    requires AllUnique(s) && forall i :: 0 <= i < |ops| ==> WellFormed(ops[i].op)
    ensures Noted(s, ops) <==> AnsweredApart(s, ops, now)
  {
    hide SignInOnly, AnswersAlike, SameSignIn, AllUnique, Run, NotedAt;
    if Noted(s, ops) {
      FloodsStayApartExactly(s, ops);
      forall k | 0 <= k <= |ops| ensures AnswersAlike(Run(s, ops[..k]), Run(s, SignInOnly(ops[..k])), now) {
        SameAnswersAlike(Run(s, ops[..k]), Run(s, SignInOnly(ops[..k])), now);
      }
    } else {
      var i := FirstUnnoted(s, ops, 0);
      UnnotedTells(s, ops, i, now);
    }
  }

  lemma {:induction false} FirstUnnoted(s: State, ops: seq<Timed>, from: nat) returns (i: nat)
    requires (forall i :: 0 <= i < |ops| ==> WellFormed(ops[i].op)) && !Noted(s, ops) && from <= |ops|
    requires forall j :: 0 <= j < from ==> NotedAt(s, ops, j)
    ensures i < |ops| && !NotedAt(s, ops, i) && forall j :: 0 <= j < i ==> NotedAt(s, ops, j)
    decreases |ops| - from
  {
    hide NotedAt;
    i := from;
    if NotedAt(s, ops, from) {
      i := FirstUnnoted(s, ops, from + 1);
    }
  }

  lemma {:induction false} UnnotedTells(s: State, ops: seq<Timed>, i: nat, now: int)
    requires AllUnique(s) && (forall i :: 0 <= i < |ops| ==> WellFormed(ops[i].op))
    requires i < |ops| && !NotedAt(s, ops, i) && forall j :: 0 <= j < i ==> NotedAt(s, ops, j)
    ensures !AnswersAlike(Run(s, ops[..i + 1]), Run(s, SignInOnly(ops[..i + 1])), now)
  {
    hide AnswersAlike, Run, SignInOnly, AllUnique;
    PrefixNoted(s, ops, i);
    NotedStaysApart(s, ops[..i]);
    AfterLookRun(s, ops, i);
    RunUnique(s, ops[..i + 1]);
    RunUnique(s, SignInOnly(ops[..i]));
    FlagTells(Run(s, ops[..i + 1]), Run(s, SignInOnly(ops[..i + 1])), ops[i].op.flag, now);
  }

  // ---- a callback that costs a wait ----

  /** A single sign-on callback from an address with nothing against it. */
  function Callback(address: Key, t: int): seq<Timed> {
    [Timed(LookAtFlag(Absent, Oidc), t), Timed(Waiting(address), t)]
  }

  /** The sign-in map once both have failed n times. */
  function Both(user: Key, address: Key, t: int, n: nat): Table {
    if n == 0 then [] else [(user, Entry(n, t)), (address, Entry(n, t))]
  }

  lemma {:induction false} WrongPasswordsCount(s: State, user: Key, address: Key, t: int, n: nat)
    requires user.kind == User && address.kind == Addr && s.main == []
    ensures Run(s, WrongPasswords(user, address, t, n)) == s.(main := Both(user, address, t, n))
  {
    hide AfterFail, Run, Both;
    if n == 0 {
      NoneRun(s, user, address, t);
    } else {
      var before := WrongPasswords(user, address, t, n - 1);
      WrongPasswordsCount(s, user, address, t, n - 1);
      RunTwo(s, before, user, address, t);
      TwoFail(Run(s, before), user, address, t, n);
    }
  }

  lemma NoneRun(s: State, user: Key, address: Key, t: int)
    requires s.main == []
    ensures Run(s, []) == s.(main := Both(user, address, t, 0))
  {}

  lemma TwoFail(s: State, user: Key, address: Key, t: int, n: nat)
    requires user.kind == User && address.kind == Addr && n > 0 && s.main == Both(user, address, t, n - 1)
    ensures AfterFail(AfterFail(s, user, t).state, address, t).state == s.(main := Both(user, address, t, n))
  {
    EmptyLookup(user);
    var once := AfterFail(s, user, t).state.main;
    assert once == if n == 1 then [(user, Entry(1, t))] else [(address, Entry(n - 1, t)), (user, Entry(n, t))];
  }

  /** Five wrong passwords of a known device, the owner's reset, and the look of the next sign-in. */
  function UpToReset(user: Key, address: Key, mtime: int, t: int): (ops: seq<Timed>)
    ensures forall i :: 0 <= i < |ops| ==> WellFormed(ops[i].op)
  {
    WrongPasswords(user, address, t, 5) + [Timed(LookAtFlag(There(mtime), User), t)]
  }

  /** The flag is not there at first. With a callback before it all the sign-in is let
      through; without, the sign-in's look is the first, which only notes the flag, and the
      owner waits although the reset was to forget every failure. */
  lemma {:induction false} CallbackUndoesWait(user: Key, address: Key, caller: Key, mtime: int, t: int)
    requires user.kind == User && address.kind == Addr && caller.kind == Oidc
    ensures var rest := UpToReset(user, address, mtime, t);
      var attempt := Attempt([user, address]);
      && SignInOnly(Callback(caller, t) + rest) == rest && GoodRun(Callback(caller, t) + rest)
      && After(Run(EMPTY, Callback(caller, t) + rest), attempt, t).wait == 0
      && After(Run(EMPTY, rest), attempt, t).wait == 1000
  {
    assert Both(user, address, t, 5) != [];
    hide Run, AfterAttempt, UpToReset, Both, SignInOnly, GoodRun;
    CallbackRuns(caller, t);
    ResetOnly(user, address, caller, mtime, t);
    RunAppend(EMPTY, Callback(caller, t), UpToReset(user, address, mtime, t));
    RestRuns(EMPTY, user, address, mtime, t);
    RestRuns(EMPTY.(flagSeen := Some(Absent)), user, address, mtime, t);
    TwoWait(EMPTY.(main := Both(user, address, t, 5), flagSeen := Some(There(mtime))), user, address, t);
    TwoWait(EMPTY.(flagSeen := Some(There(mtime))), user, address, t);
  }

  lemma {:induction false} ResetOnly(user: Key, address: Key, caller: Key, mtime: int, t: int)
    requires user.kind == User && address.kind == Addr && caller.kind == Oidc
    ensures var rest := UpToReset(user, address, mtime, t);
      SignInOnly(Callback(caller, t) + rest) == rest && GoodRun(Callback(caller, t) + rest)
  {
    hide WrongPasswords, SignInOnly;
    WrongAtOnce(user, address, t, 5);
    OnlyRest(Callback(caller, t), UpToReset(user, address, mtime, t));
  }

  /** Five wrong passwords, then a look that finds the flag there. */
  lemma {:induction false} RestRuns(s: State, user: Key, address: Key, mtime: int, t: int)
    requires user.kind == User && address.kind == Addr && s.main == [] && s.checks == []
    requires s.flagSeen.None? || s.flagSeen == Some(Absent)
    ensures Run(s, UpToReset(user, address, mtime, t))
         == s.(main := if s.flagSeen.None? then Both(user, address, t, 5) else [], flagSeen := Some(There(mtime)))
  {
    hide WrongPasswords, Both, Run;
    WrongPasswordsCount(s, user, address, t, 5);
    LookRuns(s, WrongPasswords(user, address, t, 5), There(mtime), t);
  }

  lemma {:induction false} LookRuns(s: State, ops: seq<Timed>, flag: Flag, t: int)
    requires forall i :: 0 <= i < |ops| ==> WellFormed(ops[i].op)
    ensures Run(s, ops + [Timed(LookAtFlag(flag, User), t)]) == AfterLook(Run(s, ops), flag).state
  {
    hide AfterLook;
    assert (ops + [Timed(LookAtFlag(flag, User), t)])[..|ops|] == ops;
  }

  lemma CallbackRuns(caller: Key, t: int)
    requires caller.kind == Oidc
    ensures Run(EMPTY, Callback(caller, t)) == EMPTY.(flagSeen := Some(Absent))
  {
    var ops := Callback(caller, t);
    assert ops[..1][..0] == [];
    assert Run(EMPTY, ops[..1]) == EMPTY.(flagSeen := Some(Absent));
    EmptyLookup(caller);
  }

  lemma TwoWait(s: State, user: Key, address: Key, t: int)
    requires user.kind == User && address.kind == Addr && (s.main == [] || s.main == Both(user, address, t, 5))
    ensures AfterAttempt(s, [user, address], t).wait == if s.main == [] then 0 else 1000
  {
    hide ForgetAll, CountAll, Trim;
    BothWait(s.main, user, address, t);
  }

  lemma BothWait(table: Table, user: Key, address: Key, t: int)
    requires user.kind == User && address.kind == Addr && (table == [] || table == Both(user, address, t, 5))
    ensures Longest(table, [user, address], t) == if table == [] then 0 else 1000
  {
    assert [user, address][..1] == [user] && [user][..0] == [];
    assert Longest(table, [], t) == 0;
    assert Both(user, address, t, 5) == [(user, Entry(5, t)), (address, Entry(5, t))];
    EmptyLookup(user);
    EmptyLookup(address);
    BackoffCurve(0);
  }

  lemma {:induction false} OnlyRest(xs: seq<Timed>, ys: seq<Timed>)
    requires forall i :: 0 <= i < |xs| ==> Elsewhere(xs[i].op)
    requires forall i :: 0 <= i < |ys| ==> !Elsewhere(ys[i].op)
    ensures SignInOnly(xs + ys) == ys
  {
    hide Elsewhere;
    if ys != [] {
      var n := |ys| - 1;
      assert (xs + ys)[..|xs| + n] == xs + ys[..n];
      OnlyRest(xs, ys[..n]);
    } else {
      assert xs + ys == xs;
      NoneOfThose(xs);
    }
  }

  lemma {:induction false} NoneOfThose(xs: seq<Timed>)
    requires forall i :: 0 <= i < |xs| ==> Elsewhere(xs[i].op)
    ensures SignInOnly(xs) == []
  {
    hide Elsewhere;
    if xs != [] {
      NoneOfThose(xs[..|xs| - 1]);
    }
  }
}
