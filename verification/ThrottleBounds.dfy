/** What the throttles promise over whole runs: guesses stay bounded, windows stay
    spaced, and waits are tight. */
module ThrottleBounds {
  import opened Common
  import opened OrderedDicts
  import opened Buckets
  import opened Windows
  import opened Throttle
  import opened ThrottleHistory

  // ---- the number of guesses ----

  function BucketAt(s: State, key: Key): Option<Entry> {
    Lookup(s.main, key)
  }

  /** Whether the operation counts a failure of this key. */
  predicate CountsKey(s: State, op: Op, t: int, key: Key)
    requires WellFormed(op)
  {
    match op
    case Attempt(buckets) => key in buckets && After(s, op, t).wait == 0
    case Fail(k) => k == key
    case _ => false
  }

  /** How many attempts naming this key were let through. */
  function Guesses(s: State, ops: seq<Timed>, key: Key): nat
    requires forall i :: 0 <= i < |ops| ==> WellFormed(ops[i].op)
  {
    if ops == [] then 0
    else
      var n := |ops| - 1;
      var before := Run(s, ops[..n]);
      Guesses(s, ops[..n], key) + if ops[n].op.Attempt? && CountsKey(before, ops[n].op, ops[n].t, key) then 1 else 0
  }

  /** No success, eviction or reset: what is live or just counted is still there after. */
  ghost predicate KeptBy(s: State, op: Op, t: int, key: Key)
    requires WellFormed(op)
  {
    Live(BucketAt(s, key), t).Some? || CountsKey(s, op, t, key) ==> BucketAt(After(s, op, t).state, key).Some?
  }

  ghost predicate KeptThrough(s: State, ops: seq<Timed>, key: Key)
    requires forall i :: 0 <= i < |ops| ==> WellFormed(ops[i].op)
  {
    forall i :: 0 <= i < |ops| ==> KeptBy(Run(s, ops[..i]), ops[i].op, ops[i].t, key)
  }

  /** The bucket never goes 15 minutes without a failure and is then used again. */
  ghost predicate NeverForgotten(s: State, ops: seq<Timed>, key: Key)
    requires forall i :: 0 <= i < |ops| ==> WellFormed(ops[i].op)
  {
    forall i :: 0 <= i < |ops| ==> Live(BucketAt(Run(s, ops[..i]), key), ops[i].t) == BucketAt(Run(s, ops[..i]), key)
  }

  function CountedTimes(b: Option<Entry>, buckets: seq<Key>, key: Key, t: int): Option<Entry> {
    if buckets == [] then b
    else
      var before := CountedTimes(b, buckets[..|buckets| - 1], key, t);
      if buckets[|buckets| - 1] == key then Some(Counted(before, t)) else before
  }

  lemma {:induction false} CountAllLookup(table: Table, buckets: seq<Key>, t: int, key: Key)
    requires Unique(table)
    ensures Unique(CountAll(table, buckets, t))
    ensures Lookup(CountAll(table, buckets, t), key) == CountedTimes(Lookup(table, key), buckets, key, t)
  {
    hide Lookup, PutLast, Counted;
    if buckets != [] {
      var n := |buckets| - 1;
      CountAllLookup(table, buckets[..n], t, key);
      var before := CountAll(table, buckets[..n], t);
      PutLastKeeps(before, buckets[n], Counted(Lookup(before, buckets[n]), t), key);
    }
  }

  lemma {:induction false} TrimLookup(table: Table, key: Key)
    requires Unique(table)
    ensures Lookup(Trim(table), key).Some? ==> Lookup(Trim(table), key) == Lookup(table, key)
  {
    if |table| > MAX_KEYS {
      DropFirstKeeps(table, key);
      TrimLookup(table[1..], key);
    }
  }

  lemma {:induction false} LongestCovers(table: Table, buckets: seq<Key>, t: int, key: Key)
    requires Longest(table, buckets, t) == 0 && key in buckets
    ensures WaitOf(table, key, t) == 0
  {
    var n := |buckets| - 1;
    if buckets[n] != key {
      assert key in buckets[..n];
      LongestCovers(table, buckets[..n], t, key);
    }
  }

  /** The first count of an attempt is the guess, the others are further failures. */
  lemma {:induction false} CountedTimesHold(
    a: Account, start: int, b: Option<Entry>, buckets: seq<Key>, key: Key, admitted: nat, t: int)
    requires Fits(a, start, t) && start <= t && Holds(a, start, Live(b, t), admitted, t)
    requires Live(b, t).Some? && Live(b, t).value.failures >= FreeOf(a) ==>
      Live(b, t).value.last + Backoff(Live(b, t).value.failures - FreeOf(a)) <= t
    ensures key in buckets ==>
      CountedTimes(b, buckets, key, t).Some? && CountedTimes(b, buckets, key, t).value.last == t
    ensures key in buckets ==> Holds(a, start, CountedTimes(b, buckets, key, t), admitted + 1, t)
    ensures key !in buckets ==> CountedTimes(b, buckets, key, t) == b
  {
    hide Holds, Counted, Backoff, Fits, FreeOf;
    if buckets != [] {
      var n := |buckets| - 1;
      CountedTimesHold(a, start, b, buckets[..n], key, admitted, t);
      assert key in buckets <==> key in buckets[..n] || key == buckets[n];
      if buckets[n] == key {
        var before := CountedTimes(b, buckets[..n], key, t);
        CountedLast(before, t);
        if key in buckets[..n] {
          FailureHolds(a, start, before, admitted + 1, t);
        } else {
          AttemptHolds(a, start, before, admitted, t);
        }
      }
    }
  }

  predicate GuessKey(key: Key) {
    key.kind == User || key.kind == Addr
  }

  /** What an operation that does not count the key does to its bucket. */
  lemma UncountedBucket(s: State, op: Op, t: int, key: Key)
    requires AllUnique(s) && WellFormed(op) && GuessKey(key)
    requires !CountsKey(s, op, t, key) && KeptBy(s, op, t, key)
    ensures BucketAt(After(s, op, t).state, key) == BucketAt(s, key)
         || BucketAt(After(s, op, t).state, key) == Live(BucketAt(s, key), t)
  {
    hide Lookup, Counted, Trim;
    match op
    case Waiting(k) => ForgetKeeps(TableOf(s, k.kind), k, t, key);
    case Attempt(buckets) =>
      ForgetAllLookup(s.main, buckets, t, key);
      if After(s, op, t).wait == 0 {
        CountAllLookup(ForgetAll(s.main, buckets, t), buckets, t, key);
        NotCounted(Lookup(ForgetAll(s.main, buckets, t), key), buckets, key, t);
        TrimLookup(CountAll(ForgetAll(s.main, buckets, t), buckets, t), key);
      }
    case CheckGlobal =>
    case Fail(k) =>
      var table := TableOf(s, k.kind);
      PutLastKeeps(table, k, Counted(Lookup(table, k), t), key);
      TrimLookup(Count(table, k, t), key);
    case AddressFailure(k) =>
    case Succeed(k) => WithoutKeeps(TableOf(s, k.kind), k, key);
    case LookAtFlag(_, _) => EmptyLookup(key);
  }

  lemma {:induction false} NotCounted(b: Option<Entry>, buckets: seq<Key>, key: Key, t: int)
    requires key !in buckets
    ensures CountedTimes(b, buckets, key, t) == b
  {
    if buckets != [] {
      NotCounted(b, buckets[..|buckets| - 1], key, t);
    }
  }

  lemma {:induction false} ForgetAllLookup(table: Table, buckets: seq<Key>, t: int, key: Key)
    requires Unique(table)
    ensures Unique(ForgetAll(table, buckets, t))
    ensures Lookup(ForgetAll(table, buckets, t), key) == Lookup(table, key)
         || Lookup(ForgetAll(table, buckets, t), key) == Live(Lookup(table, key), t)
  {
    hide Lookup;
    if buckets != [] {
      ForgetAllLookup(table, buckets[..|buckets| - 1], t, key);
      ForgetKeeps(ForgetAll(table, buckets[..|buckets| - 1], t), buckets[|buckets| - 1], t, key);
    }
  }

  lemma CountedBucket(s: State, op: Op, t: int, key: Key)
    requires AllUnique(s) && WellFormed(op) && GuessKey(key)
    requires CountsKey(s, op, t, key) && KeptBy(s, op, t, key)
    ensures op.Fail? ==> BucketAt(After(s, op, t).state, key) == Some(Counted(BucketAt(s, key), t))
    ensures op.Attempt? ==>
      exists b :: Live(b, t) == Live(BucketAt(s, key), t)
        && BucketAt(After(s, op, t).state, key) == CountedTimes(b, op.buckets, key, t)
  {
    hide Counted, Trim;
    match op
    case Attempt(buckets) =>
      var looked := ForgetAll(s.main, buckets, t);
      ForgetAllKeeps(s.main, buckets, t, key);
      CountAllLookup(looked, buckets, t, key);
      TrimLookup(CountAll(looked, buckets, t), key);
      assert Live(Lookup(looked, key), t) == Live(BucketAt(s, key), t);
    case Fail(k) =>
      PutLastKeeps(s.main, k, Counted(Lookup(s.main, k), t), key);
      TrimLookup(Count(s.main, k, t), key);
    case _ =>
  }

  lemma GuessStep(a: Account, start: int, s: State, op: Op, now: int, t: int, key: Key, guesses: nat)
    requires AllUnique(s) && WellFormed(op) && GuessKey(key) && FreeOf(a) == Free(key.kind)
    requires Fits(a, start, t) && start <= now <= t
    requires KeptBy(s, op, t, key)
    requires Live(BucketAt(s, key), t) != BucketAt(s, key) ==> Forgives(a)
    requires Holds(a, start, BucketAt(s, key), guesses, now)
    ensures Holds(a, start, BucketAt(After(s, op, t).state, key),
              guesses + (if op.Attempt? && CountsKey(s, op, t, key) then 1 else 0), t)
  {
    hide Holds, Counted, Lookup, Forgives, Fits;
    var b := BucketAt(s, key);
    ForgettingHolds(a, start, b, guesses, now, t);
    LaterHolds(a, start, b, guesses, now, t);
    if !CountsKey(s, op, t, key) {
      UncountedBucket(s, op, t, key);
    } else {
      match op
      case Fail(_) =>
        CountedBucket(s, op, t, key);
        FailureHolds(a, start, b, guesses, t);
      case Attempt(buckets) =>
        AttemptStep(a, start, s, buckets, t, key, guesses);
    }
  }

  /** An attempt that counts the bucket. */
  lemma {:induction false} AttemptStep(
      a: Account, start: int, s: State, buckets: seq<Key>, t: int, key: Key, guesses: nat)
    requires AllUnique(s) && WellFormed(Attempt(buckets)) && GuessKey(key) && FreeOf(a) == Free(key.kind)
    requires Fits(a, start, t) && start <= t
    requires KeptBy(s, Attempt(buckets), t, key) && CountsKey(s, Attempt(buckets), t, key)
    requires Holds(a, start, Live(BucketAt(s, key), t), guesses, t)
    ensures Holds(a, start, BucketAt(After(s, Attempt(buckets), t).state, key), guesses + 1, t)
  {
    hide Holds, Counted, Lookup, Forgives, Fits;
    var op, b := Attempt(buckets), BucketAt(s, key);
    CountedBucket(s, op, t, key);
    var looked :| Live(looked, t) == Live(b, t)
      && BucketAt(After(s, op, t).state, key) == CountedTimes(looked, buckets, key, t);
    LongestCovers(s.main, buckets, t, key);
    OpenBucket(key.kind, b, t);
    CountedTimesHold(a, start, looked, buckets, key, guesses, t);
  }

  lemma OpenBucket(kind: Kind, b: Option<Entry>, t: int)
    requires kind != Setup && Wait(kind, b, t) == 0
    ensures Live(b, t).Some? && Live(b, t).value.failures >= Free(kind) ==>
      Live(b, t).value.last + Backoff(Live(b, t).value.failures - Free(kind)) <= t
  {}

  /** The times of a run, all inside the span it is measured over. */
  ghost predicate Within(start: int, ops: seq<Timed>, end: int) {
    GoodRun(ops) && start <= end && forall i :: 0 <= i < |ops| ==> start <= ops[i].t <= end
  }

  /** A run measured from a moment at which the bucket's last failure is past. */
  ghost predicate Measured(s: State, ops: seq<Timed>, key: Key, start: int, end: int) {
    && AllUnique(s) && Within(start, ops, end) && GuessKey(key)
    && (BucketAt(s, key).Some? ==> BucketAt(s, key).value.last <= start)
    && KeptThrough(s, ops, key)
  }

  lemma {:induction false} RunGuessesHold(a: Account, s: State, ops: seq<Timed>, key: Key, start: int, end: int)
    requires Measured(s, ops, key, start, end) && Fits(a, start, end) && FreeOf(a) == Free(key.kind)
    requires Forgives(a) || NeverForgotten(s, ops, key)
    ensures Holds(a, start, BucketAt(Run(s, ops), key), Guesses(s, ops, key), end)
    decreases |ops|
  {
    PrefixMeasured(s, ops, key, start, end);
    hide *;
    if ops == [] {
      FreshHolds(a, s, key, start, end);
      LastGuess(s, ops, key);
    } else {
      var n := |ops| - 1;
      FitsBefore(a, start, ops[n].t, end);
      if NeverForgotten(s, ops, key) {
        LastRemembered(s, ops, key);
      }
      RunGuessesHold(a, s, ops[..n], key, start, ops[n].t);
      LastGuessHolds(a, s, ops, key, start, end);
    }
  }

  lemma {:induction false} LastGuessHolds(a: Account, s: State, ops: seq<Timed>, key: Key, start: int, end: int)
    requires Measured(s, ops, key, start, end) && Fits(a, start, end) && FreeOf(a) == Free(key.kind)
    requires Forgives(a) || NeverForgotten(s, ops, key)
    requires ops != []
    requires Holds(a, start, BucketAt(Run(s, ops[..|ops| - 1]), key), Guesses(s, ops[..|ops| - 1], key),
      ops[|ops| - 1].t)
    ensures Holds(a, start, BucketAt(Run(s, ops), key), Guesses(s, ops, key), end)
  {
    hide *;
    PrefixMeasured(s, ops, key, start, end);
    LastGuess(s, ops, key);
    var n := |ops| - 1;
    if NeverForgotten(s, ops, key) {
      LastRemembered(s, ops, key);
    }
    FitsBefore(a, start, ops[n].t, end);
    GuessStep(a, start, Run(s, ops[..n]), ops[n].op, ops[n].t, ops[n].t, key, Guesses(s, ops[..n], key));
    LaterHolds(a, start, BucketAt(Run(s, ops), key), Guesses(s, ops, key), ops[n].t, end);
  }

  lemma {:induction false} LastGuess(s: State, ops: seq<Timed>, key: Key)
    requires forall i :: 0 <= i < |ops| ==> WellFormed(ops[i].op)
    ensures ops == [] ==> Run(s, ops) == s && Guesses(s, ops, key) == 0
    ensures ops != [] ==>
      var n := |ops| - 1;
      var before := Run(s, ops[..n]);
      && Run(s, ops) == After(before, ops[n].op, ops[n].t).state
      && Guesses(s, ops, key) == Guesses(s, ops[..n], key)
           + (if ops[n].op.Attempt? && CountsKey(before, ops[n].op, ops[n].t, key) then 1 else 0)
  {
    hide WellFormed, After, CountsKey;
  }

  lemma FitsBefore(a: Account, start: int, t: int, end: int)
    requires Fits(a, start, end) && t <= end
    ensures Fits(a, start, t)
  {}

  /** A measured run is measured up to its last step, which keeps the bucket. */
  lemma {:induction false} PrefixMeasured(s: State, ops: seq<Timed>, key: Key, start: int, end: int)
    requires Measured(s, ops, key, start, end)
    ensures GuessKey(key) && start <= end && (forall i :: 0 <= i < |ops| ==> WellFormed(ops[i].op))
    ensures BucketAt(s, key).Some? ==> BucketAt(s, key).value.last <= start
    ensures ops != [] ==>
      var n := |ops| - 1;
      && start <= ops[n].t <= end && Measured(s, ops[..n], key, start, ops[n].t)
      && AllUnique(Run(s, ops[..n])) && KeptBy(Run(s, ops[..n]), ops[n].op, ops[n].t, key)
  {
    hide KeptBy, BucketAt, Live, Run, KeptThrough, AllUnique, WellFormed;
    if ops != [] {
      LastKept(s, ops, key);
      RunUnique(s, ops[..|ops| - 1]);
    }
  }

  lemma {:induction false} LastKept(s: State, ops: seq<Timed>, key: Key)
    requires ops != [] && (forall i :: 0 <= i < |ops| ==> WellFormed(ops[i].op)) && KeptThrough(s, ops, key)
    ensures var n := |ops| - 1;
      KeptThrough(s, ops[..n], key) && KeptBy(Run(s, ops[..n]), ops[n].op, ops[n].t, key)
  {
    hide KeptBy, Run, WellFormed;
    var n := |ops| - 1;
    assert forall i :: 0 <= i < n ==> ops[..n][..i] == ops[..i] && ops[..n][i] == ops[i];
  }

  lemma {:induction false} LastRemembered(s: State, ops: seq<Timed>, key: Key)
    requires ops != [] && (forall i :: 0 <= i < |ops| ==> WellFormed(ops[i].op)) && NeverForgotten(s, ops, key)
    ensures var n := |ops| - 1;
      && NeverForgotten(s, ops[..n], key)
      && Live(BucketAt(Run(s, ops[..n]), key), ops[n].t) == BucketAt(Run(s, ops[..n]), key)
  {
    hide Live, BucketAt, Run, WellFormed;
    var n := |ops| - 1;
    assert forall i :: 0 <= i < n ==> ops[..n][..i] == ops[..i] && ops[..n][i] == ops[i];
  }

  lemma FreshHolds(a: Account, s: State, key: Key, start: int, end: int)
    requires Fits(a, start, end) && start <= end
    requires BucketAt(s, key).Some? ==> BucketAt(s, key).value.last <= start
    ensures Holds(a, start, BucketAt(s, key), 0, end)
  {
    if BucketAt(s, key).Some? {
      CreditBound(FreeOf(a), if a.AtPrice? then a.cost else 60_000, BucketAt(s, key).value.failures);
    }
  }

  /** In any span, a bucket that is not taken back lets through at most its free attempts,
      five more, and one for every `cost` of time, if forgetting is affordable or never happens. */
  lemma {:induction false} GuessesBounded(cost: int, s: State, ops: seq<Timed>, key: Key, start: int, end: int)
    requires Measured(s, ops, key, start, end) && 32_000 <= cost <= 60_000
    requires Affordable(Free(key.kind), cost) || NeverForgotten(s, ops, key)
    ensures Bounded(Free(key.kind), cost, start, end, Guesses(s, ops, key))
  {
    hide KeptThrough, NeverForgotten, BucketAt, Paid, Guesses, Free;
    var free, g := Free(key.kind), Guesses(s, ops, key);
    FreeSome(key.kind);
    RunGuessesHold(AtPrice(free, cost), s, ops, key, start, end);
    PaidBound(free, cost, start, BucketAt(Run(s, ops), key), g, end);
    assert cost * (free + 6) == cost * (free + 5) + cost;
  }

  lemma FreeSome(kind: Kind)
    ensures Free(kind) > 0
  {}

  /** For a user: at most 10 + T/60 guesses in any T seconds. */
  lemma {:induction false} UserGuesses(s: State, ops: seq<Timed>, key: Key, start: int, end: int)
    requires Measured(s, ops, key, start, end) && key.kind == User
    ensures 60_000 * Guesses(s, ops, key) <= end - start + 600_000
  {
    GuessesBounded(60_000, s, ops, key, start, end);
  }

  /** For an address: at most 25 + T/37 in any T seconds, and 25 + T/60 in a run none of whose
      steps finds its bucket 15 minutes old. */
  lemma {:induction false} AddressGuesses(s: State, ops: seq<Timed>, key: Key, start: int, end: int)
    requires Measured(s, ops, key, start, end) && key.kind == Addr
    ensures 37_000 * Guesses(s, ops, key) <= end - start + 925_000
    ensures NeverForgotten(s, ops, key) ==> 60_000 * Guesses(s, ops, key) <= end - start + 1_500_000
  {
    GuessesBounded(37_000, s, ops, key, start, end);
    if NeverForgotten(s, ops, key) {
      GuessesBounded(60_000, s, ops, key, start, end);
    }
  }

  /** And 25 + T/60 in any span of less than 901 seconds. */
  lemma {:induction false} ShortSpanGuesses(s: State, ops: seq<Timed>, key: Key, start: int, end: int)
    requires Measured(s, ops, key, start, end) && key.kind == Addr && end - start < SHORT
    ensures Bounded(Free(Addr), 60_000, start, end, Guesses(s, ops, key))
  {
    hide KeptThrough, BucketAt, PaidShort, Guesses;
    RunGuessesHold(InShortSpan, s, ops, key, start, end);
    ShortBound(start, BucketAt(Run(s, ops), key), Guesses(s, ops, key), end);
  }

  // ---- the sliding windows ----

  datatype Line = EveryCheck | ShareFailures | OidcFailures

  function QueueFor(s: State, line: Line): seq<int> {
    match line
    case EveryCheck => s.checks
    case ShareFailures => s.shareFailures
    case OidcFailures => s.oidcFailures
  }

  function CapOf(line: Line): nat {
    if line == EveryCheck then GLOBAL_PER_MINUTE else SHARE_GLOBAL_PER_MINUTE
  }

  /** Whether the operation asks for a place in this line. */
  predicate Asks(op: Op, line: Line) {
    match op
    case CheckGlobal => line == EveryCheck
    case AddressFailure(key) => line == if key.kind == Share then ShareFailures else OidcFailures
    case _ => false
  }

  /** The times at which this line let someone through. */
  function LetThrough(s: State, ops: seq<Timed>, line: Line): seq<int>
    requires forall i :: 0 <= i < |ops| ==> WellFormed(ops[i].op)
  {
    if ops == [] then []
    else
      var n := |ops| - 1;
      var before := LetThrough(s, ops[..n], line);
      if Asks(ops[n].op, line) && After(Run(s, ops[..n]), ops[n].op, ops[n].t).wait == 0
      then before + [ops[n].t] else before
  }

  /** No look at the flag clears the sign-in map and the global line. */
  ghost predicate NoReset(s: State, ops: seq<Timed>)
    requires forall i :: 0 <= i < |ops| ==> WellFormed(ops[i].op)
  {
    forall i :: 0 <= i < |ops| && ops[i].op.LookAtFlag? ==> !Resets(Run(s, ops[..i]), ops[i].op.flag)
  }

  lemma LineStep(s: State, op: Op, t: int, line: Line)
    requires WellFormed(op)
    requires op.LookAtFlag? && line == EveryCheck ==> !Resets(s, op.flag)
    ensures var q, q' := QueueFor(s, line), QueueFor(After(s, op, t).state, line);
      var expired := Expire(q, t, MINUTE);
      if !Asks(op, line) then q' == q
      else if After(s, op, t).wait == 0 then q' == expired + [t]
      else q' == expired
    ensures Asks(op, line) && After(s, op, t).wait == 0 ==> |Expire(QueueFor(s, line), t, MINUTE)| < CapOf(line)
    ensures op == CheckGlobal && line == EveryCheck ==>
      (After(s, op, t).wait == 0 <==> |Expire(QueueFor(s, line), t, MINUTE)| < CapOf(line))
  {
    hide Forget, ForgetAll, CountAll, Trim, Longest, Count, WaitOf, Expire, Without;
    HeadIsYoung(QueueFor(s, line), t, MINUTE);
  }

  lemma {:induction false} LineTracks(ops: seq<Timed>, line: Line, end: int)
    requires Within(if ops == [] then end else ops[0].t, ops, end)
    requires line == EveryCheck ==> NoReset(EMPTY, ops)
    ensures Tracks(QueueFor(Run(EMPTY, ops), line), LetThrough(EMPTY, ops, line), end, MINUTE)
    ensures SpacedOut(LetThrough(EMPTY, ops, line), CapOf(line), MINUTE)
    ensures |QueueFor(Run(EMPTY, ops), line)| <= CapOf(line)
  {
    hide After, QueueFor, Tracks, SpacedOut, WellFormed, Expire, NoReset;
    if ops == [] {
      NothingTracked(line, end);
    } else {
      var n := |ops| - 1;
      var s, t := Run(EMPTY, ops[..n]), ops[n].t;
      PrefixNoReset(EMPTY, ops);
      LineTracks(ops[..n], line, t);
      LineStep(s, ops[n].op, t, line);
      var q, through := QueueFor(s, line), LetThrough(EMPTY, ops[..n], line);
      ExpireTracks(q, through, t, MINUTE, t);
      if Asks(ops[n].op, line) && After(s, ops[n].op, t).wait == 0 {
        AdmitTracks(q, through, t, MINUTE, t, CapOf(line));
      }
      LaterTracks(QueueFor(Run(EMPTY, ops), line), LetThrough(EMPTY, ops, line), t, end);
    }
  }

  lemma {:induction false} PrefixNoReset(s: State, ops: seq<Timed>)
    requires ops != [] && forall i :: 0 <= i < |ops| ==> WellFormed(ops[i].op)
    ensures NoReset(s, ops) ==>
      var n := |ops| - 1;
      NoReset(s, ops[..n]) && (ops[n].op.LookAtFlag? ==> !Resets(Run(s, ops[..n]), ops[n].op.flag))
  {
    hide Run, WellFormed, Resets;
    assert forall i :: 0 <= i < |ops| - 1 ==> ops[..|ops| - 1][..i] == ops[..i];
  }

  lemma NothingTracked(line: Line, end: int)
    ensures Tracks(QueueFor(EMPTY, line), [], end, MINUTE) && SpacedOut([], CapOf(line), MINUTE)
    ensures |QueueFor(EMPTY, line)| <= CapOf(line)
  {}

  lemma {:induction false} LaterTracks(queue: seq<int>, through: seq<int>, now: int, t: int)
    requires Tracks(queue, through, now, MINUTE) && now <= t
    ensures Tracks(queue, through, t, MINUTE)
  {}

  /** Absent resets, any two global checks let through 60 places apart are a minute apart,
      as are share or single sign-on failures 300 places apart. */
  lemma {:induction false} LinesAreSpaced(ops: seq<Timed>, line: Line, i: nat)
    requires GoodRun(ops) && (line == EveryCheck ==> NoReset(EMPTY, ops))
    requires i + (if line == EveryCheck then 60 else 300) < |LetThrough(EMPTY, ops, line)|
    ensures var through, apart := LetThrough(EMPTY, ops, line), if line == EveryCheck then 60 else 300;
      through[i + apart] - through[i] >= 60_000
  {
    hide LetThrough, Run, Tracks, NoReset, QueueFor, WellFormed;
    LineTracks(ops, line, if ops == [] then 0 else ops[|ops| - 1].t);
  }

  /** A global check is let through exactly when fewer than 60 were in the past minute. */
  lemma {:induction false} GlobalCheckExactly(ops: seq<Timed>, t: int)
    requires GoodRun(ops) && NoReset(EMPTY, ops) && forall i :: 0 <= i < |ops| ==> ops[i].t <= t
    ensures After(Run(EMPTY, ops), CheckGlobal, t).wait == 0
       <==> Recent(LetThrough(EMPTY, ops, EveryCheck), t, 60_000) < 60
  {
    hide Tracks, After, Run, LetThrough;
    var s := Run(EMPTY, ops);
    LineTracks(ops, EveryCheck, t);
    LineStep(s, CheckGlobal, t, EveryCheck);
    QueueCounts(QueueFor(s, EveryCheck), LetThrough(EMPTY, ops, EveryCheck), t, MINUTE, t);
  }

  // ---- refused failures of an address ----

  /** Everything an address failure's answer depends on, at a time. */
  ghost predicate SameAnswers(a: State, b: State, t: int) {
    && a.main == b.main && a.checks == b.checks && a.flagSeen == b.flagSeen
    && (forall key: Key, later | t <= later ::
      WaitOf(TableOf(a, key.kind), key, later) == WaitOf(TableOf(b, key.kind), key, later))
    && (forall kind, later | t <= later ::
          Expire(QueueOf(a, kind), later, MINUTE) == Expire(QueueOf(b, kind), later, MINUTE))
  }

  lemma {:induction false} ExpireTwice(queue: seq<int>, t: int, later: int)
    requires t <= later
    ensures Expire(Expire(queue, t, MINUTE), later, MINUTE) == Expire(queue, later, MINUTE)
    decreases |queue|
  {
    if queue != [] && t - queue[0] >= MINUTE {
      ExpireTwice(queue[1..], t, later);
    }
  }

  lemma ForgetChangesNoWait(table: Table, key: Key, t: int, other: Key, later: int)
    requires Unique(table) && t <= later
    ensures WaitOf(Forget(table, key, t), other, later) == WaitOf(table, other, later)
  {
    ForgetKeeps(table, key, t, other);
  }

  /** A refused failure counts nothing: every wait and every line answers as before. */
  lemma {:induction false} RefusedCountsNothing(s: State, key: Key, t: int)
    requires AllUnique(s) && Apart(key.kind)
    requires AfterAddressFailure(s, key, t).wait > 0
    ensures SameAnswers(AfterAddressFailure(s, key, t).state, s, t)
    ensures Events(s, AddressFailure(key), t) == []
  {
    hide Forget, WaitOf, Expire;
    var table := TableOf(s, key.kind);
    forall other, later | t <= later
      ensures WaitOf(Forget(table, key, t), other, later) == WaitOf(table, other, later)
    {
      ForgetChangesNoWait(table, key, t, other, later);
    }
    forall later | t <= later
      ensures Expire(Expire(QueueOf(s, key.kind), t, MINUTE), later, MINUTE)
        == Expire(QueueOf(s, key.kind), later, MINUTE)
    {
      ExpireTwice(QueueOf(s, key.kind), t, later);
    }
  }

  lemma {:induction false} QueueWaitIsTight(queue: seq<int>, cap: nat, t: int, later: int)
    requires t <= later && |queue| <= cap && cap > 0
    ensures var q, q' := Expire(queue, t, MINUTE), Expire(queue, later, MINUTE);
      var w, w' := if |q| >= cap then q[0] + MINUTE - t else 0, if |q'| >= cap then q'[0] + MINUTE - later else 0;
      w' == Max(0, w - (later - t))
  {
    HeadIsYoung(queue, t, MINUTE);
    HeadIsYoung(queue, later, MINUTE);
    ExpireShortens(queue, t);
    ExpireShortens(queue, later);
  }

  lemma {:induction false} ExpireShortens(queue: seq<int>, t: int)
    ensures |Expire(queue, t, MINUTE)| <= |queue|
    ensures |Expire(queue, t, MINUTE)| == |queue| <==> queue == [] || t - queue[0] < MINUTE
    ensures |Expire(queue, t, MINUTE)| == |queue| ==> Expire(queue, t, MINUTE) == queue
    decreases |queue|
  {
    if queue != [] && t - queue[0] >= MINUTE {
      ExpireShortens(queue[1..], t);
    }
  }

  /** The wait a refused failure is told is tight: a retry at any earlier time is refused with
      what is left of it, and one at its end or later is counted, absent other traffic. */
  lemma {:induction false} AddressWaitIsTight(s: State, key: Key, t: int, later: int)
    requires AllUnique(s) && Apart(key.kind) && t <= later
    requires |QueueOf(s, key.kind)| <= PerMinute(key.kind)
    ensures var refused := AfterAddressFailure(s, key, t);
      refused.wait > 0 ==>
        AfterAddressFailure(refused.state, key, later).wait == Max(0, t + refused.wait - later)
  {
    hide Expire, Wait;
    if AfterAddressFailure(s, key, t).wait > 0 {
      RefusedCountsNothing(s, key, t);
      WaitIsTight(key.kind, Lookup(TableOf(s, key.kind), key), t, later);
      QueueWaitIsTight(QueueOf(s, key.kind), PerMinute(key.kind), t, later);
    }
  }
}
