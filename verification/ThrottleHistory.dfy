/** What the bounded, lazily expired maps of throttle.py remember, compared with the
    plain list of everything that was counted and taken back. */
module ThrottleHistory {
  import opened Common
  import opened OrderedDicts
  import opened Buckets
  import opened Throttle

  datatype Timed = Timed(op: Op, t: int)

  const EMPTY := State([], [], [], [], [], [], None)

  ghost predicate GoodRun(ops: seq<Timed>) {
    && (forall i :: 0 <= i < |ops| ==> WellFormed(ops[i].op))
    && (forall i, j :: 0 <= i < j < |ops| ==> ops[i].t <= ops[j].t)
  }

  function Run(s: State, ops: seq<Timed>): State
    requires forall i :: 0 <= i < |ops| ==> WellFormed(ops[i].op)
  {
    if ops == [] then s
    else After(Run(s, ops[..|ops| - 1]), ops[|ops| - 1].op, ops[|ops| - 1].t).state
  }

  lemma {:induction false} RunUnique(s: State, ops: seq<Timed>)
    requires AllUnique(s) && forall i :: 0 <= i < |ops| ==> WellFormed(ops[i].op)
    ensures AllUnique(Run(s, ops))
  {
    if ops != [] {
      RunUnique(s, ops[..|ops| - 1]);
      AfterUnique(Run(s, ops[..|ops| - 1]), ops[|ops| - 1].op, ops[|ops| - 1].t);
    }
  }

  // ---- the calls of a password sign-in (accounts.py, lines 202-217) ----

  /** A browser not known: `attempt`, then `check_global`. */
  function SignInSteps(user: Key, address: Key, t: int): seq<Timed> {
    [Timed(LookAtFlag(Absent, User), t), Timed(Attempt([user, address]), t),
     Timed(LookAtFlag(Absent, User), t), Timed(CheckGlobal, t)]
  }

  /** n wrong passwords of a known device: a failure for the account and for the address. */
  function WrongPasswords(user: Key, address: Key, t: int, n: nat): (ops: seq<Timed>)
    ensures |ops| == 2 * n && forall i :: 0 <= i < |ops| ==> ops[i].op.Fail? && ops[i].t == t
  {
    if n == 0 then [] else WrongPasswords(user, address, t, n - 1) + [Timed(Fail(user), t), Timed(Fail(address), t)]
  }

  lemma {:induction false} WrongAtOnce(user: Key, address: Key, t: int, n: nat)
    ensures forall i :: 0 <= i < 2 * n ==>
      WrongPasswords(user, address, t, n)[i] in {Timed(Fail(user), t), Timed(Fail(address), t)}
  {
    if n > 0 {
      WrongAtOnce(user, address, t, n - 1);
    }
  }

  // ---- runs ----

  lemma EmptyLookup(key: Key)
    ensures Lookup<Key, Entry>([], key) == None
  {}

  lemma {:induction false} RunAppend(s: State, xs: seq<Timed>, ys: seq<Timed>)
    requires (forall i :: 0 <= i < |xs| ==> WellFormed(xs[i].op)) && forall i :: 0 <= i < |ys| ==> WellFormed(ys[i].op)
    ensures Run(s, xs + ys) == Run(Run(s, xs), ys)
  {
    hide After, WellFormed;
    if ys == [] {
      assert xs + ys == xs;
    } else {
      var n := |ys| - 1;
      assert (xs + ys)[..|xs| + n] == xs + ys[..n];
      RunAppend(s, xs, ys[..n]);
    }
  }

  lemma {:induction false} TrimKeepsLast(table: Table)
    requires Unique(table) && table != []
    ensures Lookup(Trim(table), table[|table| - 1].0) == Some(table[|table| - 1].1)
  {
    if |table| > MAX_KEYS {
      TrimKeepsLast(table[1..]);
    } else {
      FindIs(table, table[|table| - 1].0, |table| - 1);
    }
  }

  lemma {:induction false} RunTwo(s: State, ops: seq<Timed>, user: Key, address: Key, t: int)
    requires forall i :: 0 <= i < |ops| ==> WellFormed(ops[i].op)
    ensures Run(s, ops + [Timed(Fail(user), t), Timed(Fail(address), t)])
         == AfterFail(AfterFail(Run(s, ops), user, t).state, address, t).state
  {
    hide AfterFail;
    var both := ops + [Timed(Fail(user), t), Timed(Fail(address), t)];
    assert both[..|ops| + 1] == ops + [Timed(Fail(user), t)];
    assert (ops + [Timed(Fail(user), t)])[..|ops|] == ops;
  }

  // ---- the plain history ----

  datatype Event = Failed(key: Key, t: int) | Cleared(key: Key) | AllCleared

  /** Keys of one map: the sign-in, address and setup buckets share theirs. */
  predicate SameMap(a: Kind, b: Kind) {
    a == b || (!Apart(a) && !Apart(b))
  }

  function Failures(buckets: seq<Key>, t: int): seq<Event> {
    if buckets == [] then [] else Failures(buckets[..|buckets| - 1], t) + [Failed(buckets[|buckets| - 1], t)]
  }

  /** What an operation adds to the history. */
  function Events(s: State, op: Op, t: int): seq<Event>
    requires WellFormed(op)
  {
    match op
    case Waiting(_) => []
    case CheckGlobal => []
    case Attempt(buckets) => if After(s, op, t).wait == 0 then Failures(buckets, t) else []
    case Fail(key) => [Failed(key, t)]
    case AddressFailure(key) => if After(s, op, t).wait == 0 then [Failed(key, t)] else []
    case Succeed(key) => [Cleared(key)]
    case LookAtFlag(flag, _) => if Resets(s, flag) then [AllCleared] else []
  }

  function History(s: State, ops: seq<Timed>): seq<Event>
    requires forall i :: 0 <= i < |ops| ==> WellFormed(ops[i].op)
  {
    if ops == [] then []
    else
      var n := |ops| - 1;
      History(s, ops[..n]) + Events(Run(s, ops[..n]), ops[n].op, ops[n].t)
  }

  /** Neither bucket waits, so the attempt is let through. */
  lemma BothOpen(s: State, u: Key, key: Key, t: int)
    requires WaitOf(s.main, u, t) == 0 && WaitOf(s.main, key, t) == 0
    ensures AfterAttempt(s, [u, key], t).wait == 0
  {
    hide ForgetAll, CountAll, Trim, WaitOf;
    assert [u, key][..1] == [u] && [u][..0] == [];
    assert Longest(s.main, [], t) == 0;
    assert Longest(s.main, [u], t) == 0;
    assert Longest(s.main, [u, key], t) == 0;
  }

  /** And the sign-in is one failure of each, whatever the global check says. */
  lemma SignInHistory(s: State, user: Key, address: Key, t: int)
    requires !Apart(user.kind) && !Apart(address.kind)
    requires WaitOf(s.main, user, t) == 0 && WaitOf(s.main, address, t) == 0
    ensures (forall i :: 0 <= i < 4 ==> WellFormed(SignInSteps(user, address, t)[i].op))
    ensures History(s, SignInSteps(user, address, t)) == [Failed(user, t), Failed(address, t)]
  {
    hide AfterAttempt, AfterCheck, WaitOf;
    var ops := SignInSteps(user, address, t);
    assert ops[..4] == ops && ops[..4][..3] == ops[..3] && ops[..3][..2] == ops[..2] && ops[..2][..1] == ops[..1];
    assert ops[..1][..0] == [];
    assert Run(s, ops[..0]) == s && Run(s, ops[..1]) == AfterLook(s, Absent).state;
    assert History(s, ops[..1]) == [];
    BothOpen(AfterLook(s, Absent).state, user, address, t);
    FailuresOfTwo(user, address, t);
    assert History(s, ops[..2]) == [Failed(user, t), Failed(address, t)];
    assert History(s, ops[..3]) == History(s, ops[..2]);
  }

  lemma FailuresOfTwo(user: Key, address: Key, t: int)
    ensures Failures([user, address], t) == [Failed(user, t), Failed(address, t)]
  {
    assert [user, address][..1] == [user] && [user][..0] == [];
    assert Failures([], t) == [] && Failures([user], t) == [Failed(user, t)];
  }

  lemma {:induction false} HistoryAppend(s: State, xs: seq<Timed>, ys: seq<Timed>)
    requires (forall i :: 0 <= i < |xs| ==> WellFormed(xs[i].op)) && forall i :: 0 <= i < |ys| ==> WellFormed(ys[i].op)
    ensures History(s, xs + ys) == History(s, xs) + History(Run(s, xs), ys)
  {
    hide After, Events, WellFormed;
    if ys == [] {
      assert xs + ys == xs;
    } else {
      var n := |ys| - 1;
      assert (xs + ys)[..|xs| + n] == xs + ys[..n];
      HistoryAppend(s, xs, ys[..n]);
      RunAppend(s, xs, ys[..n]);
    }
  }

  /** The failures of a bucket, counted from its whole history. */
  function Remembered(h: seq<Event>, key: Key): Option<Entry> {
    if h == [] then None
    else
      var before := Remembered(h[..|h| - 1], key);
      match h[|h| - 1]
      case Failed(k, t) => if k == key then Some(Counted(before, t)) else before
      case Cleared(k) => if k == key then None else before
      case AllCleared => if Apart(key.kind) then before else None
  }

  /** The other keys of its map that failed since the bucket's last failure. */
  function Others(h: seq<Event>, key: Key): set<Key> {
    if h == [] then {}
    else
      var rest := h[..|h| - 1];
      match h[|h| - 1]
      case Failed(k, t) =>
        if k == key then {}
        else if SameMap(k.kind, key.kind) then Others(rest, key) + {k}
        else Others(rest, key)
      case Cleared(k) => if k == key then {} else Others(rest, key)
      case AllCleared => if Apart(key.kind) then Others(rest, key) else {}
  }

  /** Between any two of the failures it remembers, at most n other keys of its map failed. */
  predicate GapsAtMost(h: seq<Event>, key: Key, n: nat) {
    if h == [] then true
    else
      var rest := h[..|h| - 1];
      match h[|h| - 1]
      case Failed(k, t) =>
        if k != key then GapsAtMost(rest, key, n)
        else Live(Remembered(rest, key), t).Some? ==> GapsAtMost(rest, key, n) && |Others(rest, key)| <= n
      case Cleared(k) => k == key || GapsAtMost(rest, key, n)
      case AllCleared => !Apart(key.kind) || GapsAtMost(rest, key, n)
  }

  lemma {:induction false} GapsGrow(h: seq<Event>, key: Key, m: nat, n: nat)
    requires GapsAtMost(h, key, m) && m <= n
    ensures GapsAtMost(h, key, n)
  {
    hide Remembered, Others;
    if h != [] {
      var rest := h[..|h| - 1];
      if GapsAtMost(rest, key, m) {
        GapsGrow(rest, key, m, n);
      }
    }
  }

  /** Fewer than the map holds. */
  predicate Uncrowded(h: seq<Event>, key: Key) {
    GapsAtMost(h, key, MAX_KEYS - 1)
  }

  // ---- the map against the history ----

  /** A key the map does not hold: nothing to remember, or forgotten, or crowded out. */
  ghost predicate Gone(h: seq<Event>, key: Key, now: int) {
    Live(Remembered(h, key), now).None? || |Others(h, key)| >= MAX_KEYS
  }

  ghost predicate Matches(h: seq<Event>, key: Key, e: Entry) {
    match Remembered(h, key)
    case None => false
    case Some(r) => r.last == e.last && e.failures <= r.failures && (Uncrowded(h, key) ==> e == r)
  }

  /** The entries are of this map, in the order of their last failures, and match the history. */
  ghost predicate Entries(table: Table, h: seq<Event>, mapKind: Kind, now: int) {
    && Unique(table)
    && (forall i :: 0 <= i < |table| ==> SameMap(table[i].0.kind, mapKind) && table[i].1.last <= now)
    && (forall i :: 0 <= i < |table| ==> Matches(h, table[i].0, table[i].1))
    && (forall i, j :: 0 <= i < j < |table| ==> table[i].1.last <= table[j].1.last)
  }

  /** Every key after another failed since that one last failed. */
  ghost predicate Newer(table: Table, h: seq<Event>) {
    forall i, j :: 0 <= i < j < |table| ==> table[j].0 in Others(h, table[i].0)
  }

  ghost predicate Complete(table: Table, h: seq<Event>, mapKind: Kind, now: int) {
    forall key: Key :: SameMap(key.kind, mapKind) && !Has(table, key) ==> Gone(h, key, now)
  }

  ghost predicate Refines(table: Table, h: seq<Event>, mapKind: Kind, now: int) {
    Entries(table, h, mapKind, now) && Newer(table, h) && Complete(table, h, mapKind, now)
  }

  lemma {:induction false} LastEvent(h: seq<Event>, e: Event)
    ensures (h + [e])[..|h + [e]| - 1] == h && (h + [e])[|h + [e]| - 1] == e
  {}

  lemma {:induction false} LaterIsFine(table: Table, h: seq<Event>, mapKind: Kind, now: int, t: int)
    requires Refines(table, h, mapKind, now) && now <= t
    ensures Refines(table, h, mapKind, t)
  {
    forall key: Key | SameMap(key.kind, mapKind) && !Has(table, key)
      ensures Gone(h, key, t)
    {
      assert Gone(h, key, now);
    }
  }

  lemma {:induction false} RemovedRefines(
      table: Table, w: Table, at: nat, h: seq<Event>, mapKind: Kind, now: int, key: Key)
    requires Entries(table, h, mapKind, now) && Newer(table, h)
    requires Removed(table, w, key, at)
    ensures Entries(w, h, mapKind, now) && Newer(w, h)
  {
    hide Others, Matches, Uncrowded;
  }

  /** Deleting an entry that is 15 minutes old, or one the history just cleared. */
  lemma {:induction false} WithoutRefines(table: Table, h: seq<Event>, mapKind: Kind, now: int, key: Key)
    requires Refines(table, h, mapKind, now)
    requires Gone(h, key, now)
    ensures Refines(Without(table, key), h, mapKind, now)
  {
    hide Entries, Newer, Others, Remembered, Gone;
    UniqueEntries(table, h, mapKind, now);
    WithoutRemoves(table, key);
    RemovedRefines(table, Without(table, key), Find(table, key), h, mapKind, now, key);
    forall k: Key | SameMap(k.kind, mapKind) && !Has(Without(table, key), k)
      ensures Gone(h, k, now)
    {
      WithoutKeeps(table, key, k);
    }
  }

  lemma {:induction false} UniqueEntries(table: Table, h: seq<Event>, mapKind: Kind, now: int)
    requires Entries(table, h, mapKind, now)
    ensures Unique(table)
  {}

  lemma {:induction false} ForgetRefines(table: Table, h: seq<Event>, mapKind: Kind, now: int, key: Key)
    requires Refines(table, h, mapKind, now)
    ensures Refines(Forget(table, key, now), h, mapKind, now)
  {
    if Forget(table, key, now) != table {
      var i := Find(table, key);
      assert Matches(h, table[i].0, table[i].1);
      WithoutRefines(table, h, mapKind, now, key);
    }
  }

  lemma {:induction false} ForgetAllRefines(table: Table, h: seq<Event>, mapKind: Kind, now: int, buckets: seq<Key>)
    requires Refines(table, h, mapKind, now)
    ensures Refines(ForgetAll(table, buckets, now), h, mapKind, now)
  {
    if buckets != [] {
      var n := |buckets| - 1;
      ForgetAllRefines(table, h, mapKind, now, buckets[..n]);
      ForgetRefines(ForgetAll(table, buckets[..n], now), h, mapKind, now, buckets[n]);
    }
  }

  /** The bucket that failed: what the map counts against what the history counts. */
  lemma {:induction false} FailedMatches(table: Table, h: seq<Event>, mapKind: Kind, now: int, key: Key, t: int)
    requires Refines(table, h, mapKind, now) && now <= t && SameMap(key.kind, mapKind)
    ensures Matches(h + [Failed(key, t)], key, Counted(Lookup(table, key), t))
  {
    LastEvent(h, Failed(key, t));
    var i := Find(table, key);
    if i < |table| {
      assert Matches(h, table[i].0, table[i].1);
    } else {
      assert Gone(h, key, now);
    }
  }

  lemma {:induction false} OtherKeysAfterFailure(h: seq<Event>, key: Key, t: int, other: Key, now: int)
    requires other != key && SameMap(key.kind, other.kind)
    ensures Remembered(h + [Failed(key, t)], other) == Remembered(h, other)
    ensures Others(h + [Failed(key, t)], other) == Others(h, other) + {key}
    ensures |Others(h + [Failed(key, t)], other)| >= |Others(h, other)|
    ensures Uncrowded(h + [Failed(key, t)], other) == Uncrowded(h, other)
    ensures Gone(h, other, now) && now <= t ==> Gone(h + [Failed(key, t)], other, t)
    ensures forall e :: Matches(h, other, e) ==> Matches(h + [Failed(key, t)], other, e)
  {
    LastEvent(h, Failed(key, t));
    if key in Others(h, other) {
      assert Others(h, other) + {key} == Others(h, other);
    }
  }

  lemma {:induction false} RemovedAfterFailure(
      table: Table, w: Table, at: nat, h: seq<Event>, mapKind: Kind, now: int, key: Key, t: int)
    requires Entries(table, h, mapKind, now) && Newer(table, h) && now <= t && SameMap(key.kind, mapKind)
    requires Removed(table, w, key, at)
    ensures Entries(w, h + [Failed(key, t)], mapKind, now)
    ensures Newer(w, h + [Failed(key, t)])
    ensures forall i :: 0 <= i < |w| ==> key in Others(h + [Failed(key, t)], w[i].0)
  {
    hide Matches, Remembered, Others;
    forall i | 0 <= i < |w|
      ensures Matches(h + [Failed(key, t)], w[i].0, w[i].1)
      ensures Others(h + [Failed(key, t)], w[i].0) == Others(h, w[i].0) + {key}
    {
      OtherKeysAfterFailure(h, key, t, w[i].0, now);
    }
  }

  lemma {:induction false} CompleteAfterFailure(table: Table, h: seq<Event>, mapKind: Kind, now: int, key: Key, t: int)
    requires Unique(table) && Complete(table, h, mapKind, now) && now <= t && SameMap(key.kind, mapKind)
    ensures Complete(Count(table, key, t), h + [Failed(key, t)], mapKind, t)
  {
    hide Matches, Gone, Counted;
    forall k: Key | SameMap(k.kind, mapKind) && !Has(Count(table, key, t), k)
      ensures Gone(h + [Failed(key, t)], k, t)
    {
      HasLookup(Count(table, key, t), k);
      HasLookup(table, k);
      PutLastKeeps(table, key, Counted(Lookup(table, key), t), k);
      OtherKeysAfterFailure(h, key, t, k, now);
    }
  }

  lemma HasLookup(table: Table, key: Key)
    ensures Has(table, key) <==> Lookup(table, key).Some?
  {}

  lemma {:induction false} CountRefines(table: Table, h: seq<Event>, mapKind: Kind, now: int, key: Key, t: int)
    requires Refines(table, h, mapKind, now) && now <= t && SameMap(key.kind, mapKind)
    ensures Refines(Count(table, key, t), h + [Failed(key, t)], mapKind, t)
  {
    hide Matches, Others, Counted, Complete;
    FailedMatches(table, h, mapKind, now, key, t);
    WithoutRemoves(table, key);
    RemovedAfterFailure(table, Without(table, key), Find(table, key), h, mapKind, now, key, t);
    CompleteAfterFailure(table, h, mapKind, now, key, t);
    CountedLast(Lookup(table, key), t);
    PushedRefines(Without(table, key), h + [Failed(key, t)], mapKind, now, key, Counted(Lookup(table, key), t), t);
  }

  lemma {:induction false} PushedRefines(w: Table, h: seq<Event>, mapKind: Kind, now: int, key: Key, e: Entry, t: int)
    requires Entries(w, h, mapKind, now) && Newer(w, h) && now <= t == e.last
    requires forall i :: 0 <= i < |w| ==> w[i].0 != key && key in Others(h, w[i].0)
    requires Matches(h, key, e) && SameMap(key.kind, mapKind)
    ensures Entries(w + [(key, e)], h, mapKind, t) && Newer(w + [(key, e)], h)
  {
    hide Matches, Others;
  }

  lemma CountedLast(b: Option<Entry>, t: int)
    ensures Counted(b, t).last == t
  {}

  lemma {:induction false} CountAllRefines(
      table: Table, h: seq<Event>, mapKind: Kind, now: int, buckets: seq<Key>, t: int)
    requires Refines(table, h, mapKind, now) && now <= t
    requires forall i :: 0 <= i < |buckets| ==> SameMap(buckets[i].kind, mapKind)
    ensures Refines(CountAll(table, buckets, t), h + Failures(buckets, t), mapKind, t)
  {
    hide Refines, Count;
    if buckets == [] {
      LaterIsFine(table, h, mapKind, now, t);
      assert h + [] == h;
    } else {
      var n := |buckets| - 1;
      CountAllRefines(table, h, mapKind, now, buckets[..n], t);
      CountRefines(CountAll(table, buckets[..n], t), h + Failures(buckets[..n], t), mapKind, t, buckets[n], t);
      assert h + Failures(buckets, t) == h + Failures(buckets[..n], t) + [Failed(buckets[n], t)];
    }
  }

  // ---- eviction ----

  function KeySet(table: Table): set<Key> {
    set i | 0 <= i < |table| :: table[i].0
  }

  lemma {:induction false} KeySetSize(table: Table)
    requires Unique(table)
    ensures |KeySet(table)| == |table|
  {
    if table != [] {
      var n := |table| - 1;
      KeySetSize(table[..n]);
      assert KeySet(table) == KeySet(table[..n]) + {table[n].0};
    }
  }

  /** A key pushed out has seen MAX_KEYS other keys of its map fail since. */
  lemma {:induction false} DropRefines(table: Table, h: seq<Event>, mapKind: Kind, now: int)
    requires Refines(table, h, mapKind, now) && |table| > MAX_KEYS
    ensures Refines(table[1..], h, mapKind, now)
  {
    hide Matches, Others;
    var oldest := table[0].0;
    forall x | x in KeySet(table[1..])
      ensures x in Others(h, oldest)
    {
      var i :| 0 <= i < |table[1..]| && table[1..][i].0 == x;
      assert table[i + 1].0 in Others(h, table[0].0);
    }
    KeySetSize(table[1..]);
    SubsetSize(KeySet(table[1..]), Others(h, oldest));
    forall k: Key | SameMap(k.kind, mapKind) && !Has(table[1..], k)
      ensures Gone(h, k, now)
    {
      DropFirstKeeps(table, k);
    }
  }

  lemma {:induction false} TrimRefines(table: Table, h: seq<Event>, mapKind: Kind, now: int)
    requires Refines(table, h, mapKind, now)
    ensures Refines(Trim(table), h, mapKind, now) && |Trim(table)| <= MAX_KEYS
  {
    if |table| > MAX_KEYS {
      DropRefines(table, h, mapKind, now);
      TrimRefines(table[1..], h, mapKind, now);
    }
  }

  // ---- clearing ----

  lemma {:induction false} ClearedGone(h: seq<Event>, e: Event, key: Key, now: int)
    requires e == Cleared(key) || (e == AllCleared && !Apart(key.kind))
    ensures Gone(h + [e], key, now)
  {
    LastEvent(h, e);
  }

  lemma {:induction false} Untouched(h: seq<Event>, e: Event, key: Key)
    requires match e
             case Failed(k, _) => !SameMap(k.kind, key.kind)
             case Cleared(k) => k != key
             case AllCleared => Apart(key.kind)
    ensures Remembered(h + [e], key) == Remembered(h, key) && Others(h + [e], key) == Others(h, key)
    ensures Uncrowded(h + [e], key) == Uncrowded(h, key)
  {
    LastEvent(h, e);
  }

  lemma {:induction false} SameEntries(w: Table, h: seq<Event>, h': seq<Event>, mapKind: Kind, now: int, key: Key)
    requires Entries(w, h, mapKind, now) && Newer(w, h)
    requires forall i :: 0 <= i < |w| ==> w[i].0 != key
    requires forall k :: k != key ==>
      Remembered(h', k) == Remembered(h, k) && Others(h', k) == Others(h, k) && Uncrowded(h', k) == Uncrowded(h, k)
    ensures Entries(w, h', mapKind, now) && Newer(w, h')
  {
    hide Remembered, Others, Uncrowded;
  }

  lemma {:induction false} ClearRefines(table: Table, h: seq<Event>, mapKind: Kind, now: int, key: Key)
    requires Refines(table, h, mapKind, now)
    ensures Refines(Without(table, key), h + [Cleared(key)], mapKind, now)
  {
    hide Remembered, Others, Entries, Newer, Gone, Uncrowded;
    var h' := h + [Cleared(key)];
    UniqueEntries(table, h, mapKind, now);
    WithoutRemoves(table, key);
    RemovedRefines(table, Without(table, key), Find(table, key), h, mapKind, now, key);
    ClearedGone(h, Cleared(key), key, now);
    forall k | k != key
      ensures Remembered(h', k) == Remembered(h, k) && Others(h', k) == Others(h, k)
        && Uncrowded(h', k) == Uncrowded(h, k)
    {
      Untouched(h, Cleared(key), k);
    }
    SameEntries(Without(table, key), h, h', mapKind, now, key);
    forall k: Key | SameMap(k.kind, mapKind) && !Has(Without(table, key), k)
      ensures Gone(h', k, now)
    {
      if k != key {
        WithoutKeeps(table, key, k);
        assert Gone(h, k, now);
        GoneAlike(h, h', k, now);
      }
    }
  }

  lemma {:induction false} GoneAlike(h: seq<Event>, h': seq<Event>, key: Key, now: int)
    requires Remembered(h', key) == Remembered(h, key) && Others(h', key) == Others(h, key)
    ensures Gone(h', key, now) <==> Gone(h, key, now)
  {}

  lemma {:induction false} AllClearedRefines(h: seq<Event>, now: int)
    ensures Refines([], h + [AllCleared], User, now)
  {
    forall k: Key | SameMap(k.kind, User)
      ensures Gone(h + [AllCleared], k, now)
    {
      ClearedGone(h, AllCleared, k, now);
    }
  }

  /** An event of another map leaves this one as it was. */
  lemma {:induction false} ElsewhereRefines(table: Table, h: seq<Event>, mapKind: Kind, now: int, e: Event)
    requires Refines(table, h, mapKind, now)
    requires match e
             case Failed(k, _) => !SameMap(k.kind, mapKind)
             case Cleared(k) => !SameMap(k.kind, mapKind)
             case AllCleared => Apart(mapKind)
    ensures Refines(table, h + [e], mapKind, now)
  {
    hide Remembered, Others, Uncrowded;
    forall k: Key | SameMap(k.kind, mapKind)
      ensures Remembered(h + [e], k) == Remembered(h, k) && Others(h + [e], k) == Others(h, k)
      ensures Uncrowded(h + [e], k) == Uncrowded(h, k)
    {
      Untouched(h, e, k);
    }
    forall k: Key | SameMap(k.kind, mapKind) && !Has(table, k)
      ensures Gone(h + [e], k, now)
    {
      assert Gone(h, k, now);
    }
  }

  lemma {:induction false} FailuresElsewhere(
      table: Table, h: seq<Event>, mapKind: Kind, now: int, buckets: seq<Key>, t: int)
    requires Refines(table, h, mapKind, now) && Apart(mapKind)
    requires forall i :: 0 <= i < |buckets| ==> !Apart(buckets[i].kind)
    ensures Refines(table, h + Failures(buckets, t), mapKind, now)
  {
    if buckets == [] {
      assert h + [] == h;
    } else {
      var n := |buckets| - 1;
      FailuresElsewhere(table, h, mapKind, now, buckets[..n], t);
      ElsewhereRefines(table, h + Failures(buckets[..n], t), mapKind, now, Failed(buckets[n], t));
      assert h + Failures(buckets, t) == h + Failures(buckets[..n], t) + [Failed(buckets[n], t)];
    }
  }

  // ---- the whole state ----

  ghost predicate RefinesAll(s: State, h: seq<Event>, now: int) {
    && Refines(s.main, h, User, now) && |s.main| <= MAX_KEYS
    && Refines(s.shares, h, Share, now) && |s.shares| <= MAX_KEYS
    && Refines(s.oidc, h, Oidc, now) && |s.oidc| <= MAX_KEYS
  }

  lemma {:induction false} ShorterForgotten(table: Table, buckets: seq<Key>, t: int)
    ensures |ForgetAll(table, buckets, t)| <= |table|
  {
    if buckets != [] {
      ShorterForgotten(table, buckets[..|buckets| - 1], t);
    }
  }

  lemma {:induction false} KeyStep(s: State, h: seq<Event>, now: int, key: Key, t: int, table: Table, e: Event)
    requires RefinesAll(s, h, now) && now <= t
    requires e == Failed(key, t) || e == Cleared(key)
    requires Refines(table, h + [e], key.kind, t) && |table| <= MAX_KEYS
    ensures RefinesAll(WithTable(s, key.kind, table), h + [e], t)
  {
    hide Refines;
    SameMapRefines(table, h + [e], key.kind, t);
    LaterIsFine(s.main, h, User, now, t);
    LaterIsFine(s.shares, h, Share, now, t);
    LaterIsFine(s.oidc, h, Oidc, now, t);
    if Apart(key.kind) {
      ElsewhereRefines(s.main, h, User, t, e);
    }
    if key.kind != Share {
      ElsewhereRefines(s.shares, h, Share, t, e);
    }
    if key.kind != Oidc {
      ElsewhereRefines(s.oidc, h, Oidc, t, e);
    }
  }

  lemma {:induction false} SameMapRefines(table: Table, h: seq<Event>, kind: Kind, now: int)
    ensures !Apart(kind) ==> (Refines(table, h, kind, now) <==> Refines(table, h, User, now))
  {}

  lemma {:induction false} LaterAll(s: State, h: seq<Event>, now: int, t: int)
    requires RefinesAll(s, h, now) && now <= t
    ensures RefinesAll(s, h, t)
  {
    LaterIsFine(s.main, h, User, now, t);
    LaterIsFine(s.shares, h, Share, now, t);
    LaterIsFine(s.oidc, h, Oidc, now, t);
  }

  lemma {:induction false} FailStep(s: State, h: seq<Event>, now: int, key: Key, t: int)
    requires RefinesAll(s, h, now) && now <= t
    ensures RefinesAll(WithTable(s, key.kind, Trim(Count(TableOf(s, key.kind), key, t))), h + [Failed(key, t)], t)
  {
    hide Refines;
    var table := TableOf(s, key.kind);
    SameMapRefines(table, h, key.kind, now);
    CountRefines(table, h, key.kind, now, key, t);
    TrimRefines(Count(table, key, t), h + [Failed(key, t)], key.kind, t);
    KeyStep(s, h, now, key, t, Trim(Count(table, key, t)), Failed(key, t));
  }

  lemma {:induction false} ForgetStep(s: State, h: seq<Event>, t: int, key: Key)
    requires RefinesAll(s, h, t)
    ensures RefinesAll(WithTable(s, key.kind, Forget(TableOf(s, key.kind), key, t)), h, t)
  {
    var table := TableOf(s, key.kind);
    SameMapRefines(table, h, key.kind, t);
    ForgetRefines(table, h, key.kind, t, key);
    SameMapRefines(Forget(table, key, t), h, key.kind, t);
    WithoutRemoves(table, key);
  }

  lemma {:induction false} ClearStep(s: State, h: seq<Event>, t: int, key: Key)
    requires RefinesAll(s, h, t)
    ensures RefinesAll(WithTable(s, key.kind, Without(TableOf(s, key.kind), key)), h + [Cleared(key)], t)
  {
    var table := TableOf(s, key.kind);
    SameMapRefines(table, h, key.kind, t);
    ClearRefines(table, h, key.kind, t, key);
    WithoutRemoves(table, key);
    KeyStep(s, h, t, key, t, Without(table, key), Cleared(key));
  }

  lemma {:induction false} AttemptStep(s: State, h: seq<Event>, now: int, buckets: seq<Key>, t: int)
    requires RefinesAll(s, h, now) && now <= t && WellFormed(Attempt(buckets))
    ensures RefinesAll(After(s, Attempt(buckets), t).state, h + Events(s, Attempt(buckets), t), t)
  {
    hide Refines, ForgetAll, CountAll, Trim;
    LaterAll(s, h, now, t);
    ForgetAllRefines(s.main, h, User, t, buckets);
    ShorterForgotten(s.main, buckets, t);
    if AfterAttempt(s, buckets, t).wait == 0 {
      CountAllRefines(ForgetAll(s.main, buckets, t), h, User, t, buckets, t);
      TrimRefines(CountAll(ForgetAll(s.main, buckets, t), buckets, t), h + Failures(buckets, t), User, t);
      FailuresElsewhere(s.shares, h, Share, t, buckets, t);
      FailuresElsewhere(s.oidc, h, Oidc, t, buckets, t);
    } else {
      assert h + [] == h;
    }
  }

  /** Every operation keeps the maps a refinement of the history. */
  lemma {:induction false} StepRefines(s: State, h: seq<Event>, now: int, op: Op, t: int)
    requires RefinesAll(s, h, now) && now <= t && WellFormed(op)
    ensures RefinesAll(After(s, op, t).state, h + Events(s, op, t), t)
  {
    hide Refines, Forget, Count, Trim, Without;
    assert h + [] == h;
    LaterAll(s, h, now, t);
    match op
    case Waiting(key) => ForgetStep(s, h, t, key);
    case Attempt(buckets) => AttemptStep(s, h, now, buckets, t);
    case CheckGlobal =>
    case Fail(key) => FailStep(s, h, now, key, t);
    case AddressFailure(key) =>
      FailStep(s, h, now, key, t);
      ForgetStep(s, h, t, key);
    case Succeed(key) =>
      ClearStep(s, h, t, key);
    case LookAtFlag(flag, _) =>
      if Resets(s, flag) {
        AllClearedRefines(h, t);
        ElsewhereRefines(s.shares, h, Share, t, AllCleared);
        ElsewhereRefines(s.oidc, h, Oidc, t, AllCleared);
      }
  }

  lemma {:induction false} RunRefines(ops: seq<Timed>, end: int)
    requires GoodRun(ops) && forall i :: 0 <= i < |ops| ==> ops[i].t <= end
    ensures RefinesAll(Run(EMPTY, ops), History(EMPTY, ops), end)
  {
    hide After, Events, Refines;
    if ops == [] {
      EmptyRefines(end);
    } else {
      var n := |ops| - 1;
      RunRefines(ops[..n], ops[n].t);
      StepRefines(Run(EMPTY, ops[..n]), History(EMPTY, ops[..n]), ops[n].t, ops[n].op, ops[n].t);
      LaterAll(Run(EMPTY, ops), History(EMPTY, ops), ops[n].t, end);
    }
  }

  lemma EmptyRefines(now: int)
    ensures RefinesAll(EMPTY, [], now)
  {}

  /** Every map stays within MAX_KEYS and in the order of its keys' last failures. */
  lemma {:induction false} MapsStayBounded(ops: seq<Timed>, kind: Kind, i: nat, j: nat)
    requires GoodRun(ops)
    ensures var table := TableOf(Run(EMPTY, ops), kind);
      && |table| <= 10_000
      && Unique(table)
      && (i < j < |table| ==> table[i].1.last <= table[j].1.last)
  {
    RunRefines(ops, if ops == [] then 0 else ops[|ops| - 1].t);
  }

  /** A wait is what the bucket's whole history says, as long as fewer than MAX_KEYS other
      keys of its map have failed since its last failure, and so between any two before it. */
  lemma {:induction false} WaitIsWhatHistorySays(ops: seq<Timed>, key: Key, t: int)
    requires GoodRun(ops) && forall i :: 0 <= i < |ops| ==> ops[i].t <= t
    requires |Others(History(EMPTY, ops), key)| < MAX_KEYS && Uncrowded(History(EMPTY, ops), key)
    ensures After(Run(EMPTY, ops), Waiting(key), t).wait == Wait(key.kind, Remembered(History(EMPTY, ops), key), t)
    ensures WaitOf(TableOf(Run(EMPTY, ops), key.kind), key, t)
         == Wait(key.kind, Remembered(History(EMPTY, ops), key), t)
  {
    hide Run, History, Remembered, Others, Uncrowded;
    var s, h := Run(EMPTY, ops), History(EMPTY, ops);
    RunRefines(ops, t);
    var table := TableOf(s, key.kind);
    SameMapRefines(table, h, key.kind, t);
    var i := Find(table, key);
    if i < |table| {
      assert Matches(h, table[i].0, table[i].1);
    } else {
      assert Gone(h, key, t);
    }
  }

  /** A crowded-out key is never made to wait longer than its history says. */
  lemma {:induction false} WaitNeverExceedsHistory(ops: seq<Timed>, key: Key, t: int)
    requires GoodRun(ops) && forall i :: 0 <= i < |ops| ==> ops[i].t <= t
    ensures After(Run(EMPTY, ops), Waiting(key), t).wait <= Wait(key.kind, Remembered(History(EMPTY, ops), key), t)
    ensures WaitOf(TableOf(Run(EMPTY, ops), key.kind), key, t)
         <= Wait(key.kind, Remembered(History(EMPTY, ops), key), t)
  {
    hide Run, History, Remembered, Others, Uncrowded;
    var s, h := Run(EMPTY, ops), History(EMPTY, ops);
    RunRefines(ops, t);
    var table := TableOf(s, key.kind);
    SameMapRefines(table, h, key.kind, t);
    var i := Find(table, key);
    if i < |table| {
      assert Matches(h, table[i].0, table[i].1);
      WaitGrows(key.kind, table[i].1, Remembered(h, key).value, t);
    }
  }

  lemma WaitGrows(kind: Kind, e: Entry, r: Entry, t: int)
    requires e.last == r.last && e.failures <= r.failures
    ensures Wait(kind, Some(e), t) <= Wait(kind, Some(r), t)
  {
    if kind != Setup && e.failures >= Free(kind) {
      TwoToGrows(e.failures - Free(kind), r.failures - Free(kind));
    }
  }
}
