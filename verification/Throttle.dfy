/** The sign-in throttles of throttle.py: three bounded maps of buckets and three
    sliding windows, changed in place under one lock. Each critical section is one
    operation, at the time its clock was read; `wait`, `attempt` and `check_global` are
    two, the look at the reset flag and their own. */
module Throttle {
  import opened Common
  import opened OrderedDicts
  import opened Buckets
  import opened Windows

  const MAX_KEYS := 10_000
  const MINUTE := 60_000
  const GLOBAL_PER_MINUTE := 60
  const SHARE_GLOBAL_PER_MINUTE := 300
  const OIDC_GLOBAL_PER_MINUTE := 300

  datatype Key = Key(kind: Kind, value: string)

  type Table = Items<Key, Entry>

  /** The reset flag file: not there, or there with its time. */
  datatype Flag = Absent | There(mtime: int)

  datatype State = State(
    main: Table, shares: Table, oidc: Table,
    checks: seq<int>, shareFailures: seq<int>, oidcFailures: seq<int>,
    flagSeen: Option<Flag>)

  /** The kinds whose buckets live in a map of their own. */
  predicate Apart(kind: Kind) {
    kind == Share || kind == Oidc
  }

  function PerMinute(kind: Kind): nat {
    if kind == Share then SHARE_GLOBAL_PER_MINUTE else OIDC_GLOBAL_PER_MINUTE
  }

  function TableOf(s: State, kind: Kind): Table {
    match kind
    case Share => s.shares
    case Oidc => s.oidc
    case _ => s.main
  }

  function WithTable(s: State, kind: Kind, table: Table): State {
    match kind
    case Share => s.(shares := table)
    case Oidc => s.(oidc := table)
    case _ => s.(main := table)
  }

  // ---- one table ----

  /** `_live` deletes an entry that is 15 minutes old. */
  function Forget(table: Table, key: Key, t: int): Table {
    if Lookup(table, key).Some? && Live(Lookup(table, key), t).None? then Without(table, key) else table
  }

  function ForgetAll(table: Table, buckets: seq<Key>, t: int): Table {
    if buckets == [] then table
    else Forget(ForgetAll(table, buckets[..|buckets| - 1], t), buckets[|buckets| - 1], t)
  }

  /** One more failure in this bucket, now the newest of its table. */
  function Count(table: Table, key: Key, t: int): Table {
    PutLast(table, key, Counted(Lookup(table, key), t))
  }

  function CountAll(table: Table, buckets: seq<Key>, t: int): Table {
    if buckets == [] then table
    else Count(CountAll(table, buckets[..|buckets| - 1], t), buckets[|buckets| - 1], t)
  }

  /** The oldest entries go past MAX_KEYS. */
  function Trim(table: Table): Table {
    if |table| > MAX_KEYS then Trim(table[1..]) else table
  }

  function WaitOf(table: Table, key: Key, t: int): int {
    Wait(key.kind, Lookup(table, key), t)
  }

  function Max(a: int, b: int): int {
    if a < b then b else a
  }

  function Longest(table: Table, buckets: seq<Key>, t: int): (w: int)
    ensures w >= 0
  {
    if buckets == [] then 0
    else Max(Longest(table, buckets[..|buckets| - 1], t), WaitOf(table, buckets[|buckets| - 1], t))
  }

  // ---- the operations, as functions of the state ----

  datatype Op =
    | Waiting(key: Key)
    | Attempt(buckets: seq<Key>)
    | CheckGlobal
    | Fail(key: Key)
    | AddressFailure(key: Key)
    | Succeed(key: Key)
    | LookAtFlag(flag: Flag, caller: Kind)  // the kind of bucket whose call opens with it

  /** Sign-in buckets go through `attempt`; share and single sign-on failures have their own way. */
  predicate WellFormed(op: Op) {
    match op
    case Attempt(buckets) => forall i :: 0 <= i < |buckets| ==> !Apart(buckets[i].kind)
    case AddressFailure(key) => Apart(key.kind)
    case _ => true
  }

  /** The state after, and the wait: 0 when the operation was let through. */
  datatype Done = Done(state: State, wait: int)

  function AfterWaiting(s: State, key: Key, t: int): Done {
    Done(WithTable(s, key.kind, Forget(TableOf(s, key.kind), key, t)), WaitOf(TableOf(s, key.kind), key, t))
  }

  function AfterAttempt(s: State, buckets: seq<Key>, t: int): Done {
    var looked := ForgetAll(s.main, buckets, t);
    var longest := Longest(s.main, buckets, t);
    if longest > 0 then Done(s.(main := looked), longest)
    else Done(s.(main := Trim(CountAll(looked, buckets, t))), 0)
  }

  function AfterCheck(s: State, t: int): Done {
    var checks := Expire(s.checks, t, MINUTE);
    if |checks| >= GLOBAL_PER_MINUTE then Done(s.(checks := checks), checks[0] + MINUTE - t)
    else Done(s.(checks := checks + [t]), 0)
  }

  function AfterFail(s: State, key: Key, t: int): Done {
    Done(WithTable(s, key.kind, Trim(Count(TableOf(s, key.kind), key, t))), 0)
  }

  function QueueOf(s: State, kind: Kind): seq<int> {
    if kind == Share then s.shareFailures else s.oidcFailures
  }

  function WithQueue(s: State, kind: Kind, queue: seq<int>): State {
    if kind == Share then s.(shareFailures := queue) else s.(oidcFailures := queue)
  }

  /** The longer of the address's own wait and the wait for a place among everyone's failures. */
  function AddressWait(s: State, key: Key, t: int): int {
    var queue := Expire(QueueOf(s, key.kind), t, MINUTE);
    Max(WaitOf(TableOf(s, key.kind), key, t), if |queue| >= PerMinute(key.kind) then queue[0] + MINUTE - t else 0)
  }

  function AfterAddressFailure(s: State, key: Key, t: int): Done
    requires Apart(key.kind)
  {
    var queue := Expire(QueueOf(s, key.kind), t, MINUTE);
    var table := TableOf(s, key.kind);
    var wait := AddressWait(s, key, t);
    if wait > 0 then Done(WithQueue(WithTable(s, key.kind, Forget(table, key, t)), key.kind, queue), wait)
    else Done(WithQueue(WithTable(s, key.kind, Trim(Count(table, key, t))), key.kind, queue + [t]), 0)
  }

  function AfterSucceed(s: State, key: Key): Done {
    Done(WithTable(s, key.kind, Without(TableOf(s, key.kind), key)), 0)
  }

  /** Whether this look clears the sign-in map: the flag is there and has changed since the last look. */
  predicate Resets(s: State, flag: Flag) {
    s.flagSeen.Some? && s.flagSeen != Some(flag) && flag.There?
  }

  function AfterLook(s: State, flag: Flag): Done {
    var cleared := if Resets(s, flag) then s.(main := [], checks := []) else s;
    Done(cleared.(flagSeen := Some(flag)), 0)
  }

  function After(s: State, op: Op, t: int): Done
    requires WellFormed(op)
  {
    match op
    case Waiting(key) => AfterWaiting(s, key, t)
    case Attempt(buckets) => AfterAttempt(s, buckets, t)
    case CheckGlobal => AfterCheck(s, t)
    case Fail(key) => AfterFail(s, key, t)
    case AddressFailure(key) => AfterAddressFailure(s, key, t)
    case Succeed(key) => AfterSucceed(s, key)
    case LookAtFlag(flag, _) => AfterLook(s, flag)
  }

  // ---- facts the methods need ----

  ghost predicate AllUnique(s: State) {
    Unique(s.main) && Unique(s.shares) && Unique(s.oidc)
  }

  lemma ForgetKeeps(table: Table, key: Key, t: int, other: Key)
    requires Unique(table)
    ensures Unique(Forget(table, key, t))
    ensures Live(Lookup(Forget(table, key, t), other), t) == Live(Lookup(table, other), t)
    ensures Lookup(Forget(table, key, t), key) == Live(Lookup(table, key), t)
    ensures Lookup(Forget(table, key, t), other) ==
      if other == key then Live(Lookup(table, key), t) else Lookup(table, other)
  {
    WithoutKeeps(table, key, other);
    WithoutKeeps(table, key, key);
  }

  lemma {:induction false} ForgetAllKeeps(table: Table, buckets: seq<Key>, t: int, other: Key)
    requires Unique(table)
    ensures Unique(ForgetAll(table, buckets, t))
    ensures Live(Lookup(ForgetAll(table, buckets, t), other), t) == Live(Lookup(table, other), t)
  {
    if buckets != [] {
      var n := |buckets| - 1;
      ForgetAllKeeps(table, buckets[..n], t, other);
      ForgetKeeps(ForgetAll(table, buckets[..n], t), buckets[n], t, other);
    }
  }

  lemma WaitOfLive(kind: Kind, b: Option<Entry>, t: int)
    ensures Wait(kind, b, t) == if Live(b, t).Some? then Wait(kind, Live(b, t), t) else 0
  {}

  function FailuresOf(entry: Option<Entry>): nat {
    if entry.Some? then entry.value.failures else 0
  }

  /** Looking the entry up first, which deletes an old one, and then storing one more failure. */
  lemma CountAfterForget(table: Table, key: Key, t: int)
    requires Unique(table)
    ensures PutLast(Forget(table, key, t), key, Entry(FailuresOf(Live(Lookup(table, key), t)) + 1, t))
         == Count(table, key, t)
    ensures Unique(Count(table, key, t))
  {
    ForgetKeeps(table, key, t, key);
    WithoutKeeps(table, key, key);
    CountUnique(table, key, t);
  }

  lemma CountForgotten(table: Table, key: Key, t: int)
    requires Unique(table)
    ensures Count(Forget(table, key, t), key, t) == Count(table, key, t)
  {
    ForgetKeeps(table, key, t, key);
    WithoutKeeps(table, key, key);
  }

  lemma CountUnique(table: Table, key: Key, t: int)
    requires Unique(table)
    ensures Unique(Count(table, key, t))
  {
    PutLastKeeps(table, key, Counted(Lookup(table, key), t), key);
  }

  lemma {:induction false} CountAllUnique(table: Table, buckets: seq<Key>, t: int)
    requires Unique(table)
    ensures Unique(CountAll(table, buckets, t))
  {
    if buckets != [] {
      CountAllUnique(table, buckets[..|buckets| - 1], t);
      CountUnique(CountAll(table, buckets[..|buckets| - 1], t), buckets[|buckets| - 1], t);
    }
  }

  lemma {:induction false} TrimUnique(table: Table)
    requires Unique(table)
    ensures Unique(Trim(table)) && |Trim(table)| <= MAX_KEYS
  {
    if |table| > MAX_KEYS {
      TrimUnique(table[1..]);
    }
  }

  lemma AfterUnique(s: State, op: Op, t: int)
    requires AllUnique(s) && WellFormed(op)
    ensures AllUnique(After(s, op, t).state)
  {
    match op
    case Waiting(key) => ForgetKeeps(TableOf(s, key.kind), key, t, key);
    case Attempt(buckets) =>
      ForgetAllKeeps(s.main, buckets, t, Key(User, ""));
      CountAllUnique(ForgetAll(s.main, buckets, t), buckets, t);
      TrimUnique(CountAll(ForgetAll(s.main, buckets, t), buckets, t));
    case CheckGlobal =>
    case Fail(key) =>
      CountUnique(TableOf(s, key.kind), key, t);
      TrimUnique(Count(TableOf(s, key.kind), key, t));
    case AddressFailure(key) =>
      ForgetKeeps(TableOf(s, key.kind), key, t, key);
      CountUnique(TableOf(s, key.kind), key, t);
      TrimUnique(Count(TableOf(s, key.kind), key, t));
    case Succeed(key) => WithoutKeeps(TableOf(s, key.kind), key, key);
    case LookAtFlag(_, _) =>
  }

  // ---- the module's own state ----

  class Throttles {
    const entries: OrderedDict<Key, Entry>
    const shares: OrderedDict<Key, Entry>
    const oidc: OrderedDict<Key, Entry>
    var checks: seq<int>
    var shareFailures: seq<int>
    var oidcFailures: seq<int>
    var flagSeen: Option<Flag>

    ghost const Repr: set<object> := {this, entries, shares, oidc}

    ghost function Now(): State
      reads this, entries, shares, oidc
    {
      State(entries.items, shares.items, oidc.items, checks, shareFailures, oidcFailures, flagSeen)
    }

    ghost predicate Valid()
      reads this, entries, shares, oidc
    {
      && entries != shares && entries != oidc && shares != oidc
      && AllUnique(Now())
    }

    constructor ()
      ensures Valid() && fresh(Repr)
      ensures Now() == State([], [], [], [], [], [], None)
    {
      entries := new OrderedDict();
      shares := new OrderedDict();
      oidc := new OrderedDict();
      checks, shareFailures, oidcFailures := [], [], [];
      flagSeen := None;
    }

    /** `_map`. */
    function MapOf(kind: Kind): OrderedDict<Key, Entry> {
      match kind
      case Share => shares
      case Oidc => oidc
      case _ => entries
    }

    /** `_live`. */
    method LiveEntry(key: Key, t: int) returns (entry: Option<Entry>)
      requires Valid()
      modifies MapOf(key.kind)
      ensures Valid()
      ensures Now() == WithTable(old(Now()), key.kind, Forget(TableOf(old(Now()), key.kind), key, t))
      ensures entry == Live(Lookup(TableOf(old(Now()), key.kind), key), t)
    {
      var table := MapOf(key.kind);
      ForgetKeeps(table.items, key, t, key);
      entry := Lookup(table.items, key);
      if entry.Some? && t - entry.value.last >= WINDOW {
        table.Pop(key);
        entry := None;
      }
    }

    /** `wait`: the flag first, whatever the kind of bucket. */
    method WaitFor(key: Key, flag: Flag, t: int) returns (wait: int)
      requires Valid()
      modifies Repr
      ensures Valid() && Done(Now(), wait) == AfterWaiting(AfterLook(old(Now()), flag).state, key, t)
    {
      ApplyResetFlag(flag);
      wait := LockedWait(key, t);
    }

    method LockedWait(key: Key, t: int) returns (wait: int)
      requires Valid()
      modifies Repr
      ensures Valid() && Done(Now(), wait) == After(old(Now()), Waiting(key), t)
    {
      var entry := LiveEntry(key, t);
      wait := if entry.Some? then Wait(key.kind, entry, t) else 0;
    }

    /** `_count`. */
    method CountFailure(key: Key, t: int)
      requires Valid()
      modifies MapOf(key.kind)
      ensures Valid()
      ensures Now() == WithTable(old(Now()), key.kind, Trim(Count(TableOf(old(Now()), key.kind), key, t)))
    {
      CountBucket(key, t);
      TrimUnique(MapOf(key.kind).items);
      DropOldest(MapOf(key.kind));
    }

    /** The entry looked up, counted once more, stored and moved to the end. */
    method CountBucket(key: Key, t: int)
      requires Valid()
      modifies MapOf(key.kind)
      ensures Valid()
      ensures Now() == WithTable(old(Now()), key.kind, Count(TableOf(old(Now()), key.kind), key, t))
    {
      hide Forget, PutLast, Count, Live;
      CountAfterForget(MapOf(key.kind).items, key, t);
      var entry := LiveEntry(key, t);
      MapOf(key.kind).SetLast(key, Entry(FailuresOf(entry) + 1, t));
    }

    /** Drops the keys that failed longest ago until MAX_KEYS are left. */
    static method DropOldest(table: OrderedDict<Key, Entry>)
      modifies table
      ensures table.items == Trim(old(table.items))
    {
      while |table.items| > MAX_KEYS
        invariant Trim(table.items) == Trim(old(table.items))
        decreases |table.items|
      {
        table.PopFirst();
      }
    }

    /** `attempt`: the flag first, then refused as a whole by its longest wait, or counted in every bucket. */
    method TryAttempt(buckets: seq<Key>, flag: Flag, t: int) returns (wait: int)
      requires Valid() && WellFormed(Attempt(buckets))
      modifies Repr
      ensures Valid() && Done(Now(), wait) == AfterAttempt(AfterLook(old(Now()), flag).state, buckets, t)
    {
      hide AfterAttempt;
      ApplyResetFlag(flag);
      wait := LockedAttempt(buckets, t);
    }

    method LockedAttempt(buckets: seq<Key>, t: int) returns (wait: int)
      requires Valid() && WellFormed(Attempt(buckets))
      modifies Repr
      ensures Valid() && Done(Now(), wait) == After(old(Now()), Attempt(buckets), t)
    {
      hide Forget, Wait, Live, CountAll;
      ghost var s := Now();
      AfterUnique(s, Attempt(buckets), t);
      wait := 0;
      for i := 0 to |buckets|
        invariant Valid() && Now() == s.(main := ForgetAll(s.main, buckets[..i], t))
        invariant wait == Longest(s.main, buckets[..i], t)
      {
        assert buckets[..i + 1][..i] == buckets[..i];
        ForgetAllKeeps(s.main, buckets[..i], t, buckets[i]);
        var entry := LiveEntry(buckets[i], t);
        WaitOfLive(buckets[i].kind, Lookup(s.main, buckets[i]), t);
        wait := Max(wait, if entry.Some? then Wait(buckets[i].kind, entry, t) else 0);
      }
      assert buckets[..|buckets|] == buckets;
      if wait > 0 {
        return;
      }
      CountBuckets(buckets, t);
      TrimUnique(entries.items);
      DropOldest(entries);
    }

    /** The second loop of `attempt`. */
    method CountBuckets(buckets: seq<Key>, t: int)
      requires Valid() && WellFormed(Attempt(buckets))
      modifies entries
      ensures Valid() && Now() == old(Now()).(main := CountAll(old(entries.items), buckets, t))
    {
      hide Count;
      ghost var s := Now();
      for i := 0 to |buckets|
        invariant Valid() && Now() == s.(main := CountAll(s.main, buckets[..i], t))
      {
        assert buckets[..i + 1][..i] == buckets[..i];
        CountBucket(buckets[i], t);
      }
      assert buckets[..|buckets|] == buckets;
    }

    /** `check_global`: the flag first. */
    method TryGlobal(flag: Flag, t: int) returns (wait: int)
      requires Valid()
      modifies Repr
      ensures Valid() && Done(Now(), wait) == AfterCheck(AfterLook(old(Now()), flag).state, t)
    {
      ApplyResetFlag(flag);
      wait := LockedCheck(t);
    }

    method LockedCheck(t: int) returns (wait: int)
      requires Valid()
      modifies this
      ensures Valid() && Done(Now(), wait) == After(old(Now()), CheckGlobal, t)
    {
      while checks != [] && t - checks[0] >= MINUTE
        invariant Expire(checks, t, MINUTE) == Expire(old(checks), t, MINUTE)
        invariant Now() == old(Now()).(checks := checks)
        decreases |checks|
      {
        checks := checks[1..];
      }
      if |checks| >= GLOBAL_PER_MINUTE {
        return checks[0] + MINUTE - t;
      }
      checks := checks + [t];
      wait := 0;
    }

    /** `fail`. */
    method FailBucket(key: Key, t: int)
      requires Valid()
      modifies Repr
      ensures Valid() && Now() == After(old(Now()), Fail(key), t).state
    {
      CountFailure(key, t);
    }

    /** `_address_failure`: a refused one counts nothing. */
    method FailAddress(key: Key, t: int) returns (wait: int)
      requires Valid() && Apart(key.kind)
      modifies Repr
      ensures Valid() && Done(Now(), wait) == After(old(Now()), AddressFailure(key), t)
    {
      ghost var s := Now();
      ghost var table := TableOf(s, key.kind);
      hide Forget, Count, Trim, Live, Wait;
      WaitOfLive(key.kind, Lookup(table, key), t);
      CountForgotten(table, key, t);
      var entry := LiveEntry(key, t);
      wait := if entry.Some? then Wait(key.kind, entry, t) else 0;
      var queue := if key.kind == Share then shareFailures else oidcFailures;
      while queue != [] && t - queue[0] >= MINUTE
        invariant Expire(queue, t, MINUTE) == Expire(QueueOf(s, key.kind), t, MINUTE)
        decreases |queue|
      {
        queue := queue[1..];
      }
      if |queue| >= PerMinute(key.kind) {
        wait := Max(wait, queue[0] + MINUTE - t);
      }
      if wait <= 0 {
        CountFailure(key, t);
        queue := queue + [t];
        wait := 0;
      }
      if key.kind == Share {
        shareFailures := queue;
      } else {
        oidcFailures := queue;
      }
    }

    /** `succeed`. */
    method SucceedBucket(key: Key)
      requires Valid()
      modifies Repr
      ensures Valid() && Now() == AfterSucceed(old(Now()), key).state
    {
      WithoutKeeps(TableOf(Now(), key.kind), key, key);
      var table := MapOf(key.kind);
      table.Pop(key);
    }

    /** `_apply_reset_flag`. */
    method ApplyResetFlag(flag: Flag)
      requires Valid()
      modifies Repr
      ensures Valid() && Now() == AfterLook(old(Now()), flag).state
      ensures flagSeen == Some(flag) && shares.items == old(shares.items) && oidc.items == old(oidc.items)
      ensures var before := old(flagSeen);
        var clears := before.Some? && flag.There? && (before.value.Absent? || before.value.mtime != flag.mtime);
        && entries.items == (if clears then [] else old(entries.items))
        && checks == (if clears then [] else old(checks))
    {
      if flagSeen.Some? && flagSeen != Some(flag) && flag.There? {
        entries.Clear();
        checks := [];
      }
      flagSeen := Some(flag);
    }
  }
}
