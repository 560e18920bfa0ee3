/** What a refused caller is told (throttle.py, lines 139-174 and 196-211): the wait of its
    longest bucket, or of the window, and what is left of it at every retry. */
module ThrottleAnswers {
  import opened Common
  import opened OrderedDicts
  import opened Buckets
  import opened Windows
  import opened Throttle
  import opened ThrottleHistory
  import opened ThrottleBounds

  // ---- attempts ----

  /** No bucket waits longer, and if any waits at all one waits as long. */
  ghost predicate LongestOf(table: Table, buckets: seq<Key>, t: int, wait: int) {
    && wait >= 0 && (forall i :: 0 <= i < |buckets| ==> WaitOf(table, buckets[i], t) <= wait)
    && (wait > 0 ==> exists i :: 0 <= i < |buckets| && WaitOf(table, buckets[i], t) == wait)
  }

  lemma {:induction false} LongestIs(table: Table, buckets: seq<Key>, t: int)
    ensures LongestOf(table, buckets, t, Longest(table, buckets, t))
  {
    hide WaitOf;
    if buckets != [] {
      var n := |buckets| - 1;
      LongestIs(table, buckets[..n], t);
      assert forall i :: 0 <= i < n ==> buckets[..n][i] == buckets[i];
      var before := Longest(table, buckets[..n], t);
      if before > 0 {
        var i :| 0 <= i < n && WaitOf(table, buckets[..n][i], t) == before;
        assert WaitOf(table, buckets[i], t) == before;
      }
    }
  }

  /** An attempt is refused exactly when one of its buckets waits, with the wait of the longest. */
  lemma {:induction false} AttemptRefusedExactly(s: State, buckets: seq<Key>, t: int)
    ensures var wait := AfterAttempt(s, buckets, t).wait;
      && LongestOf(s.main, buckets, t, wait)
      && (wait > 0 <==> exists i :: 0 <= i < |buckets| && WaitOf(s.main, buckets[i], t) > 0)
  {
    hide WaitOf, ForgetAll, CountAll, Trim;
    LongestIs(s.main, buckets, t);
  }

  lemma LiveLater(a: Option<Entry>, b: Option<Entry>, kind: Kind, t: int, later: int)
    requires Live(a, t) == Live(b, t) && t <= later
    ensures Wait(kind, a, later) == Wait(kind, b, later)
  {}

  /** Looking a bucket up changes no wait. */
  lemma {:induction false} LookedUp(table: Table, buckets: seq<Key>, t: int, key: Key, later: int)
    requires Unique(table) && t <= later
    ensures WaitOf(ForgetAll(table, buckets, t), key, later) == WaitOf(table, key, later)
    ensures WaitOf(table, key, later) == Max(0, WaitOf(table, key, t) - (later - t))
  {
    ForgetAllKeeps(table, buckets, t, key);
    LiveLater(Lookup(ForgetAll(table, buckets, t), key), Lookup(table, key), key.kind, t, later);
    WaitIsTight(key.kind, Lookup(table, key), t, later);
  }

  lemma {:induction false} LongestShrinks(table: Table, all: seq<Key>, buckets: seq<Key>, t: int, later: int)
    requires Unique(table) && t <= later
    ensures Longest(ForgetAll(table, all, t), buckets, later) == Max(0, Longest(table, buckets, t) - (later - t))
  {
    hide WaitOf, ForgetAll;
    if buckets != [] {
      var n := |buckets| - 1;
      LongestShrinks(table, all, buckets[..n], t, later);
      LookedUp(table, all, t, buckets[n], later);
    }
  }

  /** The wait a refused attempt is told is tight: a retry of the same buckets at any earlier time
      is refused with what is left of it, and one at its end or later is let through, absent
      other traffic. */
  lemma {:induction false} AttemptWaitIsTight(s: State, buckets: seq<Key>, t: int, later: int)
    requires AllUnique(s) && t <= later
    ensures var refused := AfterAttempt(s, buckets, t);
      refused.wait > 0 ==>
        AfterAttempt(refused.state, buckets, later).wait == Max(0, t + refused.wait - later)
  {
    hide WaitOf, ForgetAll, CountAll, Trim, Longest;
    LongestShrinks(s.main, buckets, buckets, t, later);
  }

  /** And it counts nothing. */
  lemma {:induction false} RefusedAttemptCountsNothing(s: State, buckets: seq<Key>, t: int, key: Key, later: int)
    requires AllUnique(s) && t <= later && AfterAttempt(s, buckets, t).wait > 0
    ensures var after := AfterAttempt(s, buckets, t).state;
      && after == s.(main := after.main)
      && WaitOf(after.main, key, later) == WaitOf(s.main, key, later)
  {
    hide WaitOf, ForgetAll, CountAll, Trim, Longest;
    LookedUp(s.main, buckets, t, key, later);
  }

  // ---- the windows ----

  /** The wait a refused global check is told is tight too. */
  lemma {:induction false} GlobalWaitIsTight(s: State, t: int, later: int)
    requires |s.checks| <= GLOBAL_PER_MINUTE && t <= later
    ensures var refused := AfterCheck(s, t);
      refused.wait > 0 ==> AfterCheck(refused.state, later).wait == Max(0, t + refused.wait - later)
  {
    hide Expire;
    ExpireTwice(s.checks, t, later);
    QueueWaitIsTight(s.checks, GLOBAL_PER_MINUTE, t, later);
  }

  /** A failed share lookup or callback is refused exactly when its address waits or 300 were
      counted in the past minute. */
  lemma {:induction false} AddressRefusedExactly(ops: seq<Timed>, key: Key, t: int)
    requires GoodRun(ops) && Apart(key.kind) && forall i :: 0 <= i < |ops| ==> ops[i].t <= t
    ensures var line := if key.kind == Share then ShareFailures else OidcFailures;
      var s := Run(EMPTY, ops);
      After(s, AddressFailure(key), t).wait > 0
      <==> WaitOf(TableOf(s, key.kind), key, t) > 0 || Recent(LetThrough(EMPTY, ops, line), t, 60_000) >= 300
  {
    hide Tracks, Run, LetThrough, WaitOf, Expire, Forget, Count, Trim;
    var line := if key.kind == Share then ShareFailures else OidcFailures;
    var s := Run(EMPTY, ops);
    LineTracks(ops, line, t);
    QueueCounts(QueueFor(s, line), LetThrough(EMPTY, ops, line), t, MINUTE, t);
    HeadIsYoung(QueueFor(s, line), t, MINUTE);
  }
}
