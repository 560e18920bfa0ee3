/** How many other keys may fail before a map forgets a key too soon: as many as it holds,
    less one (throttle.py, lines 139-187; accounts.py, lines 202-217). */
module Crowding {
  import opened Common
  import opened OrderedDicts
  import opened Buckets
  import opened Throttle
  import opened ThrottleHistory
  import opened ThrottleBounds

  /** In every run, for every key and time, the map's wait is the history's if at most n
      other keys of its map failed since its last failure and between any two it remembers. */
  ghost predicate HistoryDecides(n: nat) {
    forall ops: seq<Timed>, key: Key, t: int ::
      && GoodRun(ops) && (forall i :: 0 <= i < |ops| ==> ops[i].t <= t)
      && GapsAtMost(History(EMPTY, ops), key, n) && |Others(History(EMPTY, ops), key)| <= n ==>
        After(Run(EMPTY, ops), Waiting(key), t).wait == Wait(key.kind, Remembered(History(EMPTY, ops), key), t)
  }

  lemma FewEnoughDecide(n: nat)
    requires n < MAX_KEYS
    ensures HistoryDecides(n)
  {
    hide Run, History, Remembered, Others, GapsAtMost;
    forall ops: seq<Timed>, key: Key, t: int |
      && GoodRun(ops) && (forall i :: 0 <= i < |ops| ==> ops[i].t <= t)
      && GapsAtMost(History(EMPTY, ops), key, n) && |Others(History(EMPTY, ops), key)| <= n
      ensures After(Run(EMPTY, ops), Waiting(key), t).wait == Wait(key.kind, Remembered(History(EMPTY, ops), key), t)
    {
      GapsGrow(History(EMPTY, ops), key, n, MAX_KEYS - 1);
      WaitIsWhatHistorySays(ops, key, t);
    }
  }

  // ---- a run that crowds an account out ----

  /** Other accounts trying to sign in, each from an address of its own, the first of them
      from the owner's. */
  ghost predicate Guests(owner: Key, home: Key, guests: seq<Key>, places: seq<Key>) {
    && owner.kind == User && home.kind == Addr && |guests| == |places|
    && (forall i :: 0 <= i < |guests| ==> guests[i].kind == User && guests[i] != owner && places[i].kind == Addr)
    && (forall i, j :: 0 <= i < j < |guests| ==> guests[i] != guests[j] && places[i] != places[j])
    && (guests != [] ==> places[0] == home)
  }

  /** Every step is of a sign-in, and at time 0. */
  ghost predicate AtOnce(ops: seq<Timed>) {
    forall i :: 0 <= i < |ops| ==> ops[i].t == 0 && WellFormed(ops[i].op)
  }

  function SignIns(guests: seq<Key>, places: seq<Key>): (ops: seq<Timed>)
    requires |guests| == |places|
    requires forall i :: 0 <= i < |guests| ==> guests[i].kind == User && places[i].kind == Addr
    ensures AtOnce(ops)
  {
    if guests == [] then []
    else
      var n := |guests| - 1;
      SignIns(guests[..n], places[..n]) + SignInSteps(guests[n], places[n], 0)
  }

  /** Four wrong passwords from a known device of the owner, and then the guests. */
  function Before(owner: Key, home: Key, guests: seq<Key>, places: seq<Key>): (ops: seq<Timed>)
    requires Guests(owner, home, guests, places)
    ensures AtOnce(ops) && GoodRun(ops)
  {
    WrongPasswords(owner, home, 0, 4) + SignIns(guests, places)
  }

  lemma OneMoreGuest(owner: Key, home: Key, guests: seq<Key>, places: seq<Key>)
    requires Guests(owner, home, guests, places) && guests != []
    ensures var n := |guests| - 1;
      && Guests(owner, home, guests[..n], places[..n])
      && Before(owner, home, guests, places)
         == Before(owner, home, guests[..n], places[..n]) + SignInSteps(guests[n], places[n], 0)
  {
    hide WrongPasswords, SignInSteps;
  }

  /** And the device's fifth. */
  function Crowd(owner: Key, home: Key, guests: seq<Key>, places: seq<Key>): (ops: seq<Timed>)
    requires Guests(owner, home, guests, places)
    ensures AtOnce(ops) && GoodRun(ops)
  {
    Before(owner, home, guests, places) + WrongPasswords(owner, home, 0, 1)
  }

  // ---- its history ----

  /** A failure of the one and of the other. */
  lemma {:induction false} TwoFailed(h: seq<Event>, a: Key, b: Key, key: Key, n: nat)
    requires a != b && SameMap(a.kind, key.kind) && SameMap(b.kind, key.kind)
    ensures var h' := h + [Failed(a, 0), Failed(b, 0)];
      && Remembered(h', key) ==
           (if key == a || key == b then Some(Counted(Remembered(h, key), 0)) else Remembered(h, key))
      && Others(h', key) == (if key == b then {} else if key == a then {b} else Others(h, key) + {a, b})
      && (key != a && key != b ==> GapsAtMost(h', key, n) == GapsAtMost(h, key, n))
      && (key == a ==> (GapsAtMost(h', key, n) <==>
           (Live(Remembered(h, key), 0).Some? ==> GapsAtMost(h, key, n) && |Others(h, key)| <= n)))
  {
    hide Counted, Live;
    var once, twice := h + [Failed(a, 0)], h + [Failed(a, 0), Failed(b, 0)];
    assert twice == once + [Failed(b, 0)];
    LastEvent(h, Failed(a, 0));
    LastEvent(once, Failed(b, 0));
  }

  lemma {:induction false} WrongPasswordHistory(s: State, ops: seq<Timed>, owner: Key, home: Key)
    requires AtOnce(ops)
    ensures History(s, ops + WrongPasswords(owner, home, 0, 1)) == History(s, ops) + [Failed(owner, 0), Failed(home, 0)]
  {
    hide History;
    var two := WrongPasswords(owner, home, 0, 1);
    assert two == [Timed(Fail(owner), 0), Timed(Fail(home), 0)];
    HistoryAppend(s, ops, two);
    TwoSteps(Run(s, ops), owner, home);
  }

  lemma TwoSteps(s: State, a: Key, b: Key)
    ensures History(s, [Timed(Fail(a), 0), Timed(Fail(b), 0)]) == [Failed(a, 0), Failed(b, 0)]
  {
    hide After;
    var ops := [Timed(Fail(a), 0), Timed(Fail(b), 0)];
    assert ops[..1][..0] == [];
    assert History(s, ops[..1]) == [Failed(a, 0)];
  }

  /** Who failed beside the owner. */
  function Callers(home: Key, guests: seq<Key>, places: seq<Key>): set<Key>
    requires |guests| == |places|
  {
    if guests == [] then {home}
    else
      var n := |guests| - 1;
      Callers(home, guests[..n], places[..n]) + {guests[n], places[n]}
  }

  lemma {:induction false} CallersAre(home: Key, guests: seq<Key>, places: seq<Key>, key: Key)
    requires |guests| == |places|
    ensures key in Callers(home, guests, places) <==> key == home || key in guests || key in places
  {
    if guests != [] {
      var n := |guests| - 1;
      CallersAre(home, guests[..n], places[..n], key);
      assert guests == guests[..n] + [guests[n]] && places == places[..n] + [places[n]];
    }
  }

  lemma {:induction false} CallersSize(owner: Key, home: Key, guests: seq<Key>, places: seq<Key>)
    requires Guests(owner, home, guests, places)
    ensures |Callers(home, guests, places)| == (if guests == [] then 1 else 2 * |guests|)
  {
    if guests != [] {
      var n := |guests| - 1;
      var before := Callers(home, guests[..n], places[..n]);
      CallersSize(owner, home, guests[..n], places[..n]);
      CallersAre(home, guests[..n], places[..n], guests[n]);
      CallersAre(home, guests[..n], places[..n], places[n]);
      hide Callers, Guests;
      TwoMore(before, guests[n], places[n]);
    }
  }

  lemma TwoMore(s: set<Key>, guest: Key, place: Key)
    requires guest !in s && guest != place
    ensures |s + {guest, place}| == |s| + if place in s then 1 else 2
  {
    var one := s + {guest};
    assert s + {guest, place} == one + {place};
    assert |one| == |s| + 1;
    if place in s {
      assert one + {place} == one;
    } else {
      assert place !in one && |one + {place}| == |one| + 1;
    }
  }

  ghost predicate FailuresOnly(h: seq<Event>) {
    forall i :: 0 <= i < |h| ==> h[i].Failed? && h[i].t == 0 && !Apart(h[i].key.kind)
  }

  /** What the history says once some have failed beside the owner, `times` times itself. */
  ghost predicate Told(h: seq<Event>, owner: Key, times: nat, callers: set<Key>) {
    && FailuresOnly(h)
    && Remembered(h, owner) == Some(Entry(times, 0)) && GapsAtMost(h, owner, 1)
    && Others(h, owner) == callers
    && (forall key: Key :: !Apart(key.kind) && key != owner && key !in callers ==> Remembered(h, key) == None)
  }

  /** The owner's first wrong password, and each one after it. */
  lemma {:induction false} OwnerSeen(h: seq<Event>, owner: Key, home: Key, n: nat)
    requires owner.kind == User && home.kind == Addr
    requires if n == 0 then h == [] else Told(h, owner, n, {home}) && Remembered(h, home) == Some(Entry(n, 0))
    ensures var h' := h + [Failed(owner, 0), Failed(home, 0)];
      Told(h', owner, n + 1, {home}) && Remembered(h', home) == Some(Entry(n + 1, 0))
  {
    NothingTold();
    hide Remembered, Others, GapsAtMost;
    var h' := h + [Failed(owner, 0), Failed(home, 0)];
    TwoFailed(h, owner, home, owner, 1);
    TwoFailed(h, owner, home, home, 1);
    forall key: Key | !Apart(key.kind) && key != owner && key != home
      ensures Remembered(h', key) == None
    {
      TwoFailed(h, owner, home, key, 1);
    }
  }

  lemma NothingTold()
    ensures forall key: Key :: Remembered([], key) == None && Others([], key) == {} && GapsAtMost([], key, 1)
  {}

  lemma {:induction false} OwnerTold(owner: Key, home: Key, n: nat)
    requires owner.kind == User && home.kind == Addr
    ensures var h := History(EMPTY, WrongPasswords(owner, home, 0, n));
      if n == 0 then h == [] else Told(h, owner, n, {home}) && Remembered(h, home) == Some(Entry(n, 0))
  {
    hide Told, Remembered, Run, Events, WrongPasswords;
    if n == 0 {
      assert WrongPasswords(owner, home, 0, 0) == [];
    } else {
      hide History;
      OneMore(owner, home, n);
      OwnerTold(owner, home, n - 1);
      WrongPasswordHistory(EMPTY, WrongPasswords(owner, home, 0, n - 1), owner, home);
      OwnerSeen(History(EMPTY, WrongPasswords(owner, home, 0, n - 1)), owner, home, n - 1);
    }
  }

  lemma OneMore(owner: Key, home: Key, n: nat)
    requires n > 0
    ensures WrongPasswords(owner, home, 0, n)
         == WrongPasswords(owner, home, 0, n - 1) + WrongPasswords(owner, home, 0, 1)
  {
    assert WrongPasswords(owner, home, 0, 1) == [Timed(Fail(owner), 0), Timed(Fail(home), 0)];
  }

  lemma {:induction false} GuestSeen(h: seq<Event>, owner: Key, times: nat, callers: set<Key>, guest: Key, place: Key)
    requires Told(h, owner, times, callers) && owner.kind == User
    requires guest.kind == User && guest != owner && place.kind == Addr
    ensures Told(h + [Failed(guest, 0), Failed(place, 0)], owner, times, callers + {guest, place})
  {
    hide Remembered, Others, GapsAtMost;
    var h' := h + [Failed(guest, 0), Failed(place, 0)];
    TwoFailed(h, guest, place, owner, 1);
    forall key: Key | !Apart(key.kind) && key != owner && key !in callers + {guest, place}
      ensures Remembered(h', key) == None
    {
      TwoFailed(h, guest, place, key, 1);
    }
  }

  /** Neither a guest nor its address waits. */
  lemma {:induction false} NoWait(ops: seq<Timed>, key: Key)
    requires GoodRun(ops) && AtOnce(ops) && !Apart(key.kind)
    requires var r := Remembered(History(EMPTY, ops), key);
      r == None || (key.kind == Addr && r == Some(Entry(4, 0)))
    ensures WaitOf(Run(EMPTY, ops).main, key, 0) == 0
  {
    hide History, Run, Remembered, GoodRun;
    WaitNeverExceedsHistory(ops, key, 0);
  }

  lemma {:induction false} GuestsTold(owner: Key, home: Key, guests: seq<Key>, places: seq<Key>)
    requires Guests(owner, home, guests, places)
    ensures var h := History(EMPTY, Before(owner, home, guests, places));
      && Told(h, owner, 4, Callers(home, guests, places))
      && (guests == [] ==> Remembered(h, home) == Some(Entry(4, 0)))
  {
    hide History, Told, Run, WaitOf, GoodRun, Remembered;
    if guests == [] {
      assert Before(owner, home, guests, places) == WrongPasswords(owner, home, 0, 4);
      OwnerTold(owner, home, 4);
    } else {
      var n := |guests| - 1;
      GuestsTold(owner, home, guests[..n], places[..n]);
      GuestTold(owner, home, guests, places);
      GuestSeen(History(EMPTY, Before(owner, home, guests[..n], places[..n])), owner, 4,
        Callers(home, guests[..n], places[..n]), guests[n], places[n]);
    }
  }

  lemma GuestTold(owner: Key, home: Key, guests: seq<Key>, places: seq<Key>)
    requires Guests(owner, home, guests, places) && guests != []
    requires var n := |guests| - 1;
      && Guests(owner, home, guests[..n], places[..n])
      && var h := History(EMPTY, Before(owner, home, guests[..n], places[..n]));
      && Told(h, owner, 4, Callers(home, guests[..n], places[..n]))
      && (n == 0 ==> Remembered(h, home) == Some(Entry(4, 0)))
    ensures var n := |guests| - 1;
      var h := History(EMPTY, Before(owner, home, guests[..n], places[..n]));
      History(EMPTY, Before(owner, home, guests, places)) == h + [Failed(guests[n], 0), Failed(places[n], 0)]
  {
    hide Told, History, Run, Remembered, Before, WaitOf, Callers;
    var n := |guests| - 1;
    var before := Before(owner, home, guests[..n], places[..n]);
    OneMoreGuest(owner, home, guests, places);
    GuestFree(owner, home, guests, places);
    SignInHistory(Run(EMPTY, before), guests[n], places[n], 0);
    HistoryAppend(EMPTY, before, SignInSteps(guests[n], places[n], 0));
  }

  lemma GuestFree(owner: Key, home: Key, guests: seq<Key>, places: seq<Key>)
    requires Guests(owner, home, guests, places) && guests != []
    requires var n := |guests| - 1;
      && Guests(owner, home, guests[..n], places[..n])
      && var h := History(EMPTY, Before(owner, home, guests[..n], places[..n]));
      && Told(h, owner, 4, Callers(home, guests[..n], places[..n]))
      && (n == 0 ==> Remembered(h, home) == Some(Entry(4, 0)))
    ensures var n := |guests| - 1;
      var main := Run(EMPTY, Before(owner, home, guests[..n], places[..n])).main;
      WaitOf(main, guests[n], 0) == 0 && WaitOf(main, places[n], 0) == 0
  {
    hide History, Run, Remembered, Others, GapsAtMost, Before, GoodRun, WaitOf, Callers;
    var n := |guests| - 1;
    var before := Before(owner, home, guests[..n], places[..n]);
    CallersAre(home, guests[..n], places[..n], guests[n]);
    CallersAre(home, guests[..n], places[..n], places[n]);
    NoWait(before, guests[n]);
    NoWait(before, places[n]);
  }

  // ---- who the map has lost ----

  lemma {:induction false} NotItsOwn(h: seq<Event>, key: Key)
    ensures key !in Others(h, key)
  {
    if h != [] {
      NotItsOwn(h[..|h| - 1], key);
    }
  }

  /** Of the keys that failed since another did, each saw fewer fail since. */
  lemma {:induction false} OthersNest(h: seq<Event>, key: Key, other: Key)
    requires FailuresOnly(h) && other in Others(h, key) && !Apart(key.kind) && !Apart(other.kind)
    ensures Others(h, other) < Others(h, key) && Remembered(h, other).Some? && Remembered(h, other).value.last == 0
  {
    hide Counted;
    NotItsOwn(h, other);
    var n := |h| - 1;
    assert h != [];
    if h[n].key == other {
      CountedLast(Remembered(h[..n], other), 0);
    } else {
      OthersNest(h[..n], key, other);
    }
  }

  lemma {:induction false} OthersAlike(h: seq<Event>, key: Key, other: Key)
    requires FailuresOnly(h) && other in Others(h, key)
    ensures !Apart(other.kind)
  {
    if h[|h| - 1].key != other {
      OthersAlike(h[..|h| - 1], key, other);
    }
  }

  /** With exactly as many other keys since its last failure as a map holds, it is not there. */
  lemma {:induction false} Lost(ops: seq<Timed>, key: Key)
    requires GoodRun(ops) && AtOnce(ops) && !Apart(key.kind)
    requires FailuresOnly(History(EMPTY, ops)) && |Others(History(EMPTY, ops), key)| == MAX_KEYS
    ensures Lookup(Run(EMPTY, ops).main, key) == None
  {
    hide Run, History, Remembered, Others, GoodRun;
    var main, h := Run(EMPTY, ops).main, History(EMPTY, ops);
    RunRefines(ops, 0);
    if Has(main, key) {
      forall other | other in Others(h, key) + {key}
        ensures other in KeySet(main)
      {
        if other != key {
          OthersAlike(h, key, other);
          OthersNest(h, key, other);
          StrictlyFewer(Others(h, other), Others(h, key));
          assert !Gone(h, other, 0);
        }
        assert Has(main, other);
        assert main[Find(main, other)].0 == other;
      }
      NotItsOwn(h, key);
      KeySetSize(main);
      SubsetSize(Others(h, key) + {key}, KeySet(main));
    }
  }

  lemma StrictlyFewer<T>(a: set<T>, b: set<T>)
    requires a < b
    ensures |a| < |b|
  {
    assert exists x :: x in b && x !in a;
    var x :| x in b && x !in a;
    SubsetSize(a, b - {x});
  }

  /** One that is not there stays out through others' sign-ins. */
  lemma StaysOut(s: State, user: Key, address: Key, t: int, key: Key)
    requires AllUnique(s) && !Apart(user.kind) && !Apart(address.kind) && key.kind == User
    requires key != user && key != address && Lookup(s.main, key) == None
    ensures var ops := SignInSteps(user, address, t);
      && (forall i :: 0 <= i < 4 ==> WellFormed(ops[i].op))
      && Lookup(Run(s, ops).main, key) == None
  {
    hide AfterAttempt, AfterCheck;
    var ops := SignInSteps(user, address, t);
    assert ops[..4] == ops && ops[..4][..3] == ops[..3] && ops[..3][..2] == ops[..2] && ops[..2][..1] == ops[..1];
    assert ops[..1][..0] == [];
    var looked := AfterLook(s, Absent).state;
    assert Run(s, ops[..0]) == s && Run(s, ops[..1]) == looked;
    UncountedBucket(looked, Attempt([user, address]), t, key);
    assert Lookup(Run(s, ops[..2]).main, key) == None;
    CheckKeepsMain(Run(s, ops[..3]), t);
  }

  lemma CheckKeepsMain(s: State, t: int)
    ensures AfterCheck(s, t).state.main == s.main
  {}

  lemma OwnerJustLost(owner: Key, home: Key, guests: seq<Key>, places: seq<Key>)
    requires Guests(owner, home, guests, places) && 2 * |guests| == MAX_KEYS
    ensures Lookup(Run(EMPTY, Before(owner, home, guests, places)).main, owner) == None
  {
    GuestsTold(owner, home, guests, places);
    CallersSize(owner, home, guests, places);
    hide Run, History, Lookup, Remembered, GapsAtMost, Others, GoodRun, Callers, Before;
    Lost(Before(owner, home, guests, places), owner);
  }

  lemma {:induction false} OwnerLost(owner: Key, home: Key, guests: seq<Key>, places: seq<Key>)
    requires Guests(owner, home, guests, places) && 2 * |guests| >= MAX_KEYS
    ensures Lookup(Run(EMPTY, Before(owner, home, guests, places)).main, owner) == None
  {
    hide Run, Lookup, GoodRun, Before, AllUnique;
    var n := |guests| - 1;
    if 2 * n < MAX_KEYS {
      OwnerJustLost(owner, home, guests, places);
    } else {
      var before := Before(owner, home, guests[..n], places[..n]);
      OneMoreGuest(owner, home, guests, places);
      OwnerLost(owner, home, guests[..n], places[..n]);
      EmptyUnique();
      RunUnique(EMPTY, before);
      StaysOut(Run(EMPTY, before), guests[n], places[n], 0, owner);
      RunAppend(EMPTY, before, SignInSteps(guests[n], places[n], 0));
    }
  }

  lemma EmptyUnique()
    ensures AllUnique(EMPTY)
  {}

  /** The last wrong password of one the map has lost costs it no wait. */
  lemma LostNoWait(s: State, owner: Key, home: Key)
    requires AllUnique(s) && owner.kind == User && home.kind == Addr && Lookup(s.main, owner) == None
    ensures WaitOf(Run(s, WrongPasswords(owner, home, 0, 1)).main, owner, 0) == 0
  {
    hide AfterFail, Lookup;
    assert WrongPasswords(owner, home, 0, 1) == [] + [Timed(Fail(owner), 0), Timed(Fail(home), 0)];
    RunTwo(s, [], owner, home, 0);
    assert Run(s, []) == s;
    AfterUnique(s, Fail(owner), 0);
    FailKeeps(s, owner, owner);
    FailKeeps(AfterFail(s, owner, 0).state, home, owner);
  }

  /** A failure counts one bucket, and what it leaves of another is as it was. */
  lemma FailKeeps(s: State, key: Key, other: Key)
    requires AllUnique(s) && !Apart(key.kind)
    ensures var left := Lookup(AfterFail(s, key, 0).state.main, other);
      left.Some? ==> left == if key == other then Some(Counted(Lookup(s.main, key), 0)) else Lookup(s.main, other)
  {
    PutLastKeeps(s.main, key, Counted(Lookup(s.main, key), 0), other);
    TrimLookup(Count(s.main, key, 0), other);
  }

  // ---- the exact number ----

  /** After the fifth wrong password the owner waits a second by its history. The map says so
      exactly when fewer keys than it holds failed since the fourth; else it lets the owner
      through, although only the address has failed since the fifth. */
  lemma {:induction false} CrowdedOutExactly(owner: Key, home: Key, guests: seq<Key>, places: seq<Key>, n: nat)
    requires Guests(owner, home, guests, places) && guests != []
    ensures var ops := Crowd(owner, home, guests, places);
      var h := History(EMPTY, ops);
      && Others(h, owner) == {home}
      && (GapsAtMost(h, owner, n) <==> 2 * |guests| <= n)
      && Wait(User, Remembered(h, owner), 0) == 1000
      && After(Run(EMPTY, ops), Waiting(owner), 0).wait == (if 2 * |guests| < 10_000 then 1000 else 0)
  {
    hide Run, History, Lookup, Remembered, GapsAtMost, Others, GoodRun, WaitOf, Callers, WrongPasswords;
    var ops, before := Crowd(owner, home, guests, places), Before(owner, home, guests, places);
    var h := History(EMPTY, before);
    GuestsTold(owner, home, guests, places);
    CallersSize(owner, home, guests, places);
    WrongPasswordHistory(EMPTY, before, owner, home);
    TwoFailed(h, owner, home, owner, n);
    TwoFailed(h, owner, home, owner, MAX_KEYS - 1);
    if n > 0 {
      GapsGrow(h, owner, 1, n);
    }
    GapsGrow(h, owner, 1, MAX_KEYS - 1);
    BackoffCurve(0);
    if 2 * |guests| < MAX_KEYS {
      WaitIsWhatHistorySays(ops, owner, 0);
    } else {
      OwnerLost(owner, home, guests, places);
      RunUnique(EMPTY, before);
      LostNoWait(Run(EMPTY, before), owner, home);
      RunAppend(EMPTY, before, WrongPasswords(owner, home, 0, 1));
    }
  }

  const OWNER := Key(User, "owner")
  const HOME := Key(Addr, "192.0.2.1")

  function GuestNames(n: nat): (guests: seq<Key>)
    ensures |guests| == n
  {
    seq(n, j requires 0 <= j => Key(User, "guest" + Decimal(j)))
  }

  function Addresses(n: nat): (places: seq<Key>)
    ensures |places| == n
  {
    seq(n, j requires 0 <= j => if j == 0 then HOME else Key(Addr, "2001:db8::" + Decimal(j)))
  }

  lemma GuestsDiffer(n: nat)
    ensures Guests(OWNER, HOME, GuestNames(n), Addresses(n))
  {
    forall i: nat, j: nat | i < j < n
      ensures GuestNames(n)[i] != GuestNames(n)[j] && Addresses(n)[i] != Addresses(n)[j]
    {
      assert ("guest" + Decimal(i))[5..] == Decimal(i) && ("guest" + Decimal(j))[5..] == Decimal(j);
      assert ("2001:db8::" + Decimal(i))[10..] == Decimal(i) && ("2001:db8::" + Decimal(j))[10..] == Decimal(j);
      if Decimal(i) == Decimal(j) {
        DecimalInjective(i, j);
      }
    }
  }

  /** In every run the map's waits are the history's if at most n other keys come between,
      exactly when n is less than the map holds. */
  lemma {:induction false} HistoryDecidesExactly(n: nat)
    ensures HistoryDecides(n) <==> n < 10_000
  {
    if n < MAX_KEYS {
      FewEnoughDecide(n);
    } else {
      hide Run, History, Remembered, GapsAtMost, Others, WaitOf, Crowd, GuestNames, Addresses, Wait;
      var guests, places := GuestNames(MAX_KEYS / 2), Addresses(MAX_KEYS / 2);
      GuestsDiffer(MAX_KEYS / 2);
      CrowdedOutExactly(OWNER, HOME, guests, places, n);
      var ops := Crowd(OWNER, HOME, guests, places);
      assert |Others(History(EMPTY, ops), OWNER)| == 1;
    }
  }
}
