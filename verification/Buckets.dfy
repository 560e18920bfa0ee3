/** One throttle bucket: the failures it remembers, the wait they cost, and how many
    guesses that leaves (throttle.py, lines 41-45 and 105-129). Times are whole
    milliseconds of the monotonic clock. */
module Buckets {
  import opened Common

  const WINDOW := 900_000  // 15 minutes
  const CAP := 60          // seconds
  const SETUP_FREE := 5

  datatype Kind = User | Addr | Setup | Share | Oidc

  datatype Entry = Entry(failures: nat, last: int)

  /** `FREE`; the setup bucket has its own rule. */
  function Free(kind: Kind): nat {
    if kind == User then 5 else 20
  }

  function TwoTo(n: nat): (p: nat)
    ensures p > 0
  {
    if n == 0 then 1 else 2 * TwoTo(n - 1)
  }

  /** `min(CAP, 2 ** n)` seconds, in milliseconds. */
  function Backoff(n: nat): int {
    1000 * (if TwoTo(n) < CAP then TwoTo(n) else CAP)
  }

  /** When the bucket next lets an attempt through. */
  function OpensAt(kind: Kind, e: Entry): int {
    if kind == Setup then
      if e.failures >= SETUP_FREE then e.last + WINDOW else e.last
    else if e.failures < Free(kind) then e.last
    else e.last + Backoff(e.failures - Free(kind))
  }

  /** A bucket forgets its failures 15 minutes after the last one. */
  function Live(b: Option<Entry>, t: int): Option<Entry> {
    if b.Some? && t - b.value.last >= WINDOW then None else b
  }

  /** `_wait`, not below zero: how long the bucket makes its caller wait. */
  function Wait(kind: Kind, b: Option<Entry>, t: int): (w: int)
    ensures w >= 0
  {
    match Live(b, t)
    case None => 0
    case Some(e) =>
      var free := if kind == Setup then SETUP_FREE else Free(kind);
      if e.failures < free || OpensAt(kind, e) <= t then 0 else OpensAt(kind, e) - t
  }

  /** One more failure. */
  function Counted(b: Option<Entry>, t: int): Entry {
    match Live(b, t)
    case None => Entry(1, t)
    case Some(e) => Entry(e.failures + 1, t)
  }

  lemma {:induction false} BackoffCurve(n: nat)
    ensures n == 0 ==> Backoff(n) == 1000
    ensures n == 1 ==> Backoff(n) == 2000
    ensures n == 2 ==> Backoff(n) == 4000
    ensures n == 3 ==> Backoff(n) == 8000
    ensures n == 4 ==> Backoff(n) == 16_000
    ensures n == 5 ==> Backoff(n) == 32_000
    ensures n >= 6 ==> Backoff(n) == 60_000
  {
    assert TwoTo(2) == 4 && TwoTo(4) == 16;
    assert TwoTo(5) == 32 && TwoTo(6) == 64;
    if n >= 6 {
      TwoToGrows(6, n);
    }
  }

  lemma {:induction false} TwoToGrows(m: nat, n: nat)
    requires m <= n
    ensures TwoTo(m) <= TwoTo(n)
    decreases n - m
  {
    if m < n {
      TwoToGrows(m, n - 1);
    }
  }

  /** The wait is tight: refused before it is over, let through when it is. */
  lemma {:induction false} WaitIsTight(kind: Kind, b: Option<Entry>, t: int, later: int)
    requires t <= later
    ensures later < t + Wait(kind, b, t) ==> Wait(kind, b, later) == t + Wait(kind, b, t) - later > 0
    ensures later >= t + Wait(kind, b, t) ==> Wait(kind, b, later) == 0
  {
    if b.Some? && kind != Setup && b.value.failures >= Free(kind) {
      BackoffCurve(b.value.failures - Free(kind));
    }
  }

  /** The table of the throttles: what a bucket of n failures makes its caller wait. */
  lemma {:induction false} WaitTable(kind: Kind, n: nat, last: int, t: int)
    requires last <= t
    ensures var wait := Wait(kind, Some(Entry(n, last)), t);
      var free := if kind == User || kind == Setup then 5 else 20;
      var after := if n < free then 0
                   else if kind == Setup || n - free >= 6 then (if kind == Setup then 900_000 else 60_000)
                   else [1000, 2000, 4000, 8000, 16_000, 32_000][n - free];
      wait == if t < last + after then last + after - t else 0
  {
    if n >= Free(kind) {
      BackoffCurve(n - Free(kind));
    }
  }

  // ---- how many attempts a bucket lets through ----

  /** What the first n failures earn when an attempt is priced at `cost`: the free ones
      in full, the next six less the wait they cost, the rest nothing. */
  function Credit(free: nat, cost: int, n: nat): int {
    cost * (if n < free then n else free) + Discount(cost, if n < free then 0 else n - free)
  }

  function Discount(cost: int, k: nat): int {
    if k == 0 then 0
    else if k <= 6 then Discount(cost, k - 1) + cost - Backoff(k - 1)
    else Discount(cost, k - 1)
  }

  /** The most any number of failures earns. */
  function Most(free: nat, cost: int): int {
    cost * (free + 6) - 63_000
  }

  lemma DiscountSteps(cost: int, k: nat)
    requires 32_000 <= cost <= 60_000
    ensures Discount(cost, k) <= Discount(cost, k + 1)
    ensures Discount(cost, k) + cost - Backoff(k) <= Discount(cost, k + 1)
  {
    BackoffCurve(k);
  }

  lemma {:induction false} DiscountBound(cost: int, k: nat)
    requires 32_000 <= cost <= 60_000
    ensures 0 <= Discount(cost, k) <= 6 * cost - 63_000
  {
    if k <= 6 {
      BackoffCurve(0); BackoffCurve(1); BackoffCurve(2);
      BackoffCurve(3); BackoffCurve(4); BackoffCurve(5);
      assert Discount(cost, 1) == cost - 1000;
      assert Discount(cost, 2) == 2 * cost - 3000;
      assert Discount(cost, 3) == 3 * cost - 7000;
      assert Discount(cost, 4) == 4 * cost - 15_000;
      assert Discount(cost, 5) == 5 * cost - 31_000;
      assert Discount(cost, 6) == 6 * cost - 63_000;
    } else {
      DiscountBound(cost, k - 1);
    }
  }

  lemma MulLess(a: nat, b: nat, c: nat)
    requires a <= b
    ensures a * c <= b * c
  {}

  /** Another failure never earns less, and one that waited for it earns its price. */
  lemma CreditSteps(free: nat, cost: int, n: nat)
    requires 32_000 <= cost <= 60_000
    ensures Credit(free, cost, n) <= Credit(free, cost, n + 1)
    ensures n < free ==> Credit(free, cost, n) + cost == Credit(free, cost, n + 1)
    ensures n >= free ==> Credit(free, cost, n) + cost - Backoff(n - free) <= Credit(free, cost, n + 1)
  {
    if n >= free {
      DiscountSteps(cost, n - free);
    } else {
      assert cost * (n + 1) == cost * n + cost;
    }
  }

  lemma CreditBound(free: nat, cost: int, n: nat)
    requires 32_000 <= cost <= 60_000
    ensures 0 <= Credit(free, cost, n) <= Most(free, cost)
    ensures free > 0 && n > 0 ==> Credit(free, cost, n) >= cost
  {
    DiscountBound(cost, if n < free then 0 else n - free);
    MulLess(if n < free then n else free, free, cost);
    assert cost * (free + 6) == cost * free + 6 * cost;
    if free > 0 && n > 0 {
      MulLess(1, if n < free then n else free, cost);
    }
  }

  /** The account kept through a run: what was let through since `start`, priced at
      `cost`, is paid for by the time up to the last failure and the bucket's credit. */
  ghost predicate Paid(free: nat, cost: int, start: int, b: Option<Entry>, admitted: nat, now: int) {
    match b
    case None => cost * admitted <= now - start
    case Some(e) =>
      && e.last <= now
      && (if e.last < start then admitted == 0
          else cost * admitted <= e.last - start + Credit(free, cost, e.failures))
  }

  /** The price is low enough that 15 minutes cover the most a bucket can owe. */
  predicate Affordable(free: nat, cost: int) {
    32_000 <= cost <= 60_000 && Most(free, cost) <= WINDOW
  }

  lemma ForgettingPaid(free: nat, cost: int, start: int, b: Option<Entry>, admitted: nat, now: int, t: int)
    requires 32_000 <= cost <= 60_000 && start <= now <= t
    requires Paid(free, cost, start, b, admitted, now)
    requires Live(b, t) != b ==> Affordable(free, cost)
    ensures Paid(free, cost, start, Live(b, t), admitted, t)
  {
    if Live(b, t) != b {
      CreditBound(free, cost, b.value.failures);
    }
  }

  lemma FailurePaid(free: nat, cost: int, start: int, b: Option<Entry>, admitted: nat, now: int, t: int)
    requires 32_000 <= cost <= 60_000 && free > 0 && start <= now <= t
    requires Paid(free, cost, start, Live(b, t), admitted, t)
    ensures Paid(free, cost, start, Some(Counted(b, t)), admitted, t)
  {
    match Live(b, t)
    case None => CreditBound(free, cost, 1);
    case Some(e) =>
      CreditSteps(free, cost, e.failures);
      CreditBound(free, cost, e.failures + 1);
  }

  /** Waiting out the failures pays for the next attempt. */
  lemma AttemptPaid(free: nat, cost: int, start: int, b: Option<Entry>, admitted: nat, now: int, t: int)
    requires 32_000 <= cost <= 60_000 && free > 0 && start <= now <= t
    requires Paid(free, cost, start, Live(b, t), admitted, t)
    requires Live(b, t).Some? && Live(b, t).value.failures >= free ==>
      Live(b, t).value.last + Backoff(Live(b, t).value.failures - free) <= t
    ensures Paid(free, cost, start, Some(Counted(b, t)), admitted + 1, t)
  {
    assert cost * (admitted + 1) == cost * admitted + cost;
    match Live(b, t)
    case None => CreditBound(free, cost, 1);
    case Some(e) =>
      CreditSteps(free, cost, e.failures);
      CreditBound(free, cost, e.failures + 1);
  }

  lemma PaidBound(free: nat, cost: int, start: int, b: Option<Entry>, admitted: nat, now: int)
    requires 32_000 <= cost <= 60_000 && start <= now
    requires Paid(free, cost, start, b, admitted, now)
    ensures cost * admitted <= now - start + Most(free, cost) || admitted == 0
  {
    if b.Some? {
      CreditBound(free, cost, b.value.failures);
    } else {
      CreditBound(free, cost, 0);
    }
  }

  // ---- an address in a span too short to be forgotten and tried again for long ----

  /** 15 minutes and the first wait. */
  const SHORT := WINDOW + 1000

  /** The account of an address through less than a SHORT span: before anything counted in
      the span is forgotten, at most 20 attempts come in its first second; after, the bucket
      starts over, and its first wait would end past the span. */
  ghost predicate PaidShort(start: int, b: Option<Entry>, admitted: nat, now: int) {
    || (&& Paid(Free(Addr), 60_000, start, b, admitted, now)
        && (b.None? ==> admitted == 0)
        && (b.Some? && start <= b.value.last < start + 1000 ==> admitted <= Free(Addr) && admitted <= b.value.failures))
    || (&& start + WINDOW <= now
        && match b
           case None => admitted <= Free(Addr)
           case Some(e) =>
             start + WINDOW <= e.last <= now && admitted <= Free(Addr) + e.failures && admitted <= 2 * Free(Addr))
  }

  /** The accounts that bound what a bucket lets through. */
  datatype Account = AtPrice(free: nat, cost: int) | InShortSpan

  function FreeOf(a: Account): nat {
    if a.AtPrice? then a.free else Free(Addr)
  }

  ghost predicate Holds(a: Account, start: int, b: Option<Entry>, admitted: nat, now: int) {
    match a
    case AtPrice(free, cost) => Paid(free, cost, start, b, admitted, now)
    case InShortSpan => PaidShort(start, b, admitted, now)
  }

  /** Where the account is good for. */
  predicate Fits(a: Account, start: int, t: int) {
    match a
    case AtPrice(free, cost) => free > 0 && 32_000 <= cost <= 60_000
    case InShortSpan => t < start + SHORT
  }

  /** Whether it survives the bucket being forgotten. */
  predicate Forgives(a: Account) {
    a.AtPrice? ==> Affordable(a.free, a.cost)
  }

  lemma ForgettingHolds(a: Account, start: int, b: Option<Entry>, admitted: nat, now: int, t: int)
    requires Fits(a, start, t) && start <= now <= t && Holds(a, start, b, admitted, now)
    requires Live(b, t) != b ==> Forgives(a)
    ensures Holds(a, start, Live(b, t), admitted, t)
  {
    hide Paid, Affordable;
    match a
    case AtPrice(free, cost) => ForgettingPaid(free, cost, start, b, admitted, now, t);
    case InShortSpan => ForgettingShort(start, b, admitted, now, t);
  }

  lemma ForgettingShort(start: int, b: Option<Entry>, admitted: nat, now: int, t: int)
    requires start <= now <= t < start + SHORT && PaidShort(start, b, admitted, now)
    ensures PaidShort(start, Live(b, t), admitted, t)
  {}

  lemma FailureHolds(a: Account, start: int, b: Option<Entry>, admitted: nat, t: int)
    requires Fits(a, start, t) && start <= t && Holds(a, start, Live(b, t), admitted, t)
    ensures Holds(a, start, Some(Counted(b, t)), admitted, t)
  {
    match a
    case AtPrice(free, cost) => FailurePaid(free, cost, start, b, admitted, t, t);
    case InShortSpan =>
      if Paid(Free(Addr), 60_000, start, Live(b, t), admitted, t) {
        FailurePaid(Free(Addr), 60_000, start, b, admitted, t, t);
      }
  }

  lemma AttemptHolds(a: Account, start: int, b: Option<Entry>, admitted: nat, t: int)
    requires Fits(a, start, t) && start <= t && Holds(a, start, Live(b, t), admitted, t)
    requires Live(b, t).Some? && Live(b, t).value.failures >= FreeOf(a) ==>
      Live(b, t).value.last + Backoff(Live(b, t).value.failures - FreeOf(a)) <= t
    ensures Holds(a, start, Some(Counted(b, t)), admitted + 1, t)
  {
    match a
    case AtPrice(free, cost) => AttemptPaid(free, cost, start, b, admitted, t, t);
    case InShortSpan =>
      if Paid(Free(Addr), 60_000, start, Live(b, t), admitted, t) {
        AttemptPaid(Free(Addr), 60_000, start, b, admitted, t, t);
      }
      if Live(b, t).Some? && Live(b, t).value.failures >= Free(Addr) {
        BackoffCurve(Live(b, t).value.failures - Free(Addr));
      }
  }

  lemma LaterHolds(a: Account, start: int, b: Option<Entry>, admitted: nat, now: int, t: int)
    requires Holds(a, start, b, admitted, now) && now <= t
    ensures Holds(a, start, b, admitted, t)
  {}

  lemma ShortBound(start: int, b: Option<Entry>, admitted: nat, end: int)
    requires start <= end < start + SHORT && PaidShort(start, b, admitted, end)
    ensures Bounded(Free(Addr), 60_000, start, end, admitted)
  {
    if Paid(Free(Addr), 60_000, start, b, admitted, end) {
      PaidBound(Free(Addr), 60_000, start, b, admitted, end);
    }
  }

  // ---- a bucket on its own ----

  datatype BucketEvent = Try(t: int) | Failure(t: int)

  datatype Seen = Seen(bucket: Option<Entry>, admitted: nat)

  /** A bucket with this many free failures, tried and failed at the given times. */
  function BucketAfter(free: nat, s: Seen, e: BucketEvent): Seen {
    match e
    case Failure(t) => s.(bucket := Some(Counted(s.bucket, t)))
    case Try(t) =>
      match Live(s.bucket, t)
      case Some(entry) =>
        if entry.failures >= free && entry.last + Backoff(entry.failures - free) > t then s
        else Seen(Some(Counted(s.bucket, t)), s.admitted + 1)
      case None => Seen(Some(Counted(s.bucket, t)), s.admitted + 1)
  }

  function BucketRun(free: nat, events: seq<BucketEvent>): Seen {
    if events == [] then Seen(None, 0)
    else BucketAfter(free, BucketRun(free, events[..|events| - 1]), events[|events| - 1])
  }

  ghost predicate InOrder(start: int, events: seq<BucketEvent>, end: int) {
    && start <= end
    && (forall i :: 0 <= i < |events| ==> start <= events[i].t <= end)
    && (forall i, j :: 0 <= i < j < |events| ==> events[i].t <= events[j].t)
  }

  /** Never more than `free + 5` attempts and one a `cost` of time. */
  ghost predicate Bounded(free: nat, cost: int, start: int, end: int, admitted: nat) {
    cost * admitted <= end - start + cost * (free + 5)
  }

  lemma {:induction false} RunPaid(free: nat, cost: int, start: int, events: seq<BucketEvent>, end: int)
    requires free > 0 && Affordable(free, cost) && InOrder(start, events, end)
    ensures Paid(free, cost, start, BucketRun(free, events).bucket, BucketRun(free, events).admitted, end)
  {
    if events != [] {
      var n := |events| - 1;
      var s, t := BucketRun(free, events[..n]), events[n].t;
      RunPaid(free, cost, start, events[..n], t);
      ForgettingPaid(free, cost, start, s.bucket, s.admitted, t, t);
      match events[n]
      case Failure(_) => FailurePaid(free, cost, start, s.bucket, s.admitted, t, t);
      case Try(_) =>
        if BucketRun(free, events) != s {
          AttemptPaid(free, cost, start, s.bucket, s.admitted, t, t);
        }
    }
  }

  /** The free attempts and six more as soon as each is allowed, silence until they are
      forgotten, and the same again. */
  function TwiceOver(free: nat): seq<BucketEvent> {
    Burst(0, free) + Spaced(0) + Burst(963_000, free) + Spaced(963_000)
  }

  function Burst(t: int, n: nat): (es: seq<BucketEvent>)
    ensures |es| == n
  {
    seq(n, _ => Try(t))
  }

  function Spaced(t: int): seq<BucketEvent> {
    [Try(t + 1000), Try(t + 3000), Try(t + 7000), Try(t + 15_000), Try(t + 31_000), Try(t + 63_000)]
  }

  function BucketRunFrom(free: nat, s: Seen, events: seq<BucketEvent>): Seen
    decreases |events|
  {
    if events == [] then s else BucketRunFrom(free, BucketAfter(free, s, events[0]), events[1..])
  }

  lemma {:induction false} RunFromAppend(free: nat, s: Seen, es: seq<BucketEvent>, fs: seq<BucketEvent>)
    ensures BucketRunFrom(free, s, es + fs) == BucketRunFrom(free, BucketRunFrom(free, s, es), fs)
    decreases |es|
  {
    if es == [] {
      assert es + fs == fs;
    } else {
      assert (es + fs)[0] == es[0] && (es + fs)[1..] == es[1..] + fs;
      RunFromAppend(free, BucketAfter(free, s, es[0]), es[1..], fs);
    }
  }

  lemma {:induction false} RunIsRunFrom(free: nat, events: seq<BucketEvent>)
    ensures BucketRun(free, events) == BucketRunFrom(free, Seen(None, 0), events)
  {
    if events != [] {
      var n := |events| - 1;
      RunIsRunFrom(free, events[..n]);
      RunFromAppend(free, Seen(None, 0), events[..n], [events[n]]);
      assert events == events[..n] + [events[n]];
    }
  }

  lemma {:induction false} BurstAdmitted(free: nat, s: Seen, t: int, n: nat)
    requires Live(s.bucket, t).None? || (Live(s.bucket, t).value.failures + n <= free)
    requires n <= free && n > 0
    ensures BucketRunFrom(free, s, Burst(t, n)) ==
      Seen(Some(Entry((if Live(s.bucket, t).None? then 0 else Live(s.bucket, t).value.failures) + n, t)),
        s.admitted + n)
    decreases n
  {
    var one := BucketAfter(free, s, Try(t));
    assert Burst(t, n)[1..] == Burst(t, n - 1);
    if n > 1 {
      BurstAdmitted(free, one, t, n - 1);
    }
  }

  lemma TriedWhenOpen(free: nat, s: Seen, k: nat, at: int)
    requires s.bucket == Some(Entry(free + k, at))
    ensures BucketAfter(free, s, Try(at + Backoff(k)))
         == Seen(Some(Entry(free + k + 1, at + Backoff(k))), s.admitted + 1)
  {
    BackoffCurve(k);
  }

  lemma SpacedAdmitted(free: nat, s: Seen, t: int)
    requires s.bucket == Some(Entry(free, t))
    ensures BucketRunFrom(free, s, Spaced(t)) == Seen(Some(Entry(free + 6, t + 63_000)), s.admitted + 6)
  {
    BackoffCurve(0); BackoffCurve(1); BackoffCurve(2);
    BackoffCurve(3); BackoffCurve(4); BackoffCurve(5);
    hide BucketAfter, Backoff, BucketRunFrom;
    var n := s.admitted;
    TriedWhenOpen(free, s, 0, t);
    TriedWhenOpen(free, Seen(Some(Entry(free + 1, t + 1000)), n + 1), 1, t + 1000);
    TriedWhenOpen(free, Seen(Some(Entry(free + 2, t + 3000)), n + 2), 2, t + 3000);
    TriedWhenOpen(free, Seen(Some(Entry(free + 3, t + 7000)), n + 3), 3, t + 7000);
    TriedWhenOpen(free, Seen(Some(Entry(free + 4, t + 15_000)), n + 4), 4, t + 15_000);
    TriedWhenOpen(free, Seen(Some(Entry(free + 5, t + 31_000)), n + 5), 5, t + 31_000);
    SixSteps(free, s, Spaced(t));
  }

  lemma SixSteps(free: nat, s: Seen, es: seq<BucketEvent>)
    requires |es| == 6
    ensures BucketRunFrom(free, s, es) ==
      BucketAfter(free, BucketAfter(free, BucketAfter(free, BucketAfter(free, BucketAfter(free, BucketAfter(free, s,
        es[0]), es[1]), es[2]), es[3]), es[4]), es[5])
  {
    hide BucketAfter;
    var a := BucketAfter(free, s, es[0]);
    var b := BucketAfter(free, a, es[1]);
    var c := BucketAfter(free, b, es[2]);
    var d := BucketAfter(free, c, es[3]);
    assert es[1..][1..] == es[2..] && es[2..][1..] == es[3..] && es[3..][1..] == es[4..];
    assert es[4..] == [es[4], es[5]] && [es[4], es[5]][1..] == [es[5]];
    assert BucketRunFrom(free, b, es[2..]) == BucketRunFrom(free, c, es[3..]);
    assert BucketRunFrom(free, d, [es[4], es[5]]) == BucketRunFrom(free, BucketAfter(free, d, es[4]), [es[5]]);
    assert BucketRunFrom(free, BucketAfter(free, d, es[4]), [es[5]])
      == BucketAfter(free, BucketAfter(free, d, es[4]), es[5]);
  }

  lemma TwiceOverAdmitted(free: nat)
    requires free > 0
    ensures BucketRun(free, TwiceOver(free)).admitted == 2 * free + 12
  {
    hide BucketAfter, Backoff;
    var a, b, c, d := Burst(0, free), Spaced(0), Burst(963_000, free), Spaced(963_000);
    var start := Seen(None, 0);
    RunIsRunFrom(free, TwiceOver(free));
    assert TwiceOver(free) == a + b + c + d;
    RunFromAppend(free, start, a + b + c, d);
    RunFromAppend(free, start, a + b, c);
    RunFromAppend(free, start, a, b);
    BurstAdmitted(free, start, 0, free);
    SpacedAdmitted(free, Seen(Some(Entry(free, 0)), free), 0);
    BurstAdmitted(free, Seen(Some(Entry(free + 6, 63_000)), free + 6), 963_000, free);
    SpacedAdmitted(free, Seen(Some(Entry(free, 963_000)), 2 * free + 6), 963_000);
  }

  lemma TwiceOverInOrder(free: nat)
    ensures InOrder(0, TwiceOver(free), 1_026_000)
    ensures forall i :: 0 <= i < |TwiceOver(free)| ==> TwiceOver(free)[i].Try?
  {}

  /** `free + 5 + T/60` holds over every run of a bucket exactly when it has at most
      ten free failures. `FREE` gives users five, and every kind of address twenty. */
  lemma {:induction false} SixtySecondBoundExactly(free: nat)
    requires free > 0
    ensures free <= 10 <==>
      forall start, events, end :: InOrder(start, events, end)
        ==> Bounded(free, 60_000, start, end, BucketRun(free, events).admitted)
  {
    if free <= 10 {
      forall start, events, end | InOrder(start, events, end)
        ensures Bounded(free, 60_000, start, end, BucketRun(free, events).admitted)
      {
        BucketBounded(free, 60_000, start, events, end);
      }
    } else {
      TwiceOverAdmitted(free);
      TwiceOverInOrder(free);
      assert !Bounded(free, 60_000, 0, 1_026_000, BucketRun(free, TwiceOver(free)).admitted);
    }
  }

  lemma {:induction false} BucketBounded(free: nat, cost: int, start: int, events: seq<BucketEvent>, end: int)
    requires free > 0 && Affordable(free, cost) && InOrder(start, events, end)
    ensures Bounded(free, cost, start, end, BucketRun(free, events).admitted)
  {
    RunPaid(free, cost, start, events, end);
    PaidBound(free, cost, start, BucketRun(free, events).bucket, BucketRun(free, events).admitted, end);
    assert cost * (free + 6) == cost * (free + 5) + cost;
  }
}
