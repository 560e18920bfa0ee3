/** The known-device row of devices.py (lines 48-88) and the requests that share its
    cookie, each checking a password as accounts.py (lines 185-230) does: reserve, check,
    then release on a right password or count a wrong one. */
module Devices {
  import opened Common

  const MAX_FAILURES := 5

  /** The row's `failures`, or None once the row is deleted. */
  type Row = Option<nat>

  // ---- the four statements, as functions of the row ----

  /** The row after `reserve`, and whether it took the attempt; None where the row is gone
      and refreshing it raises. */
  function Reserved(row: Row): Option<(Row, bool)> {
    match row
    case None => None
    case Some(f) => if f < MAX_FAILURES then Some((Some(f + 1), true)) else Some((row, false))
  }

  function Released(row: Row): Row {
    if row.Some? && row.value > 0 then Some(row.value - 1) else row
  }

  function CountedWrong(row: Row): Row {
    if row.Some? && row.value >= MAX_FAILURES then None else row
  }

  class KnownDevice {
    var there: bool
    var failures: nat

    function Now(): Row
      reads this
    {
      if there then Some(failures) else None
    }

    /** `issue`. */
    constructor ()
      ensures Now() == Some(0)
    {
      there, failures := true, 0;
    }

    /** `reserve`: one UPDATE of the row where it is still below the limit. */
    method Reserve() returns (r: Option<bool>)
      modifies this
      ensures match Reserved(old(Now()))
              case None => r == None && Now() == old(Now())
              case Some((row, taken)) => r == Some(taken) && Now() == row
    {
      if !there {
        return None;
      }
      var matched := failures < MAX_FAILURES;
      if matched {
        failures := failures + 1;
      }
      r := Some(matched);
    }

    /** `release`. */
    method Release()
      modifies this
      ensures Now() == Released(old(Now()))
    {
      if there && failures > 0 {
        failures := failures - 1;
      }
    }

    /** `failed`: a device that has used all its attempts is forgotten. */
    method Failed()
      modifies this
      ensures Now() == CountedWrong(old(Now()))
    {
      if there && failures >= MAX_FAILURES {
        there := false;
      }
    }

    /** `forget`. */
    method Forget()
      modifies this
      ensures Now() == None
    {
      there := false;
    }
  }

  // ---- any number of requests at once ----

  datatype Phase =
    | Checking   // reserved, the password being checked past the throttles
    | Mismatch   // found wrong, not yet counted
    | Wrong      // found wrong and counted
    | Aborted    // given up while holding its reservation (Busy, or a rolled-back release)
    | Right
    | Throttled  // the device's attempts were used up: throttled like anyone
    | Raised     // the row was gone before it could be reserved

  type Requests = map<nat, Phase>

  datatype State = State(row: Row, requests: Requests)

  datatype Step =
    | Arrive(id: nat)
    | FoundRight(id: nat, forgets: bool)  // a sign-in forgets the row, a confirmation keeps it
    | FoundWrong(id: nat)
    | CountWrong(id: nat)
    | GiveUp(id: nat)
    | RowDeleted                          // sign-out, a changed password, expiry

  predicate Enabled(s: State, step: Step) {
    match step
    case Arrive(id) => id !in s.requests
    case FoundRight(id, _) => id in s.requests && s.requests[id] == Checking
    case FoundWrong(id) => id in s.requests && s.requests[id] == Checking
    case CountWrong(id) => id in s.requests && s.requests[id] == Mismatch
    case GiveUp(id) => id in s.requests && s.requests[id] == Checking
    case RowDeleted => true
  }

  function After(s: State, step: Step): State
    requires Enabled(s, step)
  {
    match step
    case Arrive(id) =>
      (match Reserved(s.row)
       case None => s.(requests := s.requests[id := Raised])
       case Some((row, taken)) => State(row, s.requests[id := if taken then Checking else Throttled]))
    case FoundRight(id, forgets) => State(if forgets then None else Released(s.row), s.requests[id := Right])
    case FoundWrong(id) => s.(requests := s.requests[id := Mismatch])
    case CountWrong(id) => State(CountedWrong(s.row), s.requests[id := Wrong])
    case GiveUp(id) => s.(requests := s.requests[id := Aborted])
    case RowDeleted => s.(row := None)
  }

  const FRESH := State(Some(0), map[])

  /** A run from a fresh row; None where some step was not enabled. */
  function Run(steps: seq<Step>): Option<State> {
    if steps == [] then Some(FRESH)
    else
      match Run(steps[..|steps| - 1])
      case None => None
      case Some(s) => if Enabled(s, steps[|steps| - 1]) then Some(After(s, steps[|steps| - 1])) else None
  }

  /** The requests in a phase. */
  function In(requests: Requests, phase: Phase): set<nat> {
    set id | id in requests && requests[id] == phase
  }

  /** The requests that were let past the throttles and have not been proved right. */
  function Holding(requests: Requests): set<nat> {
    In(requests, Checking) + In(requests, Mismatch) + In(requests, Wrong) + In(requests, Aborted)
  }

  ghost predicate Inv(s: State) {
    && |Holding(s.requests)| <= MAX_FAILURES
    && (s.row.Some? ==> s.row.value == |Holding(s.requests)|)
  }

  predicate Holds(phase: Phase) {
    phase == Checking || phase == Mismatch || phase == Wrong || phase == Aborted
  }

  lemma IsHolding(requests: Requests, id: nat)
    ensures id in Holding(requests) <==> id in requests && Holds(requests[id])
  {}

  lemma HoldingAfter(requests: Requests, id: nat, phase: Phase)
    ensures Holding(requests[id := phase]) == if Holds(phase) then Holding(requests) + {id}
      else Holding(requests) - {id}
    ensures |Holding(requests[id := phase])| == |Holding(requests)|
      + (if Holds(phase) then 1 else 0) - (if id in Holding(requests) then 1 else 0)
  {
    hide In;
    HoldingSet(requests, id, phase);
    var h := Holding(requests);
    if id in h {
      assert h + {id} == h;
    } else {
      assert h - {id} == h;
    }
  }

  lemma HoldingSet(requests: Requests, id: nat, phase: Phase)
    ensures Holding(requests[id := phase]) == if Holds(phase) then Holding(requests) + {id}
      else Holding(requests) - {id}
  {}

  /** Every step of every request keeps the count exact. */
  lemma StepKeepsInv(s: State, step: Step)
    requires Inv(s) && Enabled(s, step)
    ensures Inv(After(s, step))
  {
    hide Holding;
    if step != RowDeleted {
      IsHolding(s.requests, step.id);
      HoldingAfter(s.requests, step.id, After(s, step).requests[step.id]);
    }
  }

  lemma {:induction false} RunKeepsInv(steps: seq<Step>)
    requires Run(steps).Some?
    ensures Inv(Run(steps).value)
  {
    if steps == [] {
      assert Holding(map[]) == {};
    } else {
      RunKeepsInv(steps[..|steps| - 1]);
      StepKeepsInv(Run(steps[..|steps| - 1]).value, steps[|steps| - 1]);
    }
  }

  /** Under every interleaving the row's failures are exactly the checks in flight, found
      wrong and aborted, and never more than five. */
  lemma {:induction false} FailuresAreExact(steps: seq<Step>)
    requires Run(steps).Some? && Run(steps).value.row.Some?
    ensures var s := Run(steps).value;
      && s.row.value <= 5
      && s.row.value == |In(s.requests, Checking)| + |In(s.requests, Mismatch)|
                        + |In(s.requests, Wrong)| + |In(s.requests, Aborted)|
  {
    RunKeepsInv(steps);
    HoldingSizes(Run(steps).value.requests);
  }

  lemma HoldingSizes(requests: Requests)
    ensures |Holding(requests)| == |In(requests, Checking)| + |In(requests, Mismatch)|
                                   + |In(requests, Wrong)| + |In(requests, Aborted)|
  {
    var a, b, c, d := In(requests, Checking), In(requests, Mismatch), In(requests, Wrong), In(requests, Aborted);
    assert a !! b && (a + b) !! c && (a + b + c) !! d;
  }

  /** At most five wrong passwords are ever checked past the throttles on one device row,
      the row being there or not. */
  lemma {:induction false} AtMostFiveWrong(steps: seq<Step>)
    requires Run(steps).Some?
    ensures |In(Run(steps).value.requests, Mismatch)| + |In(Run(steps).value.requests, Wrong)| <= 5
  {
    RunKeepsInv(steps);
    HoldingSizes(Run(steps).value.requests);
  }

  /** The guard of `release` never stops a release: a checked request's attempt is given back, and
      a sign-in deletes the row. */
  lemma {:induction false} ReleaseAlwaysGivesBack(steps: seq<Step>, id: nat)
    requires Run(steps).Some? && Enabled(Run(steps).value, FoundRight(id, false))
    ensures var s := Run(steps).value;
      && (s.row.Some? ==> s.row.value > 0 && After(s, FoundRight(id, false)).row == Some(s.row.value - 1))
      && After(s, FoundRight(id, true)).row == None
  {
    RunKeepsInv(steps);
    assert id in Holding(Run(steps).value.requests);
  }

  /** A row that is full refuses the next request, which is then throttled; one that is not takes it. */
  lemma {:induction false} FullRowRefuses(steps: seq<Step>, id: nat)
    requires Run(steps).Some? && Enabled(Run(steps).value, Arrive(id))
    ensures var s := Run(steps).value;
      (After(s, Arrive(id)).requests[id] == Checking
       <==> (s.row.Some? && |Holding(s.requests)| < 5))
  {
    RunKeepsInv(steps);
  }

  /** A wrong password forgets the row exactly when all its five attempts are held, and else leaves it. */
  lemma {:induction false} LastAttemptForgets(steps: seq<Step>, id: nat)
    requires Run(steps).Some? && Enabled(Run(steps).value, CountWrong(id)) && Run(steps).value.row.Some?
    ensures var s := Run(steps).value;
      After(s, CountWrong(id)).row == if |Holding(s.requests)| == 5 then None else s.row
  {
    RunKeepsInv(steps);
  }
}
