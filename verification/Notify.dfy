/** The burst alerts of notify.py (lines 52-67): per kind, the times of the past quarter
    hour and when it last alerted. Times are whole milliseconds. */
module Notify {
  import opened Common
  import opened Windows

  const FAILURE_BURST := 20
  const FAILURE_WINDOW := 900_000
  const FAILURE_ALERT_EVERY := 3_600_000

  /** One kind's memory. */
  datatype Burst = Burst(times: seq<int>, lastAlert: Option<int>)

  const QUIET := Burst([], None)

  /** `_burst`: the memory after counting one at t, and the count when it alerts. */
  function Counted(b: Burst, t: int): (Burst, Option<nat>) {
    var times := Expire(b.times + [t], t, FAILURE_WINDOW);
    if |times| < FAILURE_BURST then (Burst(times, b.lastAlert), None)
    else if b.lastAlert.Some? && t - b.lastAlert.value < FAILURE_ALERT_EVERY then (Burst(times, b.lastAlert), None)
    else (Burst(times, Some(t)), Some(|times|))
  }

  class Bursts {
    var bursts: map<string, seq<int>>
    var lastAlert: map<string, int>

    function Memory(kind: string): Burst
      reads this
    {
      Burst(if kind in bursts then bursts[kind] else [],
            if kind in lastAlert then Some(lastAlert[kind]) else None)
    }

    constructor ()
      ensures forall kind :: Memory(kind) == QUIET
    {
      bursts, lastAlert := map[], map[];
    }

    /** `_burst`; the other kinds keep their own memory. */
    method Count(kind: string, t: int) returns (alert: Option<nat>)
      modifies this
      ensures (Memory(kind), alert) == Counted(old(Memory(kind)), t)
      ensures forall other :: other != kind ==> Memory(other) == old(Memory(other))
    {
      var times := (if kind in bursts then bursts[kind] else []) + [t];
      while times != [] && t - times[0] >= FAILURE_WINDOW
        invariant Expire(times, t, FAILURE_WINDOW)
               == Expire(old(Memory(kind)).times + [t], t, FAILURE_WINDOW)
        decreases |times|
      {
        times := times[1..];
      }
      bursts := bursts[kind := times];
      if |times| < FAILURE_BURST {
        return None;
      }
      if kind in lastAlert && t - lastAlert[kind] < FAILURE_ALERT_EVERY {
        return None;
      }
      lastAlert := lastAlert[kind := t];
      alert := Some(|times|);
    }
  }

  // ---- one kind over a whole run ----

  function Run(events: seq<int>): Burst {
    if events == [] then QUIET
    else Counted(Run(events[..|events| - 1]), events[|events| - 1]).0
  }

  /** The alert sent at the last event, if any. */
  function AlertAt(events: seq<int>): Option<nat>
    requires events != []
  {
    Counted(Run(events[..|events| - 1]), events[|events| - 1]).1
  }

  /** What the alerts should be, from the list of events alone: the time of the latest alert. */
  function LatestAlert(events: seq<int>): Option<int>
    decreases |events|, 1
  {
    if events == [] then None
    else
      var before := LatestAlert(events[..|events| - 1]);
      if ShouldAlert(events) then Some(events[|events| - 1]) else before
  }

  /** At least 20 events in the past 15 minutes, this one included, and no alert in the past hour. */
  predicate ShouldAlert(events: seq<int>)
    requires events != []
    decreases |events|, 0
  {
    var t := events[|events| - 1];
    var before := LatestAlert(events[..|events| - 1]);
    && Recent(events, t, 900_000) >= 20
    && (before.Some? ==> t - before.value >= 3_600_000)
  }

  lemma NothingTracked(end: int)
    ensures Tracks([], [], end, FAILURE_WINDOW)
  {}

  lemma {:induction false} LaterTracks(queue: seq<int>, events: seq<int>, now: int, t: int)
    requires Tracks(queue, events, now, FAILURE_WINDOW) && now <= t
    ensures Tracks(queue, events, t, FAILURE_WINDOW)
  {}

  lemma {:induction false} ExpirePush(queue: seq<int>, events: seq<int>, now: int, t: int)
    requires Tracks(queue, events, now, FAILURE_WINDOW) && now <= t
    ensures Tracks(queue + [t], events + [t], t, FAILURE_WINDOW)
  {
    var more := events + [t];
    assert more[|more| - |queue + [t]|..] == queue + [t];
  }

  /** The memory is exactly the part of the history the alerts depend on. */
  lemma {:induction false} RunTracks(events: seq<int>, end: int)
    requires Sorted(events) && forall i :: 0 <= i < |events| ==> events[i] <= end
    ensures Tracks(Run(events).times, events, end, FAILURE_WINDOW)
    ensures Run(events).lastAlert == LatestAlert(events)
  {
    hide Tracks, Expire, Recent;
    if events == [] {
      NothingTracked(end);
    } else {
      var n := |events| - 1;
      var t, b := events[n], Run(events[..n]);
      RunTracks(events[..n], t);
      assert events == events[..n] + [t];
      ExpirePush(b.times, events[..n], t, t);
      ExpireTracks(b.times + [t], events, t, FAILURE_WINDOW, t);
      LaterTracks(Expire(b.times + [t], t, FAILURE_WINDOW), events, t, end);
      QueueCounts(b.times + [t], events, t, FAILURE_WINDOW, t);
    }
  }

  /** An alert goes out exactly when it should, and says exactly how many there were. */
  lemma {:induction false} AlertsExactly(events: seq<int>)
    requires events != [] && Sorted(events)
    ensures AlertAt(events) ==
      if ShouldAlert(events) then Some(Recent(events, events[|events| - 1], 900_000)) else None
  {
    hide Tracks, Expire, Recent, Run;
    var n := |events| - 1;
    var t, b := events[n], Run(events[..n]);
    RunTracks(events[..n], t);
    assert events == events[..n] + [t];
    ExpirePush(b.times, events[..n], t, t);
    QueueCounts(b.times + [t], events, t, FAILURE_WINDOW, t);
  }

  lemma {:induction false} LatestAlertIsRecent(events: seq<int>, i: nat)
    requires Sorted(events) && i < |events| && ShouldAlert(events[..i + 1])
    ensures LatestAlert(events).Some? && events[i] <= LatestAlert(events).value
  {
    var n := |events| - 1;
    if i < n {
      assert events[..n][..i + 1] == events[..i + 1];
      LatestAlertIsRecent(events[..n], i);
    } else {
      assert events[..i + 1] == events;
    }
  }

  /** Two alerts of a kind are at least an hour apart. */
  lemma {:induction false} AlertsAnHourApart(events: seq<int>, i: nat, j: nat)
    requires Sorted(events) && i < j < |events|
    requires AlertAt(events[..i + 1]).Some? && AlertAt(events[..j + 1]).Some?
    ensures events[j] - events[i] >= 3_600_000
  {
    AlertsExactly(events[..i + 1]);
    AlertsExactly(events[..j + 1]);
    assert events[..j + 1][..j] == events[..j] && events[..j][..i + 1] == events[..i + 1];
    LatestAlertIsRecent(events[..j], i);
  }
}
