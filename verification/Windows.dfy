/** The sliding windows of throttle.py (lines 165-174 and 196-211): a queue of the times
    let through, its head dropped once it is a whole span old, and a cap on its length. */
module Windows {

  /** The queue once the heads a span old are dropped. */
  function Expire(queue: seq<int>, t: int, span: int): seq<int> {
    if queue != [] && t - queue[0] >= span then Expire(queue[1..], t, span) else queue
  }

  /** How many of the times are less than a span old. */
  function Recent(times: seq<int>, t: int, span: int): nat {
    if times == [] then 0
    else Recent(times[..|times| - 1], t, span) + if t - times[|times| - 1] < span then 1 else 0
  }

  ghost predicate Sorted(times: seq<int>) {
    forall i, j :: 0 <= i < j < |times| ==> times[i] <= times[j]
  }

  /** The queue is the newest part of everything let through, and what it dropped is old. */
  ghost predicate Tracks(queue: seq<int>, admitted: seq<int>, now: int, span: int) {
    && |queue| <= |admitted|
    && queue == admitted[|admitted| - |queue|..]
    && Sorted(admitted)
    && (forall i :: 0 <= i < |admitted| ==> admitted[i] <= now)
    && (forall i :: 0 <= i < |admitted| - |queue| ==> now - admitted[i] >= span)
  }

  /** Any two times let through `cap` places apart are at least a span apart. */
  ghost predicate SpacedOut(admitted: seq<int>, cap: nat, span: int) {
    forall i :: 0 <= i < |admitted| - cap ==> admitted[i + cap] - admitted[i] >= span
  }

  lemma {:induction false} ExpireTracks(queue: seq<int>, admitted: seq<int>, now: int, span: int, t: int)
    requires Tracks(queue, admitted, now, span) && now <= t
    ensures Tracks(Expire(queue, t, span), admitted, t, span)
    ensures |Expire(queue, t, span)| <= |queue|
    ensures forall i :: 0 <= i < |Expire(queue, t, span)| ==> t - Expire(queue, t, span)[i] < span
    decreases |queue|
  {
    if queue != [] {
      var k := |admitted| - |queue|;
      assert queue[0] == admitted[k];
      if t - queue[0] >= span {
        assert queue[1..] == admitted[k + 1..];
        forall i | 0 <= i < k + 1
          ensures t - admitted[i] >= span
        {
          assert i < k ==> now - admitted[i] >= span;
        }
        ExpireTracks(queue[1..], admitted, t, span, t);
      } else {
        forall i | 0 <= i < |queue|
          ensures t - queue[i] < span
        {
          assert queue[i] == admitted[k + i];
        }
      }
    }
  }

  lemma {:induction false} HeadIsYoung(queue: seq<int>, t: int, span: int)
    ensures Expire(queue, t, span) != [] ==> t - Expire(queue, t, span)[0] < span
    decreases |queue|
  {
    if queue != [] && t - queue[0] >= span {
      HeadIsYoung(queue[1..], t, span);
    }
  }

  lemma {:induction false} RecentOfOld(times: seq<int>, t: int, span: int)
    requires forall i :: 0 <= i < |times| ==> t - times[i] >= span
    ensures Recent(times, t, span) == 0
  {
    if times != [] {
      RecentOfOld(times[..|times| - 1], t, span);
    }
  }

  lemma {:induction false} RecentAppend(dropped: seq<int>, young: seq<int>, t: int, span: int)
    requires forall i :: 0 <= i < |young| ==> t - young[i] < span
    ensures Recent(dropped + young, t, span) == Recent(dropped, t, span) + |young|
  {
    if young == [] {
      assert dropped + young == dropped;
    } else {
      var n := |young| - 1;
      assert (dropped + young)[..|dropped + young| - 1] == dropped + young[..n];
      RecentAppend(dropped, young[..n], t, span);
    }
  }

  /** After the heads are dropped the queue's length is exactly how many were let through in the past span. */
  lemma {:induction false} QueueCounts(queue: seq<int>, admitted: seq<int>, now: int, span: int, t: int)
    requires Tracks(queue, admitted, now, span) && now <= t
    ensures |Expire(queue, t, span)| == Recent(admitted, t, span)
  {
    ExpireTracks(queue, admitted, now, span, t);
    var q := Expire(queue, t, span);
    var k := |admitted| - |q|;
    assert admitted == admitted[..k] + q;
    RecentOfOld(admitted[..k], t, span);
    RecentAppend(admitted[..k], q, t, span);
  }

  /** Letting one more through below the cap keeps the window's spacing. */
  lemma {:induction false} AdmitTracks(queue: seq<int>, admitted: seq<int>, now: int, span: int, t: int, cap: nat)
    requires Tracks(queue, admitted, now, span) && now <= t
    requires SpacedOut(admitted, cap, span) && |Expire(queue, t, span)| < cap
    ensures Tracks(Expire(queue, t, span) + [t], admitted + [t], t, span)
    ensures SpacedOut(admitted + [t], cap, span)
  {
    ExpireTracks(queue, admitted, now, span, t);
    hide Expire;
    PushTracks(Expire(queue, t, span), admitted, t, span);
    PushSpaced(Expire(queue, t, span), admitted, t, span, cap);
  }

  lemma {:induction false} PushTracks(queue: seq<int>, admitted: seq<int>, t: int, span: int)
    requires Tracks(queue, admitted, t, span)
    ensures Tracks(queue + [t], admitted + [t], t, span)
  {
    var more := admitted + [t];
    assert more[|more| - |queue + [t]|..] == queue + [t];
  }

  lemma {:induction false} PushSpaced(queue: seq<int>, admitted: seq<int>, t: int, span: int, cap: nat)
    requires Tracks(queue, admitted, t, span) && SpacedOut(admitted, cap, span) && |queue| < cap
    ensures SpacedOut(admitted + [t], cap, span)
  {
    if |admitted| >= cap {
      assert t - admitted[|admitted| - cap] >= span;
    }
  }
}
