/** The replay memory of oidc.py (`consume`, lines 446-463): the states accepted lately,
    oldest first. A key is the digest of a state. Times are whole milliseconds. */
module Replay {
  import opened Common
  import opened OrderedDicts

  const FLOW_TTL := 600_000
  const MAX_CONSUMED := 100_000

  type Memory<K> = Items<K, int>

  /** The loop that drops the oldest while it is old or the memory is full. */
  function Dropped<K>(memory: Memory<K>, t: int): Memory<K> {
    if memory != [] && !(t - memory[0].1 < FLOW_TTL && |memory| < MAX_CONSUMED) then Dropped(memory[1..], t)
    else memory
  }

  /** The memory after `consume`, and whether the state was accepted. */
  function Consumed<K(==)>(memory: Memory<K>, key: K, t: int): (Memory<K>, bool) {
    var kept := Dropped(memory, t);
    if Has(kept, key) then (kept, false) else (Put(kept, key, t), true)
  }

  class ReplayMemory<K(==)> {
    const consumed: OrderedDict<K, int>

    constructor ()
      ensures fresh(consumed) && consumed.items == []
    {
      consumed := new OrderedDict();
    }

    /** `consume`: the state given must be the flow's, and is then taken once. */
    method Consume(flow: string, state: Option<string>, digest: string -> K, t: int) returns (accepted: bool)
      modifies consumed
      ensures state != Some(flow) ==> !accepted && consumed.items == old(consumed.items)
      ensures state == Some(flow) ==> (consumed.items, accepted) == Consumed(old(consumed.items), digest(flow), t)
    {
      if state != Some(flow) {
        return false;
      }
      accepted := LockedConsume(digest(flow), t);
    }

    method LockedConsume(key: K, t: int) returns (accepted: bool)
      modifies consumed
      ensures (consumed.items, accepted) == Consumed(old(consumed.items), key, t)
    {
      while consumed.items != []
        invariant Dropped(consumed.items, t) == Dropped(old(consumed.items), t)
        decreases |consumed.items|
      {
        var (_, at) := consumed.items[0];
        if t - at < FLOW_TTL && |consumed.items| < MAX_CONSUMED {
          break;
        }
        consumed.PopFirst();
      }
      if Has(consumed.items, key) {
        return false;
      }
      consumed.Set(key, t);
      accepted := true;
    }
  }

  // ---- every run ----

  datatype Call<K> = Call(key: K, t: int)

  function Run<K(==)>(calls: seq<Call<K>>): Memory<K> {
    if calls == [] then []
    else Consumed(Run(calls[..|calls| - 1]), calls[|calls| - 1].key, calls[|calls| - 1].t).0
  }

  /** The accepted calls, in order. */
  function Accepted<K(==)>(calls: seq<Call<K>>): seq<(K, int)> {
    if calls == [] then []
    else
      var n := |calls| - 1;
      var before := Accepted(calls[..n]);
      if Consumed(Run(calls[..n]), calls[n].key, calls[n].t).1 then before + [(calls[n].key, calls[n].t)] else before
  }

  ghost predicate InTime<K>(calls: seq<Call<K>>, end: int) {
    && (forall i, j :: 0 <= i < j < |calls| ==> calls[i].t <= calls[j].t)
    && (forall i :: 0 <= i < |calls| ==> calls[i].t <= end)
  }

  /** The memory is the newest part of everything accepted; what it dropped is 10 minutes
      old or has MAX_CONSUMED - 1 acceptances after it. */
  ghost predicate Remembers<K>(memory: Memory<K>, accepted: seq<(K, int)>, now: int) {
    && |memory| <= |accepted| && |memory| <= MAX_CONSUMED
    && memory == accepted[|accepted| - |memory|..]
    && Unique(memory)
    && (forall i, j :: 0 <= i < j < |accepted| ==> accepted[i].1 <= accepted[j].1)
    && (forall i :: 0 <= i < |accepted| ==> accepted[i].1 <= now)
    && (forall i :: 0 <= i < |accepted| - |memory| ==>
          now - accepted[i].1 >= FLOW_TTL || |accepted| - i >= MAX_CONSUMED)
  }

  lemma {:induction false} DroppedRemembers<K>(memory: Memory<K>, accepted: seq<(K, int)>, now: int, t: int)
    requires Remembers(memory, accepted, now) && now <= t
    ensures Remembers(Dropped(memory, t), accepted, t) && |Dropped(memory, t)| < MAX_CONSUMED
    decreases |memory|
  {
    if memory != [] && !(t - memory[0].1 < FLOW_TTL && |memory| < MAX_CONSUMED) {
      var k := |accepted| - |memory|;
      assert memory[0] == accepted[k] && memory[1..] == accepted[k + 1..];
      assert Remembers(memory[1..], accepted, t);
      DroppedRemembers(memory[1..], accepted, t, t);
    }
  }

  lemma PutRemembers<K>(memory: Memory<K>, accepted: seq<(K, int)>, key: K, t: int)
    requires Remembers(memory, accepted, t) && |memory| < MAX_CONSUMED && !Has(memory, key)
    ensures Remembers(Put(memory, key, t), accepted + [(key, t)], t)
  {
    var more := accepted + [(key, t)];
    assert Put(memory, key, t) == memory + [(key, t)];
    assert more[|more| - |memory + [(key, t)]|..] == memory + [(key, t)];
  }

  lemma {:induction false} RunRemembers<K>(calls: seq<Call<K>>, end: int)
    requires InTime(calls, end)
    ensures Remembers(Run(calls), Accepted(calls), end)
  {
    hide Remembers, Dropped;
    if calls == [] {
      NothingRemembered<K>(end);
    } else {
      var n := |calls| - 1;
      var memory, accepted, t := Run(calls[..n]), Accepted(calls[..n]), calls[n].t;
      RunRemembers(calls[..n], t);
      DroppedRemembers(memory, accepted, t, t);
      if !Has(Dropped(memory, t), calls[n].key) {
        PutRemembers(Dropped(memory, t), accepted, calls[n].key, t);
      }
      LaterRemembers(Run(calls), Accepted(calls), t, end);
    }
  }

  lemma NothingRemembered<K>(end: int)
    ensures Remembers<K>([], [], end)
  {}

  lemma LaterRemembers<K>(memory: Memory<K>, accepted: seq<(K, int)>, now: int, t: int)
    requires Remembers(memory, accepted, now) && now <= t
    ensures Remembers(memory, accepted, t)
  {}

  /** No two acceptances of one state are close: 10 minutes, or MAX_CONSUMED - 1 others, lie between. */
  ghost predicate NoReplay<K>(accepted: seq<(K, int)>) {
    forall i, j :: 0 <= i < j < |accepted| && accepted[i].0 == accepted[j].0 ==>
      accepted[j].1 - accepted[i].1 >= FLOW_TTL || j - i - 1 >= MAX_CONSUMED - 1
  }

  lemma AcceptingKeepsApart<K>(kept: Memory<K>, accepted: seq<(K, int)>, key: K, t: int)
    requires Remembers(kept, accepted, t) && NoReplay(accepted) && !Has(kept, key)
    ensures NoReplay(accepted + [(key, t)])
  {
    var k := |accepted| - |kept|;
    forall i | k <= i < |accepted|
      ensures accepted[i].0 != key
    {
      assert accepted[i] == kept[i - k];
    }
  }

  lemma {:induction false} StatesAcceptedOnce<K>(calls: seq<Call<K>>)
    requires InTime(calls, if calls == [] then 0 else calls[|calls| - 1].t)
    ensures NoReplay(Accepted(calls))
  {
    hide Remembers, NoReplay, Dropped;
    if calls == [] {
      NothingAccepted<K>();
    } else {
      var n := |calls| - 1;
      var memory, accepted, t := Run(calls[..n]), Accepted(calls[..n]), calls[n].t;
      StatesAcceptedOnce(calls[..n]);
      RunRemembers(calls[..n], t);
      DroppedRemembers(memory, accepted, t, t);
      if !Has(Dropped(memory, t), calls[n].key) {
        AcceptingKeepsApart(Dropped(memory, t), accepted, calls[n].key, t);
      }
    }
  }

  lemma NothingAccepted<K>()
    ensures NoReplay<K>([])
  {}

  /** A state is refused exactly when the memory still holds it, so one accepted less than
      10 minutes ago with fewer than MAX_CONSUMED - 1 others since is always refused. */
  lemma {:induction false} RecentStateRefused<K>(calls: seq<Call<K>>, i: nat, t: int)
    requires InTime(calls, t) && i < |Accepted(calls)|
    requires t - Accepted(calls)[i].1 < FLOW_TTL && |Accepted(calls)| - i < MAX_CONSUMED
    ensures !Consumed(Run(calls), Accepted(calls)[i].0, t).1
  {
    var accepted := Accepted(calls);
    RunRemembers(calls, t);
    DroppedRemembers(Run(calls), accepted, t, t);
    var kept := Dropped(Run(calls), t);
    assert kept[i - (|accepted| - |kept|)].0 == accepted[i].0;
  }

  /** A state is refused exactly when it was accepted less than 10 minutes ago with fewer than
      99,999 acceptances since. */
  lemma {:induction false} RefusedExactly<K>(calls: seq<Call<K>>, key: K, t: int)
    requires InTime(calls, t)
    ensures var accepted := Accepted(calls);
      !Consumed(Run(calls), key, t).1 <==>
        exists i :: 0 <= i < |accepted|
          && accepted[i].0 == key && t - accepted[i].1 < 600_000 && |accepted| - 1 - i < 99_999
  {
    var accepted := Accepted(calls);
    RunRemembers(calls, t);
    DroppedRemembers(Run(calls), accepted, t, t);
    HeadIsRecent(Run(calls), t);
    var kept := Dropped(Run(calls), t);
    var k := |accepted| - |kept|;
    if Has(kept, key) {
      var i := Find(kept, key);
      assert kept[i] == accepted[k + i] && kept[0] == accepted[k];
    }
    forall i | 0 <= i < |accepted|
      && accepted[i].0 == key && t - accepted[i].1 < 600_000 && |accepted| - 1 - i < 99_999
      ensures Has(kept, key)
    {
      RecentStateRefused(calls, i, t);
    }
  }

  lemma {:induction false} HeadIsRecent<K>(memory: Memory<K>, t: int)
    ensures Dropped(memory, t) != [] ==> t - Dropped(memory, t)[0].1 < FLOW_TTL
    decreases |memory|
  {
    if memory != [] && !(t - memory[0].1 < FLOW_TTL && |memory| < MAX_CONSUMED) {
      HeadIsRecent(memory[1..], t);
    }
  }
}
