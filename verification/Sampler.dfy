/** The sampled lines of audit.py (`_print`, lines 177-200): of the events of one label in
    15 minutes one is printed, and the next line says how many it stands for. Times are
    whole milliseconds. */
module Sampler {
  import opened Common
  import opened OrderedDicts

  const SAMPLE_WINDOW := 900_000
  const SAMPLE_KEYS := 10_000

  datatype Entry = Entry(printedAt: int, since: nat)

  type Sampled<L> = Items<L, Entry>

  function Capped<L>(sampled: Sampled<L>): Sampled<L> {
    if |sampled| > SAMPLE_KEYS then Capped(sampled[1..]) else sampled
  }

  /** After an event: the map, and the count of the line when one is printed. */
  function Printed<L(==)>(sampled: Sampled<L>, key: L, t: int): (Sampled<L>, Option<nat>) {
    var entry := Lookup(sampled, key);
    if entry.Some? && t - entry.value.printedAt < SAMPLE_WINDOW then
      (Put(sampled, key, Entry(entry.value.printedAt, entry.value.since + 1)), None)
    else
      (Capped(PutLast(sampled, key, Entry(t, 0))), Some(1 + if entry.Some? then entry.value.since else 0))
  }

  class Sampling<L(==)> {
    const sampled: OrderedDict<L, Entry>

    constructor ()
      ensures fresh(sampled) && sampled.items == []
    {
      sampled := new OrderedDict();
    }

    /** `_print`, for an event with a cap of its own. */
    method Print(key: L, t: int) returns (count: Option<nat>)
      modifies sampled
      ensures (sampled.items, count) == Printed(old(sampled.items), key, t)
    {
      var entry := Lookup(sampled.items, key);
      if entry.Some? && t - entry.value.printedAt < SAMPLE_WINDOW {
        sampled.Set(key, Entry(entry.value.printedAt, entry.value.since + 1));
        return None;
      }
      count := Some(1 + if entry.Some? then entry.value.since else 0);
      sampled.SetLast(key, Entry(t, 0));
      while |sampled.items| > SAMPLE_KEYS
        invariant Capped(sampled.items) == Capped(PutLast(old(sampled.items), key, Entry(t, 0)))
        decreases |sampled.items|
      {
        sampled.PopFirst();
      }
    }
  }

  // ---- every run ----

  datatype Event<L> = Event(key: L, t: int)

  function Run<L(==)>(events: seq<Event<L>>): Sampled<L> {
    if events == [] then []
    else Printed(Run(events[..|events| - 1]), events[|events| - 1].key, events[|events| - 1].t).0
  }

  datatype Line = Line(t: int, count: nat)

  /** The label's lines. */
  function Lines<L(==)>(events: seq<Event<L>>, key: L): seq<Line> {
    if events == [] then []
    else
      var n := |events| - 1;
      var line := Printed(Run(events[..n]), events[n].key, events[n].t).1;
      Lines(events[..n], key) + if events[n].key == key && line.Some? then [Line(events[n].t, line.value)] else []
  }

  function Sum(lines: seq<Line>): nat {
    if lines == [] then 0 else Sum(lines[..|lines| - 1]) + lines[|lines| - 1].count
  }

  function Recorded<L(==)>(events: seq<Event<L>>, key: L): nat {
    if events == [] then 0
    else Recorded(events[..|events| - 1], key) + if events[|events| - 1].key == key then 1 else 0
  }

  /** Suppressed since the label's last line. */
  function Pending<L(==)>(sampled: Sampled<L>, key: L): nat {
    var entry := Lookup(sampled, key);
    if entry.Some? then entry.value.since else 0
  }

  /** What was pending for the label each time it was pushed out. */
  function Lost<L(==)>(events: seq<Event<L>>, key: L): nat {
    if events == [] then 0
    else
      var n := |events| - 1;
      var before, after := Run(events[..n]), Run(events);
      Lost(events[..n], key) + if Lookup(before, key).Some? && Lookup(after, key).None? then Pending(before, key) else 0
  }

  predicate PushedOut<L(==)>(events: seq<Event<L>>, key: L) {
    events != []
    && (PushedOut(events[..|events| - 1], key)
        || (Lookup(Run(events[..|events| - 1]), key).Some? && Lookup(Run(events), key).None?))
  }

  ghost predicate InTime<L>(events: seq<Event<L>>) {
    forall i, j :: 0 <= i < j < |events| ==> events[i].t <= events[j].t
  }

  // ---- one event ----

  lemma {:induction false} CappedKeeps<L>(sampled: Sampled<L>, key: L)
    requires Unique(sampled)
    ensures Unique(Capped(sampled)) && |Capped(sampled)| <= SAMPLE_KEYS
    ensures Lookup(Capped(sampled), key).Some? ==> Lookup(Capped(sampled), key) == Lookup(sampled, key)
    ensures sampled != [] && sampled[|sampled| - 1].0 == key ==> Lookup(Capped(sampled), key) == Lookup(sampled, key)
    decreases |sampled|
  {
    if |sampled| > SAMPLE_KEYS {
      DropFirstKeeps(sampled, key);
      CappedKeeps(sampled[1..], key);
    }
  }

  lemma PutKeeps<L>(sampled: Sampled<L>, key: L, entry: Entry, other: L)
    requires Unique(sampled) && Lookup(sampled, key).Some?
    ensures Unique(Put(sampled, key, entry)) && |Put(sampled, key, entry)| == |sampled|
    ensures Lookup(Put(sampled, key, entry), other) == if other == key then Some(entry) else Lookup(sampled, other)
  {
    var i, put := Find(sampled, key), Put(sampled, key, entry);
    FindIs(put, key, i);
    if other != key {
      var o := Find(sampled, other);
      if o < |sampled| { FindIs(put, other, o); } else { FindNone(put, other); }
    }
  }

  /** What one event does to a label: its own is there after, any other's count stands or
      the label is pushed out. */
  lemma PrintedKeeps<L>(sampled: Sampled<L>, key: L, t: int, other: L)
    requires Unique(sampled) && |sampled| <= SAMPLE_KEYS
    ensures var (after, line) := Printed(sampled, key, t);
      && Unique(after) && |after| <= SAMPLE_KEYS && Lookup(after, key).Some?
      && (other != key ==> Lookup(after, other) == Lookup(sampled, other) || Lookup(after, other).None?)
      && (line.Some? ==> Lookup(after, key) == Some(Entry(t, 0)))
      && (line.None? ==> (Lookup(sampled, key).Some?
            && Lookup(after, key) == Some(Entry(Lookup(sampled, key).value.printedAt,
              Lookup(sampled, key).value.since + 1))))
  {
    hide Put, PutLast, Capped, Unique, Lookup;
    var entry := Lookup(sampled, key);
    if entry.Some? && t - entry.value.printedAt < SAMPLE_WINDOW {
      PutKeeps(sampled, key, Entry(entry.value.printedAt, entry.value.since + 1), key);
      PutKeeps(sampled, key, Entry(entry.value.printedAt, entry.value.since + 1), other);
    } else {
      var put := PutLast(sampled, key, Entry(t, 0));
      PutLastKeeps(sampled, key, Entry(t, 0), key);
      PutLastKeeps(sampled, key, Entry(t, 0), other);
      PutLastEnds(sampled, key, Entry(t, 0));
      CappedKeeps(put, key);
      CappedKeeps(put, other);
    }
  }

  lemma PutLastEnds<L>(sampled: Sampled<L>, key: L, entry: Entry)
    ensures var put := PutLast(sampled, key, entry);
      put != [] && put[|put| - 1].0 == key
  {}

  // ---- no count is lost ----

  lemma {:induction false} RunUnique<L>(events: seq<Event<L>>)
    ensures Unique(Run(events)) && |Run(events)| <= SAMPLE_KEYS
  {
    if events != [] {
      var n := |events| - 1;
      RunUnique(events[..n]);
      PrintedKeeps(Run(events[..n]), events[n].key, events[n].t, events[n].key);
    }
  }

  lemma {:induction false} SumPush(lines: seq<Line>, line: Line)
    ensures Sum(lines + [line]) == Sum(lines) + line.count
  {
    assert (lines + [line])[..|lines|] == lines;
  }

  /** Every event of a label is in a line, pending, or lost when the label was pushed out. */
  lemma {:induction false} NoCountLost<L>(events: seq<Event<L>>, key: L)
    ensures Recorded(events, key) == Sum(Lines(events, key)) + Pending(Run(events), key) + Lost(events, key)
    ensures !PushedOut(events, key) ==> Lost(events, key) == 0
  {
    if events != [] {
      var n := |events| - 1;
      var before, e := Run(events[..n]), events[n];
      NoCountLost(events[..n], key);
      RunUnique(events[..n]);
      hide Printed, Unique, Lookup, Pending, Sum;
      EventCounts(before, e.key, e.t, key);
      var line := Printed(before, e.key, e.t).1;
      if e.key == key && line.Some? {
        SumPush(Lines(events[..n], key), Line(e.t, line.value));
      }
      assert Lines(events[..n], key) + [] == Lines(events[..n], key);
    }
  }

  /** One event: its own label's pending count goes into the line or up by one, another's
      stands unless the label is pushed out. */
  lemma EventCounts<L>(sampled: Sampled<L>, key: L, t: int, other: L)
    requires Unique(sampled) && |sampled| <= SAMPLE_KEYS
    ensures var (after, line) := Printed(sampled, key, t);
      && Lookup(after, key).Some?
      && (line.Some? ==> line.value == 1 + Pending(sampled, key) && Pending(after, key) == 0)
      && (line.None? ==> Pending(after, key) == Pending(sampled, key) + 1)
      && (Lookup(after, other).None? ==> Pending(after, other) == 0)
      && (Lookup(sampled, other).None? ==> Pending(sampled, other) == 0)
      && (other != key && Lookup(after, other).Some? ==> Pending(after, other) == Pending(sampled, other))
  {
    PrintedKeeps(sampled, key, t, other);
    LineCount(sampled, key, t);
    hide Printed, Unique, Lookup;
  }

  lemma LineCount<L>(sampled: Sampled<L>, key: L, t: int)
    ensures Printed(sampled, key, t).1.Some? ==> Printed(sampled, key, t).1.value == 1 + Pending(sampled, key)
  {}

  // ---- lines are far apart ----

  ghost predicate Apart(lines: seq<Line>) {
    forall i :: 0 < i < |lines| ==> lines[i].t - lines[i - 1].t >= SAMPLE_WINDOW
  }

  /** The map has when the label was last printed, if it has the label; it has every label
      printed and not pushed out. */
  lemma {:induction false} LastLine<L>(events: seq<Event<L>>, key: L)
    ensures LastAgrees(Lines(events, key), Lookup(Run(events), key), PushedOut(events, key))
  {
    hide Printed, Unique, Lookup, LastAgrees;
    if events == [] {
      NoLine(key);
    } else {
      var n := |events| - 1;
      var before, e := Run(events[..n]), events[n];
      LastLine(events[..n], key);
      RunUnique(events[..n]);
      PrintedKeeps(before, e.key, e.t, key);
      var line := Printed(before, e.key, e.t).1;
      var more := if e.key == key && line.Some? then [Line(e.t, line.value)] else [];
      LastStep(Lines(events[..n], key), more, Lookup(before, key), Lookup(Run(events), key),
        PushedOut(events[..n], key), PushedOut(events, key), e.t);
    }
  }

  ghost predicate LastAgrees(lines: seq<Line>, entry: Option<Entry>, out: bool) {
    && (entry.Some? ==> lines != [] && lines[|lines| - 1].t == entry.value.printedAt)
    && (lines != [] && !out ==> entry.Some?)
  }

  lemma NoLine<L>(key: L)
    ensures LastAgrees([], Lookup([], key), false)
  {}

  lemma {:induction false} LastStep(
    lines: seq<Line>, more: seq<Line>, before: Option<Entry>, after: Option<Entry>, was: bool, out: bool, t: int)
    requires LastAgrees(lines, before, was) && (out <==> was || (before.Some? && after.None?)) && |more| <= 1
    requires more != [] ==> more[0].t == t && after.Some? && after.value.printedAt == t
    requires more == [] ==>
      after.None? || (before.Some? && after.value.printedAt == before.value.printedAt)
    ensures LastAgrees(lines + more, after, out)
  {}

  lemma PrintsLater<L>(sampled: Sampled<L>, key: L, t: int)
    requires Lookup(sampled, key).Some?
    ensures Printed(sampled, key, t).1.Some? <==> t - Lookup(sampled, key).value.printedAt >= SAMPLE_WINDOW
  {}

  lemma {:induction false} ApartPush(lines: seq<Line>, line: Line)
    requires Apart(lines) && (lines != [] ==> line.t - lines[|lines| - 1].t >= SAMPLE_WINDOW)
    ensures Apart(lines + [line])
  {}

  /** While a label is not pushed out its lines are 15 minutes apart. */
  lemma {:induction false} LinesApart<L>(events: seq<Event<L>>, key: L)
    requires !PushedOut(events, key)
    ensures Apart(Lines(events, key))
  {
    hide Printed, Lookup, Run;
    if events != [] {
      var n := |events| - 1;
      var before, e := Run(events[..n]), events[n];
      LinesApart(events[..n], key);
      LastLine(events[..n], key);
      hide PushedOut, Apart;
      var line := Printed(before, e.key, e.t).1;
      if e.key == key && line.Some? {
        if Lines(events[..n], key) != [] {
          PrintsLater(before, key, e.t);
        }
        ApartPush(Lines(events[..n], key), Line(e.t, line.value));
      }
      assert Lines(events[..n], key) + [] == Lines(events[..n], key);
    }
  }

  /** A label once printed and not pushed out since is printed again exactly when the
      window has passed. */
  lemma {:induction false} NextLineExactly<L>(events: seq<Event<L>>, key: L, t: int)
    requires !PushedOut(events, key)
    ensures var lines := Lines(events, key);
      Printed(Run(events), key, t).1.Some? <==> lines == [] || t - lines[|lines| - 1].t >= SAMPLE_WINDOW
  {
    LastLine(events, key);
    if Lookup(Run(events), key).Some? {
      PrintsLater(Run(events), key, t);
    }
  }

  // ---- which labels the map holds ----

  /** The other labels that had a line printed since this one's last line. */
  function Since<L(==)>(events: seq<Event<L>>, key: L): set<L> {
    if events == [] then {}
    else
      var n := |events| - 1;
      if Printed(Run(events[..n]), events[n].key, events[n].t).1.None? then Since(events[..n], key)
      else if events[n].key == key then {}
      else Since(events[..n], key) + {events[n].key}
  }

  function Behind<L>(sampled: Sampled<L>, i: nat): set<L> {
    set j | i < j < |sampled| :: sampled[j].0
  }

  lemma {:induction false} BehindSize<L>(sampled: Sampled<L>, i: nat)
    requires Unique(sampled) && i < |sampled|
    ensures |Behind(sampled, i)| == |sampled| - 1 - i
    decreases |sampled|
  {
    var n := |sampled| - 1;
    if i < n {
      BehindSize(sampled[..n], i);
      assert Behind(sampled, i) == Behind(sampled[..n], i) + {sampled[n].0};
    } else {
      assert Behind(sampled, i) == {};
    }
  }

  /** A label goes last: behind every other that was there comes it too. */
  lemma MovedBehind<L>(sampled: Sampled<L>, key: L, entry: Entry, i: nat)
    requires Unique(sampled) && i < |Without(sampled, key)|
    ensures var put := PutLast(sampled, key, entry);
      && put[i].0 != key && Has(sampled, put[i].0)
      && Behind(put, i) == Behind(sampled, Find(sampled, put[i].0)) + {key}
  {
    WithoutRemoves(sampled, key);
    var w, at, put := Without(sampled, key), Find(sampled, key), PutLast(sampled, key, entry);
    var place := if i < at then i else i + 1;
    assert sampled[place] == w[i] == put[i];
    FindIs(sampled, w[i].0, place);
    forall x | x in Behind(sampled, place) ensures x in Behind(put, i) {
      var j :| place < j < |sampled| && sampled[j].0 == x;
      if j == at {
        assert put[|w|].0 == key;
      } else {
        var k := if j < at then j else j - 1;
        assert w[k] == sampled[j] && put[k] == w[k];
      }
    }
    forall x | x in Behind(put, i) ensures x in Behind(sampled, place) + {key} {
      var j :| i < j < |put| && put[j].0 == x;
      if j < |w| {
        assert sampled[if j < at then j else j + 1] == w[j];
      }
    }
    assert put[|w|].0 == key;
  }

  ghost predicate Ranked<L>(sampled: Sampled<L>, key: L, since: set<L>, printed: bool) {
    if Has(sampled, key) then since == Behind(sampled, Find(sampled, key))
    else printed ==> |since| >= SAMPLE_KEYS
  }

  /** A line for one label: it goes last, and every other that stays has one more behind it. */
  lemma LineRanks<L>(sampled: Sampled<L>, key: L, entry: Entry, other: L, since: set<L>, printed: bool)
    requires Unique(sampled) && |sampled| <= SAMPLE_KEYS && Ranked(sampled, other, since, printed)
    ensures Ranked(Capped(PutLast(sampled, key, entry)), other, if other == key then {} else since + {key},
      other == key || printed)
  {
    hide Behind;
    WithoutRemoves(sampled, key);
    PutLastKeeps(sampled, key, entry, other);
    var put := PutLast(sampled, key, entry);
    assert |put| <= SAMPLE_KEYS + 1;
    HasLookup(sampled, other);
    HasLookup(put, other);
    if other == key {
      LastRanks(put, key);
    } else if Has(sampled, other) {
      var i := Find(put, other);
      assert put[|put| - 1].0 == key;
      MovedBehind(sampled, key, entry, i);
      CapRanks(put, other, since + {key});
    } else {
      CapOut(put, other);
      if key in since { assert since + {key} == since; }
    }
  }

  lemma HasLookup<L>(sampled: Sampled<L>, key: L)
    ensures Has(sampled, key) <==> Lookup(sampled, key).Some?
  {}

  lemma LastRanks<L>(put: Sampled<L>, key: L)
    requires Unique(put) && put != [] && put[|put| - 1].0 == key && |put| <= SAMPLE_KEYS + 1
    ensures Ranked(Capped(put), key, {}, true)
  {
    var capped := if |put| > SAMPLE_KEYS then put[1..] else put;
    assert Capped(put) == capped;
    FindIs(capped, key, |capped| - 1);
    assert Behind(capped, |capped| - 1) == {};
  }

  lemma CapOut<L>(put: Sampled<L>, other: L)
    requires Unique(put) && !Has(put, other)
    ensures !Has(Capped(put), other)
  {
    HasLookup(put, other);
    CappedKeeps(put, other);
    HasLookup(Capped(put), other);
  }

  /** Of one more than it may hold the first is pushed out, with all the others behind it. */
  lemma CapRanks<L>(put: Sampled<L>, other: L, since: set<L>)
    requires Unique(put) && |put| <= SAMPLE_KEYS + 1 && Has(put, other)
    requires since == Behind(put, Find(put, other))
    ensures Ranked(Capped(put), other, since, true)
  {
    var i := Find(put, other);
    if |put| > SAMPLE_KEYS {
      assert Capped(put) == put[1..];
      if i == 0 {
        BehindSize(put, 0);
        FindNone(put[1..], other);
      } else {
        FindIs(put[1..], other, i - 1);
        forall x | x in Behind(put, i) ensures x in Behind(put[1..], i - 1) {
          var j :| i < j < |put| && put[j].0 == x;
          assert put[1..][j - 1] == put[j];
        }
        assert Behind(put[1..], i - 1) == Behind(put, i);
      }
    }
  }

  /** A count goes up in its place. */
  lemma PutRanks<L>(sampled: Sampled<L>, key: L, entry: Entry, other: L, since: set<L>, printed: bool)
    requires Has(sampled, key) && Ranked(sampled, other, since, printed)
    ensures Ranked(Put(sampled, key, entry), other, since, printed)
  {
    var put := Put(sampled, key, entry);
    assert forall i :: 0 <= i < |sampled| ==> put[i].0 == sampled[i].0;
    var i := Find(sampled, other);
    if i < |sampled| {
      FirstIs(put, other, i);
      assert Behind(put, i) == Behind(sampled, i);
    } else {
      FindNone(put, other);
    }
  }

  lemma EventRanks<L>(sampled: Sampled<L>, key: L, t: int, other: L, since: set<L>, printed: bool)
    requires Unique(sampled) && |sampled| <= SAMPLE_KEYS && Ranked(sampled, other, since, printed)
    ensures var (after, line) := Printed(sampled, key, t);
      Ranked(after, other, if line.None? then since else if key == other then {} else since + {key},
        printed || (line.Some? && key == other))
  {
    hide Ranked, Put, PutLast, Capped, Unique, Lookup;
    var entry := Lookup(sampled, key);
    HasLookup(sampled, key);
    if entry.Some? && t - entry.value.printedAt < SAMPLE_WINDOW {
      PutRanks(sampled, key, Entry(entry.value.printedAt, entry.value.since + 1), other, since, printed);
    } else {
      LineRanks(sampled, key, Entry(t, 0), other, since, printed);
    }
  }

  lemma {:induction false} RunRanks<L>(events: seq<Event<L>>, key: L)
    ensures Ranked(Run(events), key, Since(events, key), Lines(events, key) != [])
  {
    hide Ranked, Printed, Unique;
    if events == [] {
      NothingRanks(key);
    } else {
      var n := |events| - 1;
      RunUnique(events[..n]);
      RunRanks(events[..n], key);
      EventRanks(Run(events[..n]), events[n].key, events[n].t, key, Since(events[..n], key),
        Lines(events[..n], key) != []);
    }
  }

  lemma NothingRanks<L>(key: L)
    ensures Ranked<L>([], key, {}, false)
  {}

  /** Over every run a label's next event is printed exactly when it is its first, or its last line
      is 15 minutes old, or 10,000 other labels had a line since. */
  lemma {:induction false} PrintsExactly<L>(events: seq<Event<L>>, key: L, t: int)
    ensures var lines := Lines(events, key);
      Printed(Run(events), key, t).1.Some? <==>
        lines == [] || t - lines[|lines| - 1].t >= 900_000 || |Since(events, key)| >= 10_000
  {
    hide Since, Lines, Behind;
    LastLine(events, key);
    RunRanks(events, key);
    RunUnique(events);
    var sampled := Run(events);
    HasLookup(sampled, key);
    if Has(sampled, key) {
      BehindSize(sampled, Find(sampled, key));
      PrintsLater(sampled, key, t);
    }
  }
}
