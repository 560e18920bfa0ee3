/** What an import reports, row by row (importing.py, lines 395-467 and 535-602): which rows
    are errors, which are duplicates, and which became items, in the order of the file. */
module ImportAnswers {
  import opened Common
  import opened Importing

  datatype Verdict = Faulty | Repeated | Fresh

  /** A row cannot be made an item: its reader's error, no valid content, or content that the item
      refuses and that is not there already. Of the others a duplicate is skipped. */
  function VerdictOf<R>(p: Prepared<R>): Verdict {
    if p.candidate.error || p.payload.None? || (!p.duplicate && !p.candidate.builds) then Faulty
    else if p.duplicate then Repeated
    else Fresh
  }

  /** The places of the rows of a verdict, in order. */
  function Places<R>(rows: seq<Prepared<R>>, v: Verdict): (at: seq<nat>)
    ensures forall k :: 0 <= k < |at| ==> at[k] < |rows|
  {
    if rows == [] then []
    else
      var n := |rows| - 1;
      Places(rows[..n], v) + if VerdictOf(rows[n]) == v then [n] else []
  }

  lemma {:induction false} PlacesExactly<R>(rows: seq<Prepared<R>>, v: Verdict)
    ensures var at := Places(rows, v);
      && (forall j, k :: 0 <= j < k < |at| ==> at[j] < at[k])
      && (forall i :: 0 <= i < |rows| ==> (i in at <==> VerdictOf(rows[i]) == v))
  {
    hide VerdictOf;
    if rows != [] {
      var n := |rows| - 1;
      PlacesExactly(rows[..n], v);
      var before := Places(rows[..n], v);
      assert n !in before;
      forall i | 0 <= i < n ensures rows[..n][i] == rows[i] && (i in Places(rows, v) <==> i in before) {}
    }
  }

  /** What a run reports and makes, by the places of the rows. */
  ghost predicate Reports<R>(items: seq<Item<R>>, source: string, rows: seq<Prepared<R>>, done: Tally<R>) {
    var failed, made := Places(rows, Faulty), Places(rows, Fresh);
    && |done.errors| == |failed| && (forall k :: 0 <= k < |failed| ==> done.errors[k] == rows[failed[k]].candidate.row)
    && done.skipped == |Places(rows, Repeated)| && done.created == |made|
    && |done.items| == |items| + |made| && done.items[..|items|] == items
    && forall k :: 0 <= k < |made| ==>
      var row := rows[made[k]];
      && row.payload.Some?
      && done.items[|items| + k] == Item(Some(source), row.candidate.key, row.payload.value, false)
  }

  /** A finished run's errors are, in order, the numbers of exactly the faulty rows; it skips exactly
      the duplicates among the rest, and each of the others is an item, in order. */
  lemma {:induction false} RunReports<R>(items: seq<Item<R>>, source: string, rows: seq<Prepared<R>>)
    requires !RunOf(items, source, rows).crashed
    ensures Reports(items, source, rows, RunOf(items, source, rows))
  {
    hide Held;
    if rows != [] {
      var n := |rows| - 1;
      RunReports(items, source, rows[..n]);
      var before, done := RunOf(items, source, rows[..n]), RunOf(items, source, rows);
      forall k | 0 <= k < |Places(rows[..n], Faulty)|
        ensures rows[..n][Places(rows[..n], Faulty)[k]] == rows[Places(rows, Faulty)[k]]
      {}
      forall k | 0 <= k < |Places(rows[..n], Fresh)|
        ensures rows[..n][Places(rows[..n], Fresh)[k]] == rows[Places(rows, Fresh)[k]]
      {}
      assert done.items[..|items|] == before.items[..|items|];
    }
  }

  /** Where a run first meets a key that is taken. */
  ghost predicate CrashesAt<R>(items: seq<Item<R>>, source: string, rows: seq<Prepared<R>>, i: nat) {
    && i < |rows| && Clash(items, source, rows, i)
    && (forall j :: 0 <= j < i ==> !Clash(items, source, rows, j))
    && !RunOf(items, source, rows[..i]).crashed
    && RunOf(items, source, rows) == RunOf(items, source, rows[..i]).(crashed := true)
  }

  /** A run that does not finish ends at its first row with a taken key, and all it did up to there
      stays and was reported as it would be of the rows before alone. */
  lemma {:induction false} CrashReports<R>(items: seq<Item<R>>, source: string, rows: seq<Prepared<R>>)
    returns (i: nat)
    requires RunOf(items, source, rows).crashed
    ensures CrashesAt(items, source, rows, i)
    ensures Reports(items, source, rows[..i], RunOf(items, source, rows))
  {
    hide Held, Clash, Reports;
    var n := |rows| - 1;
    if RunOf(items, source, rows[..n]).crashed {
      i := CrashReports(items, source, rows[..n]);
      assert rows[..n][..i] == rows[..i];
      forall j | 0 <= j <= i ensures Clash(items, source, rows[..n], j) <==> Clash(items, source, rows, j) {
        ClashPrefix(items, source, rows, n, j);
      }
    } else {
      i := n;
      LastTurn(items, source, rows);
      FinishesExactly(items, source, rows[..n]);
      forall j | 0 <= j < n ensures !Clash(items, source, rows, j) {
        ClashPrefix(items, source, rows, n, j);
      }
      RunReports(items, source, rows[..n]);
      CrashedAlike(items, source, rows[..n], RunOf(items, source, rows[..n]));
    }
  }

  lemma {:induction false} CrashedAlike<R>(items: seq<Item<R>>, source: string, rows: seq<Prepared<R>>, done: Tally<R>)
    requires Reports(items, source, rows, done)
    ensures Reports(items, source, rows, done.(crashed := true))
  {}

  /** What an import makes of a row of a file, by the row and the items there were. */
  lemma {:induction false} ImportVerdicts<R>(items: seq<Item<R>>, source: string, candidates: seq<Candidate<R>>, i: nat)
    requires i < |candidates|
    ensures var c, p := candidates[i], Prepare(items, source, candidates)[i];
      var known := c.key.Some? && c.key.value != ""
        && exists j :: 0 <= j < |items| && items[j].source == Some(source) && items[j].key == c.key;
      && p.candidate == c && (!c.error ==> p.payload == c.payload)
      && VerdictOf(p) == (if c.error || c.payload.None? then Faulty
                          else if known then Repeated
                          else if c.builds then Fresh else Faulty)
  {}
}
