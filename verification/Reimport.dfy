/** Importing files again and again: a row is in the library as often as the file that has
    it most often. */
module Reimport {
  import opened Common
  import opened Importing

  /** What a file reader makes of the rows: those its defaults make invalid have no payload. */
  function FromFile<R>(rows: seq<R>, digest: R -> string, valid: R -> bool): (candidates: seq<Candidate<R>>)
    ensures |candidates| == |rows|
  {
    var keys := Keys(Digests(rows, digest));
    seq(|rows|, i requires 0 <= i < |rows| =>
      Candidate(i + 1, Some(keys[i]), false, if valid(rows[i]) then Some(rows[i]) else None, true))
  }

  /** Digests of one length that no two rows share. */
  ghost predicate CollisionFree<R(!new)>(digest: R -> string) {
    && (forall r :: |digest(r)| == DIGEST)
    && (forall r, q :: digest(r) == digest(q) ==> r == q)
  }

  /** How many items of the source were imported from this row, in the trash or not. */
  function Times<R(==)>(items: seq<Item<R>>, source: string, r: R): nat {
    if items == [] then 0
    else
      var last := items[|items| - 1];
      Times(items[..|items| - 1], source, r) + if last.source == Some(source) && last.payload == r then 1 else 0
  }

  /** The source's keys are the first ordinals of each row, one for each item. */
  ghost predicate Mirrors<R(!new)>(items: seq<Item<R>>, source: string, digest: R -> string) {
    forall r: R, k: nat :: Held(items, source, KeyText(digest(r), k)) <==> 1 <= k <= Times(items, source, r)
  }

  // ---- one file ----

  function Most(a: nat, b: nat): nat {
    if a < b then b else a
  }

  /** Counts after so many rows of the file. */
  function Grown<R(==)>(before: nat, rows: seq<R>, valid: R -> bool, r: R): nat {
    if valid(r) then Most(before, multiset(rows)[r]) else before
  }

  ghost predicate Grew<R(!new)>(items: seq<Item<R>>, after: seq<Item<R>>, source: string, rows: seq<R>,
      valid: R -> bool) {
    forall r :: Times(after, source, r) == Grown(Times(items, source, r), rows, valid, r)
  }

  lemma {:induction false} SameCounts<R(!new)>(rows: seq<R>, digest: R -> string, n: nat, r: R)
    requires CollisionFree(digest) && n <= |rows|
    ensures multiset(Digests(rows, digest)[..n])[digest(r)] == multiset(rows[..n])[r]
  {
    var digests := Digests(rows, digest);
    if n > 0 {
      SameCounts(rows, digest, n - 1, r);
      assert digests[..n] == digests[..n - 1] + [digests[n - 1]];
      assert rows[..n] == rows[..n - 1] + [rows[n - 1]];
    }
  }

  lemma CandidateAt<R(!new)>(rows: seq<R>, digest: R -> string, valid: R -> bool, i: nat)
    requires CollisionFree(digest) && i < |rows|
    ensures FromFile(rows, digest, valid)[i] ==
      Candidate(i + 1, Some(KeyText(digest(rows[i]), multiset(rows[..i + 1])[rows[i]])), false,
        if valid(rows[i]) then Some(rows[i]) else None, true)
  {
    SameCounts(rows, digest, i + 1, rows[i]);
    DigestAt(rows, digest, i);
    FromFileAt(rows, digest, valid, i);
    hide *;
    KeyAt(Digests(rows, digest), i);
  }

  lemma {:induction false} DigestAt<R>(rows: seq<R>, digest: R -> string, i: nat)
    requires i < |rows|
    ensures |Digests(rows, digest)| == |rows| && Digests(rows, digest)[i] == digest(rows[i])
  {}

  lemma {:induction false} FromFileAt<R>(rows: seq<R>, digest: R -> string, valid: R -> bool, i: nat)
    requires i < |rows| == |Digests(rows, digest)|
    ensures |FromFile(rows, digest, valid)| == |Keys(Digests(rows, digest))| == |rows|
    ensures FromFile(rows, digest, valid)[i] ==
      Candidate(i + 1, Some(Keys(Digests(rows, digest))[i]), false, if valid(rows[i]) then Some(rows[i])
        else None, true)
  {
    KeyCount(Digests(rows, digest));
    hide Keys, Digests;
  }

  lemma KeyNotEmpty(d: string, k: nat)
    ensures Given(Some(KeyText(d, k)))
  {}

  lemma {:induction false} CountUp<R>(rows: seq<R>, n: nat, r: R)
    requires n < |rows|
    ensures multiset(rows[..n + 1])[r] == multiset(rows[..n])[r] + if r == rows[n] then 1 else 0
  {
    assert rows[..n + 1] == rows[..n] + [rows[n]];
  }

  /** What one turn does for the file's n-th row. */
  lemma TurnIs<R(!new)>(items: seq<Item<R>>, so: Tally<R>, source: string, rows: seq<R>, digest: R -> string,
      valid: R -> bool, n: nat)
    requires CollisionFree(digest) && n < |rows| && !so.crashed
    requires Mirrors(items, source, digest) && Mirrors(so.items, source, digest)
      && Grew(items, so.items, source, rows[..n], valid)
    ensures var k := multiset(rows[..n + 1])[rows[n]];
      var after := Turn(so, source, PreparedOf(items, source, FromFile(rows, digest, valid)[n]));
      && !after.crashed
      && after.items == (if valid(rows[n]) && k > Times(items, source, rows[n])
           then so.items + [Item(Some(source), Some(KeyText(digest(rows[n]), k)), rows[n], false)] else so.items)
  {
    CandidateAt(rows, digest, valid, n);
    var r := rows[n];
    var k := multiset(rows[..n + 1])[r];
    CountUp(rows, n, r);
    KeyNotEmpty(digest(r), k);
    hide KeyText, Held, FromFile;
    assert Held(items, source, KeyText(digest(r), k)) <==> 1 <= k <= Times(items, source, r);
    assert Held(so.items, source, KeyText(digest(r), k)) <==> 1 <= k <= Times(so.items, source, r);
    assert Times(so.items, source, r) == Grown(Times(items, source, r), rows[..n], valid, r);
  }

  /** An item added with the next ordinal of its row. */
  lemma AddedMirrors<R(!new)>(items: seq<Item<R>>, source: string, digest: R -> string, r: R, k: nat)
    requires CollisionFree(digest) && Mirrors(items, source, digest) && k == Times(items, source, r) + 1
    ensures var after := items + [Item(Some(source), Some(KeyText(digest(r), k)), r, false)];
      && Mirrors(after, source, digest)
      && forall q :: Times(after, source, q) == Times(items, source, q) + if q == r then 1 else 0
  {
    var after := items + [Item(Some(source), Some(KeyText(digest(r), k)), r, false)];
    assert after[..|items|] == items;
    forall q
      ensures Times(after, source, q) == Times(items, source, q) + if q == r then 1 else 0
    {}
    hide Times, KeyText;
    forall q: R, l: nat
      ensures Held(after, source, KeyText(digest(q), l)) <==> 1 <= l <= Times(after, source, q)
    {
      HeldAppend(items, after, source, KeyText(digest(q), l));
      assert Held(items, source, KeyText(digest(q), l)) <==> 1 <= l <= Times(items, source, q);
      if KeyText(digest(q), l) == KeyText(digest(r), k) {
        KeyInjective(digest(q), l, digest(r), k);
      }
    }
  }

  lemma TurnGrows<R(!new)>(items: seq<Item<R>>, so: Tally<R>, source: string, rows: seq<R>, digest: R -> string,
      valid: R -> bool, n: nat)
    requires CollisionFree(digest) && n < |rows| && !so.crashed
    requires Mirrors(items, source, digest) && Mirrors(so.items, source, digest)
      && Grew(items, so.items, source, rows[..n], valid)
    ensures var after := Turn(so, source, PreparedOf(items, source, FromFile(rows, digest, valid)[n]));
      && !after.crashed && Mirrors(after.items, source, digest)
        && Grew(items, after.items, source, rows[..n + 1], valid)
  {
    TurnIs(items, so, source, rows, digest, valid, n);
    var r := rows[n];
    var k := multiset(rows[..n + 1])[r];
    var after := Turn(so, source, PreparedOf(items, source, FromFile(rows, digest, valid)[n]));
    hide Mirrors, Turn, PreparedOf, FromFile, Times, KeyText;
    assert Times(so.items, source, r) == Grown(Times(items, source, r), rows[..n], valid, r);
    CountUp(rows, n, r);
    if valid(r) && k > Times(items, source, r) {
      AddedMirrors(so.items, source, digest, r, k);
    }
    forall q
      ensures Times(after.items, source, q) == Grown(Times(items, source, q), rows[..n + 1], valid, q)
    {
      CountUp(rows, n, q);
      assert Times(so.items, source, q) == Grown(Times(items, source, q), rows[..n], valid, q);
    }
  }

  lemma {:induction false} FileGrows<R(!new)>(items: seq<Item<R>>, source: string, rows: seq<R>, digest: R -> string,
      valid: R -> bool, n: nat)
    requires CollisionFree(digest) && n <= |rows| && Mirrors(items, source, digest)
    ensures var done := RunOf(items, source, Prepare(items, source, FromFile(rows, digest, valid))[..n]);
      && !done.crashed && Mirrors(done.items, source, digest) && Grew(items, done.items, source, rows[..n], valid)
  {
    hide Mirrors, Turn, PreparedOf, FromFile;
    var prepared := Prepare(items, source, FromFile(rows, digest, valid));
    if n == 0 {
      assert prepared[..n] == [];
    } else {
      FileGrows(items, source, rows, digest, valid, n - 1);
      FileSize(rows, digest, valid);
      assert prepared[..n][..n - 1] == prepared[..n - 1];
      hide Grew;
      TurnGrows(items, RunOf(items, source, prepared[..n - 1]), source, rows, digest, valid, n - 1);
    }
  }

  lemma {:induction false} FileSize<R>(rows: seq<R>, digest: R -> string, valid: R -> bool)
    ensures |FromFile(rows, digest, valid)| == |rows|
  {}

  /** One import: each valid row ends up as often as it was or as the file has it, whichever
      is more; the invalid ones are left; the run finishes and the mirror is kept. */
  lemma {:induction false} ImportGrows<R(!new)>(
      items: seq<Item<R>>, source: string, rows: seq<R>, digest: R -> string, valid: R -> bool)
    requires CollisionFree(digest) && Mirrors(items, source, digest)
    ensures var done := Import(items, source, FromFile(rows, digest, valid));
      && !done.crashed && Mirrors(done.items, source, digest) && Grew(items, done.items, source, rows, valid)
      && done.created + done.skipped + |done.errors| == |rows|
      && |done.items| == |items| + done.created && done.items[..|items|] == items
  {
    FileSize(rows, digest, valid);
    var prepared := Prepare(items, source, FromFile(rows, digest, valid));
    FileGrows(items, source, rows, digest, valid, |rows|);
    assert prepared[..|rows|] == prepared && rows[..|rows|] == rows;
    EveryRowCounted(items, source, prepared);
  }

  // ---- every history of imports ----

  /** An import of a file, or an item moved to the trash or back. */
  datatype Event<!R> = File(rows: seq<R>, valid: R -> bool) | Trash(item: nat, deleted: bool)

  function Step<R(==)>(items: seq<Item<R>>, source: string, digest: R -> string, event: Event<R>): seq<Item<R>> {
    match event
    case File(rows, valid) => Import(items, source, FromFile(rows, digest, valid)).items
    case Trash(i, deleted) => if i < |items| then items[i := items[i].(deleted := deleted)] else items
  }

  function History<R(==)>(items: seq<Item<R>>, source: string, digest: R -> string,
      events: seq<Event<R>>): seq<Item<R>> {
    if events == [] then items
    else Step(History(items, source, digest, events[..|events| - 1]), source, digest, events[|events| - 1])
  }

  /** The most any one file had of a row that was valid in it. */
  function MostIn<R(==)>(events: seq<Event<R>>, r: R): nat {
    if events == [] then 0
    else
      var before, last := MostIn(events[..|events| - 1], r), events[|events| - 1];
      if last.File? && last.valid(r) then Most(before, multiset(last.rows)[r]) else before
  }

  lemma {:induction false} TrashCounts<R(!new)>(items: seq<Item<R>>, source: string, i: nat, deleted: bool, r: R)
    requires i < |items|
    ensures Times(items[i := items[i].(deleted := deleted)], source, r) == Times(items, source, r)
  {
    var after := items[i := items[i].(deleted := deleted)];
    var n := |items| - 1;
    if i < n {
      TrashCounts(items[..n], source, i, deleted, r);
      assert after[..n] == items[..n][i := items[i].(deleted := deleted)];
    } else {
      assert after[..n] == items[..n];
    }
  }

  lemma TrashMirrors<R(!new)>(items: seq<Item<R>>, source: string, digest: R -> string, i: nat, deleted: bool)
    requires Mirrors(items, source, digest) && i < |items|
    ensures Mirrors(items[i := items[i].(deleted := deleted)], source, digest)
  {
    var after := items[i := items[i].(deleted := deleted)];
    forall r: R, k: nat
      ensures Held(after, source, KeyText(digest(r), k)) <==> 1 <= k <= Times(after, source, r)
    {
      hide KeyText;
      TrashCounts(items, source, i, deleted, r);
      var key := KeyText(digest(r), k);
      TrashHeld(items, source, i, deleted, key);
    }
  }

  lemma TrashHeld<R>(items: seq<Item<R>>, source: string, i: nat, deleted: bool, key: string)
    requires i < |items|
    ensures Held(items[i := items[i].(deleted := deleted)], source, key) <==> Held(items, source, key)
  {
    var after := items[i := items[i].(deleted := deleted)];
    if Held(items, source, key) {
      var j :| 0 <= j < |items| && items[j].source == Some(source) && items[j].key == Some(key);
      assert after[j].key == Some(key);
    }
  }

  /** From a library with nothing of the source: after any imports, each row is there
      exactly as often as the file that had most of it, trashed items included. */
  lemma {:induction false} AsOftenAsTheMost<R(!new)>(items: seq<Item<R>>, source: string, digest: R -> string,
      events: seq<Event<R>>, r: R)
    requires CollisionFree(digest) && Mirrors(items, source, digest)
    ensures Mirrors(History(items, source, digest, events), source, digest)
    ensures Times(History(items, source, digest, events), source, r) == Most(Times(items, source, r), MostIn(events, r))
  {
    hide Mirrors, CollisionFree, Import, FromFile;
    if events != [] {
      var n := |events| - 1;
      var before := History(items, source, digest, events[..n]);
      AsOftenAsTheMost(items, source, digest, events[..n], r);
      match events[n]
      case File(rows, valid) =>
        ImportGrows(before, source, rows, digest, valid);
        assert Times(Import(before, source, FromFile(rows, digest, valid)).items, source, r)
          == Grown(Times(before, source, r), rows, valid, r);
      case Trash(i, deleted) =>
        if i < |before| {
          TrashMirrors(before, source, digest, i, deleted);
          TrashCounts(before, source, i, deleted, r);
        }
    }
  }

  lemma {:induction false} NothingMirrors<R(!new)>(items: seq<Item<R>>, source: string, digest: R -> string)
    requires forall i :: 0 <= i < |items| ==> items[i].source != Some(source)
    ensures Mirrors(items, source, digest)
  {
    forall r ensures Times(items, source, r) == 0 { NoneTimes(items, source, r); }
    hide KeyText;
    forall r: R, k: nat
      ensures Held(items, source, KeyText(digest(r), k)) <==> 1 <= k <= Times(items, source, r)
    {}
  }

  lemma {:induction false} NoneTimes<R(!new)>(items: seq<Item<R>>, source: string, r: R)
    requires forall i :: 0 <= i < |items| ==> items[i].source != Some(source)
    ensures Times(items, source, r) == 0
  {
    if items != [] {
      NoneTimes(items[..|items| - 1], source, r);
    }
  }

  // ---- two files ----

  /** The rows of the source's items made since. */
  lemma {:induction false} TimesAppend<R(!new)>(a: seq<Item<R>>, b: seq<Item<R>>, source: string, r: R)
    ensures Times(a + b, source, r) == Times(a, source, r) + Times(b, source, r)
  {
    if b == [] {
      assert a + b == a;
    } else {
      assert (a + b)[..|a + b| - 1] == a + b[..|b| - 1];
      TimesAppend(a, b[..|b| - 1], source, r);
    }
  }

  ghost predicate AllValid<R(!new)>(valid: R -> bool) {
    forall r :: valid(r)
  }

  /** File A, then file B: B adds exactly what it has of each row beyond what A had. */
  lemma {:induction false} ExcessOnly<R(!new)>(
      items: seq<Item<R>>, source: string, a: seq<R>, b: seq<R>, digest: R -> string,
      valid: R -> bool, r: R)
    requires CollisionFree(digest) && AllValid(valid)
    requires forall i :: 0 <= i < |items| ==> items[i].source != Some(source)
    ensures var first := Import(items, source, FromFile(a, digest, valid)).items;
      var second := Import(first, source, FromFile(b, digest, valid)).items;
      && |first| <= |second| && second[..|first|] == first
      && Times(second[|first|..], source, r) == (multiset(b) - multiset(a))[r]
  {
    hide CollisionFree, Import, FromFile, Mirrors;
    var first := Import(items, source, FromFile(a, digest, valid)).items;
    var second := Import(first, source, FromFile(b, digest, valid)).items;
    NothingMirrors(items, source, digest);
    NoneTimes(items, source, r);
    ImportGrows(items, source, a, digest, valid);
    ImportGrows(first, source, b, digest, valid);
    assert second == first + second[|first|..];
    TimesAppend(first, second[|first|..], source, r);
    assert Times(first, source, r) == Grown(Times(items, source, r), a, valid, r);
    assert Times(second, source, r) == Grown(Times(first, source, r), b, valid, r);
  }

  /** The same file again, in any order and whatever is in the trash, creates nothing. */
  lemma {:induction false} AgainCreatesNothing<R(!new)>(
      items: seq<Item<R>>, source: string, a: seq<R>, b: seq<R>, digest: R -> string,
      valid: R -> bool)
    requires CollisionFree(digest) && Mirrors(items, source, digest) && multiset(a) == multiset(b)
    ensures var first := Import(items, source, FromFile(a, digest, valid)).items;
      var again := Import(first, source, FromFile(b, digest, valid));
      again.created == 0 && again.items == first
  {
    hide CollisionFree, Import, FromFile, Mirrors;
    var first := Import(items, source, FromFile(a, digest, valid)).items;
    var again := Import(first, source, FromFile(b, digest, valid));
    ImportGrows(items, source, a, digest, valid);
    ImportGrows(first, source, b, digest, valid);
    var added := again.items[|first|..];
    assert again.items == first + added;
    if added != [] {
      MadeOfSource(first, source, b, digest, valid);
      var r := added[|added| - 1].payload;
      assert Times(first, source, r) == Grown(Times(items, source, r), a, valid, r);
      assert Times(again.items, source, r) == Grown(Times(first, source, r), b, valid, r);
      TimesAppend(first, added, source, r);
    }
  }

  lemma {:induction false} CreatedOfSource<R>(items: seq<Item<R>>, source: string, prepared: seq<Prepared<R>>)
    ensures var after := RunOf(items, source, prepared).items;
      |items| <= |after| && forall i :: |items| <= i < |after| ==> after[i].source == Some(source)
  {
    if prepared != [] {
      CreatedOfSource(items, source, prepared[..|prepared| - 1]);
    }
  }

  lemma MadeOfSource<R(!new)>(items: seq<Item<R>>, source: string, rows: seq<R>, digest: R -> string, valid: R -> bool)
    ensures var after := Import(items, source, FromFile(rows, digest, valid)).items;
      |items| <= |after| && forall i :: |items| <= i < |after| ==> after[i].source == Some(source)
  {
    CreatedOfSource(items, source, Prepare(items, source, FromFile(rows, digest, valid)));
  }
}
