/** Importing a file (importing.py): fingerprint keys, the duplicates of `prepare`, and
    `run`. R is a row's content; its digest is the first 20 hex digits of a hash. */
module Importing {
  import opened Common

  // ---- fingerprint keys ----

  const DIGEST := 20

  function KeyText(digest: string, ordinal: nat): string {
    digest + ":" + Decimal(ordinal)
  }

  /** Each row's digest with its ordinal among the equal digests so far. */
  function Keys(digests: seq<string>): (keys: seq<string>)
    ensures |keys| == |digests|
  {
    seq(|digests|, i requires 0 <= i < |digests| => KeyText(digests[i], multiset(digests[..i + 1])[digests[i]]))
  }

  function Digests<R>(rows: seq<R>, digest: R -> string): (digests: seq<string>)
    ensures |digests| == |rows|
    ensures forall i :: 0 <= i < |rows| ==> digests[i] == digest(rows[i])
  {
    seq(|rows|, i requires 0 <= i < |rows| => digest(rows[i]))
  }

  /** `fingerprint_keys`, with its Counter. */
  method FingerprintKeys<R>(rows: seq<R>, digest: R -> string) returns (keys: seq<string>)
    ensures keys == Keys(Digests(rows, digest))
  {
    ghost var digests := Digests(rows, digest);
    KeyCount(digests);
    hide Decimal, KeyText, Keys;
    var seen: map<string, nat> := map[];
    keys := [];
    for i := 0 to |rows|
      invariant |keys| == i
      invariant Counts(seen, digests[..i])
      invariant forall j :: 0 <= j < i ==> keys[j] == Keys(digests)[j]
    {
      var d := digest(rows[i]);
      CountsPush(seen, digests, i);
      KeyAt(digests, i);
      seen := seen[d := (if d in seen then seen[d] else 0) + 1];
      keys := keys + [KeyText(d, seen[d])];
    }
  }

  /** A Counter of these. */
  ghost predicate Counts(seen: map<string, nat>, digests: seq<string>) {
    forall d :: (if d in seen then seen[d] else 0) == multiset(digests)[d]
  }

  lemma CountsPush(seen: map<string, nat>, digests: seq<string>, i: nat)
    requires i < |digests| && Counts(seen, digests[..i])
    ensures var d := digests[i];
      var more := seen[d := (if d in seen then seen[d] else 0) + 1];
      Counts(more, digests[..i + 1]) && more[d] == multiset(digests[..i + 1])[d]
  {
    assert digests[..i + 1] == digests[..i] + [digests[i]];
  }

  /** A key reads back as one digest and one ordinal. */
  lemma KeyInjective(d: string, k: nat, e: string, l: nat)
    requires |d| == DIGEST && |e| == DIGEST && KeyText(d, k) == KeyText(e, l)
    ensures d == e && k == l
  {
    assert KeyText(d, k)[..DIGEST] == d && KeyText(e, l)[..DIGEST] == e;
    assert KeyText(d, k)[DIGEST + 1..] == Decimal(k) && KeyText(e, l)[DIGEST + 1..] == Decimal(l);
    DecimalInjective(k, l);
  }

  lemma KeyAt(digests: seq<string>, i: nat)
    requires i < |digests|
    ensures |Keys(digests)| == |digests|
      && Keys(digests)[i] == KeyText(digests[i], multiset(digests[..i + 1])[digests[i]])
  {}

  ghost predicate Sized(digests: seq<string>) {
    forall i :: 0 <= i < |digests| ==> |digests[i]| == DIGEST
  }

  lemma CountGrows(digests: seq<string>, i: nat, j: nat)
    requires i < j < |digests| && digests[i] == digests[j]
    ensures multiset(digests[..i + 1])[digests[i]] < multiset(digests[..j + 1])[digests[i]]
  {
    assert digests[..j + 1] == digests[..i + 1] + digests[i + 1..j + 1];
    assert digests[j] == digests[i + 1..j + 1][j - i - 1];
    assert digests[j] in multiset(digests[i + 1..j + 1]);
  }

  /** No two rows of a file share a key. */
  lemma {:induction false} KeysDistinct(digests: seq<string>, i: nat, j: nat)
    requires Sized(digests) && i < j < |digests|
    ensures Keys(digests)[i] != Keys(digests)[j]
  {
    if Keys(digests)[i] == Keys(digests)[j] {
      KeyInjective(digests[i], multiset(digests[..i + 1])[digests[i]], digests[j],
        multiset(digests[..j + 1])[digests[j]]);
      CountGrows(digests, i, j);
    }
  }

  /** The keys of a file are the first ordinals of each digest, one for each time it occurs. */
  lemma {:induction false} KeysExactly(digests: seq<string>, d: string, k: nat)
    requires Sized(digests) && |d| == DIGEST
    ensures d + ":" + Decimal(k) in Keys(digests) <==> 1 <= k <= multiset(digests)[d]
  {
    TextOfKey(d, k);
    hide KeyText, Keys;
    if KeyText(d, k) in Keys(digests) {
      var i :| 0 <= i < |digests| && Keys(digests)[i] == KeyText(d, k);
      KeyAt(digests, i);
      KeyInjective(digests[i], multiset(digests[..i + 1])[digests[i]], d, k);
      assert digests == digests[..i + 1] + digests[i + 1..];
      assert d in digests[..i + 1];
    }
    if 1 <= k <= multiset(digests)[d] {
      var i := Occurrence(digests, d, k);
      KeyAt(digests, i);
      assert Keys(digests)[i] == KeyText(d, k);
    }
  }

  /** Where the k-th of them is. */
  lemma {:induction false} Occurrence(digests: seq<string>, d: string, k: nat) returns (i: nat)
    requires 1 <= k <= multiset(digests)[d]
    ensures i < |digests| && digests[i] == d && multiset(digests[..i + 1])[d] == k
  {
    var n := |digests| - 1;
    assert digests == digests[..n] + [digests[n]];
    if k <= multiset(digests[..n])[d] {
      i := Occurrence(digests[..n], d, k);
      assert digests[..n][..i + 1] == digests[..i + 1];
    } else {
      i := n;
      assert digests[..n + 1] == digests;
    }
  }

  lemma {:induction false} OnceEach(keys: seq<string>, key: string)
    requires forall i, j :: 0 <= i < j < |keys| ==> keys[i] != keys[j]
    ensures multiset(keys)[key] == if key in keys then 1 else 0
  {
    if keys != [] {
      var n := |keys| - 1;
      assert keys == keys[..n] + [keys[n]];
      OnceEach(keys[..n], key);
    }
  }

  lemma InOnce(digests: seq<string>, key: string)
    requires Sized(digests)
    ensures multiset(Keys(digests))[key] == if key in Keys(digests) then 1 else 0
  {
    hide Keys, Sized;
    KeyCount(digests);
    forall i, j | 0 <= i < j < |digests| ensures Keys(digests)[i] != Keys(digests)[j] { KeysDistinct(digests, i, j); }
    OnceEach(Keys(digests), key);
  }

  lemma KeyCount(digests: seq<string>)
    ensures |Keys(digests)| == |digests|
  {}

  /** The rows in any order get the same keys. */
  lemma {:induction false} KeysIgnoreOrder(a: seq<string>, b: seq<string>)
    requires Sized(a) && multiset(a) == multiset(b)
    ensures multiset(Keys(a)) == multiset(Keys(b))
  {
    hide *;
    forall key
      ensures multiset(Keys(a))[key] == multiset(Keys(b))[key]
    {
      SameCount(a, b, key);
    }
  }

  lemma SameCount(a: seq<string>, b: seq<string>, key: string)
    requires Sized(a) && multiset(a) == multiset(b)
    ensures multiset(Keys(a))[key] == multiset(Keys(b))[key]
  {
    hide Keys, Sized;
    SizedToo(a, b);
    InOnce(a, key);
    InOnce(b, key);
    if key in Keys(a) {
      SameMembers(a, b, key);
    } else if key in Keys(b) {
      SameMembers(b, a, key);
    }
  }

  lemma SizedToo(a: seq<string>, b: seq<string>)
    requires Sized(a) && multiset(a) == multiset(b)
    ensures Sized(b)
  {
    forall i | 0 <= i < |b| ensures |b[i]| == DIGEST {
      assert b[i] in multiset(b);
      assert b[i] in a;
    }
  }

  lemma TextOfKey(d: string, k: nat)
    ensures KeyText(d, k) == d + ":" + Decimal(k)
  {}

  lemma SameMembers(a: seq<string>, b: seq<string>, key: string)
    requires Sized(a) && Sized(b) && multiset(a) == multiset(b) && key in Keys(a)
    ensures key in Keys(b)
  {
    hide Keys, KeyText;
    KeyCount(a);
    var i: nat :| i < |a| && Keys(a)[i] == key;
    KeyAt(a, i);
    var k := multiset(a[..i + 1])[a[i]];
    TextOfKey(a[i], k);
    KeysExactly(a, a[i], k);
    KeysExactly(b, a[i], k);
  }

  // ---- the library and one import ----

  /** An item, in the trash or not, with where it was imported from. */
  datatype Item<R> = Item(source: Option<string>, key: Option<string>, payload: R, deleted: bool)

  /** A row as a source describes it: `error` from its reader, no payload when it does not
      validate; `builds` unless making the item refuses it. */
  datatype Candidate<R> = Candidate(row: nat, key: Option<string>, error: bool, payload: Option<R>, builds: bool)

  datatype Prepared<R> = Prepared(candidate: Candidate<R>, payload: Option<R>, duplicate: bool)

  /** An item of the source has the key, the trash included. */
  predicate Held<R>(items: seq<Item<R>>, source: string, key: string) {
    exists i :: 0 <= i < |items| && items[i].source == Some(source) && items[i].key == Some(key)
  }

  predicate Given(key: Option<string>) {
    key.Some? && key.value != ""
  }

  function PreparedOf<R>(items: seq<Item<R>>, source: string, c: Candidate<R>): Prepared<R> {
    if c.error then Prepared(c, None, false)
    else Prepared(c, c.payload, Given(c.key) && Held(items, source, c.key.value))
  }

  function Prepare<R>(items: seq<Item<R>>, source: string, candidates: seq<Candidate<R>>): (prepared: seq<Prepared<R>>)
    ensures |prepared| == |candidates|
  {
    seq(|candidates|, i requires 0 <= i < |candidates| => PreparedOf(items, source, candidates[i]))
  }

  datatype Tally<R> = Tally(items: seq<Item<R>>, created: nat, skipped: nat, errors: seq<nat>, crashed: bool)

  /** One turn of `run`'s loop. The unique constraint on source and key is not caught. */
  function Turn<R>(so: Tally<R>, source: string, p: Prepared<R>): Tally<R> {
    var c := p.candidate;
    if so.crashed then so
    else if c.error || p.payload.None? then so.(errors := so.errors + [c.row])
    else if p.duplicate then so.(skipped := so.skipped + 1)
    else if !c.builds then so.(errors := so.errors + [c.row])
    else if c.key.Some? && Held(so.items, source, c.key.value) then so.(crashed := true)
    else so.(items := so.items + [Item(Some(source), c.key, p.payload.value, false)], created := so.created + 1)
  }

  function RunOf<R>(items: seq<Item<R>>, source: string, prepared: seq<Prepared<R>>): Tally<R> {
    if prepared == [] then Tally(items, 0, 0, [], false)
    else Turn(RunOf(items, source, prepared[..|prepared| - 1]), source, prepared[|prepared| - 1])
  }

  function Import<R>(items: seq<Item<R>>, source: string, candidates: seq<Candidate<R>>): Tally<R> {
    RunOf(items, source, Prepare(items, source, candidates))
  }

  const CHUNK := 500

  class Library<R> {
    var items: seq<Item<R>>

    constructor ()
      ensures items == []
    {
      items := [];
    }

    /** The lookup of `prepare`, 500 keys a query. */
    method Existing(source: string, keys: seq<string>) returns (existing: set<string>)
      ensures forall key :: key in existing <==> key in keys && Held(items, source, key)
    {
      existing := {};
      var start := 0;
      while start < |keys|
        invariant forall key :: key in existing <==>
          Held(items, source, key) && key in keys[..if start < |keys| then start else |keys|]
      {
        var end := if start + CHUNK < |keys| then start + CHUNK else |keys|;
        assert keys[..end] == keys[..start] + keys[start..end];
        existing := existing + (set key | key in keys[start..end] && Held(items, source, key));
        start := start + CHUNK;
      }
      assert keys[..|keys|] == keys;
    }

    /** `prepare`, of the duplicates. */
    method PrepareAll(source: string, candidates: seq<Candidate<R>>) returns (prepared: seq<Prepared<R>>)
      ensures prepared == Prepare(items, source, candidates)
    {
      var keys := GivenKeys(candidates);
      var existing := Existing(source, keys);
      prepared := [];
      for i := 0 to |candidates|
        invariant |prepared| == i
        invariant forall j :: 0 <= j < i ==> prepared[j] == PreparedOf(items, source, candidates[j])
      {
        var c := candidates[i];
        if c.error {
          prepared := prepared + [Prepared(c, None, false)];
        } else {
          var duplicate := Given(c.key) && c.key.value in existing;
          prepared := prepared + [Prepared(c, c.payload, duplicate)];
        }
      }
    }

    method GivenKeys(candidates: seq<Candidate<R>>) returns (keys: seq<string>)
      ensures forall key :: key in keys <==>
        exists i :: 0 <= i < |candidates| && Given(candidates[i].key) && candidates[i].key == Some(key)
    {
      keys := [];
      for i := 0 to |candidates|
        invariant forall key :: key in keys ==>
          exists j :: 0 <= j < i && Given(candidates[j].key) && candidates[j].key == Some(key)
        invariant forall j :: 0 <= j < i && Given(candidates[j].key) ==> candidates[j].key.value in keys
      {
        if Given(candidates[i].key) {
          keys := keys + [candidates[i].key.value];
        }
      }
    }

    /** `run`: what it made stays made when a later item crashes it. */
    method Run(source: string, prepared: seq<Prepared<R>>) returns (done: Tally<R>)
      modifies this
      ensures done == RunOf(old(items), source, prepared) && items == done.items
    {
      var created, skipped, errors := 0, 0, [];
      for i := 0 to |prepared|
        invariant RunOf(old(items), source, prepared[..i]) == Tally(items, created, skipped, errors, false)
      {
        var p := prepared[i];
        var c := p.candidate;
        assert prepared[..i + 1][..i] == prepared[..i];
        if c.error || p.payload.None? {
          errors := errors + [c.row];
          continue;
        }
        if p.duplicate {
          skipped := skipped + 1;
          continue;
        }
        if !c.builds {
          errors := errors + [c.row];
          continue;
        }
        if c.key.Some? && Held(items, source, c.key.value) {
          CrashStays(old(items), source, prepared, i + 1);
          return Tally(items, created, skipped, errors, true);
        }
        items := items + [Item(Some(source), c.key, p.payload.value, false)];
        created := created + 1;
      }
      assert prepared[..|prepared|] == prepared;
      done := Tally(items, created, skipped, errors, false);
    }
  }

  lemma {:induction false} CrashStays<R>(items: seq<Item<R>>, source: string, prepared: seq<Prepared<R>>, i: nat)
    requires i <= |prepared| && RunOf(items, source, prepared[..i]).crashed
    ensures RunOf(items, source, prepared) == RunOf(items, source, prepared[..i])
    decreases |prepared|
  {
    if i < |prepared| {
      var n := |prepared| - 1;
      assert prepared[..n][..i] == prepared[..i];
      CrashStays(items, source, prepared[..n], i);
    } else {
      assert prepared[..i] == prepared;
    }
  }

  // ---- every row is accounted for ----

  lemma {:induction false} EveryRowCounted<R>(items: seq<Item<R>>, source: string, prepared: seq<Prepared<R>>)
    ensures var done := RunOf(items, source, prepared);
      && (!done.crashed ==> done.created + done.skipped + |done.errors| == |prepared|)
      && (done.crashed ==> done.created + done.skipped + |done.errors| < |prepared|)
      && |done.items| == |items| + done.created && done.items[..|items|] == items
  {
    if prepared != [] {
      EveryRowCounted(items, source, prepared[..|prepared| - 1]);
    }
  }

  /** The rows a run would create. */
  ghost predicate Creates<R>(p: Prepared<R>) {
    !p.candidate.error && p.payload.Some? && !p.duplicate && p.candidate.builds
  }

  /** The row's key is already an item's, or an earlier row's to create. */
  ghost predicate Clash<R>(items: seq<Item<R>>, source: string, prepared: seq<Prepared<R>>, i: nat) {
    && i < |prepared| && Creates(prepared[i]) && prepared[i].candidate.key.Some?
    && var key := prepared[i].candidate.key.value;
    && (Held(items, source, key) || Before(prepared, key, i))
  }

  ghost predicate Before<R>(prepared: seq<Prepared<R>>, key: string, i: nat)
    requires i <= |prepared|
  {
    exists j :: 0 <= j < i && Creates(prepared[j]) && prepared[j].candidate.key == Some(key)
  }

  /** The keys that are held after so much of a run. */
  lemma {:induction false} HeldAfter<R>(items: seq<Item<R>>, source: string, prepared: seq<Prepared<R>>, key: string)
    requires !RunOf(items, source, prepared).crashed
    ensures Held(RunOf(items, source, prepared).items, source, key) <==>
      Held(items, source, key) || Before(prepared, key, |prepared|)
  {
    if prepared != [] {
      var n := |prepared| - 1;
      HeldAfter(items, source, prepared[..n], key);
      var before, after := RunOf(items, source, prepared[..n]).items, RunOf(items, source, prepared).items;
      HeldAppend(before, after, source, key);
      assert forall i :: 0 <= i < n ==> prepared[..n][i] == prepared[i];
    }
  }

  lemma HeldAppend<R>(before: seq<Item<R>>, after: seq<Item<R>>, source: string, key: string)
    requires after == before || (|after| == |before| + 1 && after[..|before|] == before)
    ensures Held(after, source, key) <==>
      Held(before, source, key)
        || (|after| > |before| && after[|before|].source == Some(source) && after[|before|].key == Some(key))
  {
    forall i | 0 <= i < |before| ensures after[i] == before[i] {
      assert after[..|before|][i] == before[i];
    }
    if Held(before, source, key) {
      var i :| 0 <= i < |before| && before[i].source == Some(source) && before[i].key == Some(key);
      assert after[i].key == Some(key);
    }
  }

  lemma {:induction false} ClashPrefix<R>(
      items: seq<Item<R>>, source: string, prepared: seq<Prepared<R>>, n: nat, i: nat)
    requires i < n <= |prepared|
    ensures Clash(items, source, prepared[..n], i) <==> Clash(items, source, prepared, i)
  {
    assert forall j :: 0 <= j < n ==> prepared[..n][j] == prepared[j];
  }

  /** A run finishes exactly when no row to create has a key that an item, or an earlier row
      to create, has. */
  lemma {:induction false} FinishesExactly<R>(items: seq<Item<R>>, source: string, prepared: seq<Prepared<R>>)
    ensures !RunOf(items, source, prepared).crashed <==> forall i: nat :: !Clash(items, source, prepared, i)
  {
    hide Clash, Held;
    if prepared == [] {
      forall i: nat ensures !Clash(items, source, prepared, i) { ClashInside(items, source, prepared, i); }
    } else {
      var n := |prepared| - 1;
      FinishesExactly(items, source, prepared[..n]);
      forall i: nat
        ensures i < n ==> (Clash(items, source, prepared[..n], i) <==> Clash(items, source, prepared, i))
        ensures i >= n ==> !Clash(items, source, prepared[..n], i)
        ensures i > n ==> !Clash(items, source, prepared, i)
      {
        ClashInside(items, source, prepared, i);
        ClashInside(items, source, prepared[..n], i);
        if i < n { ClashPrefix(items, source, prepared, n, i); }
      }
      if !RunOf(items, source, prepared[..n]).crashed {
        LastTurn(items, source, prepared);
      }
    }
  }

  lemma {:induction false} ClashInside<R>(items: seq<Item<R>>, source: string, prepared: seq<Prepared<R>>, i: nat)
    ensures Clash(items, source, prepared, i) ==> i < |prepared|
  {}

  lemma {:induction false} LastTurn<R>(items: seq<Item<R>>, source: string, prepared: seq<Prepared<R>>)
    requires prepared != [] && !RunOf(items, source, prepared[..|prepared| - 1]).crashed
    ensures RunOf(items, source, prepared).crashed <==> Clash(items, source, prepared, |prepared| - 1)
  {
    var n := |prepared| - 1;
    var key := prepared[n].candidate.key;
    if key.Some? {
      HeldAfter(items, source, prepared[..n], key.value);
      assert forall j :: 0 <= j < n ==> prepared[..n][j] == prepared[j];
      assert Before(prepared[..n], key.value, n) <==> Before(prepared, key.value, n);
    }
  }
}
