/** Which archives `backup.prune` deletes (backup.py lines 691-726). A directory is the
    names of its files with the times they were modified. The clock and those times are
    microseconds since the first day of year 1; a name gives whole seconds. */
module Retention {
  import opened Common
  import opened Stamps

  // ---- names ----

  datatype Kind = Full | DataOnly | Prerestore

  function Suffix(kind: Kind): string {
    match kind
    case Full => ".zip.age"
    case DataOnly => "-data.zip.age"
    case Prerestore => "-prerestore.zip.age"
  }

  const PREFIX := "cabinet-backup-"

  function Name(kind: Kind, stamp: string): string {
    PREFIX + stamp + Suffix(kind)
  }

  /** NAME_RE. */
  predicate Matches(name: string) {
    |name| >= 30 && name[..15] == PREFIX && IsStamp(name[15..30])
    && (name[30..] == Suffix(Full) || name[30..] == Suffix(DataOnly) || name[30..] == Suffix(Prerestore))
  }

  function KindOf(name: string): Kind
    requires Matches(name)
  {
    if name[30..] == Suffix(Full) then Full else if name[30..] == Suffix(DataOnly) then DataOnly else Prerestore
  }

  predicate IsDataOnly(name: string) {
    Contains(name, "-data.zip")
  }

  predicate IsPrerestore(name: string) {
    Contains(name, "-prerestore.zip")
  }

  /** `archive_time`: none where strptime raises. */
  function ArchiveTime(name: string): Option<int>
    requires Matches(name)
  {
    var t := Read(name[15..30]);
    if Real(t) then Some(Seconds(t)) else None
  }

  lemma SuffixSizes()
    ensures |Suffix(Full)| == 8 && |Suffix(DataOnly)| == 13 && |Suffix(Prerestore)| == 19 && |PREFIX| == 15
  {}

  /** No place before the suffix can start either mark. */
  lemma {:induction false} NoMarkBefore(name: string, k: nat)
    requires Matches(name) && k < 30
    ensures name[k] != '-' || (name[k + 1] != 'd' && name[k + 1] != 'p')
  {
    var stamp := name[15..30];
    if k < 15 {
      assert name[k] == PREFIX[k];
      if k == 7 { assert name[8] == PREFIX[8]; }
      if k == 14 { assert name[15] == stamp[..8][0]; }
    } else if k < 23 {
      assert name[k] == stamp[..8][k - 15];
    } else if k == 23 {
      assert name[24] == stamp[9..][0];
    } else {
      assert name[k] == stamp[9..][k - 24];
    }
  }

  /** A mark can only be in the suffix. */
  lemma {:induction false} MarkedOnce(name: string, part: string)
    requires Matches(name) && |part| > 1 && part[0] == '-' && (part[1] == 'd' || part[1] == 'p')
    ensures Contains(name, part) <==> Contains(name[30..], part)
  {
    forall k: nat | k <= |name| && PartAt(name, k, part)
      ensures k >= 30 && PartAt(name[30..], k - 30, part)
    {
      assert name[k] == part[0] && name[k + 1] == part[1];
      if k >= 30 {
        assert name[30..][k - 30..k - 30 + |part|] == name[k..k + |part|];
      } else {
        NoMarkBefore(name, k);
      }
    }
    hide Matches;
    forall k: nat | k <= |name| - 30 && PartAt(name[30..], k, part)
      ensures PartAt(name, k + 30, part)
    {
      assert name[k + 30..k + 30 + |part|] == name[30..][k..k + |part|];
    }
  }

  /** A mark in a text whose only dash is its first letter is at its start. */
  lemma MarkAtStart(tail: string, part: string)
    requires |part| > 1 && part[0] == '-' && forall k :: 0 < k < |tail| ==> tail[k] != '-'
    ensures Contains(tail, part) <==> PartAt(tail, 0, part)
  {
    forall k: nat | k <= |tail| && PartAt(tail, k, part)
      ensures k == 0
    {
      assert tail[k] == part[0];
    }
  }

  lemma SuffixMarks(kind: Kind)
    ensures Contains(Suffix(kind), "-data.zip") <==> kind == DataOnly
    ensures Contains(Suffix(kind), "-prerestore.zip") <==> kind == Prerestore
  {
    SuffixSizes();
    var tail := Suffix(kind);
    MarkAtStart(tail, "-data.zip");
    MarkAtStart(tail, "-prerestore.zip");
    match kind
    case Full => assert tail[0] == '.';
    case DataOnly => assert tail[0..9] == "-data.zip" && tail[1] == 'd';
    case Prerestore => assert tail[0..15] == "-prerestore.zip" && tail[1] == 'p';
  }

  /** The two marks say which kind a matching name is of. */
  lemma {:induction false} MarksTellKind(name: string)
    requires Matches(name)
    ensures IsDataOnly(name) <==> KindOf(name) == DataOnly
    ensures IsPrerestore(name) <==> KindOf(name) == Prerestore
  {
    hide Contains, Suffix;
    MarkedOnce(name, "-data.zip");
    MarkedOnce(name, "-prerestore.zip");
    SuffixMarks(KindOf(name));
  }

  // ---- what is deleted ----

  type Files = map<string, int>

  /** The archives of the same kind whose names sort after this one's. */
  function Later(files: Files, name: string): set<string>
    requires Matches(name)
  {
    set m | m in files && Matches(m) && KindOf(m) == KindOf(name) && Less(name, m)
  }

  const SECOND := 1_000_000
  const DAY := 86_400 * SECOND
  const PRERESTORE_KEEP := 3
  const STALE := DAY

  /** Past the retention and not the newest of its kind: its time is looked at. */
  predicate Judged(files: Files, days: nat, name: string) {
    days != 0 && Matches(name) && KindOf(name) != Prerestore && Later(files, name) != {}
  }

  predicate Expired(files: Files, days: nat, now: int, name: string) {
    Judged(files, days, name) && ArchiveTime(name).Some? && ArchiveTime(name).value * SECOND < now - days * DAY
  }

  predicate Surplus(files: Files, name: string) {
    Matches(name) && KindOf(name) == Prerestore && |Later(files, name)| >= PRERESTORE_KEEP
  }

  predicate StartsWith(text: string, part: string) {
    |part| <= |text| && text[..|part|] == part
  }

  predicate EndsWith(text: string, part: string) {
    |part| <= |text| && text[|text| - |part|..] == part
  }

  /** The two globs of what an interrupted run leaves. */
  predicate Leftover(name: string, modified: int, now: int) {
    || (StartsWith(name, PREFIX) && EndsWith(name[15..], ".partial"))
    || (StartsWith(name, ".download-") && Contains(name[10..], ".zip") && modified < now - STALE)
  }

  predicate Goes(files: Files, days: nat, now: int, name: string)
    requires name in files
  {
    Expired(files, days, now, name) || Surplus(files, name) || Leftover(name, files[name], now)
  }

  /** `prune` raises, and deletes nothing, when a time it looks at is not one. */
  predicate Raises(files: Files, days: nat) {
    exists name :: name in files && Judged(files, days, name) && ArchiveTime(name).None?
  }

  function Pruned(files: Files, days: nat, now: int): Files {
    if Raises(files, days) then files
    else map name | name in files && !Goes(files, days, now, name) :: files[name]
  }

  // ---- sorted lists ----

  ghost predicate Descending(names: seq<string>) {
    forall i, j :: 0 <= i < j < |names| ==> Less(names[j], names[i])
  }

  /** A set's names, the greatest first. */
  method SortDescending(names: set<string>) returns (sorted: seq<string>)
    ensures Descending(sorted) && forall n :: n in sorted <==> n in names
  {
    sorted := [];
    var left := names;
    while left != {}
      invariant left <= names && Descending(sorted)
      invariant forall n :: n in names <==> n in sorted || n in left
      invariant forall i, n :: 0 <= i < |sorted| && n in left ==> Less(n, sorted[i])
      decreases |left|
    {
      var top := Greatest(left);
      sorted := sorted + [top];
      left := left - {top};
    }
  }

  method Greatest(names: set<string>) returns (top: string)
    requires names != {}
    ensures top in names && forall n :: n in names && n != top ==> Less(n, top)
  {
    top :| top in names;
    var left := names - {top};
    while left != {}
      invariant left <= names && top in names && top !in left
      invariant forall n :: n in names && n !in left && n != top ==> Less(n, top)
      decreases |left|
    {
      var n :| n in left;
      LessTotal(n, top);
      if Less(top, n) {
        forall m | m in names && m !in left && m != top ensures Less(m, n) { LessTransitive(m, top, n); }
        top := n;
      }
      left := left - {n};
    }
  }

  /** `[p for p in names if ...]` of one kind. */
  function OfKind(names: seq<string>, kind: Kind): seq<string> {
    if names == [] then []
    else if Matches(names[0]) && KindOf(names[0]) == kind then [names[0]] + OfKind(names[1..], kind)
    else OfKind(names[1..], kind)
  }

  lemma {:induction false} OfKindHas(names: seq<string>, kind: Kind, n: string)
    ensures n in OfKind(names, kind) <==> n in names && Matches(n) && KindOf(n) == kind
  {
    hide Matches, KindOf;
    if names != [] {
      OfKindHas(names[1..], kind, n);
    }
  }

  lemma {:induction false} OfKindKeeps(names: seq<string>, kind: Kind)
    requires Descending(names)
    ensures Descending(OfKind(names, kind))
    ensures forall n :: n in OfKind(names, kind) <==> n in names && Matches(n) && KindOf(n) == kind
  {
    hide Matches, KindOf, Less;
    if names != [] {
      OfKindKeeps(names[1..], kind);
      var rest := OfKind(names[1..], kind);
      forall i | 0 <= i < |rest| ensures Less(rest[i], names[0]) {
        assert rest[i] in rest;
        var j :| 0 <= j < |names[1..]| && names[1..][j] == rest[i];
        assert names[j + 1] == rest[i];
      }
    }
    forall n ensures n in OfKind(names, kind) <==> n in names && Matches(n) && KindOf(n) == kind {
      OfKindHas(names, kind, n);
    }
  }

  /** The place in the list is how many are later. */
  lemma {:induction false} PlaceIsLater(files: Files, names: seq<string>, kind: Kind, i: nat)
    requires Descending(names) && i < |names|
    requires forall n :: n in names <==> n in files && Matches(n) && KindOf(n) == kind
    ensures Matches(names[i]) && Later(files, names[i]) == set n | n in names[..i]
    ensures |Later(files, names[i])| == i
  {
    assert names[i] in names;
    var later := Later(files, names[i]);
    forall n | n in later ensures n in names[..i] {
      var j :| 0 <= j < |names| && names[j] == n;
      assert j > i ==> Less(n, names[i]);
      assert j == i ==> n == names[i];
      LessTotal(names[i], n);
    }
    forall n | n in names[..i] ensures n in later {
      var j :| 0 <= j < i && names[j] == n;
      assert names[j] in names;
    }
    assert later == set n | n in names[..i];
    DistinctSize(names[..i]);
  }

  lemma {:induction false} DistinctSize(names: seq<string>)
    requires Descending(names)
    ensures |set n | n in names| == |names|
  {
    if names != [] {
      var k := |names| - 1;
      DistinctSize(names[..k]);
      var all := set n | n in names;
      var some := set n | n in names[..k];
      assert names == names[..k] + [names[k]];
      assert all == some + {names[k]};
      forall j | 0 <= j < k ensures names[..k][j] != names[k] {
        assert Less(names[k], names[j]);
        LessTotal(names[k], names[j]);
      }
    }
  }

  // ---- prune ----

  datatype BadTime = BadTime

  /** Its time is one, and before the cutoff. */
  predicate TooOld(name: string, cutoff: int)
    requires Matches(name)
  {
    ArchiveTime(name).Some? && ArchiveTime(name).value * SECOND < cutoff
  }

  /** The expired full archives, the expired data-only ones, and the surplus safety ones,
      each the newest first. */
  ghost predicate ListedInOrder(removed: seq<string>, files: Files, days: nat, now: int) {
    exists full, dataOnly, safety ::
      && removed == full + dataOnly + safety
      && ListsExpired(full, files, days, now, Full) && ListsExpired(dataOnly, files, days, now, DataOnly)
      && ListsSurplus(safety, files)
  }

  ghost predicate ListsExpired(names: seq<string>, files: Files, days: nat, now: int, kind: Kind) {
    && Descending(names)
    && (forall n :: n in names <==> n in files && Expired(files, days, now, n) && KindOf(n) == kind)
  }

  ghost predicate ListsSurplus(names: seq<string>, files: Files) {
    Descending(names) && forall n :: n in names <==> n in files && Surplus(files, n)
  }

  class Directory {
    var files: Files

    constructor (files: Files)
      ensures this.files == files
    {
      this.files := files;
    }

    /** `stored_backups`. */
    method Stored() returns (stored: seq<string>)
      ensures Descending(stored) && forall n :: n in stored <==> n in files && Matches(n)
    {
      var names := set n | n in files && Matches(n);
      stored := SortDescending(names);
    }

    /** The ones of a list past the first whose time is before the cutoff, in order. */
    method Past(names: seq<string>, cutoff: int) returns (past: Result<seq<string>, BadTime>)
      requires Descending(names) && forall n :: n in names ==> Matches(n)
      ensures past.Err? <==> exists i :: 1 <= i < |names| && ArchiveTime(names[i]).None?
      ensures past.Ok? ==> Descending(past.value)
      ensures past.Ok? ==> forall n :: n in past.value <==>
        exists i :: 1 <= i < |names| && names[i] == n && TooOld(n, cutoff)
    {
      hide Matches, ArchiveTime, Less;
      var found := [];
      var i := 1;
      while i < |names|
        invariant 1 <= i
        invariant forall j :: 1 <= j < i && j < |names| ==> ArchiveTime(names[j]).Some?
        invariant Descending(found)
        invariant forall n :: n in found ==> exists j :: 1 <= j < i && j < |names| && names[j] == n
        invariant forall n :: n in found <==>
          exists j :: 1 <= j < i && j < |names| && names[j] == n && TooOld(n, cutoff)
      {
        assert names[i] in names;
        var time := ArchiveTime(names[i]);
        if time.None? {
          return Err(BadTime);
        }
        if time.value * SECOND < cutoff {
          forall k | 0 <= k < |found| ensures Less(names[i], found[k]) {
            assert found[k] in found;
          }
          found := found + [names[i]];
        }
        i := i + 1;
      }
      past := Ok(found);
    }

    /** The list of stored names by kind, as `prune` filters it. */
    method ByKind(stored: seq<string>) returns (full: seq<string>, dataOnly: seq<string>, safety: seq<string>)
      requires forall n :: n in stored ==> Matches(n)
      ensures full == OfKind(stored, Full) && dataOnly == OfKind(stored, DataOnly)
        && safety == OfKind(stored, Prerestore)
    {
      hide Matches, KindOf, Contains;
      full, dataOnly, safety := [], [], [];
      for i := 0 to |stored|
        invariant full == OfKind(stored[..i], Full)
        invariant dataOnly == OfKind(stored[..i], DataOnly)
        invariant safety == OfKind(stored[..i], Prerestore)
      {
        var p := stored[i];
        assert stored[..i + 1] == stored[..i] + [p];
        OfKindPush(stored[..i], p, Full);
        OfKindPush(stored[..i], p, DataOnly);
        OfKindPush(stored[..i], p, Prerestore);
        MarksTellKind(p);
        if IsPrerestore(p) {
          safety := safety + [p];
        } else if IsDataOnly(p) {
          dataOnly := dataOnly + [p];
        } else {
          full := full + [p];
        }
      }
      assert stored[..|stored|] == stored;
    }

    method Unlink(names: seq<string>)
      modifies this
      ensures files == old(files) - set n | n in names
    {
      for i := 0 to |names|
        invariant files == old(files) - set n | n in names[..i]
      {
        files := files - {names[i]};
        assert names[..i + 1] == names[..i] + [names[i]];
      }
      assert names[..|names|] == names;
    }

    /** `prune`; the list it gives back is the archives it deleted. */
    method Prune(days: nat, now: int) returns (removed: Result<seq<string>, BadTime>)
      modifies this
      ensures removed.Err? <==> Raises(old(files), days)
      ensures files == Pruned(old(files), days, now)
      ensures removed.Ok? ==> ListedInOrder(removed.value, old(files), days, now)
    {
      hide Raises, RaisesFor, Expired, Surplus, Leftover, Matches, KindOf, Later, Less, ListsExpired, ListsSurplus,
        OfKind;
      var stored := Stored();
      var full, dataOnly, safety := ByKind(stored);
      var oldFull := PastRetention(stored, full, Full, days, now);
      var oldData := PastRetention(stored, dataOnly, DataOnly, days, now);
      RaisesForEither(files, days);
      if oldFull.Err? || oldData.Err? {
        return Err(BadTime);
      }
      var surplus := if |safety| <= PRERESTORE_KEEP then [] else safety[PRERESTORE_KEEP..];
      SurplusPast(files, stored, safety);
      removed := Ok(oldFull.value + oldData.value + surplus);
      ghost var before := files;
      assert ListedInOrder(removed.value, before, days, now);
      GoneExactly(before, days, now, removed.value);
      hide ListedInOrder;
      Unlink(removed.value);
      files := map n | n in files && !Leftover(n, files[n], now) :: files[n];
    }

    /** The names of one kind past the retention; none is looked at when it is 0. */
    method PastRetention(stored: seq<string>, names: seq<string>, kind: Kind, days: nat, now: int)
      returns (expired: Result<seq<string>, BadTime>)
      requires Descending(stored) && (forall n :: n in stored <==> n in files && Matches(n))
      requires kind != Prerestore && names == OfKind(stored, kind)
      ensures expired.Err? <==> RaisesFor(files, days, kind)
      ensures expired.Ok? ==> ListsExpired(expired.value, files, days, now, kind)
    {
      hide Matches, KindOf, ArchiveTime, Less, Later;
      if days == 0 {
        return Ok([]);
      }
      OfKindKeeps(stored, kind);
      JudgedPast(files, stored, names, kind, days);
      expired := Past(names, now - days * DAY);
    }
  }

  predicate RaisesFor(files: Files, days: nat, kind: Kind) {
    exists name :: name in files && Judged(files, days, name) && KindOf(name) == kind && ArchiveTime(name).None?
  }

  lemma {:induction false} RaisesForEither(files: Files, days: nat)
    ensures Raises(files, days) <==> RaisesFor(files, days, Full) || RaisesFor(files, days, DataOnly)
  {
    hide Matches, ArchiveTime, Later;
  }

  /** What is listed is what the retention and the safety limit take. */
  lemma {:induction false} GoneExactly(files: Files, days: nat, now: int, removed: seq<string>)
    requires ListedInOrder(removed, files, days, now)
    ensures forall n :: n in removed <==> n in files && (Expired(files, days, now, n) || Surplus(files, n))
  {
    hide Matches, ArchiveTime, Later, Descending;
  }

  lemma {:induction false} OfKindPush(names: seq<string>, p: string, kind: Kind)
    ensures OfKind(names + [p], kind) == OfKind(names, kind) + if Matches(p) && KindOf(p) == kind then [p] else []
  {
    hide Matches, KindOf;
    if names == [] {
      assert [p][1..] == [];
    } else {
      assert (names + [p])[1..] == names[1..] + [p];
      OfKindPush(names[1..], p, kind);
    }
  }

  /** All but the first of a kind are the ones whose times are looked at. */
  lemma {:induction false} JudgedPast(files: Files, stored: seq<string>, names: seq<string>, kind: Kind, days: nat)
    requires kind != Prerestore && days != 0
    requires Descending(stored) && (forall n :: n in stored <==> n in files && Matches(n))
      && names == OfKind(stored, kind)
    ensures forall n ::
      (n in files && Judged(files, days, n) && KindOf(n) == kind) <==> exists i :: 1 <= i < |names| && names[i] == n
  {
    hide Matches, KindOf, Less, Descending, OfKind;
    OfKindKeeps(stored, kind);
    forall i: nat | i < |names|
      ensures Matches(names[i]) && |Later(files, names[i])| == i && (Later(files, names[i]) != {} <==> i >= 1)
    {
      PlaceIsLater(files, names, kind, i);
    }
    hide Later;
    forall n | n in files && Judged(files, days, n) && KindOf(n) == kind
      ensures exists i :: 1 <= i < |names| && names[i] == n
    {
      assert n in names;
      var i: nat :| i < |names| && names[i] == n;
      assert 1 <= i;
    }
    forall i: nat | 1 <= i < |names|
      ensures names[i] in files && Judged(files, days, names[i]) && KindOf(names[i]) == kind
    {
      assert names[i] in names;
    }
  }

  lemma {:induction false} TailDescending(names: seq<string>, k: nat)
    requires Descending(names) && k <= |names|
    ensures Descending(names[k..])
  {
    hide Less;
  }

  lemma {:induction false} SurplusPast(files: Files, stored: seq<string>, names: seq<string>)
    requires Descending(stored) && (forall n :: n in stored <==> n in files && Matches(n))
      && names == OfKind(stored, Prerestore)
    ensures var past := if |names| <= PRERESTORE_KEEP then [] else names[PRERESTORE_KEEP..];
      ListsSurplus(past, files)
  {
    hide Matches, KindOf, Less, Descending, OfKind;
    OfKindKeeps(stored, Prerestore);
    forall i: nat | i < |names|
      ensures Matches(names[i]) && |Later(files, names[i])| == i
    {
      PlaceIsLater(files, names, Prerestore, i);
    }
    hide Later;
    var past := if |names| <= PRERESTORE_KEEP then [] else names[PRERESTORE_KEEP..];
    TailDescending(names, if |names| <= PRERESTORE_KEEP then |names| else PRERESTORE_KEEP);
    assert past == names[if |names| <= PRERESTORE_KEEP then |names| else PRERESTORE_KEEP..];
    forall n | n in files && Surplus(files, n) ensures n in past {
      assert n in names;
      var i: nat :| i < |names| && names[i] == n;
      assert past[i - PRERESTORE_KEEP] == n;
    }
    forall n | n in past ensures n in files && Surplus(files, n) {
      var j: nat :| j < |past| && past[j] == n;
      assert names[j + PRERESTORE_KEEP] == n && n in names;
    }
  }

  // ---- what it keeps ----

  /** Cabinet's own archives are never taken for leftovers. */
  lemma {:induction false} ArchiveNotLeftover(name: string, modified: int, now: int)
    requires Matches(name)
    ensures !Leftover(name, modified, now)
  {
    SuffixSizes();
    var n := |name|;
    assert name[0] == PREFIX[0] == 'c';
    assert name[15..][n - 16] == name[30..][n - 31] == 'e';
    LastOf(name[15..], ".partial");
    FirstOf(name, ".download-");
  }

  lemma {:induction false} LastOf(text: string, part: string)
    requires part != ""
    ensures EndsWith(text, part) ==> text != "" && text[|text| - 1] == part[|part| - 1]
  {
    if EndsWith(text, part) {
      assert text[|text| - |part|..][|part| - 1] == text[|text| - 1];
    }
  }

  lemma {:induction false} FirstOf(text: string, part: string)
    requires part != ""
    ensures StartsWith(text, part) ==> text != "" && text[0] == part[0]
  {
    if StartsWith(text, part) {
      assert text[..|part|][0] == text[0];
    }
  }

  ghost predicate Digits(text: string, n: nat) {
    |text| == n && forall i :: 0 <= i < n ==> '0' <= text[i] <= '9'
  }

  /** NAME_RE, its parts written out. */
  ghost predicate IsArchive(name: string, day: string, second: string, mark: string) {
    && Digits(day, 8) && Digits(second, 6) && (mark == "" || mark == "-data" || mark == "-prerestore")
    && name == "cabinet-backup-" + day + "-" + second + mark + ".zip.age"
  }

  function Mark(kind: Kind): string {
    match kind
    case Full => ""
    case DataOnly => "-data"
    case Prerestore => "-prerestore"
  }

  lemma MarkOf(kind: Kind)
    ensures Suffix(kind) == Mark(kind) + ".zip.age"
  {}

  lemma StampIs(stamp: string, day: string, second: string)
    requires stamp == day + "-" + second && Digits(day, 8) && Digits(second, 6)
    ensures IsStamp(stamp) && |stamp| == 15
  {
    assert stamp[..8] == day && stamp[9..] == second;
  }

  lemma StampHas(stamp: string)
    requires IsStamp(stamp)
    ensures Digits(stamp[..8], 8) && Digits(stamp[9..], 6) && stamp == stamp[..8] + "-" + stamp[9..]
  {}

  lemma {:induction false} ArchiveHas(name: string)
    requires Matches(name)
    ensures exists day, second, mark :: IsArchive(name, day, second, mark)
  {
    hide Suffix, Read, Mark, Digits;
    NameParts(name);
    var stamp, kind := name[15..30], KindOf(name);
    StampHas(stamp);
    MarkOf(kind);
    assert Mark(kind) == "" || Mark(kind) == "-data" || Mark(kind) == "-prerestore" by { MarkIsOne(kind); }
    hide Matches;
    assert name == PREFIX + stamp[..8] + "-" + stamp[9..] + Mark(kind) + ".zip.age";
    assert IsArchive(name, stamp[..8], stamp[9..], Mark(kind));
  }

  lemma MarkIsOne(kind: Kind)
    ensures Mark(kind) == "" || Mark(kind) == "-data" || Mark(kind) == "-prerestore"
  {}

  lemma {:induction false} ArchiveIs(name: string, kind: Kind, day: string, second: string)
    requires Digits(day, 8) && Digits(second, 6)
    requires name == "cabinet-backup-" + day + "-" + second + Mark(kind) + ".zip.age"
    ensures Matches(name)
  {
    hide Suffix, Read, Mark, Digits;
    var stamp := day + "-" + second;
    StampIs(stamp, day, second);
    MarkOf(kind);
    assert name == PREFIX + stamp + Suffix(kind);
    hide IsStamp;
    NameIs(kind, stamp);
  }

  /** The names that are archives: the prefix, a day, a second, a mark or none, and the suffix. */
  lemma {:induction false} ArchiveExactly(name: string)
    ensures Matches(name) <==> exists day, second, mark :: IsArchive(name, day, second, mark)
  {
    hide Matches;
    if Matches(name) {
      ArchiveHas(name);
    }
    forall day, second, mark | IsArchive(name, day, second, mark) ensures Matches(name) {
      var kind := if mark == "" then Full else if mark == "-data" then DataOnly else Prerestore;
      ArchiveIs(name, kind, day, second);
    }
  }

  ghost predicate IsPartial(name: string, a: string) {
    name == "cabinet-backup-" + a + ".partial"
  }

  ghost predicate IsDownload(name: string, a: string, b: string) {
    name == ".download-" + a + ".zip" + b
  }

  lemma {:induction false} PartialIs(name: string)
    ensures StartsWith(name, PREFIX) && EndsWith(name[15..], ".partial") <==> exists a :: IsPartial(name, a)
  {
    if StartsWith(name, PREFIX) && EndsWith(name[15..], ".partial") {
      var rest := name[15..];
      assert rest == rest[..|rest| - 8] + ".partial";
      assert name == name[..15] + rest;
      assert IsPartial(name, rest[..|rest| - 8]);
    }
    forall a | IsPartial(name, a) ensures StartsWith(name, PREFIX) && EndsWith(name[15..], ".partial") {
      assert name[15..] == a + ".partial";
    }
  }

  lemma {:induction false} DownloadIs(name: string)
    ensures StartsWith(name, ".download-") && Contains(name[10..], ".zip") <==> exists a, b :: IsDownload(name, a, b)
  {
    if StartsWith(name, ".download-") && Contains(name[10..], ".zip") {
      DownloadHas(name);
    }
    forall a, b | IsDownload(name, a, b) ensures StartsWith(name, ".download-") && Contains(name[10..], ".zip") {
      assert name == ".download-" + (a + ".zip" + b);
      assert name[10..] == a + ".zip" + b;
      assert PartAt(name[10..], |a|, ".zip");
    }
  }

  lemma {:induction false} DownloadHas(name: string)
    requires StartsWith(name, ".download-") && Contains(name[10..], ".zip")
    ensures exists a, b :: IsDownload(name, a, b)
  {
    var rest := name[10..];
    var k :| 0 <= k <= |rest| && PartAt(rest, k, ".zip");
    assert rest == rest[..k] + ".zip" + rest[k + 4..];
    assert name == name[..10] + rest;
    assert IsDownload(name, rest[..k], rest[k + 4..]);
  }

  /** Of the other files, partial archives go and downloads left for more than a day; every name
      that is neither, nor an archive, stays, and whatever stays keeps its time. */
  lemma {:induction false} LeftoversExactly(files: Files, days: nat, now: int, name: string)
    requires !Raises(files, days) && name in files
    ensures var after := Pruned(files, days, now);
      && (name in after ==> after[name] == files[name])
      && (Matches(name) ==> !(exists a :: IsPartial(name, a)) && !(exists a, b :: IsDownload(name, a, b)))
      && (!Matches(name) ==>
            (name !in after <==>
              || (exists a :: IsPartial(name, a))
              || ((exists a, b :: IsDownload(name, a, b)) && files[name] < now - 86_400_000_000)))
  {
    hide Matches, Contains, StartsWith, EndsWith, IsPartial, IsDownload;
    PartialIs(name);
    DownloadIs(name);
    if Matches(name) {
      ArchiveNotLeftover(name, now - STALE - 1, now);
    }
  }

  /** The newest full and the newest data-only archive are never deleted. */
  lemma {:induction false} NewestStays(files: Files, days: nat, now: int, name: string)
    requires name in files && Matches(name) && KindOf(name) != Prerestore && Later(files, name) == {}
    ensures name in Pruned(files, days, now)
  {
    hide Matches, KindOf, Leftover;
    ArchiveNotLeftover(name, files[name], now);
  }

  /** With every stamp a real time, an archive goes exactly when a newer one of its kind
      exists and it is past a retention that is not 0, or when it is a safety archive and
      three are newer. */
  ghost predicate Dated(files: Files) {
    forall name :: name in files && Matches(name) ==> ArchiveTime(name).Some?
  }

  function Newer(files: Files, name: string): set<string>
    requires Matches(name) && ArchiveTime(name).Some?
  {
    set m | m in files && Matches(m) && KindOf(m) == KindOf(name) && ArchiveTime(m).Some?
      && ArchiveTime(m).value > ArchiveTime(name).value
  }

  lemma {:induction false} LaterIsNewer(files: Files, name: string)
    requires Dated(files) && Matches(name) && ArchiveTime(name).Some?
    ensures Later(files, name) == Newer(files, name)
  {
    hide Less;
    forall m | m in files && Matches(m) && KindOf(m) == KindOf(name)
      ensures Less(name, m) <==> ArchiveTime(m).value > ArchiveTime(name).value
    {
      NamesByTime(name, m);
    }
  }

  /** Of two archives of a kind the name that sorts first has the earlier time. */
  lemma NamesByTime(a: string, b: string)
    requires Matches(a) && Matches(b) && KindOf(a) == KindOf(b) && ArchiveTime(a).Some? && ArchiveTime(b).Some?
    ensures Less(a, b) <==> ArchiveTime(a).value < ArchiveTime(b).value
    ensures a == b <==> ArchiveTime(a).value == ArchiveTime(b).value
  {
    var x, y := a[15..30], b[15..30];
    var tail := a[30..];
    NameParts(a);
    NameParts(b);
    hide *;
    LessConcat(PREFIX, PREFIX, x + tail, y + tail);
    LessConcat(x, y, tail, tail);
    LessTotal(PREFIX, PREFIX);
    LessTotal(tail, tail);
    StampsByTime(x, y);
  }

  lemma {:induction false} NameParts(name: string)
    requires Matches(name)
    ensures IsStamp(name[15..30]) && |PREFIX| == 15
    ensures name == PREFIX + (name[15..30] + name[30..]) && name[30..] == Suffix(KindOf(name))
    ensures ArchiveTime(name).Some? ==>
      Real(Read(name[15..30])) && ArchiveTime(name).value == Seconds(Read(name[15..30]))
  {
    hide IsStamp, Real, Seconds, Suffix;
  }

  lemma {:induction false} GoesExactly(files: Files, days: nat, now: int, name: string)
    requires Dated(files) && name in files && Matches(name)
    ensures !Raises(files, days)
    ensures name !in Pruned(files, days, now) <==>
      if KindOf(name) == Prerestore then |Newer(files, name)| >= 3
      else days != 0 && ArchiveTime(name).value * 1_000_000 < now - days * 86_400_000_000 && Newer(files, name) != {}
  {
    hide Matches, KindOf, ArchiveTime, Leftover, Less, Newer;
    LaterIsNewer(files, name);
    ArchiveNotLeftover(name, files[name], now);
  }

  /** The archives of a kind with a stamp that sorts after this one. */
  ghost function After(files: Files, kind: Kind, stamp: string): set<string> {
    set m | m in files && Matches(m) && KindOf(m) == kind && Less(stamp, m[15..30])
  }

  /** And whatever the other stamps: an archive goes exactly when it is past a retention that is set
      and another of its kind sorts after it, or is a safety archive with three after it. */
  lemma {:induction false} GoesByName(files: Files, days: nat, now: int, kind: Kind, stamp: string)
    requires IsStamp(stamp) && Name(kind, stamp) in files && !Raises(files, days)
    ensures Name(kind, stamp) !in Pruned(files, days, now) <==>
      if kind == Prerestore then |After(files, kind, stamp)| >= 3
      else
        && days != 0 && After(files, kind, stamp) != {} && Real(Read(stamp))
        && Seconds(Read(stamp)) * 1_000_000 < now - days * 86_400_000_000
  {
    hide IsStamp, Real, Seconds, Suffix, Less, Read, Leftover;
    NameIs(kind, stamp);
    var name := Name(kind, stamp);
    ArchiveNotLeftover(name, files[name], now);
    forall m | m in files && Matches(m) && KindOf(m) == kind ensures Less(name, m) <==> Less(stamp, m[15..30]) {
      StampsOf(name, m);
    }
    hide Matches, KindOf;
    assert Later(files, name) == After(files, kind, stamp);
  }

  /** Two archives of a kind, the first with a stamp that sorts first and is not a time. */
  ghost predicate Undated(files: Files, kind: Kind, x: string, y: string) {
    && IsStamp(x) && IsStamp(y) && Less(x, y) && !Real(Read(x))
    && Name(kind, x) in files && Name(kind, y) in files
  }

  /** Pruning fails, before anything is deleted, exactly when a retention is set and a full or
      data-only archive that is not the last by name has a stamp that is not a time. */
  lemma {:induction false} RaisesExactly(files: Files, days: nat)
    ensures Raises(files, days) <==> days != 0 && exists kind, x, y :: kind != Prerestore && Undated(files, kind, x, y)
  {
    hide IsStamp, Real, Seconds, Suffix, Less, Read;
    forall name | name in files && Judged(files, days, name) && ArchiveTime(name).None?
      ensures exists y :: Undated(files, KindOf(name), name[15..30], y)
    {
      hide Matches;
      var m :| m in Later(files, name);
      StampsOf(name, m);
      assert Undated(files, KindOf(name), name[15..30], m[15..30]);
    }
    forall kind, x, y | kind != Prerestore && Undated(files, kind, x, y) && days != 0
      ensures Raises(files, days)
    {
      NameIs(kind, x);
      NameIs(kind, y);
      StampsOf(Name(kind, x), Name(kind, y));
      assert Name(kind, y) in Later(files, Name(kind, x));
      assert Judged(files, days, Name(kind, x));
    }
  }

  lemma NameIs(kind: Kind, stamp: string)
    requires IsStamp(stamp)
    ensures var name := Name(kind, stamp);
      Matches(name) && KindOf(name) == kind && name[15..30] == stamp
  {
    StampSize(stamp);
    SuffixSizes();
    hide IsStamp;
    var name := Name(kind, stamp);
    assert name[..15] == PREFIX && name[15..30] == stamp && name[30..] == Suffix(kind);
  }

  /** Names of a kind sort as their stamps do. */
  lemma StampsOf(a: string, b: string)
    requires Matches(a) && Matches(b) && KindOf(a) == KindOf(b)
    ensures IsStamp(a[15..30]) && IsStamp(b[15..30]) && (Less(a, b) <==> Less(a[15..30], b[15..30]))
    ensures a == Name(KindOf(a), a[15..30]) && b == Name(KindOf(b), b[15..30])
  {
    NameParts(a);
    NameParts(b);
    var x, y, tail := a[15..30], b[15..30], a[30..];
    assert PREFIX + x + tail == PREFIX + (x + tail) && PREFIX + y + tail == PREFIX + (y + tail);
    hide *;
    LessConcat(PREFIX, PREFIX, x + tail, y + tail);
    LessConcat(x, y, tail, tail);
    LessTotal(PREFIX, PREFIX);
    LessTotal(tail, tail);
  }

  /** Pruning again at the same time deletes nothing more. */
  lemma {:induction false} PruneAgain(files: Files, days: nat, now: int)
    ensures Pruned(Pruned(files, days, now), days, now) == Pruned(files, days, now)
  {
    hide Matches, KindOf, ArchiveTime, Leftover, Less;
    var after := Pruned(files, days, now);
    forall name | name in after && Matches(name)
      ensures Later(after, name) <= Later(files, name) && |Later(after, name)| <= |Later(files, name)|
    {
      assert Later(after, name) <= Later(files, name);
      SubsetSize(Later(after, name), Later(files, name));
    }
    hide Later;
    if !Raises(files, days) {
      assert !Raises(after, days);
      forall name | name in after
        ensures !Goes(after, days, now, name)
      {
        assert !Goes(files, days, now, name);
      }
    }
  }

  // ---- archives written and pruned over time ----

  /** The names `archive_name` and `write_prerestore` give. */
  lemma {:induction false} WrittenReadsBack(kind: Kind, t: Time)
    requires Real(t)
    ensures Matches(Name(kind, Print(t))) && KindOf(Name(kind, Print(t))) == kind
    ensures ArchiveTime(Name(kind, Print(t))) == Some(Seconds(t))
  {
    var stamp := Print(t);
    ReadPrint(t);
    SuffixSizes();
    hide Print, Read, IsStamp, Real, Seconds;
    var name := Name(kind, stamp);
    assert IsStamp(stamp) && |stamp| == 15 by { StampSize(stamp); }
    assert name[..15] == PREFIX && name[15..30] == stamp && name[30..] == Suffix(kind);
  }

  lemma StampSize(stamp: string)
    requires IsStamp(stamp)
    ensures |stamp| == 15
  {}

  datatype Op = Write(name: string, modified: int) | Prune(days: nat, now: int)

  function Run(files: Files, ops: seq<Op>): Files {
    if ops == [] then files
    else
      var before := Run(files, ops[..|ops| - 1]);
      match ops[|ops| - 1]
      case Write(name, modified) => before[name := modified]
      case Prune(days, now) => Pruned(before, days, now)
  }

  ghost predicate HasAsNew(files: Files, name: string)
    requires Matches(name)
  {
    exists m :: m in files && Matches(m) && KindOf(m) == KindOf(name) && (m == name || Less(name, m))
  }

  lemma {:induction false} Top(files: Files, name: string, among: set<string>) returns (top: string)
    requires Matches(name) && name in files && among == Later(files, name)
    ensures top in files && Matches(top) && KindOf(top) == KindOf(name) && (top == name || Less(name, top))
      && Later(files, top) == {}
    decreases |among|
  {
    hide Matches, KindOf, Less;
    if among == {} {
      top := name;
    } else {
      var m :| m in among;
      forall n | n in Later(files, m) ensures n in among && n != m {
        LessTransitive(name, m, n);
        LessTotal(m, m);
      }
      SubsetSize(Later(files, m), among - {m});
      top := Top(files, m, Later(files, m));
      if top != m { LessTransitive(name, m, top); }
    }
  }

  /** Whatever is written and pruned, with any retention: once there is a full (or
      data-only) archive there is always one as new. */
  lemma {:induction false} NewestAlwaysThere(files: Files, ops: seq<Op>, name: string)
    requires Matches(name) && KindOf(name) != Prerestore && HasAsNew(files, name)
    ensures HasAsNew(Run(files, ops), name)
  {
    hide Matches, KindOf, Less, Pruned, Later;
    if ops != [] {
      var before := Run(files, ops[..|ops| - 1]);
      NewestAlwaysThere(files, ops[..|ops| - 1], name);
      var m :| m in before && Matches(m) && KindOf(m) == KindOf(name) && (m == name || Less(name, m));
      match ops[|ops| - 1]
      case Write(_, _) => assert m in Run(files, ops);
      case Prune(days, now) =>
        var top := Top(before, m, Later(before, m));
        NewestStays(before, days, now, top);
        if m != name && top != m { LessTransitive(name, m, top); }
        assert top in Run(files, ops);
    }
  }
}
