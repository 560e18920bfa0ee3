/** The audit table of audit.py (lines 26-168): rows in the order they were written,
    with one cap for failed sign-ins, one for rejected single sign-ons, and a cap and an
    age for everything else. Times are whole milliseconds. */
module Audit {
  import opened Common

  const FAILED_CAP := 10_000
  const REJECTED_SSO_CAP := 10_000
  const KEEP := 180 * 24 * 3_600_000
  const KEEP_ROWS := 50_000

  const FAILED := "sign_in_failed"
  const REJECTED_SSO := "sso_sign_in_rejected"

  const EVENTS: set<string> := {
    "setup", "setup_failed", "sign_in", FAILED, "sign_out", "reauth", "password_changed", "username_changed",
    "password_reset", "sessions_revoked_all", "tokens_revoked_all", "session_revoked", "token_created",
    "token_revoked", "backup_downloaded", "export_downloaded", "restore_started", "restore_finished",
    "secrets_cleared", "backup_key_shown", "backup_key_rotated", "backup_key_saved", "backup_deleted",
    "sharing_switched", "share_link_created", "share_link_regenerated", "share_link_revoked",
    "share_link_changed", "restore_sharing", "identity_linked", "identity_unlinked", "sso_configured",
    "sso_disabled", REJECTED_SSO}

  const FORBIDDEN_DETAIL := ["password", "secret", "code", "token_value"]

  /** `_check_detail`, of the detail's keys, given Python's lower-case map. */
  predicate Allowed(detail: seq<string>, lower: string -> string) {
    forall i, w :: 0 <= i < |detail| && 0 <= w < |FORBIDDEN_DETAIL| ==>
      !Contains(lower(detail[i]), FORBIDDEN_DETAIL[w])
  }

  /** A key with one of the four words in it. */
  ghost predicate Forbidden(key: string) {
    exists a, b ::
      || key == Between(a, "password", b) || key == Between(a, "secret", b)
      || key == Between(a, "code", b) || key == Between(a, "token_value", b)
  }

  function Between(a: string, word: string, b: string): string {
    a + word + b
  }

  lemma {:induction false} ContainsExactly(text: string, word: string)
    ensures Contains(text, word) <==> exists a, b :: text == Between(a, word, b)
  {
    if Contains(text, word) {
      var k :| 0 <= k <= |text| && PartAt(text, k, word);
      assert text == Between(text[..k], word, text[k + |word|..]);
    }
    forall a, b | text == Between(a, word, b) ensures Contains(text, word) {
      assert PartAt(text, |a|, word);
    }
  }

  /** A detail is allowed exactly when no key of it, in lower case, has one of the words in it. */
  lemma {:induction false} AllowedExactly(detail: seq<string>, lower: string -> string)
    ensures Allowed(detail, lower) <==> forall i :: 0 <= i < |detail| ==> !Forbidden(lower(detail[i]))
  {
    hide Contains, Between;
    assert FORBIDDEN_DETAIL[0] == "password" && FORBIDDEN_DETAIL[1] == "secret";
    assert FORBIDDEN_DETAIL[2] == "code" && FORBIDDEN_DETAIL[3] == "token_value";
    forall i | 0 <= i < |detail|
      ensures Forbidden(lower(detail[i])) <==> exists w :: 0 <= w < 4 && Contains(lower(detail[i]), FORBIDDEN_DETAIL[w])
    {
      ContainsExactly(lower(detail[i]), "password");
      ContainsExactly(lower(detail[i]), "secret");
      ContainsExactly(lower(detail[i]), "code");
      ContainsExactly(lower(detail[i]), "token_value");
    }
  }

  predicate Writable(action: string, detail: seq<string>, lower: string -> string) {
    action in EVENTS && Allowed(detail, lower)
  }

  /** Which cap a row's action falls under. */
  datatype Class = Failed | RejectedSso | Other

  function ClassOf(action: string): Class {
    if action == FAILED then Failed else if action == REJECTED_SSO then RejectedSso else Other
  }

  /** No event that signing in, changing the account or its ways in records is refused. */
  lemma {:induction false} OwnEventsKnown()
    ensures {
      "setup", "sign_in_failed", "sign_in", "reauth", "password_changed", "username_changed", "password_reset",
      "sign_out", "session_revoked", "sessions_revoked_all", "identity_linked", "identity_unlinked",
      "sso_configured", "sso_disabled", "sso_sign_in_rejected", "token_created", "token_revoked",
      "tokens_revoked_all"} <= EVENTS
  {}

  lemma {:induction false} WritableMeans(action: string, detail: seq<string>, lower: string -> string)
    ensures Writable(action, detail, lower) <==> action in EVENTS && Allowed(detail, lower)
    ensures ClassOf(action) == if action == "sign_in_failed" then Failed
      else if action == "sso_sign_in_rejected" then RejectedSso else Other
  {}

  /** A row, of whose detail only the keys. */
  datatype Row = Row(id: nat, at: int, action: string, detail: seq<string>) {
    function Group(): Class {
      ClassOf(action)
    }
  }

  /** The rows of one class, oldest first. */
  function Of(rows: seq<Row>, c: Class): seq<Row> {
    if rows == [] then []
    else if rows[0].Group() == c then [rows[0]] + Of(rows[1..], c)
    else Of(rows[1..], c)
  }

  /** The newest n. */
  function Newest(rows: seq<Row>, n: nat): seq<Row> {
    if |rows| <= n then rows else rows[|rows| - n..]
  }

  /** The rows not older than a moment. */
  function Young(rows: seq<Row>, since: int): seq<Row> {
    if rows == [] then []
    else if rows[0].at >= since then [rows[0]] + Young(rows[1..], since)
    else Young(rows[1..], since)
  }

  // ---- the deletes ----

  /** `delete ... where class and id <= cutoff`. */
  function DropUpTo(rows: seq<Row>, c: Class, cutoff: nat): seq<Row> {
    if rows == [] then []
    else if rows[0].Group() == c && rows[0].id <= cutoff then DropUpTo(rows[1..], c, cutoff)
    else [rows[0]] + DropUpTo(rows[1..], c, cutoff)
  }

  /** `_trim`: everything of the class from the row `keep` places behind its newest. */
  function Trimmed(rows: seq<Row>, c: Class, keep: nat): seq<Row> {
    var matching := Of(rows, c);
    if |matching| <= keep then rows else DropUpTo(rows, c, matching[|matching| - 1 - keep].id)
  }

  /** `delete ... where not capped apart and at < since`. */
  function Aged(rows: seq<Row>, since: int): seq<Row> {
    if rows == [] then []
    else if rows[0].Group() == Other && rows[0].at < since then Aged(rows[1..], since)
    else [rows[0]] + Aged(rows[1..], since)
  }

  /** `_enforce_caps` for an action of the class. */
  function Enforced(rows: seq<Row>, c: Class, now: int): seq<Row> {
    match c
    case Failed => Trimmed(rows, Failed, FAILED_CAP)
    case RejectedSso => Trimmed(rows, RejectedSso, REJECTED_SSO_CAP)
    case Other => Trimmed(Aged(rows, now - KEEP), Other, KEEP_ROWS)
  }

  class AuditLog {
    var rows: seq<Row>
    var nextId: nat
    ghost var history: seq<Row>
    ghost var swept: Option<int>  // when the rows of no cap of their own were last enforced
    ghost var clock: int

    const lower: string -> string

    ghost predicate Valid()
      reads this
    {
      Refines(rows, history, swept, nextId, clock) && AllWritable(rows, lower) && AllWritable(history, lower)
    }

    constructor (lower: string -> string, now: int)
      ensures Valid() && rows == [] && history == [] && swept == None && clock == now && this.lower == lower
    {
      rows, nextId, history, swept, clock := [], 0, [], None, now;
      this.lower := lower;
    }

    /** `_trim`. */
    method Trim(c: Class, keep: nat)
      modifies this`rows
      ensures rows == Trimmed(old(rows), c, keep)
    {
      var matching := Of(rows, c);
      if |matching| > keep {
        var cutoff := matching[|matching| - 1 - keep].id;
        rows := DropUpTo(rows, c, cutoff);
      }
    }

    /** `_enforce_caps`. */
    method EnforceCaps(c: Class, now: int)
      modifies this`rows
      ensures rows == Enforced(old(rows), c, now)
    {
      match c
      case Failed => Trim(Failed, FAILED_CAP);
      case RejectedSso => Trim(RejectedSso, REJECTED_SSO_CAP);
      case Other =>
        rows := Aged(rows, now - KEEP);
        Trim(Other, KEEP_ROWS);
    }

    /** `record`: an unknown event or a detail that may not be is refused; else the row is
        written and its class's cap enforced. */
    method Record(action: string, detail: seq<string>, now: int) returns (written: bool)
      requires Valid() && clock <= now
      modifies this
      ensures Valid()
      ensures written <==> action in EVENTS && forall i :: 0 <= i < |detail| ==> !Forbidden(lower(detail[i]))
      ensures !written ==>
        rows == old(rows) && history == old(history) && nextId == old(nextId) && clock == old(clock)
      ensures written ==> clock == now && exists id :: history == old(history) + [Row(id, now, action, detail)]
      ensures written ==>
        var c := if action == "sign_in_failed" then Failed
                 else if action == "sso_sign_in_rejected" then RejectedSso else Other;
        && (c == Failed ==> Of(rows, Failed) == Newest(Of(history, Failed), 10_000))
        && (c == RejectedSso ==> Of(rows, RejectedSso) == Newest(Of(history, RejectedSso), 10_000))
        && (c == Other ==> Of(rows, Other) == Newest(Young(Of(history, Other), now - 15_552_000_000), 50_000))
        && forall d :: d != c ==> Of(rows, d) == old(Of(rows, d))
    {
      AllowedExactly(detail, lower);
      WritableMeans(action, detail, lower);
      hide Of, Newest, Young, Enforced, ClassOf, Writable, Ascending, Before, Forbidden, Allowed, EVENTS;
      written := Writable(action, detail, lower);
      if !written {
        return;
      }
      var row := Row(nextId, now, action, detail);
      RecordRefines(rows, history, swept, nextId, clock, row, now);
      StillWritable(rows, history, row, clock, lower);
      rows := rows + [row];
      nextId := nextId + 1;
      EnforceCaps(ClassOf(action), now);
      history := history + [row];
      swept := if ClassOf(action) == Other then Some(now) else swept;
      clock := now;
    }

    /** `prune`, the hourly tick. */
    method Prune(now: int)
      requires Valid() && clock <= now
      modifies this
      ensures Valid() && clock == now && history == old(history)
      ensures Of(rows, Other) == Newest(Young(Of(history, Other), now - 15_552_000_000), 50_000)
      ensures forall d :: d != Other ==> Of(rows, d) == old(Of(rows, d))
    {
      hide Of, Newest, Young, Enforced, Writable, Ascending, Before;
      PruneRefines(rows, history, swept, nextId, clock, now);
      EnforcedOf(rows, Other, now, Other);
      EnforceCaps(Other, now);
      swept := Some(now);
      clock := now;
    }
  }

  // ---- what the table should hold ----

  /** The rows of a class the history says are kept. */
  function Kept(history: seq<Row>, swept: Option<int>, c: Class): seq<Row> {
    match c
    case Failed => Newest(Of(history, Failed), FAILED_CAP)
    case RejectedSso => Newest(Of(history, RejectedSso), REJECTED_SSO_CAP)
    case Other =>
      match swept
      case None => []
      case Some(at) => Newest(Young(Of(history, Other), at - KEEP), KEEP_ROWS)
  }

  ghost predicate Ascending(rows: seq<Row>) {
    forall i, j :: 0 <= i < j < |rows| ==> rows[i].id < rows[j].id && rows[i].at <= rows[j].at
  }

  ghost predicate Before(rows: seq<Row>, nextId: nat, now: int) {
    forall i :: 0 <= i < |rows| ==> rows[i].id < nextId && rows[i].at <= now
  }

  ghost predicate Refines(rows: seq<Row>, history: seq<Row>, swept: Option<int>, nextId: nat, now: int) {
    && Ascending(history) && Ascending(rows)
    && Before(history, nextId, now) && Before(rows, nextId, now)
    && (swept.Some? ==> swept.value <= now)
    && (swept.None? ==> Of(history, Other) == [])
    && (forall c :: Of(rows, c) == Kept(history, swept, c))
  }

  // ---- filters ----

  lemma {:induction false} OfAppend(xs: seq<Row>, ys: seq<Row>, c: Class)
    ensures Of(xs + ys, c) == Of(xs, c) + Of(ys, c)
  {
    if xs == [] {
      assert xs + ys == ys;
    } else {
      assert (xs + ys)[1..] == xs[1..] + ys;
      OfAppend(xs[1..], ys, c);
    }
  }

  lemma {:induction false} YoungAppend(xs: seq<Row>, ys: seq<Row>, since: int)
    ensures Young(xs + ys, since) == Young(xs, since) + Young(ys, since)
  {
    if xs == [] {
      assert xs + ys == ys;
    } else {
      assert (xs + ys)[1..] == xs[1..] + ys;
      YoungAppend(xs[1..], ys, since);
    }
  }

  lemma {:induction false} AllYoung(rows: seq<Row>, since: int)
    requires forall i :: 0 <= i < |rows| ==> rows[i].at >= since
    ensures Young(rows, since) == rows
  {
    if rows != [] {
      AllYoung(rows[1..], since);
    }
  }

  lemma {:induction false} YoungTwice(rows: seq<Row>, a: int, b: int)
    requires a <= b
    ensures Young(Young(rows, a), b) == Young(rows, b)
  {
    if rows != [] {
      YoungTwice(rows[1..], a, b);
      if rows[0].at >= a {
        assert ([rows[0]] + Young(rows[1..], a))[1..] == Young(rows[1..], a);
      }
    }
  }

  /** In time order, the newest of the young are the young of the newest. */
  lemma {:induction false} YoungOfNewest(rows: seq<Row>, n: nat, since: int)
    requires Ascending(rows)
    ensures Young(Newest(rows, n), since) == Newest(Young(rows, since), n)
  {
    if |rows| <= n {
      YoungShorter(rows, since);
    } else if rows[0].at < since {
      assert Newest(rows, n) == Newest(rows[1..], n);
      YoungOfNewest(rows[1..], n, since);
    } else {
      AllYoung(rows, since);
      AllYoung(Newest(rows, n), since);
    }
  }

  lemma {:induction false} YoungShorter(rows: seq<Row>, since: int)
    ensures |Young(rows, since)| <= |rows|
  {
    if rows != [] {
      YoungShorter(rows[1..], since);
    }
  }

  /** A row in front of some of those after it. */
  lemma {:induction false} InFront(rows: seq<Row>, kept: seq<Row>)
    requires rows != [] && Ascending(rows) && Ascending(kept) && Among(kept, rows[1..])
    ensures Ascending([rows[0]] + kept) && Among([rows[0]] + kept, rows)
  {
    forall i | 0 <= i < |kept| ensures rows[0].id < kept[i].id && rows[0].at <= kept[i].at && kept[i] in rows {
      var j :| 0 <= j < |rows[1..]| && rows[1..][j] == kept[i];
      assert rows[j + 1] == kept[i];
    }
  }

  ghost predicate Among(kept: seq<Row>, rows: seq<Row>) {
    forall i :: 0 <= i < |kept| ==> kept[i] in rows
  }

  lemma {:induction false} TailAscending(rows: seq<Row>, kept: seq<Row>)
    requires rows != [] && Ascending(rows)
    ensures Ascending(rows[1..]) && (Among(kept, rows[1..]) ==> Among(kept, rows))
  {}

  lemma {:induction false} NothingAscending(rows: seq<Row>)
    ensures Ascending([]) && Among([], rows)
  {}

  /** The filtered rows keep their order. */
  lemma {:induction false} YoungAscending(rows: seq<Row>, since: int)
    requires Ascending(rows)
    ensures Ascending(Young(rows, since)) && Among(Young(rows, since), rows)
  {
    hide Ascending, Among;
    NothingAscending(rows);
    if rows != [] {
      TailAscending(rows, Young(rows[1..], since));
      YoungAscending(rows[1..], since);
      InFront(rows, Young(rows[1..], since));
    }
  }

  lemma {:induction false} OfAscending(rows: seq<Row>, c: Class)
    requires Ascending(rows)
    ensures Ascending(Of(rows, c)) && Among(Of(rows, c), rows)
  {
    hide Ascending, Among;
    NothingAscending(rows);
    if rows != [] {
      TailAscending(rows, Of(rows[1..], c));
      OfAscending(rows[1..], c);
      InFront(rows, Of(rows[1..], c));
    }
  }

  lemma {:induction false} NewestTwice(xs: seq<Row>, ys: seq<Row>, n: nat)
    ensures Newest(Newest(xs, n) + ys, n) == Newest(xs + ys, n)
  {}

  // ---- the deletes do what they should ----

  lemma {:induction false} AgedOf(rows: seq<Row>, since: int, c: Class)
    ensures Of(Aged(rows, since), c) == if c == Other then Young(Of(rows, Other), since) else Of(rows, c)
  {
    if rows != [] {
      AgedOf(rows[1..], since, c);
      if !(rows[0].Group() == Other && rows[0].at < since) {
        assert ([rows[0]] + Aged(rows[1..], since))[1..] == Aged(rows[1..], since);
      }
      if rows[0].Group() == Other {
        assert ([rows[0]] + Of(rows[1..], Other))[1..] == Of(rows[1..], Other);
      }
    }
  }

  lemma {:induction false} AgedAscending(rows: seq<Row>, since: int)
    requires Ascending(rows)
    ensures Ascending(Aged(rows, since)) && Among(Aged(rows, since), rows)
  {
    hide Ascending, Among;
    NothingAscending(rows);
    if rows != [] {
      TailAscending(rows, Aged(rows[1..], since));
      AgedAscending(rows[1..], since);
      InFront(rows, Aged(rows[1..], since));
    }
  }

  function Later(rows: seq<Row>, cutoff: nat): seq<Row> {
    if rows == [] then []
    else if rows[0].id > cutoff then [rows[0]] + Later(rows[1..], cutoff)
    else Later(rows[1..], cutoff)
  }

  lemma {:induction false} DropUpToOf(rows: seq<Row>, c: Class, cutoff: nat, d: Class)
    ensures Of(DropUpTo(rows, c, cutoff), d) == if d == c then Later(Of(rows, c), cutoff) else Of(rows, d)
  {
    if rows != [] {
      DropUpToOf(rows[1..], c, cutoff, d);
      if !(rows[0].Group() == c && rows[0].id <= cutoff) {
        assert ([rows[0]] + DropUpTo(rows[1..], c, cutoff))[1..] == DropUpTo(rows[1..], c, cutoff);
      }
      if rows[0].Group() == c {
        assert ([rows[0]] + Of(rows[1..], c))[1..] == Of(rows[1..], c);
      }
    }
  }

  lemma {:induction false} DropUpToAscending(rows: seq<Row>, c: Class, cutoff: nat)
    requires Ascending(rows)
    ensures Ascending(DropUpTo(rows, c, cutoff)) && Among(DropUpTo(rows, c, cutoff), rows)
  {
    hide Ascending, Among;
    NothingAscending(rows);
    if rows != [] {
      TailAscending(rows, DropUpTo(rows[1..], c, cutoff));
      DropUpToAscending(rows[1..], c, cutoff);
      InFront(rows, DropUpTo(rows[1..], c, cutoff));
    }
  }

  lemma {:induction false} LaterIsTail(rows: seq<Row>, k: nat)
    requires Ascending(rows) && k < |rows|
    ensures Later(rows, rows[k].id) == rows[k + 1..]
  {
    if k > 0 {
      LaterIsTail(rows[1..], k - 1);
      assert rows[1..][k - 1] == rows[k];
    } else {
      AllLater(rows[1..], rows[0].id);
    }
  }

  lemma {:induction false} AllLater(rows: seq<Row>, cutoff: nat)
    requires forall i :: 0 <= i < |rows| ==> rows[i].id > cutoff
    ensures Later(rows, cutoff) == rows
  {
    if rows != [] {
      AllLater(rows[1..], cutoff);
    }
  }

  /** `_trim` keeps exactly the newest of its class and every row of any other. */
  lemma {:induction false} TrimmedOf(rows: seq<Row>, c: Class, keep: nat, d: Class)
    requires Ascending(rows)
    ensures Of(Trimmed(rows, c, keep), d) == if d == c then Newest(Of(rows, c), keep) else Of(rows, d)
    ensures Ascending(Trimmed(rows, c, keep)) && Among(Trimmed(rows, c, keep), rows)
  {
    hide Of, DropUpTo, Later, Ascending;
    var matching := Of(rows, c);
    if |matching| > keep {
      OfAscending(rows, c);
      DropUpToAscending(rows, c, matching[|matching| - 1 - keep].id);
      DropUpToOf(rows, c, matching[|matching| - 1 - keep].id, d);
      LaterIsTail(matching, |matching| - 1 - keep);
    }
  }

  lemma {:induction false} EnforcedOf(rows: seq<Row>, c: Class, now: int, d: Class)
    requires Ascending(rows)
    ensures Of(Enforced(rows, c, now), d) ==
      if d != c then Of(rows, d)
      else match c
           case Failed => Newest(Of(rows, Failed), FAILED_CAP)
           case RejectedSso => Newest(Of(rows, RejectedSso), REJECTED_SSO_CAP)
           case Other => Newest(Young(Of(rows, Other), now - KEEP), KEEP_ROWS)
    ensures Ascending(Enforced(rows, c, now)) && Among(Enforced(rows, c, now), rows)
  {
    hide Of, Young, Newest, Trimmed, Aged, Ascending;
    match c
    case Failed => TrimmedOf(rows, Failed, FAILED_CAP, d);
    case RejectedSso => TrimmedOf(rows, RejectedSso, REJECTED_SSO_CAP, d);
    case Other =>
      AgedOf(rows, now - KEEP, d);
      AgedOf(rows, now - KEEP, Other);
      AgedAscending(rows, now - KEEP);
      TrimmedOf(Aged(rows, now - KEEP), Other, KEEP_ROWS, d);
  }

  // ---- the table refines the history ----

  /** Enforcing on what was kept before and one more row is enforcing on the whole history. */
  lemma KeptOthers(all: seq<Row>, swept: Option<int>, more: seq<Row>, now: int)
    requires Ascending(all) && (swept.Some? ==> swept.value <= now) && (swept.None? ==> all == [])
    ensures var before := if swept.None? then [] else Newest(Young(all, swept.value - KEEP), KEEP_ROWS);
      Newest(Young(before + more, now - KEEP), KEEP_ROWS) == Newest(Young(all + more, now - KEEP), KEEP_ROWS)
  {
    hide Young, Newest;
    var since := now - KEEP;
    YoungAppend(all, more, since);
    if swept.Some? {
      var young := Young(all, swept.value - KEEP);
      YoungAppend(Newest(young, KEEP_ROWS), more, since);
      YoungAscending(all, swept.value - KEEP);
      YoungOfNewest(young, KEEP_ROWS, since);
      YoungTwice(all, swept.value - KEEP, since);
      NewestTwice(Young(all, since), Young(more, since), KEEP_ROWS);
    }
  }

  lemma {:induction false} PushAscending(rows: seq<Row>, row: Row)
    requires Ascending(rows) && Before(rows, row.id, row.at)
    ensures Ascending(rows + [row]) && Before(rows + [row], row.id + 1, row.at)
  {}

  lemma {:induction false} AmongBefore(kept: seq<Row>, rows: seq<Row>, nextId: nat, now: int)
    requires Among(kept, rows) && Before(rows, nextId, now)
    ensures Before(kept, nextId, now)
  {}

  lemma {:induction false} LaterBefore(rows: seq<Row>, nextId: nat, clock: int, now: int)
    requires Before(rows, nextId, clock) && clock <= now
    ensures Before(rows, nextId, now)
  {}

  lemma OfOne(row: Row, c: Class)
    ensures Of([row], c) == if row.Group() == c then [row] else []
  {}

  lemma {:induction false} KeptAfter(rows: seq<Row>, history: seq<Row>, swept: Option<int>, row: Row, d: Class)
    requires Ascending(history) && Ascending(rows + [row])
    requires (swept.Some? ==> swept.value <= row.at) && (swept.None? ==> Of(history, Other) == [])
    requires Of(rows, d) == Kept(history, swept, d)
    ensures Of(Enforced(rows + [row], row.Group(), row.at), d)
         == Kept(history + [row], if row.Group() == Other then Some(row.at) else swept, d)
    ensures d != row.Group() ==> Of(Enforced(rows + [row], row.Group(), row.at), d) == Of(rows, d)
  {
    hide Of, Young, Newest, Enforced, Ascending;
    EnforcedOf(rows + [row], row.Group(), row.at, d);
    OfAppend(rows, [row], d);
    OfAppend(history, [row], d);
    OfOne(row, d);
    assert Of(rows, d) + [] == Of(rows, d) && Of(history, d) + [] == Of(history, d);
    if d == row.Group() {
      OfAscending(history, d);
      match d
      case Failed => NewestTwice(Of(history, Failed), [row], FAILED_CAP);
      case RejectedSso => NewestTwice(Of(history, RejectedSso), [row], REJECTED_SSO_CAP);
      case Other => KeptOthers(Of(history, Other), swept, [row], row.at);
    }
  }

  lemma {:induction false} RecordRefines(
      rows: seq<Row>, history: seq<Row>, swept: Option<int>, nextId: nat, clock: int, row: Row, now: int)
    requires Refines(rows, history, swept, nextId, clock) && clock <= now && row.id == nextId && row.at == now
    ensures var c := row.Group();
      && Refines(
           Enforced(rows + [row], c, now), history + [row], if c == Other then Some(now) else swept, nextId + 1, now)
      && forall d :: d != c ==> Of(Enforced(rows + [row], c, now), d) == Of(rows, d)
  {
    hide Of, Kept, Enforced, Ascending, Before, Among, ClassOf;
    var c := row.Group();
    LaterBefore(rows, nextId, clock, now);
    LaterBefore(history, nextId, clock, now);
    PushAscending(rows, row);
    PushAscending(history, row);
    EnforcedOf(rows + [row], c, now, c);
    AmongBefore(Enforced(rows + [row], c, now), rows + [row], nextId + 1, now);
    OfAppend(history, [row], Other);
    OfOne(row, Other);
    forall d
      ensures Of(Enforced(rows + [row], c, now), d) == Kept(history + [row], if c == Other then Some(now) else swept, d)
      ensures d != c ==> Of(Enforced(rows + [row], c, now), d) == Of(rows, d)
    {
      KeptAfter(rows, history, swept, row, d);
    }
  }

  /** No row is of an unknown event or carries a forbidden detail. */
  ghost predicate AllWritable(rows: seq<Row>, lower: string -> string) {
    forall i :: 0 <= i < |rows| ==> Writable(rows[i].action, rows[i].detail, lower)
  }

  lemma {:induction false} StillWritable(
      rows: seq<Row>, history: seq<Row>, row: Row, clock: int, lower: string -> string)
    requires Ascending(rows) && Before(rows, row.id, clock) && clock <= row.at
    requires AllWritable(rows, lower) && AllWritable(history, lower) && Writable(row.action, row.detail, lower)
    ensures AllWritable(Enforced(rows + [row], row.Group(), row.at), lower) && AllWritable(history + [row], lower)
  {
    hide Writable, Enforced, Ascending, ClassOf, Before;
    LaterBefore(rows, row.id, clock, row.at);
    PushAscending(rows, row);
    EnforcedOf(rows + [row], row.Group(), row.at, row.Group());
  }

  lemma {:induction false} PruneRefines(
      rows: seq<Row>, history: seq<Row>, swept: Option<int>, nextId: nat, clock: int, now: int)
    requires Refines(rows, history, swept, nextId, clock) && clock <= now
    ensures Refines(Enforced(rows, Other, now), history, Some(now), nextId, now)
    ensures forall d :: d != Other ==> Of(Enforced(rows, Other, now), d) == Of(rows, d)
  {
    hide Of, Young, Newest, Enforced, Ascending, Before, Among;
    EnforcedOf(rows, Other, now, Other);
    LaterBefore(rows, nextId, clock, now);
    LaterBefore(history, nextId, clock, now);
    AmongBefore(Enforced(rows, Other, now), rows, nextId, now);
    OfAscending(history, Other);
    KeptOthers(Of(history, Other), swept, [], now);
    assert Of(history, Other) + [] == Of(history, Other);
    assert Kept(history, swept, Other) + [] == Kept(history, swept, Other);
    forall d
      ensures Of(Enforced(rows, Other, now), d) == Kept(history, Some(now), d)
      ensures d != Other ==> Of(Enforced(rows, Other, now), d) == Of(rows, d)
    {
      EnforcedOf(rows, Other, now, d);
    }
  }
}
