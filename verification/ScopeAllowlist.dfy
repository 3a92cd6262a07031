/**
  The allowlist of the tenant-scope gate and the ratchet that holds it: what every run of
  accepted changes keeps, and exactly when it keeps it.
*/
module ScopeAllowlist {
  import opened Common

  datatype Verdict = Required | Optional | NoScope

  /** One storage path and what its code says about its tenant scope. */
  datatype Entry = Entry(ident: string, verdict: Verdict)

  /** One allowlist row; a missing field is the empty string, `tracked` says the note names an issue. */
  datatype Row = Row(verdict: string, category: string, tracked: bool)

  type Allowlist = map<string, Row>

  const CATEGORIES: set<string> := {
    "no-tenant-data", "cross-tenant-by-design", "opaque-body-write", "admin-unscoped",
    "grant-in-lieu-of-tenant", "id-addressed-write", "id-addressed-read", "blind-spot"
  }
  const DESTRUCTIVE: set<string> := {"id-addressed-write"}
  const TRACKED: set<string> := DESTRUCTIVE + {"grant-in-lieu-of-tenant"}

  function NameOf(v: Verdict): string {
    match v case Required => "REQUIRED" case Optional => "OPTIONAL" case NoScope => "NONE"
  }

  function Strength(v: Verdict): nat {
    match v case Required => 2 case Optional => 1 case NoScope => 0
  }

  /** The three verdicts as they are written, the strongest first. */
  lemma VerdictsAreRanked()
    ensures Strength(Required) > Strength(Optional) > Strength(NoScope)
    ensures NameOf(Required) == "REQUIRED" && NameOf(Optional) == "OPTIONAL" && NameOf(NoScope) == "NONE"
  {
  }

  /** The verdict a recorded string names, verbatim. */
  predicate Names(s: string, v: Verdict) {
    s == NameOf(v)
  }

  /* ---- the enumerated paths ---- */

  /** The check's index of the exceptions: filtered first, the last entry of an ident winning. */
  function Current(entries: seq<Entry>): map<string, Verdict> {
    if entries == [] then map[]
    else
      var e, m := entries[|entries| - 1], Current(entries[..|entries| - 1]);
      if e.verdict == Required then m else m[e.ident := e.verdict]
  }

  /** The index of all entries: the last entry of an ident wins, whatever its verdict. */
  function All(entries: seq<Entry>): map<string, Verdict> {
    if entries == [] then map[]
    else var e := entries[|entries| - 1]; All(entries[..|entries| - 1])[e.ident := e.verdict]
  }

  /** The exceptions as the ratchet sees them: indexed first, then filtered. */
  function Live(entries: seq<Entry>): map<string, Verdict> {
    map id | id in All(entries) && All(entries)[id] != Required :: All(entries)[id]
  }

  lemma {:induction false} LiveIsCurrent(entries: seq<Entry>)
    ensures Live(entries).Keys <= Current(entries).Keys
    ensures forall id :: id in Live(entries) ==> Current(entries)[id] == Live(entries)[id]
    ensures forall id :: id in Current(entries) ==> Current(entries)[id] != Required
  {
    if entries != [] {
      LiveIsCurrent(entries[..|entries| - 1]);
    }
  }

  /** Paths the check sees as unscoped but the ratchet does not: a later entry of the ident is scoped. */
  function Shadowed(entries: seq<Entry>): set<string> {
    Current(entries).Keys - Live(entries).Keys
  }

  /** With one entry per ident nothing is shadowed. */
  lemma {:induction false} UniqueIdentsAreNotShadowed(entries: seq<Entry>)
    requires forall i, j :: 0 <= i < j < |entries| ==> entries[i].ident != entries[j].ident
    ensures Shadowed(entries) == {}
    ensures forall id :: id in All(entries) ==> exists i :: 0 <= i < |entries| && entries[i].ident == id
  {
    if entries != [] {
      UniqueIdentsAreNotShadowed(entries[..|entries| - 1]);
      LiveIsCurrent(entries[..|entries| - 1]);
      LiveIsCurrent(entries);
    }
  }

  /* ---- the check ---- */

  datatype CheckError =
    | Unlisted(ident: string) | Stale(ident: string) | VerdictChanged(ident: string)
    | NoCategory(ident: string) | NoTrackedIssue(ident: string) | UnknownCategory(ident: string)
    | UnsafeGrant(grant: string)

  /** When the check reports an error. */
  ghost predicate Reports(err: CheckError, current: map<string, Verdict>, grants: seq<string>, list: Allowlist) {
    match err
    case Unlisted(id) => id in current && id !in list
    case Stale(id) => id in list && id !in current
    case VerdictChanged(id) =>
      id in current && id in list && Strip(list[id].verdict) != "" && !Names(Strip(list[id].verdict), current[id])
    case NoCategory(id) => id in current && id in list && Strip(list[id].category) == ""
    case NoTrackedIssue(id) =>
      id in current && id in list && Strip(list[id].category) in TRACKED && !list[id].tracked
    case UnknownCategory(id) =>
      id in current && id in list && Strip(list[id].category) != "" && Strip(list[id].category) !in CATEGORIES
    case UnsafeGrant(g) => g in grants
  }

  method Check(entries: seq<Entry>, grants: seq<string>, list: Allowlist) returns (errors: seq<CheckError>)
    ensures forall err :: err in errors <==> Reports(err, Current(entries), grants, list)
  {
    var current := Current(entries);
    errors := [];
    var unlisted := current.Keys - list.Keys;
    while unlisted != {}
      invariant unlisted <= current.Keys - list.Keys
      invariant forall err :: err in errors <==> err.Unlisted? && err.ident in current.Keys - list.Keys - unlisted
    {
      var id :| id in unlisted;
      errors, unlisted := errors + [Unlisted(id)], unlisted - {id};
    }
    var stale := list.Keys - current.Keys;
    while stale != {}
      invariant stale <= list.Keys - current.Keys
      invariant forall err :: err in errors <==>
        || (err.Unlisted? && err.ident in current.Keys - list.Keys)
        || (err.Stale? && err.ident in list.Keys - current.Keys - stale)
    {
      var id :| id in stale;
      errors, stale := errors + [Stale(id)], stale - {id};
    }
    var rows := RowErrors(current, list);
    errors := errors + rows;
    for i := 0 to |grants|
      invariant forall err :: err in errors <==>
        if err.UnsafeGrant? then err.grant in grants[..i] else Reports(err, current, grants, list)
    {
      errors := errors + [UnsafeGrant(grants[i])];
    }
  }

  method RowErrors(current: map<string, Verdict>, list: Allowlist) returns (errors: seq<CheckError>)
    ensures forall err :: err in errors <==>
      !err.Unlisted? && !err.Stale? && !err.UnsafeGrant? && Reports(err, current, [], list)
  {
    errors := [];
    var todo := current.Keys * list.Keys;
    while todo != {}
      invariant todo <= current.Keys * list.Keys
      invariant forall err :: err in errors <==>
        !err.Unlisted? && !err.Stale? && !err.UnsafeGrant? && Reports(err, current, [], list) && err.ident !in todo
    {
      var id :| id in todo;
      todo := todo - {id};
      var row := RowError(id, current[id], list[id]);
      errors := errors + row;
    }
  }

  method RowError(id: string, live: Verdict, row: Row) returns (errors: seq<CheckError>)
    ensures forall err :: err in errors <==>
      !err.Unlisted? && !err.Stale? && !err.UnsafeGrant? && err.ident == id
      && Reports(err, map[id := live], [], map[id := row])
  {
    errors := [];
    var recorded, category := Strip(row.verdict), Strip(row.category);
    if recorded != "" && recorded != NameOf(live) {
      errors := [VerdictChanged(id)];
    }
    if category == "" {
      errors := errors + [NoCategory(id)];
    } else if category in TRACKED && !row.tracked {
      errors := errors + [NoTrackedIssue(id)];
    } else if category !in CATEGORIES {
      errors := errors + [UnknownCategory(id)];
    }
  }

  /* ---- loading the allowlist ---- */

  datatype Loaded = Indexed(rows: Allowlist) | Duplicates(idents: set<string>)

  /** Two of the first `n` rows have the id. */
  ghost predicate Repeats(rows: seq<(string, Row)>, n: nat, id: string)
    requires n <= |rows|
  {
    exists j, k :: 0 <= j < k < n && rows[j].0 == id && rows[k].0 == id
  }

  /** Key the rows by id; two rows for one id are refused, and every such id is named. */
  method IndexById(rows: seq<(string, Row)>) returns (r: Loaded)
    ensures r.Indexed? <==> forall id :: !Repeats(rows, |rows|, id)
    ensures r.Indexed? ==> forall i :: 0 <= i < |rows| ==> rows[i].0 in r.rows && r.rows[rows[i].0] == rows[i].1
    ensures r.Indexed? ==> forall id :: id in r.rows <==> Listed(rows, |rows|, id)
    ensures r.Duplicates? ==> forall id :: id in r.idents <==> Repeats(rows, |rows|, id)
  {
    var byId: Allowlist := map[];
    var duplicates: set<string> := {};
    for i := 0 to |rows|
      invariant Indexing(rows, i, byId, duplicates)
    {
      var id := rows[i].0;
      IndexingStep(rows, i, byId, duplicates);
      if id in byId {
        duplicates := duplicates + {id};
      }
      byId := byId[id := rows[i].1];
    }
    r := if duplicates != {} then Duplicates(duplicates) else Indexed(byId);
  }

  ghost predicate Indexing(rows: seq<(string, Row)>, n: nat, byId: Allowlist, duplicates: set<string>)
    requires n <= |rows|
  {
    && (forall id :: id in byId <==> Listed(rows, n, id))
    && (forall id :: id in duplicates <==> Repeats(rows, n, id))
    && (duplicates == {} ==> Verbatim(rows, n, byId))
  }

  ghost predicate Verbatim(rows: seq<(string, Row)>, n: nat, byId: Allowlist)
    requires n <= |rows|
  {
    forall j :: 0 <= j < n ==> rows[j].0 in byId && byId[rows[j].0] == rows[j].1
  }

  lemma VerbatimStep(rows: seq<(string, Row)>, n: nat, byId: Allowlist)
    requires n < |rows| && Verbatim(rows, n, byId) && rows[n].0 !in byId
    ensures Verbatim(rows, n + 1, byId[rows[n].0 := rows[n].1])
  {
  }

  lemma IndexingStep(rows: seq<(string, Row)>, n: nat, byId: Allowlist, duplicates: set<string>)
    requires n < |rows| && Indexing(rows, n, byId, duplicates)
    ensures var id := rows[n].0;
      Indexing(rows, n + 1, byId[id := rows[n].1], if id in byId then duplicates + {id} else duplicates)
  {
    var id := rows[n].0;
    var more := if id in byId then duplicates + {id} else duplicates;
    forall x
      ensures x in more <==> Repeats(rows, n + 1, x)
      ensures x in byId[id := rows[n].1] <==> Listed(rows, n + 1, x)
    {
      OneMore(rows, n, x);
    }
    if more == {} {
      VerbatimStep(rows, n, byId);
    }
  }

  /** One of the first `n` rows has the id. */
  ghost predicate Listed(rows: seq<(string, Row)>, n: nat, id: string)
    requires n <= |rows|
  {
    exists j :: 0 <= j < n && rows[j].0 == id
  }

  lemma OneMore(rows: seq<(string, Row)>, n: nat, id: string)
    requires n < |rows|
    ensures Repeats(rows, n + 1, id) <==> Repeats(rows, n, id) || (id == rows[n].0 && Listed(rows, n, id))
    ensures Listed(rows, n + 1, id) <==> Listed(rows, n, id) || id == rows[n].0
  {
  }

  /* ---- the ratchet ---- */

  datatype RatchetError = Grew(idents: set<string>) | Weakened(idents: set<string>) | Relabelled(idents: set<string>)

  /** Live exceptions the base list does not have. */
  function Added(base: Allowlist, live: map<string, Verdict>): set<string> {
    live.Keys - base.Keys
  }

  /** The recorded verdict is a known one, verbatim, and stronger than the live verdict. */
  predicate Weakens(recorded: string, live: Verdict) {
    exists was: Verdict :: Names(recorded, was) && Strength(live) < Strength(was)
  }

  predicate Relabels(was: string, now: string) {
    was in DESTRUCTIVE && now != "" && now !in DESTRUCTIVE
  }

  function Category(list: Allowlist, id: string): string {
    if id in list then list[id].category else ""
  }

  function WeakenedIds(base: Allowlist, live: map<string, Verdict>): set<string> {
    set id | id in base && id in live && Weakens(base[id].verdict, live[id])
  }

  function RelabelledIds(base: Allowlist, listed: Allowlist, live: map<string, Verdict>): set<string> {
    set id | id in base && id in live && Relabels(base[id].category, Category(listed, id))
  }

  /** A category that is gone, with its row or without, is left to the check. */
  lemma MissingCategoryIsNoRelabelling(base: Allowlist, listed: Allowlist, live: map<string, Verdict>, id: string)
    requires id in listed ==> listed[id].category == ""
    ensures id !in RelabelledIds(base, listed, live)
  {
  }

  method Ratchet(base: Allowlist, listed: Allowlist, entries: seq<Entry>) returns (errors: seq<RatchetError>)
    ensures errors == [] <==> Held(base, listed, entries)
    ensures forall err :: err in errors ==> err.idents != {} && match err
      case Grew(ids) => ids == Added(base, Live(entries))
      case Weakened(ids) => ids == WeakenedIds(base, Live(entries))
      case Relabelled(ids) => ids == RelabelledIds(base, listed, Live(entries))
    ensures Added(base, Live(entries)) != {} <==> Grew(Added(base, Live(entries))) in errors
    ensures WeakenedIds(base, Live(entries)) != {} <==> Weakened(WeakenedIds(base, Live(entries))) in errors
    ensures RelabelledIds(base, listed, Live(entries)) != {} <==>
      Relabelled(RelabelledIds(base, listed, Live(entries))) in errors
  {
    var live := Live(entries);
    errors := [];
    var added := live.Keys - base.Keys;
    if added != {} {
      errors := errors + [Grew(added)];
    }
    var weakened, relabelled: set<string> := {}, {};
    var shared := base.Keys * live.Keys;
    var todo := shared;
    while todo != {}
      invariant todo <= shared
      invariant weakened == set id | id in WeakenedIds(base, live) && id !in todo
      invariant relabelled == set id | id in RelabelledIds(base, listed, live) && id !in todo
    {
      var id :| id in todo;
      todo := todo - {id};
      if Weakens(base[id].verdict, live[id]) {
        weakened := weakened + {id};
      }
      if Relabels(base[id].category, Category(listed, id)) {
        relabelled := relabelled + {id};
      }
    }
    if weakened != {} {
      errors := errors + [Weakened(weakened)];
    }
    if relabelled != {} {
      errors := errors + [Relabelled(relabelled)];
    }
  }

  /** No error from the ratchet. */
  ghost predicate Held(base: Allowlist, listed: Allowlist, entries: seq<Entry>) {
    && Added(base, Live(entries)) == {}
    && WeakenedIds(base, Live(entries)) == {}
    && RelabelledIds(base, listed, Live(entries)) == {}
  }

  /* ---- runs of accepted changes ---- */

  datatype State = State(entries: seq<Entry>, list: Allowlist)

  /** No error from the check, with no unsafe grant. */
  ghost predicate Accepted(s: State) {
    forall err :: !Reports(err, Current(s.entries), [], s.list)
  }

  ghost predicate Step(prev: State, next: State) {
    Accepted(prev) && Accepted(next) && Held(prev.list, next.list, next.entries)
  }

  function Unscoped(s: State): set<string> {
    Current(s.entries).Keys
  }

  lemma AcceptedFacts(s: State)
    requires Accepted(s)
    ensures s.list.Keys == Unscoped(s)
    ensures forall id :: id in s.list ==>
      && Strip(s.list[id].category) in CATEGORIES
      && (Strip(s.list[id].verdict) != "" ==> Names(Strip(s.list[id].verdict), Current(s.entries)[id]))
      && (Strip(s.list[id].category) in TRACKED ==> s.list[id].tracked)
  {
    forall id
      ensures id in s.list <==> id in Unscoped(s)
    {
      assert !Reports(Unlisted(id), Current(s.entries), [], s.list);
      assert !Reports(Stale(id), Current(s.entries), [], s.list);
    }
    forall id | id in s.list
      ensures Strip(s.list[id].category) in CATEGORIES
      ensures Strip(s.list[id].verdict) != "" ==> Names(Strip(s.list[id].verdict), Current(s.entries)[id])
      ensures Strip(s.list[id].category) in TRACKED ==> s.list[id].tracked
    {
      assert !Reports(NoCategory(id), Current(s.entries), [], s.list);
      assert !Reports(UnknownCategory(id), Current(s.entries), [], s.list);
      assert !Reports(VerdictChanged(id), Current(s.entries), [], s.list);
      assert !Reports(NoTrackedIssue(id), Current(s.entries), [], s.list);
    }
  }

  /** An accepted change adds exactly the newly listed paths whose ident a later, scoped entry shadows. */
  lemma {:induction false} GrowthIsShadowed(prev: State, next: State)
    requires Step(prev, next)
    ensures Unscoped(next) - Unscoped(prev) == Shadowed(next.entries) - Unscoped(prev)
  {
    AcceptedFacts(prev);
    LiveIsCurrent(next.entries);
    forall id | id in Live(next.entries)
      ensures id in prev.list
    {
      assert id !in Added(prev.list, Live(next.entries));
    }
  }

  lemma {:induction false} StepShrinks(prev: State, next: State)
    requires Step(prev, next) && Shadowed(next.entries) == {}
    ensures Unscoped(next) <= Unscoped(prev)
  {
    GrowthIsShadowed(prev, next);
    forall id | id in Unscoped(next)
      ensures id in Unscoped(prev)
    {
      assert id in Unscoped(prev) || id in Unscoped(next) - Unscoped(prev);
    }
  }

  /** For whatever paths a tree has, some allowlist passes the check. */
  lemma EveryTreeCanBeListed(entries: seq<Entry>)
    ensures exists list :: Accepted(State(entries, list))
  {
    var current := Current(entries);
    var list := map id | id in current :: Row(NameOf(current[id]), "no-tenant-data", false);
    LiteralsAreStripped();
    forall id | id in current
      ensures Strip(NameOf(current[id])) == NameOf(current[id])
    {
      assert Names(NameOf(current[id]), current[id]);
      StripsToItself(NameOf(current[id]));
    }
    assert Accepted(State(entries, list));
  }

  /** Nothing the ratchet forbids happens to a row that stays while its path keeps its verdict. */
  lemma RowStays(s: State, id: string)
    requires Accepted(s) && id in Live(s.entries)
    ensures id in s.list && !Weakens(s.list[id].verdict, Live(s.entries)[id])
    ensures !Relabels(s.list[id].category, s.list[id].category)
  {
    LiveIsCurrent(s.entries);
    assert !Reports(Unlisted(id), Current(s.entries), [], s.list);
    NotWeakenedByItself(s, id);
  }

  lemma KeptRowsPass(s: State, next: State)
    requires Accepted(s) && Accepted(next)
    requires forall id :: id in Live(next.entries) ==>
      && id in Live(s.entries) && Live(next.entries)[id] == Live(s.entries)[id]
      && id in s.list && id in next.list && next.list[id] == s.list[id]
    ensures Step(s, next)
  {
    forall id | id in Live(next.entries)
      ensures id in s.list && !Weakens(s.list[id].verdict, Live(next.entries)[id])
      ensures !Relabels(s.list[id].category, Category(next.list, id))
    {
      RowStays(s, id);
    }
  }

  /** Changing nothing passes. */
  lemma StandingStillPasses(s: State)
    requires Accepted(s)
    ensures Step(s, s)
  {
    forall id | id in Live(s.entries)
      ensures id in s.list
    {
      RowStays(s, id);
    }
    KeptRowsPass(s, s);
  }

  /** Scoping a path, and dropping its row, passes. */
  lemma {:induction false} ScopingPasses(s: State, id: string)
    requires Accepted(s)
    ensures Step(s, State(Revised(s.entries, id, Required), s.list - {id}))
  {
    var next := State(Revised(s.entries, id, Required), s.list - {id});
    ScopedCurrent(s.entries, id);
    ScopedLive(s.entries, id);
    forall err
      ensures !Reports(err, Current(next.entries), [], next.list)
    {
      assert !Reports(err, Current(s.entries), [], s.list);
    }
    forall x | x in Live(next.entries)
      ensures x in s.list
    {
      RowStays(s, x);
    }
    KeptRowsPass(s, next);
  }

  lemma {:induction false} ScopedCurrent(entries: seq<Entry>, id: string)
    ensures Current(Revised(entries, id, Required)) == Current(entries) - {id}
  {
    if entries != [] {
      var n := |entries| - 1;
      ScopedCurrent(entries[..n], id);
      assert Revised(entries, id, Required)[..n] == Revised(entries[..n], id, Required);
    }
  }

  lemma {:induction false} ScopedAll(entries: seq<Entry>, id: string)
    ensures All(Revised(entries, id, Required))
         == if id in All(entries) then All(entries)[id := Required] else All(entries)
  {
    if entries != [] {
      var n := |entries| - 1;
      ScopedAll(entries[..n], id);
      assert Revised(entries, id, Required)[..n] == Revised(entries[..n], id, Required);
    }
  }

  lemma ScopedLive(entries: seq<Entry>, id: string)
    ensures Live(Revised(entries, id, Required)) == Live(entries) - {id}
  {
    ScopedAll(entries, id);
  }

  /** A new unscoped path passes both gates when a second entry of its ident is scoped. */
  lemma {:induction false} ShadowedPathIsAdded()
    ensures
      var id := "route:GET /x";
      var prev := State([], map[]);
      var next := State([Entry(id, NoScope), Entry(id, Required)], map[id := Row("NONE", "no-tenant-data", false)]);
      Step(prev, next) && Unscoped(prev) == {} && Unscoped(next) == {id}
  {
    var id := "route:GET /x";
    var entries := [Entry(id, NoScope), Entry(id, Required)];
    assert entries[..1] == [Entry(id, NoScope)] && entries[..1][..0] == [];
    assert Current(entries[..1]) == map[id := NoScope];
    assert entries[|entries| - 1] == Entry(id, Required) && entries[..|entries| - 1] == entries[..1];
    assert Current(entries) == Current(entries[..1]);
    assert All(entries) == All(entries[..1])[id := Required];
    assert All(entries[..1]) == map[id := NoScope];
    assert Live(entries) == map[];
    LiteralsAreStripped();
    assert Added(map[], Live(entries)) == {};
    assert WeakenedIds(map[], Live(entries)) == {};
    assert RelabelledIds(map[], map[id := Row("NONE", "no-tenant-data", false)], Live(entries)) == {};
  }

  /** The recorded verdict is one the ratchet can compare, or there is nothing left to lose. */
  predicate Comparable(s: State, id: string)
    requires id in s.list && id in Current(s.entries)
  {
    Names(s.list[id].verdict, Optional) || Current(s.entries)[id] == NoScope
  }

  lemma StripsToItself(s: string)
    requires (exists v :: Names(s, v)) || s in DESTRUCTIVE
    ensures Strip(s) == s && s != ""
  {
  }

  /** Every entry of one path given a verdict, in place. */
  function Revised(entries: seq<Entry>, id: string, v: Verdict): (r: seq<Entry>)
    ensures |r| == |entries|
    ensures forall i :: 0 <= i < |r| ==> r[i] == if entries[i].ident == id then Entry(id, v) else entries[i]
  {
    seq(|entries|, i requires 0 <= i < |entries| => if entries[i].ident == id then Entry(id, v) else entries[i])
  }

  /** One path's verdict and row replaced. */
  function Replaced(s: State, id: string, v: Verdict, row: Row): State {
    State(Revised(s.entries, id, v), s.list[id := row])
  }

  /** Giving one path another verdict and row, and changing nothing else, is an accepted change. */
  ghost predicate Passes(prev: State, id: string, v: Verdict, row: Row) {
    Step(prev, Replaced(prev, id, v, row)) && Live(Replaced(prev, id, v, row).entries) == Live(prev.entries)[id := v]
  }

  ghost predicate Enumerated(entries: seq<Entry>, id: string) {
    exists i :: 0 <= i < |entries| && entries[i].ident == id
  }

  lemma {:induction false} RevisedCurrent(entries: seq<Entry>, id: string, v: Verdict)
    requires v != Required
    ensures Current(Revised(entries, id, v))
          == if Enumerated(entries, id) then Current(entries)[id := v] else Current(entries)
    ensures id in Current(entries) ==> Enumerated(entries, id)
  {
    if entries != [] {
      var n := |entries| - 1;
      RevisedCurrent(entries[..n], id, v);
      assert Revised(entries, id, v)[..n] == Revised(entries[..n], id, v);
      EnumeratedSplit(entries, id);
    }
  }

  lemma {:induction false} RevisedAll(entries: seq<Entry>, id: string, v: Verdict)
    ensures All(Revised(entries, id, v)) == if Enumerated(entries, id) then All(entries)[id := v] else All(entries)
  {
    if entries != [] {
      var n := |entries| - 1;
      RevisedAll(entries[..n], id, v);
      assert Revised(entries, id, v)[..n] == Revised(entries[..n], id, v);
      EnumeratedSplit(entries, id);
    }
  }

  lemma EnumeratedSplit(entries: seq<Entry>, id: string)
    requires entries != []
    ensures Enumerated(entries, id) <==> Enumerated(entries[..|entries| - 1], id) || entries[|entries| - 1].ident == id
  {
    assert forall i :: 0 <= i < |entries| - 1 ==> entries[..|entries| - 1][i] == entries[i];
  }

  lemma {:induction false} ReplacedEntries(s: State, id: string, v: Verdict, row: Row)
    requires v != Required && id in Current(s.entries)
    ensures Current(Replaced(s, id, v, row).entries) == Current(s.entries)[id := v]
    ensures Live(Replaced(s, id, v, row).entries) == Live(s.entries)[id := v]
  {
    RevisedCurrent(s.entries, id, v);
    RevisedAll(s.entries, id, v);
  }

  /** A row the check accepts for a path with the verdict `v`. */
  predicate RowAccepted(row: Row, v: Verdict) {
    && (Strip(row.verdict) != "" ==> Names(Strip(row.verdict), v))
    && Strip(row.category) in CATEGORIES
    && (Strip(row.category) in TRACKED ==> row.tracked)
  }

  lemma {:induction false} ReplacedIsAccepted(s: State, id: string, v: Verdict, row: Row)
    requires Accepted(s) && id in Unscoped(s) && v != Required && RowAccepted(row, v)
    ensures Accepted(Replaced(s, id, v, row))
  {
    var n := Replaced(s, id, v, row);
    ReplacedEntries(s, id, v, row);
    AcceptedFacts(s);
    forall err
      ensures !Reports(err, Current(n.entries), [], n.list)
    {
      if !err.UnsafeGrant? {
        if err.ident == id {
          RowReportsNothing(err, Current(n.entries), n.list);
        } else {
          assert !Reports(err, Current(s.entries), [], s.list);
        }
      }
    }
  }

  lemma RowReportsNothing(err: CheckError, current: map<string, Verdict>, list: Allowlist)
    requires !err.UnsafeGrant? && err.ident in current && err.ident in list
    requires RowAccepted(list[err.ident], current[err.ident])
    ensures !Reports(err, current, [], list)
  {
  }

  /** A recorded verdict that is comparable at all is the live one, so leaving a path alone does not weaken it. */
  lemma {:induction false} UnchangedIsNotWeakened(s: State, id: string)
    requires Accepted(s) && id in Live(s.entries) && id in s.list
    ensures !Weakens(s.list[id].verdict, Live(s.entries)[id])
  {
    LiveIsCurrent(s.entries);
    AcceptedFacts(s);
    forall was: Verdict | Names(s.list[id].verdict, was)
      ensures was == Live(s.entries)[id]
    {
      StripsToItself(s.list[id].verdict);
    }
  }

  lemma {:induction false} ReplacedIsStep(s: State, id: string, v: Verdict, row: Row)
    requires Accepted(s) && id in Unscoped(s) && id in s.list && v != Required && RowAccepted(row, v)
    requires !Weakens(s.list[id].verdict, v) && !Relabels(s.list[id].category, row.category)
    ensures Step(s, Replaced(s, id, v, row))
  {
    var n := Replaced(s, id, v, row);
    ReplacedIsAccepted(s, id, v, row);
    ReplacedEntries(s, id, v, row);
    AcceptedFacts(s);
    LiveIsCurrent(s.entries);
    forall x | x in Live(n.entries)
      ensures x in s.list && !Weakens(s.list[x].verdict, Live(n.entries)[x])
      ensures !Relabels(s.list[x].category, Category(n.list, x))
    {
      if x != id {
        UnchangedIsNotWeakened(s, x);
      }
    }
    assert Added(s.list, Live(n.entries)) == {};
    assert WeakenedIds(s.list, Live(n.entries)) == {};
    assert RelabelledIds(s.list, n.list, Live(n.entries)) == {};
  }

  lemma {:induction false} StepKeepsStrength(prev: State, next: State, id: string)
    requires Step(prev, next) && id in Unscoped(prev) && id in prev.list && id in Live(next.entries)
    requires Comparable(prev, id)
    ensures Strength(Live(next.entries)[id]) >= Strength(Current(prev.entries)[id])
  {
    LiveIsCurrent(prev.entries);
    assert id !in WeakenedIds(prev.list, Live(next.entries));
    assert !Weakens(prev.list[id].verdict, Live(next.entries)[id]);
    if Current(prev.entries)[id] != NoScope {
      assert Names(prev.list[id].verdict, Optional);
    }
  }

  /**
    The ratchet keeps a listed path from losing scope exactly when its recorded verdict is comparable:
    otherwise a change to the path's own entries and row, and to nothing else, passes.
  */
  lemma {:induction false} StrengthIsKeptIff(prev: State, id: string)
    requires Accepted(prev) && id in Unscoped(prev) && id in prev.list
    ensures Comparable(prev, id) ==> forall next :: Step(prev, next) && id in Live(next.entries) ==>
      Strength(Live(next.entries)[id]) >= Strength(Current(prev.entries)[id])
    ensures !Comparable(prev, id) ==>
      Strength(NoScope) < Strength(Current(prev.entries)[id]) && exists row :: Passes(prev, id, NoScope, row)
  {
    if Comparable(prev, id) {
      forall next | Step(prev, next) && id in Live(next.entries)
        ensures Strength(Live(next.entries)[id]) >= Strength(Current(prev.entries)[id])
      {
        StepKeepsStrength(prev, next, id);
      }
    } else {
      WeakeningPasses(prev, id);
    }
  }

  lemma {:induction false} WeakeningPasses(prev: State, id: string)
    requires Accepted(prev) && id in Unscoped(prev) && id in prev.list && !Comparable(prev, id)
    ensures Strength(NoScope) < Strength(Current(prev.entries)[id]) && exists row :: Passes(prev, id, NoScope, row)
  {
    LiveIsCurrent(prev.entries);
    AcceptedFacts(prev);
    if was: Verdict :| Names(prev.list[id].verdict, was) {
      StripsToItself(prev.list[id].verdict);
      assert false;
    }
    var row := prev.list[id].(verdict := "");
    StripOfEmpty();
    ReplacedIsStep(prev, id, NoScope, row);
    ReplacedEntries(prev, id, NoScope, row);
    assert Passes(prev, id, NoScope, row);
  }

  lemma LiteralsAreStripped()
    ensures Strip("NONE") == "NONE" && Strip("no-tenant-data") == "no-tenant-data"
    ensures "no-tenant-data" in CATEGORIES && "no-tenant-data" !in TRACKED && "no-tenant-data" !in DESTRUCTIVE
  {
  }

  lemma StripOfEmpty()
    ensures Strip("") == ""
  {
  }

  lemma {:induction false} StepKeepsMutating(prev: State, next: State, id: string)
    requires Step(prev, next) && id in prev.list && id in Live(next.entries) && prev.list[id].category in DESTRUCTIVE
    ensures id in next.list && next.list[id].category in DESTRUCTIVE
  {
    LiveIsCurrent(next.entries);
    CategoryIsThere(next, id);
    assert id !in RelabelledIds(prev.list, next.list, Live(next.entries));
  }

  lemma CategoryIsThere(s: State, id: string)
    requires Accepted(s) && id in Unscoped(s)
    ensures id in s.list && s.list[id].category != ""
  {
    AcceptedFacts(s);
    StripOfEmpty();
    assert "" !in CATEGORIES;
  }

  /**
    A path the check reads as mutating stays mutating exactly when its category is written verbatim:
    otherwise a change to the path's own row passes.
  */
  lemma {:induction false} MutatingIsKeptIff(prev: State, id: string)
    requires Accepted(prev) && id in prev.list && Strip(prev.list[id].category) in DESTRUCTIVE
    ensures prev.list[id].category in DESTRUCTIVE ==> forall next :: Step(prev, next) && id in Live(next.entries) ==>
      id in next.list && Strip(next.list[id].category) in DESTRUCTIVE
    ensures prev.list[id].category !in DESTRUCTIVE ==> id in Current(prev.entries) && exists row ::
      Passes(prev, id, Current(prev.entries)[id], row) && Strip(row.category) !in DESTRUCTIVE
  {
    if prev.list[id].category in DESTRUCTIVE {
      forall next | Step(prev, next) && id in Live(next.entries)
        ensures id in next.list && Strip(next.list[id].category) in DESTRUCTIVE
      {
        StepKeepsMutating(prev, next, id);
        StripsToItself(next.list[id].category);
      }
    } else {
      RelabellingPasses(prev, id);
    }
  }

  lemma {:induction false} RelabellingPasses(prev: State, id: string)
    requires Accepted(prev) && id in prev.list && prev.list[id].category !in DESTRUCTIVE
    ensures id in Current(prev.entries) && exists row ::
      Passes(prev, id, Current(prev.entries)[id], row) && Strip(row.category) !in DESTRUCTIVE
  {
    AcceptedFacts(prev);
    LiveIsCurrent(prev.entries);
    var v, row := Current(prev.entries)[id], prev.list[id].(category := "no-tenant-data");
    NotWeakenedByItself(prev, id);
    LiteralsAreStripped();
    ReplacedIsStep(prev, id, v, row);
    ReplacedEntries(prev, id, v, row);
    assert Passes(prev, id, v, row);
  }

  lemma {:induction false} NotWeakenedByItself(s: State, id: string)
    requires Accepted(s) && id in s.list && id in Current(s.entries)
    ensures !Weakens(s.list[id].verdict, Current(s.entries)[id])
  {
    AcceptedFacts(s);
    forall was: Verdict | Names(s.list[id].verdict, was)
      ensures was == Current(s.entries)[id]
    {
      StripsToItself(s.list[id].verdict);
    }
  }

  /* ---- whole runs ---- */

  /** Accepted changes one after the other, each held by the ratchet against the list before it. */
  ghost predicate Run(run: seq<State>) {
    && run != [] && Accepted(run[0])
    && forall i :: 1 <= i < |run| ==> Step(run[i - 1], run[i]) && Shadowed(run[i].entries) == {}
  }

  /** The set of unscoped paths only shrinks, so a path that left never comes back unscoped. */
  lemma {:induction false} RunShrinks(run: seq<State>, i: nat, j: nat)
    requires Run(run) && i <= j < |run|
    ensures Unscoped(run[j]) <= Unscoped(run[i])
    decreases j
  {
    if i < j {
      RunShrinks(run, i, j - 1);
      assert Step(run[j - 1], run[j]) && Shadowed(run[j].entries) == {};
      StepShrinks(run[j - 1], run[j]);
    }
  }

  lemma StrengthOverStep(prev: State, next: State, id: string)
    requires Step(prev, next) && Shadowed(next.entries) == {} && id in Unscoped(next)
    requires id in prev.list && id in Current(prev.entries) && Comparable(prev, id)
    ensures Strength(Current(next.entries)[id]) >= Strength(Current(prev.entries)[id])
  {
    LiveIsCurrent(next.entries);
    StepKeepsStrength(prev, next, id);
  }

  /** A surviving path's verdict never gets weaker while its recorded verdicts are comparable. */
  lemma {:induction false} RunKeepsStrength(run: seq<State>, i: nat, j: nat, id: string)
    requires Run(run) && i <= j < |run| && id in Unscoped(run[j])
    requires forall k :: i <= k < j ==> id in run[k].list && id in Current(run[k].entries) && Comparable(run[k], id)
    ensures id in Unscoped(run[i])
    ensures Strength(Current(run[j].entries)[id]) >= Strength(Current(run[i].entries)[id])
    decreases j
  {
    if i < j {
      var prev, next := run[j - 1], run[j];
      assert Step(prev, next) && Shadowed(next.entries) == {};
      assert id in prev.list && Comparable(prev, id);
      RunKeepsStrength(run, i, j - 1, id);
      StrengthOverStep(prev, next, id);
    }
  }

  /** A mutating entry stays mutating until it leaves the list. */
  lemma {:induction false} RunKeepsMutating(run: seq<State>, i: nat, j: nat, id: string)
    requires Run(run) && i <= j < |run| && id in run[i].list && run[i].list[id].category in DESTRUCTIVE
    requires id in Unscoped(run[j])
    ensures id in run[j].list && run[j].list[id].category in DESTRUCTIVE
    decreases j
  {
    if i < j {
      assert Step(run[j - 1], run[j]) && Shadowed(run[j].entries) == {};
      LiveIsCurrent(run[j].entries);
      RunShrinks(run, j - 1, j);
      RunKeepsMutating(run, i, j - 1, id);
      StepKeepsMutating(run[j - 1], run[j], id);
    }
  }
}
