/**
  The supersession-aware recall of a benchmark question: a gold that was retired counts
  when a retrieved memory supersedes it, along pointers that may be corrupt and cyclic.
*/
module RecallScoring {
  import opened Common

  type Pointers = map<string, string>

  /* ---- chasing supersedes pointers ---- */

  /** Where `n` pointers lead from `start`, if the chain is that long. */
  ghost function After(s: Pointers, start: string, n: nat): Option<string> {
    if n == 0 then Some(start)
    else
      var prev := After(s, start, n - 1);
      if prev.Some? && prev.value in s then Some(s[prev.value]) else None
  }

  /** Some target is reached in one or more steps. */
  ghost predicate Supersedes(s: Pointers, start: string, targets: set<string>) {
    exists n :: n >= 1 && Hits(s, start, n, targets)
  }

  ghost predicate Hits(s: Pointers, start: string, n: nat, targets: set<string>) {
    After(s, start, n).Some? && After(s, start, n).value in targets
  }

  lemma {:induction false} EndedStaysEnded(s: Pointers, start: string, n: nat, m: nat)
    requires After(s, start, n) == None && n <= m
    ensures After(s, start, m) == None
  {
    if n < m {
      EndedStaysEnded(s, start, n, m - 1);
    }
  }

  /** Once a chain repeats, it only repeats what it visited from its first step on. */
  lemma {:induction false} CycleRepeats(s: Pointers, start: string, i: nat, n: nat, m: nat)
    requires i < n && After(s, start, i) == After(s, start, n) && m >= 1
    ensures exists j :: 1 <= j <= n && After(s, start, m) == After(s, start, j)
  {
    if m > n {
      CycleRepeats(s, start, i, n, m - 1);
      var j :| 1 <= j <= n && After(s, start, m - 1) == After(s, start, j);
      var next := if j < n then j + 1 else i + 1;
      assert After(s, start, m) == After(s, start, next);
    }
  }

  method ChainReaches(start: string, targets: set<string>, s: Pointers) returns (r: bool)
    ensures r <==> Supersedes(s, start, targets)
  {
    var seen: set<string> := {};
    var cur := Some(start);
    ghost var visited: seq<string> := [];
    while cur.Some? && cur.value !in seen
      invariant seen == set x | x in visited
      invariant Unhit(s, start, targets, visited, cur)
      decreases s.Keys - seen, cur.Some?
    {
      ghost var was := seen;
      seen := seen + {cur.value};
      assert cur.value in s ==> cur.value in s.Keys - was && cur.value !in s.Keys - seen;
      var next := if cur.value in s then Some(s[cur.value]) else None;
      if next.Some? && next.value in targets {
        Hit(s, start, targets, visited, cur.value);
        return true;
      }
      UnhitStep(s, start, targets, visited, cur.value, next);
      cur, visited := next, visited + [cur.value];
    }
    Exhausted(s, start, visited, cur, targets);
    r := false;
  }

  /** Consecutive memories of a chain. */
  ghost predicate Trail(s: Pointers, start: string, t: seq<string>) {
    && (t != [] ==> t[0] == start)
    && forall i :: 0 <= i < |t| - 1 ==> t[i] in s && s[t[i]] == t[i + 1]
  }

  lemma {:induction false} TrailAfter(s: Pointers, start: string, t: seq<string>, i: nat)
    requires Trail(s, start, t) && i < |t|
    ensures After(s, start, i) == Some(t[i])
  {
    if i > 0 {
      TrailAfter(s, start, t, i - 1);
    }
  }

  /** `visited` is the chain up to `cur`, and none of it but possibly `start` is a target. */
  ghost predicate Unhit(s: Pointers, start: string, targets: set<string>, visited: seq<string>, cur: Option<string>) {
    && Trail(s, start, visited)
    && (cur.Some? ==> Trail(s, start, visited + [cur.value]))
    && (cur.None? ==> visited != [] && visited[|visited| - 1] !in s)
    && (forall i :: 1 <= i < |visited| ==> visited[i] !in targets)
    && (cur.Some? && visited != [] ==> cur.value !in targets)
  }

  lemma UnhitStep(s: Pointers, start: string, targets: set<string>, visited: seq<string>, cur: string,
                  next: Option<string>)
    requires Unhit(s, start, targets, visited, Some(cur))
    requires next == (if cur in s then Some(s[cur]) else None)
    requires next.Some? ==> next.value !in targets
    ensures Unhit(s, start, targets, visited + [cur], next)
  {
    if next.Some? {
      var t := visited + [cur] + [next.value];
      forall i | 0 <= i < |t| - 1
        ensures t[i] in s && s[t[i]] == t[i + 1]
      {
        if i < |visited| {
          assert (visited + [cur])[i] == t[i] && (visited + [cur])[i + 1] == t[i + 1];
        }
      }
    }
  }

  lemma Hit(s: Pointers, start: string, targets: set<string>, visited: seq<string>, cur: string)
    requires Unhit(s, start, targets, visited, Some(cur)) && cur in s && s[cur] in targets
    ensures Supersedes(s, start, targets)
  {
    TrailAfter(s, start, visited + [cur], |visited|);
    assert Hits(s, start, |visited| + 1, targets);
  }

  lemma Exhausted(s: Pointers, start: string, visited: seq<string>, cur: Option<string>, targets: set<string>)
    requires Unhit(s, start, targets, visited, cur) && visited != []
    requires cur.Some? ==> cur.value in visited
    ensures !Supersedes(s, start, targets)
  {
    var n := |visited|;
    forall m | 1 <= m <= n
      ensures !Hits(s, start, m, targets)
    {
      TrailAfter(s, start, visited, n - 1);
      if m < n {
        TrailAfter(s, start, visited, m);
      } else if cur.Some? {
        TrailAfter(s, start, visited + [cur.value], n);
      }
    }
    if cur.Some? {
      var i :| 0 <= i < n && visited[i] == cur.value;
      TrailAfter(s, start, visited, i);
      TrailAfter(s, start, visited + [cur.value], n);
    } else {
      TrailAfter(s, start, visited, n - 1);
    }
    NeverHits(s, start, n, targets);
  }

  /** A chain that ended, or came back to a visited memory, without a hit never has one. */
  lemma {:induction false} NeverHits(s: Pointers, start: string, n: nat, targets: set<string>)
    requires forall m :: 1 <= m <= n ==> !Hits(s, start, m, targets)
    requires After(s, start, n).None? || exists i :: 0 <= i < n && After(s, start, i) == After(s, start, n)
    ensures !Supersedes(s, start, targets)
  {
    forall m | m >= 1
      ensures !Hits(s, start, m, targets)
    {
      if After(s, start, n).None? {
        if m >= n {
          EndedStaysEnded(s, start, n, m);
        }
      } else {
        var i :| 0 <= i < n && After(s, start, i) == After(s, start, n);
        CycleRepeats(s, start, i, n, m);
        var j :| 1 <= j <= n && After(s, start, m) == After(s, start, j);
        assert !Hits(s, start, j, targets);
      }
    }
  }

  /* ---- scoring a question ---- */

  /** A memory row; a missing field is the empty string. */
  datatype Memory = Memory(id: string, uri: string, status: string, supersedesId: string)

  const SUPERSEDED: set<string> := {"outdated", "conflicted"}

  datatype Outcome = Retrieved | Credited(through: string) | Lost | Missing

  predicate Satisfied(o: Outcome) { o.Retrieved? || o.Credited? }

  predicate ByCredit(o: Outcome) { o.Credited? }

  /** The pointers of the rows, later rows overriding earlier ones. */
  function PointersOf(rows: seq<Memory>): Pointers {
    if rows == [] then map[]
    else
      var m, s := rows[|rows| - 1], PointersOf(rows[..|rows| - 1]);
      if m.id != "" && m.supersedesId != "" then s[m.id := m.supersedesId] else s
  }

  ghost predicate IsRetrieved(uri: string, retrieved: seq<Memory>) {
    uri != "" && exists m :: m in retrieved && m.uri == uri
  }

  /** Some stored copy of the uri exists and every one was retired. */
  ghost predicate Retired(uri: string, stored: seq<Memory>) {
    && uri != ""
    && (exists m :: m in stored && m.uri == uri)
    && (forall m :: m in stored && m.uri == uri ==> m.status in SUPERSEDED)
  }

  function Targets(uri: string, stored: seq<Memory>): set<string> {
    set m | m in stored && m.uri == uri && m.id != "" :: m.id
  }

  ghost predicate Credits(m: Memory, uri: string, retrieved: seq<Memory>, stored: seq<Memory>) {
    m.id != "" && Supersedes(PointersOf(stored + retrieved), m.id, Targets(uri, stored))
  }

  /** The outcome of one gold, as the scorer defines it. */
  ghost predicate IsOutcome(o: Outcome, uri: string, retrieved: seq<Memory>, stored: seq<Memory>, legacy: bool) {
    if IsRetrieved(uri, retrieved) then o == Retrieved
    else if legacy || stored == [] || !Retired(uri, stored) then o == Missing
    else if exists m :: m in retrieved && Credits(m, uri, retrieved, stored)
    then
      && o.Credited?
      && exists i :: 0 <= i < |retrieved| && FirstCredit(i, uri, retrieved, stored) && retrieved[i].id == o.through
    else o == Lost
  }

  ghost predicate FirstCredit(i: nat, uri: string, retrieved: seq<Memory>, stored: seq<Memory>)
    requires i < |retrieved|
  {
    && Credits(retrieved[i], uri, retrieved, stored)
    && forall j :: 0 <= j < i ==> !Credits(retrieved[j], uri, retrieved, stored)
  }

  /** The row says what the memory supersedes. */
  predicate Points(m: Memory, id: string) {
    id != "" && m.id == id && m.supersedesId != ""
  }

  /** A memory has a pointer if and only if some row gives it one, and then the last such row decides. */
  lemma {:induction false} LastRowDecides(rows: seq<Memory>, id: string)
    ensures id in PointersOf(rows) <==> exists i :: 0 <= i < |rows| && Points(rows[i], id)
    ensures forall i ::
      0 <= i < |rows| && Points(rows[i], id) && (forall j :: i < j < |rows| ==> !Points(rows[j], id)) ==>
        id in PointersOf(rows) && PointersOf(rows)[id] == rows[i].supersedesId
  {
    if rows != [] {
      var n := |rows| - 1;
      LastRowDecides(rows[..n], id);
      assert forall i :: 0 <= i < n ==> rows[..n][i] == rows[i];
      if id in PointersOf(rows[..n]) {
        var i :| 0 <= i < n && Points(rows[..n][i], id);
        assert Points(rows[i], id);
      }
    }
  }

  method Pointed(rows: seq<Memory>) returns (s: Pointers)
    ensures s == PointersOf(rows)
    ensures forall id :: id in s <==> exists i :: 0 <= i < |rows| && Points(rows[i], id)
    ensures forall id, i ::
      0 <= i < |rows| && Points(rows[i], id) && (forall j :: i < j < |rows| ==> !Points(rows[j], id)) ==>
        id in s && s[id] == rows[i].supersedesId
  {
    s := map[];
    for i := 0 to |rows|
      invariant s == PointersOf(rows[..i])
    {
      assert rows[..i + 1][..i] == rows[..i];
      var m := rows[i];
      if m.id != "" && m.supersedesId != "" {
        s := s[m.id := m.supersedesId];
      }
    }
    assert rows[..|rows|] == rows;
    forall id
      ensures id in s <==> exists i :: 0 <= i < |rows| && Points(rows[i], id)
      ensures forall i ::
        0 <= i < |rows| && Points(rows[i], id) && (forall j :: i < j < |rows| ==> !Points(rows[j], id)) ==>
          id in s && s[id] == rows[i].supersedesId
    {
      LastRowDecides(rows, id);
    }
  }

  method CreditFrom(uri: string, retrieved: seq<Memory>, stored: seq<Memory>, pointers: Pointers)
    returns (through: Option<string>)
    requires pointers == PointersOf(stored + retrieved)
    ensures through.Some? <==> exists m :: m in retrieved && Credits(m, uri, retrieved, stored)
    ensures through.Some? ==>
      exists i :: 0 <= i < |retrieved| && FirstCredit(i, uri, retrieved, stored) && retrieved[i].id == through.value
  {
    for i := 0 to |retrieved|
      invariant forall j :: 0 <= j < i ==> !Credits(retrieved[j], uri, retrieved, stored)
    {
      if retrieved[i].id != "" {
        var reaches := ChainReaches(retrieved[i].id, Targets(uri, stored), pointers);
        if reaches {
          assert FirstCredit(i, uri, retrieved, stored);
          return Some(retrieved[i].id);
        }
      }
    }
    through := None;
  }

  method ScoreGold(uri: string, retrieved: seq<Memory>, stored: seq<Memory>, legacy: bool, pointers: Pointers)
    returns (o: Outcome)
    requires pointers == PointersOf(stored + retrieved)
    ensures IsOutcome(o, uri, retrieved, stored, legacy)
  {
    if uri != "" && exists m :: m in retrieved && m.uri == uri {
      return Retrieved;
    }
    if legacy || stored == [] {
      return Missing;
    }
    var rows := set m | m in stored && m.uri != "" && m.uri == uri;
    assert uri != "" ==> forall m :: m in stored && m.uri == uri ==> m in rows;
    if rows == {} || exists m :: m in rows && m.status !in SUPERSEDED {
      return Missing;
    }
    var some :| some in rows;
    var through := CreditFrom(uri, retrieved, stored, pointers);
    o := if through.Some? then Credited(through.value) else Lost;
  }

  /** The distinct uris, each at its first occurrence. */
  function Firsts(uris: seq<string>): seq<string> {
    if uris == [] then []
    else
      var rest, u := Firsts(uris[..|uris| - 1]), uris[|uris| - 1];
      if u in rest then rest else rest + [u]
  }

  lemma {:induction false} FirstsAreExact(uris: seq<string>)
    ensures Firsts(uris) == [] <==> uris == []
    ensures forall u :: u in Firsts(uris) <==> u in uris
    ensures Distinct(Firsts(uris))
  {
    if uris != [] {
      FirstsAreExact(uris[..|uris| - 1]);
      assert uris == uris[..|uris| - 1] + [uris[|uris| - 1]];
    }
  }

  /** The golds of a first part come first. */
  lemma {:induction false} FirstsOfPrefix(uris: seq<string>, k: nat)
    requires k <= |uris|
    ensures Firsts(uris[..k]) <= Firsts(uris)
  {
    if k < |uris| {
      FirstsOfPrefix(uris[..|uris| - 1], k);
      assert uris[..|uris| - 1][..k] == uris[..k];
    } else {
      assert uris[..k] == uris;
    }
  }

  method DistinctUris(uris: seq<string>) returns (golds: seq<string>)
    ensures golds == Firsts(uris)
  {
    golds := [];
    for i := 0 to |uris|
      invariant golds == Firsts(uris[..i])
    {
      assert uris[..i + 1][..i] == uris[..i];
      if uris[i] !in golds {
        golds := golds + [uris[i]];
      }
    }
    assert uris[..|uris|] == uris;
  }

  /** Every gold has its outcome. */
  ghost predicate Scored(outcomes: seq<Outcome>, golds: seq<string>, retrieved: seq<Memory>, stored: seq<Memory>,
                         legacy: bool)
  {
    && |outcomes| == |golds|
    && forall i :: 0 <= i < |golds| ==> IsOutcome(outcomes[i], golds[i], retrieved, stored, legacy)
  }

  function Count(p: Outcome -> bool, outcomes: seq<Outcome>): (n: nat)
    ensures n <= |outcomes|
  {
    if outcomes == [] then 0
    else Count(p, outcomes[..|outcomes| - 1]) + if p(outcomes[|outcomes| - 1]) then 1 else 0
  }

  function Recall(outcomes: seq<Outcome>): real
    requires outcomes != []
  {
    Count(Satisfied, outcomes) as real / |outcomes| as real
  }

  /** `recall` is absent for a question without golds. */
  datatype Score = Score(recall: Option<real>, golds: seq<string>, outcomes: seq<Outcome>, degraded: bool)

  method Outcomes(golds: seq<string>, retrieved: seq<Memory>, stored: seq<Memory>, legacy: bool)
    returns (outcomes: seq<Outcome>)
    ensures Scored(outcomes, golds, retrieved, stored, legacy)
  {
    var pointers := Pointed(stored + retrieved);
    outcomes := [];
    for i := 0 to |golds|
      invariant Scored(outcomes, golds[..i], retrieved, stored, legacy)
    {
      var o := ScoreGold(golds[i], retrieved, stored, legacy, pointers);
      outcomes := outcomes + [o];
    }
    assert golds[..|golds|] == golds;
  }

  method Tally(outcomes: seq<Outcome>) returns (n: nat)
    ensures n == Count(Satisfied, outcomes)
  {
    n := 0;
    for i := 0 to |outcomes|
      invariant n == Count(Satisfied, outcomes[..i])
    {
      assert outcomes[..i + 1][..i] == outcomes[..i];
      if Satisfied(outcomes[i]) {
        n := n + 1;
      }
    }
    assert outcomes[..|outcomes|] == outcomes;
  }

  method ScoreQuestion(uris: seq<string>, retrieved: seq<Memory>, stored: seq<Memory>, legacy: bool)
    returns (score: Score)
    ensures score.golds == Firsts(uris)
    ensures Scored(score.outcomes, score.golds, retrieved, stored, legacy)
    ensures score.recall == if uris == [] then None else Some(Recall(score.outcomes))
    ensures score.degraded <==> uris != [] && !legacy && stored == []
  {
    var golds := DistinctUris(uris);
    if golds == [] {
      FirstsAreExact(uris);
      return Score(None, [], [], false);
    }
    var outcomes := Outcomes(golds, retrieved, stored, legacy);
    var satisfied := Tally(outcomes);
    score := Score(Some(satisfied as real / |golds| as real), golds, outcomes, !legacy && stored == []);
  }

  /* ---- what a credit means, row by row ---- */

  /** No two rows of one memory disagree about what it supersedes. */
  ghost predicate OnePointer(rows: seq<Memory>) {
    forall m, k, id :: m in rows && k in rows && Points(m, id) && Points(k, id) ==> m.supersedesId == k.supersedesId
  }

  /** Rows that each supersede the next, the last of them one of the targets. */
  ghost predicate IsChain(chain: seq<Memory>, rows: seq<Memory>, targets: set<string>) {
    && chain != []
    && (forall i :: 0 <= i < |chain| ==> chain[i] in rows && Points(chain[i], chain[i].id))
    && (forall i :: 0 <= i < |chain| - 1 ==> chain[i].supersedesId == chain[i + 1].id)
    && chain[|chain| - 1].supersedesId in targets
  }

  lemma {:induction false} RowIsPointer(rows: seq<Memory>, m: Memory, id: string)
    requires OnePointer(rows) && m in rows && Points(m, id)
    ensures id in PointersOf(rows) && PointersOf(rows)[id] == m.supersedesId
  {
    var n := |rows| - 1;
    if !Points(rows[n], id) {
      assert rows == rows[..n] + [rows[n]];
      RowIsPointer(rows[..n], m, id);
    }
  }

  lemma {:induction false} PointerIsRow(rows: seq<Memory>, id: string) returns (m: Memory)
    requires id in PointersOf(rows)
    ensures m in rows && Points(m, id) && PointersOf(rows)[id] == m.supersedesId
  {
    var n := |rows| - 1;
    m := rows[n];
    if !Points(m, id) {
      m := PointerIsRow(rows[..n], id);
    }
  }

  lemma {:induction false} AlongChain(rows: seq<Memory>, chain: seq<Memory>, targets: set<string>, k: nat)
    requires OnePointer(rows) && IsChain(chain, rows, targets) && 1 <= k <= |chain|
    ensures After(PointersOf(rows), chain[0].id, k) == Some(chain[k - 1].supersedesId)
  {
    RowIsPointer(rows, chain[k - 1], chain[k - 1].id);
    if k > 1 {
      AlongChain(rows, chain, targets, k - 1);
    }
  }

  lemma {:induction false} ChainOf(rows: seq<Memory>, start: string, n: nat) returns (chain: seq<Memory>)
    requires n >= 1 && After(PointersOf(rows), start, n).Some?
    ensures |chain| == n && chain[0].id == start
    ensures IsChain(chain, rows, {After(PointersOf(rows), start, n).value})
  {
    var here := After(PointersOf(rows), start, n - 1).value;
    var m := PointerIsRow(rows, here);
    if n == 1 {
      chain := [m];
    } else {
      var before := ChainOf(rows, start, n - 1);
      assert before[n - 2].supersedesId == here;
      chain := before + [m];
    }
  }

  /** Rows lead from the memory to a stored copy of the gold. */
  ghost predicate Leads(chain: seq<Memory>, m: Memory, uri: string, retrieved: seq<Memory>, stored: seq<Memory>,
                        copy: Memory)
  {
    && copy in stored && copy.uri == uri
    && IsChain(chain, stored + retrieved, {copy.id}) && chain[0].id == m.id
  }

  /** When the rows agree, a memory credits a gold if and only if a chain of rows leads from it to a stored copy. */
  lemma {:induction false} CreditsIff(m: Memory, uri: string, retrieved: seq<Memory>, stored: seq<Memory>)
    requires OnePointer(stored + retrieved)
    ensures Credits(m, uri, retrieved, stored) <==> exists chain, copy :: Leads(chain, m, uri, retrieved, stored, copy)
  {
    var rows, targets := stored + retrieved, Targets(uri, stored);
    if chain: seq<Memory>, copy :| Leads(chain, m, uri, retrieved, stored, copy) {
      AlongChain(rows, chain, {copy.id}, |chain|);
      assert copy.id == chain[|chain| - 1].supersedesId && copy.id in targets;
      assert Hits(PointersOf(rows), m.id, |chain|, targets);
    }
    if Credits(m, uri, retrieved, stored) {
      var n :| n >= 1 && Hits(PointersOf(rows), m.id, n, targets);
      var copy :| copy in stored && copy.uri == uri && copy.id == After(PointersOf(rows), m.id, n).value;
      var chain := ChainOf(rows, m.id, n);
      assert Leads(chain, m, uri, retrieved, stored, copy);
    }
  }

  /**
    A gold that was not retrieved, all of whose stored copies are outdated or conflicted, is credited if and
    only if rows lead from a retrieved memory to one of those copies, and lost otherwise.
  */
  lemma {:induction false} CreditedIff(o: Outcome, uri: string, retrieved: seq<Memory>, stored: seq<Memory>)
    requires IsOutcome(o, uri, retrieved, stored, false) && OnePointer(stored + retrieved)
    requires uri != "" && (forall m :: m in retrieved ==> m.uri != uri) && exists m :: m in stored && m.uri == uri
    requires forall m :: m in stored && m.uri == uri ==> m.status == "outdated" || m.status == "conflicted"
    ensures o.Credited? <==>
      exists m, chain, copy :: m in retrieved && Leads(chain, m, uri, retrieved, stored, copy)
    ensures !o.Credited? ==> o == Lost
  {
    forall m | m in retrieved
      ensures Credits(m, uri, retrieved, stored) <==>
        exists chain, copy :: Leads(chain, m, uri, retrieved, stored, copy)
    {
      CreditsIff(m, uri, retrieved, stored);
    }
  }

  /** So a retrieved memory that supersedes a stored copy credits the gold. */
  lemma DirectCredit(o: Outcome, uri: string, retrieved: seq<Memory>, stored: seq<Memory>, m: Memory, copy: Memory)
    requires IsOutcome(o, uri, retrieved, stored, false) && OnePointer(stored + retrieved)
    requires uri != "" && forall k :: k in retrieved ==> k.uri != uri
    requires forall k :: k in stored && k.uri == uri ==> k.status == "outdated" || k.status == "conflicted"
    requires m in retrieved && copy in stored && copy.uri == uri && copy.id != ""
    requires m.id != "" && m.supersedesId == copy.id
    ensures o.Credited?
  {
    CreditedIff(o, uri, retrieved, stored);
    assert m in stored + retrieved;
    assert Leads([m], m, uri, retrieved, stored, copy);
  }

  /** An active copy that was not retrieved is a plain miss, whatever supersedes the others. */
  lemma ActiveCopyIsMissing(o: Outcome, uri: string, retrieved: seq<Memory>, stored: seq<Memory>, copy: Memory)
    requires IsOutcome(o, uri, retrieved, stored, false) && forall m :: m in retrieved ==> m.uri != uri
    requires copy in stored && copy.uri == uri && copy.status != "outdated" && copy.status != "conflicted"
    ensures o == Missing
  {
  }

  /** Recall is 1 when every gold was retrieved or credited, and 0 when every gold is missing or lost. */
  lemma {:induction false} RecallExtremes(outcomes: seq<Outcome>)
    requires outcomes != []
    ensures Recall(outcomes) == 1.0 <==> forall o :: o in outcomes ==> o.Retrieved? || o.Credited?
    ensures Recall(outcomes) == 0.0 <==> forall o :: o in outcomes ==> o.Missing? || o.Lost?
  {
    CountExtremes(outcomes);
    var n, z := Count(Satisfied, outcomes), |outcomes| as real;
    assert n as real / z == 1.0 <==> n as real == z;
    assert n as real / z == 0.0 <==> n as real == 0.0;
  }

  lemma {:induction false} CountExtremes(outcomes: seq<Outcome>)
    ensures Count(Satisfied, outcomes) == |outcomes| <==> forall o :: o in outcomes ==> o.Retrieved? || o.Credited?
    ensures Count(Satisfied, outcomes) == 0 <==> forall o :: o in outcomes ==> o.Missing? || o.Lost?
  {
    if outcomes != [] {
      var rest, last := outcomes[..|outcomes| - 1], outcomes[|outcomes| - 1];
      CountExtremes(rest);
      LastOrRest(outcomes, rest, last);
      assert last in outcomes;
      assert Count(Satisfied, outcomes) == Count(Satisfied, rest) + if last.Retrieved? || last.Credited? then 1 else 0;
    }
  }

  lemma LastOrRest(outcomes: seq<Outcome>, rest: seq<Outcome>, last: Outcome)
    requires outcomes != [] && rest == outcomes[..|outcomes| - 1] && last == outcomes[|outcomes| - 1]
    ensures forall o :: o in outcomes <==> o in rest || o == last
  {
    assert outcomes == rest + [last];
  }

  /* ---- what the two modes say of one question ---- */

  lemma OutcomeIsUnique(o: Outcome, p: Outcome, uri: string, retrieved: seq<Memory>, stored: seq<Memory>, legacy: bool)
    requires IsOutcome(o, uri, retrieved, stored, legacy) && IsOutcome(p, uri, retrieved, stored, legacy)
    ensures o == p
  {
    if o.Credited? {
      var i :| 0 <= i < |retrieved| && FirstCredit(i, uri, retrieved, stored) && retrieved[i].id == o.through;
      var j :| 0 <= j < |retrieved| && FirstCredit(j, uri, retrieved, stored) && retrieved[j].id == p.through;
      assert i == j;
    }
  }

  lemma {:induction false} GapIsCredit(golds: seq<string>, retrieved: seq<Memory>, stored: seq<Memory>,
                                       lenient: seq<Outcome>, strict: seq<Outcome>)
    requires Scored(strict, golds, retrieved, stored, true)
    requires Scored(lenient, golds, retrieved, stored, false)
    ensures Count(Satisfied, lenient) == Count(Satisfied, strict) + Count(ByCredit, lenient)
  {
    var n := |golds|;
    if n > 0 {
      GapIsCredit(golds[..n - 1], retrieved, stored, lenient[..n - 1], strict[..n - 1]);
      var o, p := lenient[n - 1], strict[n - 1];
      assert IsOutcome(o, golds[n - 1], retrieved, stored, false);
      assert IsOutcome(p, golds[n - 1], retrieved, stored, true);
    }
  }

  /** Legacy recall never exceeds supersession-aware recall, by exactly the credited golds. */
  lemma RecallIsBracketed(golds: seq<string>, retrieved: seq<Memory>, stored: seq<Memory>, lenient: seq<Outcome>,
                          strict: seq<Outcome>)
    requires golds != []
    requires Scored(strict, golds, retrieved, stored, true)
    requires Scored(lenient, golds, retrieved, stored, false)
    ensures 0.0 <= Recall(strict) <= Recall(lenient) <= 1.0
    ensures Recall(lenient) - Recall(strict) == Count(ByCredit, lenient) as real / |golds| as real
  {
    GapIsCredit(golds, retrieved, stored, lenient, strict);
    Shares(Count(Satisfied, strict), Count(ByCredit, lenient), |golds|);
  }

  lemma Shares(a: nat, b: nat, n: nat)
    requires a + b <= n && n > 0
    ensures 0.0 <= a as real / n as real <= (a + b) as real / n as real <= 1.0
    ensures (a + b) as real / n as real - a as real / n as real == b as real / n as real
  {
    var x, y, z := a as real, b as real, n as real;
    AddShares(x, y, z);
    AddShares(x + y, z - x - y, z);
    assert (x + y) + (z - x - y) == z;
    Scale(x, z);
    Scale(y, z);
    Scale(z - x - y, z);
  }

  lemma AddShares(x: real, y: real, z: real)
    requires z > 0.0
    ensures (x + y) / z == x / z + y / z
  {
    var p, q := x / z, y / z;
    assert p * z + q * z == (p + q) * z;
  }

  lemma Scale(x: real, z: real)
    requires x >= 0.0 && z > 0.0
    ensures x / z >= 0.0
  {
    var q := x / z;
    assert q * z == x;
  }
}
