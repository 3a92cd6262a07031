/**
  Splitting a change into added, annotated, removed and moved lines: for the two
  endpoints, and for a history replayed step by step through two pools.
*/
module ChangeHistory {
  import opened Common
  import opened Counters
  import opened MintLedger
  import opened TreeScan

  /** One line of one file; a `dict[tuple[str, str], int]` of lines is a multiset of keys. */
  type Key = (Path, Text)

  /* ---- an edit that only inserts ---- */

  function FirstMismatch(before: string, after: string, i: nat): (m: nat)
    requires i <= |before| && i <= |after|
    ensures i <= m <= |before| && m <= |after|
    ensures before[i..m] == after[i..m]
    ensures m < |before| && m < |after| ==> before[m] != after[m]
    ensures m < |before| ==> m < |after| || |after| < |before|
    decreases |before| - i
  {
    if i < |before| && i < |after| && before[i] == after[i] then FirstMismatch(before, after, i + 1) else i
  }

  predicate OnlyInserts(before: string, after: string) {
    var inserted := |after| - |before|;
    inserted > 0 &&
    var m := FirstMismatch(before, after, 0);
    after[m + inserted..] == before[m..]
  }

  /** Looking at the first mismatch alone finds every contiguous insertion. */
  lemma {:induction false} OnlyInsertsIff(before: string, after: string)
    ensures OnlyInserts(before, after)
       <==> exists i: nat, ins: string :: i <= |before| && ins != [] && after == before[..i] + ins + before[i..]
  {
    if OnlyInserts(before, after) {
      var m, n := FirstMismatch(before, after, 0), |after| - |before|;
      assert before[0..m] == before[..m] && after[0..m] == after[..m];
      assert after == before[..m] + after[m..m + n] + before[m..];
    }
    if i: nat, ins: string :| i <= |before| && ins != [] && after == before[..i] + ins + before[i..] {
      var m, n := FirstMismatch(before, after, 0), |after| - |before|;
      assert |ins| == n;
      assert i <= m;
      assert after[i + n..] == before[i..];
      assert after[m + n..] == after[i + n..][m - i..];
      assert before[m..] == before[i..][m - i..];
    }
  }

  /* ---- counting keys by text ---- */

  function TextOf(k: Key): Text { k.1 }

  /** How many lines of a multiset have the text `t`, in whatever file. */
  ghost function Tally(m: multiset<Key>, t: Text): nat {
    TallyBy(m, TextOf, t)
  }

  /* ---- the pools ---- */

  /** Everything `MatchMoves` may pair with the gained line `g`: the same text in another file. */
  predicate Movable(l: Key, g: Key) {
    l.1 == g.1 && l.0 != g.0
  }

  predicate KeyLess(k: Key, l: Key) {
    Less(k.0, l.0) || (k.0 == l.0 && Less(k.1, l.1))
  }

  /** The marked line claims lines of its own file first, then those needing the shortest insertion, then by key. */
  predicate Before(k: Key, l: Key, marked: Key) {
    if (k.0 == marked.0) != (l.0 == marked.0) then k.0 == marked.0
    else if |k.1| != |l.1| then |k.1| > |l.1|
    else KeyLess(k, l)
  }

  function Ranking(marked: Key): (Key, Key) -> bool {
    (k: Key, l: Key) => Before(k, l, marked)
  }

  lemma KeysAreOrdered()
    ensures Orders(KeyLess)
  {
    LessOrders();
    forall k, l, m | KeyLess(k, l) && KeyLess(l, m)
      ensures KeyLess(k, m)
    {
    }
  }

  lemma RankingOrders(marked: Key)
    ensures Orders(Ranking(marked))
  {
    KeysAreOrdered();
  }

  /** How much longer the marked line is. */
  function Inserted(k: Key, marked: Key): int { |marked.1| - |k.1| }

  /** First comes the marked line's own file, then the shorter insertion, then what precedes by path and text. */
  lemma BeforeIff(k: Key, l: Key, marked: Key)
    ensures Before(k, l, marked) <==>
      || (k.0 == marked.0 && l.0 != marked.0)
      || ((k.0 == marked.0 <==> l.0 == marked.0) && Inserted(k, marked) < Inserted(l, marked))
      || (&& (k.0 == marked.0 <==> l.0 == marked.0) && Inserted(k, marked) == Inserted(l, marked)
          && (Less(k.0, l.0) || (k.0 == l.0 && Less(k.1, l.1))))
  {
  }

  method Ranked(s: set<Key>, marked: Key) returns (order: seq<Key>)
    ensures Distinct(order) && forall k :: k in order <==> k in s
    ensures forall i, j :: 0 <= i < j < |order| ==> Before(order[i], order[j], marked)
  {
    RankingOrders(marked);
    order := Sorted(s, Ranking(marked));
  }

  class LinePools {
    var lost: multiset<Key>
    var gained: multiset<Key>

    constructor (lost: multiset<Key>, gained: multiset<Key>)
      ensures this.lost == lost && this.gained == gained
    {
      this.lost, this.gained := lost, gained;
    }

    /** Lines that left and returned to the same file cancel, key by key. */
    method MatchReadditions() returns (readded: nat)
      modifies this
      ensures lost == old(lost) - old(gained) && gained == old(gained) - old(lost)
      ensures readded == |old(lost)| - |lost| == |old(gained)| - |gained|
    {
      readded := 0;
      ghost var l0, g0 := lost, gained;
      var todo := set k | k in gained;
      while todo != {}
        invariant forall k :: k in todo ==> lost[k] == l0[k] && gained[k] == g0[k]
        invariant forall k :: k !in todo ==> lost[k] == (l0 - g0)[k] && gained[k] == (g0 - l0)[k]
        invariant readded == |l0| - |lost| == |g0| - |gained|
      {
        var k :| k in todo;
        todo := todo - {k};
        var matched := Min(gained[k], lost[k]);
        readded := readded + matched;
        Resized(lost, k, lost[k] - matched);
        Resized(gained, k, gained[k] - matched);
        lost := lost[k := lost[k] - matched];
        gained := gained[k := gained[k] - matched];
      }
    }

    /** Pair one gained line with losses of the same text in other files. */
    method PullInto(g: Key) returns (matched: nat)
      modifies this
      ensures lost <= old(lost) && matched <= old(gained)[g]
      ensures gained == old(gained)[g := old(gained)[g] - matched]
      ensures |lost| + matched == |old(lost)| && |gained| + matched == |old(gained)|
      ensures forall l :: lost[l] != old(lost)[l] ==> Movable(l, g)
      ensures forall t :: Tally(old(lost), t) - Tally(lost, t) == Tally(old(gained), t) - Tally(gained, t)
      ensures gained[g] == 0 || forall l :: l in lost ==> !Movable(l, g)
    {
      var order := Enumerate(set l | l in lost && Movable(l, g));
      var left, n := Drain(lost, order, gained[g]);
      Resized(gained, g, gained[g] - n);
      forall t
        ensures Tally(lost, t) - Tally(left, t) == Tally(gained, t) - Tally(gained[g := gained[g] - n], t)
      {
        TallyTaken(lost, left, TextOf, g.1, t);
        TallySet(gained, TextOf, g, gained[g] - n, t);
      }
      lost, gained, matched := left, gained[g := gained[g] - n], n;
    }

    /** Pair gained lines with lost lines of the same text in another file, until no such pair is left. */
    method MatchMoves() returns (moved: nat)
      modifies this
      ensures lost <= old(lost) && gained <= old(gained)
      ensures |lost| + moved == |old(lost)| && |gained| + moved == |old(gained)|
      ensures forall t :: Tally(old(lost), t) - Tally(lost, t) == Tally(old(gained), t) - Tally(gained, t)
      ensures forall g, l :: g in gained && l in lost ==> !Movable(l, g)
    {
      moved := 0;
      ghost var l0, g0 := lost, gained;
      var todo := set g | g in gained;
      while todo != {}
        invariant lost <= l0 && gained <= g0
        invariant |lost| + moved == |l0| && |gained| + moved == |g0|
        invariant forall t :: Tally(l0, t) - Tally(lost, t) == Tally(g0, t) - Tally(gained, t)
        invariant forall g, l :: g in gained && g !in todo && l in lost ==> !Movable(l, g)
      {
        var g :| g in todo;
        todo := todo - {g};
        ghost var l1, g1 := lost, gained;
        var n := PullInto(g);
        moved := moved + n;
        forall h, l | h in gained && h !in todo && l in lost
          ensures !Movable(l, h)
        {
          assert l in l1 && (h == g || h in g1);
        }
      }
    }

    /** Losses that gained a marker: only insertions into the lost text are claimed, the nearest first. */
    method AnnotateFrom(marked: Key, available: nat) returns (matched: nat)
      modifies this`lost
      ensures lost <= old(lost) && matched <= available && |lost| + matched == |old(lost)|
      ensures Takes(marked, old(lost) - lost, lost, available)
    {
      ghost var l0 := lost;
      var order := Ranked((set k | k in lost && OnlyInserts(k.1, marked.1)), marked);
      lost, matched := Drain(lost, order, available);
      DrainedByRank(order, marked, l0, lost, available, matched);
    }

    /** Consume the losses of one transition that reappear with a marker; `pairing` says which marker took which. */
    method MatchAnnotations(exempt: multiset<Key>) returns (annotated: nat, ghost pairing: Pairing)
      modifies this`lost
      ensures lost <= old(lost) && |lost| + annotated == |old(lost)|
      ensures Pairs(pairing, old(lost), lost, exempt, {})
    {
      annotated, pairing := 0, map[];
      ghost var l0 := lost;
      var todo := set m | m in exempt;
      NothingPaired(lost, exempt, todo);
      while todo != {}
        invariant lost <= l0 && |lost| + annotated == |l0|
        invariant Pairs(pairing, l0, lost, exempt, todo)
      {
        var m :| m in todo;
        ghost var before := lost;
        var n := AnnotateFrom(m, exempt[m]);
        annotated := annotated + n;
        assert before == (before - lost) + lost;
        PairMore(pairing, l0, before, lost, before - lost, exempt, todo, m);
        pairing, todo := pairing[m := before - lost], todo - {m};
      }
    }
  }

  /* ---- which loss was annotated by which marked line ---- */

  type Pairing = map<Key, multiset<Key>>

  /** A marked line takes losses it could have been inserted into, at most one for each of its occurrences. */
  ghost predicate Takes(m: Key, taken: multiset<Key>, kept: multiset<Key>, available: nat) {
    && |taken| <= available
    && (forall k :: k in taken ==> OnlyInserts(k.1, m.1))
    && (forall l :: l in kept && OnlyInserts(l.1, m.1) ==>
        |taken| == available && forall k :: k in taken && k != l ==> Before(k, l, m))
  }

  /** The losses are those taken, each by one marked line, and those kept; the lines of `todo` are still to come. */
  ghost predicate Pairs(pairing: Pairing, left: multiset<Key>, kept: multiset<Key>, exempt: multiset<Key>,
                        todo: set<Key>)
  {
    && Total(pairing) + kept == left
    && (forall m :: m in todo ==> m in exempt && m !in pairing)
    && (forall m :: m !in todo ==> TakesFrom(kept, exempt)(m, At(pairing, m)))
  }

  ghost function TakesFrom(kept: multiset<Key>, exempt: multiset<Key>): (Key, multiset<Key>) -> bool {
    (m: Key, taken: multiset<Key>) => Takes(m, taken, kept, exempt[m])
  }

  /** Draining the candidates by rank takes what a marked line takes. */
  lemma DrainedByRank(order: seq<Key>, marked: Key, before: multiset<Key>, after: multiset<Key>, available: nat,
                      matched: nat)
    requires Distinct(order) && forall k :: k in order <==> k in before && OnlyInserts(k.1, marked.1)
    requires forall i, j :: 0 <= i < j < |order| ==> Before(order[i], order[j], marked)
    requires after <= before && |after| + matched == |before| && matched <= available
    requires forall x :: x !in order ==> after[x] == before[x]
    requires matched == available || forall x :: x in order ==> after[x] == 0
    requires forall i, j :: 0 <= i < j < |order| && after[order[j]] < before[order[j]] ==> after[order[i]] == 0
    ensures Takes(marked, before - after, after, available)
  {
    assert before == after + (before - after);
    forall l, k | l in after && OnlyInserts(l.1, marked.1) && k in before - after && k != l
      ensures Before(k, l, marked)
    {
      assert l in before && k in order;
      EarlierByRank(order, marked, before, after, k, l);
    }
  }

  lemma EarlierByRank(order: seq<Key>, marked: Key, before: multiset<Key>, after: multiset<Key>, k: Key, l: Key)
    requires k in order && l in order && k != l && after[k] < before[k] && after[l] > 0
    requires forall i, j :: 0 <= i < j < |order| ==> Before(order[i], order[j], marked)
    requires forall i, j :: 0 <= i < j < |order| && after[order[j]] < before[order[j]] ==> after[order[i]] == 0
    ensures Before(k, l, marked)
  {
    var i :| 0 <= i < |order| && order[i] == k;
    var j :| 0 <= j < |order| && order[j] == l;
    assert i < j;
  }

  lemma NothingPaired(left: multiset<Key>, exempt: multiset<Key>, todo: set<Key>)
    requires forall m :: m in todo <==> m in exempt
    ensures Pairs(map[], left, left, exempt, todo)
  {
  }

  lemma PairMore(pairing: Pairing, left: multiset<Key>, before: multiset<Key>, after: multiset<Key>,
                 taken: multiset<Key>,
                 exempt: multiset<Key>, todo: set<Key>, m: Key)
    requires Pairs(pairing, left, before, exempt, todo) && m in todo
    requires before == taken + after && TakesFrom(after, exempt)(m, taken)
    ensures Pairs(pairing[m := taken], left, after, exempt, todo - {m})
  {
    PairTotal(pairing, left, before, after, taken, m);
    forall q | q !in todo - {m}
      ensures TakesFrom(after, exempt)(q, At(pairing[m := taken], q))
    {
      TakesMore(pairing, before, after, taken, exempt, m, q);
    }
  }

  lemma TakesMore(pairing: Pairing, before: multiset<Key>, after: multiset<Key>, taken: multiset<Key>,
                  exempt: multiset<Key>, m: Key, q: Key)
    requires before == taken + after && TakesFrom(after, exempt)(m, taken)
    requires q != m ==> TakesFrom(before, exempt)(q, At(pairing, q))
    ensures TakesFrom(after, exempt)(q, At(pairing[m := taken], q))
  {
    if q != m {
      TakesStill(q, At(pairing, q), before, after, exempt[q]);
    }
  }

  lemma PairTotal(pairing: Pairing, left: multiset<Key>, before: multiset<Key>, after: multiset<Key>,
                  taken: multiset<Key>, m: Key)
    requires Total(pairing) + before == left && before == taken + after && m !in pairing
    ensures Total(pairing[m := taken]) + after == left
  {
    TotalInsert(pairing, m, taken);
    Rejoin(Total(pairing), taken, after);
  }

  lemma Rejoin<T>(a: multiset<T>, b: multiset<T>, c: multiset<T>)
    ensures (a + b) + c == a + (b + c)
  {
  }

  lemma TakesStill(m: Key, taken: multiset<Key>, before: multiset<Key>, after: multiset<Key>, available: nat)
    requires Takes(m, taken, before, available) && after <= before
    ensures Takes(m, taken, after, available)
  {
    forall l | l in after
      ensures l in before
    {
    }
  }

  /* ---- one transition ---- */

  ghost function Tag(p: Path, m: multiset<Text>): (r: multiset<Key>)
    ensures forall k :: r[k] == if k.0 == p then m[k.1] else 0
    ensures |r| == |m|
    decreases |m|
  {
    if m == multiset{} then multiset{}
    else
      var t := PickElement(m);
      assert m == m[t := 0] + multiset{}[t := m[t]];
      var rest := Tag(p, m[t := 0]);
      Resized(rest, (p, t), m[t]);
      rest[(p, t) := m[t]]
  }

  /** All lines of a per-file tally, each with its file. */
  ghost function Lines(m: PerFile): (r: multiset<Key>)
    ensures forall k :: r[k] == At(m, k.0)[k.1]
    ensures |r| == |Total(m)|
    decreases |m|
  {
    if m == map[] then multiset{}
    else var p := PickKey(m); Tag(p, m[p]) + Lines(m - {p})
  }

  method TagInto(d: multiset<Key>, p: Path, m: multiset<Text>) returns (r: multiset<Key>)
    ensures forall k :: r[k] == if k.0 == p && k.1 in m then m[k.1] else d[k]
  {
    r := d;
    var todo := set t | t in m;
    while todo != {}
      invariant forall t :: t in todo ==> t in m
      invariant forall k :: r[k] == if k.0 == p && k.1 in m && k.1 !in todo then m[k.1] else d[k]
    {
      var t :| t in todo;
      todo := todo - {t};
      r := r[(p, t) := m[t]];
    }
  }

  /** The lines `a` has beyond `b`, file by file. */
  method Delta(a: PerFile, b: PerFile) returns (d: multiset<Key>)
    ensures d == Lines(a) - Lines(b)
  {
    d := multiset{};
    var todo := a.Keys;
    while todo != {}
      invariant todo <= a.Keys
      invariant forall k :: d[k] == if k.0 in todo then 0 else (At(a, k.0) - At(b, k.0))[k.1]
    {
      var p :| p in todo;
      todo := todo - {p};
      d := TagInto(d, p, a[p] - At(b, p));
    }
    DeltaOfLines(d, a, b);
  }

  lemma DeltaOfLines(d: multiset<Key>, a: PerFile, b: PerFile)
    requires forall k :: d[k] == (At(a, k.0) - At(b, k.0))[k.1]
    ensures d == Lines(a) - Lines(b)
  {
    forall k
      ensures d[k] == (Lines(a) - Lines(b))[k]
    {
      assert d[k] == (At(a, k.0) - At(b, k.0))[k.1];
    }
  }

  /** The counted lines a scan holds, each with its file. */
  ghost function Held(s: Scan): multiset<Key> {
    Lines(s.byFile)
  }

  /** Lines that left or entered the counted population, and lines that entered the exempt one. */
  method TransitionDelta(base: Scan, head: Scan)
    returns (lost: multiset<Key>, gained: multiset<Key>, gainedExempt: multiset<Key>)
    ensures lost == Held(base) - Held(head) && gained == Held(head) - Held(base)
    ensures gainedExempt == Lines(head.exemptByFile) - Lines(base.exemptByFile)
  {
    lost := Delta(base.byFile, head.byFile);
    gained := Delta(head.byFile, base.byFile);
    gainedExempt := Delta(head.exemptByFile, base.exemptByFile);
  }

  datatype Summary = Summary(added: int, annotated: int, removed: int, moved: int, net: int)

  lemma {:induction false} TallyDifference(a: multiset<Key>, b: multiset<Key>, t: Text)
    ensures Tally(a - b, t) - Tally(b - a, t) == Tally(a, t) - Tally(b, t)
    ensures |a - b| - |b - a| == |a| - |b|
  {
    assert b + (a - b) == a + (b - a);
    TallyAdd(b, a - b, TextOf, t);
    TallyAdd(a, b - a, TextOf, t);
  }

  /** No line waits in both pools under the same text. */
  ghost predicate OneSided(lost: multiset<Key>, gained: multiset<Key>) {
    forall t :: Tally(lost, t) == 0 || Tally(gained, t) == 0
  }

  lemma {:induction false} UnpairedIsOneSided(lost: multiset<Key>, gained: multiset<Key>)
    requires lost !! gained
    requires forall g, l :: g in gained && l in lost ==> !Movable(l, g)
    ensures OneSided(lost, gained)
  {
    forall t
      ensures Tally(lost, t) == 0 || Tally(gained, t) == 0
    {
      if Tally(lost, t) > 0 && Tally(gained, t) > 0 {
        TallyPositive(lost, TextOf, t);
        TallyPositive(gained, TextOf, t);
        var l :| l in lost && TextOf(l) == t;
        var g :| g in gained && TextOf(g) == t;
        assert false;
      }
    }
  }

  /** Sub-multisets of disjoint multisets are disjoint. */
  lemma StillDisjoint(a: multiset<Key>, b: multiset<Key>, a': multiset<Key>, b': multiset<Key>)
    requires a !! b && a' <= a && b' <= b
    ensures a' !! b'
  {
  }

  /* ---- what one step of a replay does ---- */

  datatype Pools = Pools(lost: multiset<Key>, gained: multiset<Key>)

  const EMPTY: Pools := Pools(multiset{}, multiset{})

  /** Gains and losses pair off, in every text as many as there are on both sides. */
  ghost predicate Moves(before: Pools, after: Pools) {
    && after.lost <= before.lost && after.gained <= before.gained
    && |before.lost| - |after.lost| == |before.gained| - |after.gained|
    && forall t ::
      Tally(before.lost, t) - Tally(after.lost, t) == Tally(before.gained, t) - Tally(after.gained, t)
      == Min(Tally(before.lost, t), Tally(before.gained, t))
  }

  lemma {:induction false} PairedOff(before: Pools, after: Pools)
    requires before.lost !! before.gained && after.lost <= before.lost && after.gained <= before.gained
    requires |before.lost| - |after.lost| == |before.gained| - |after.gained|
    requires forall t ::
      Tally(before.lost, t) - Tally(after.lost, t) == Tally(before.gained, t) - Tally(after.gained, t)
    requires forall g, l :: g in after.gained && l in after.lost ==> !Movable(l, g)
    ensures Moves(before, after)
  {
    StillDisjoint(before.lost, before.gained, after.lost, after.gained);
    UnpairedIsOneSided(after.lost, after.gained);
    forall t
      ensures Tally(before.lost, t) - Tally(after.lost, t) == Tally(before.gained, t) - Tally(after.gained, t)
           == Min(Tally(before.lost, t), Tally(before.gained, t))
    {
      TallyOfPart(before.lost, after.lost, TextOf, t);
      TallyOfPart(before.gained, after.gained, TextOf, t);
    }
  }

  /** How many lines were annotated, re-added and moved. */
  datatype Counts = Counts(annotated: int, readded: int, moved: int)

  /** One transition: what it changed, which of its losses were annotations, and the pools before and after. */
  datatype Step = Step(before: Pools, left: multiset<Key>, arrived: multiset<Key>, exempted: multiset<Key>,
                       pairing: Pairing, kept: multiset<Key>, after: Pools, counts: Counts)

  /** The pools once the transition's gains and remaining losses joined them. */
  ghost function Joined(s: Step): Pools {
    Pools(s.before.lost + s.kept, s.before.gained + s.arrived)
  }

  /** The pools once lines that left and returned to the same file cancelled. */
  ghost function Cancelled(p: Pools): Pools {
    Pools(p.lost - p.gained, p.gained - p.lost)
  }

  /** Annotations inside the step, then re-additions, then moves, and how many of each. */
  ghost predicate Performed(s: Step) {
    && Pairs(s.pairing, s.left, s.kept, s.exempted, {})
    && Moves(Cancelled(Joined(s)), s.after)
    && s.counts.annotated == |Total(s.pairing)|
    && s.counts.readded == |Joined(s).lost * Joined(s).gained|
    && s.counts.moved == |Cancelled(Joined(s)).lost| - |s.after.lost|
  }

  /** One line is counted once: every gain and every loss of a step is accounted for. */
  lemma {:induction false} StepBalances(s: Step)
    requires Performed(s)
    ensures |s.after.gained| + s.counts.readded + s.counts.moved == |s.before.gained| + |s.arrived|
    ensures |s.after.lost| + s.counts.readded + s.counts.moved + s.counts.annotated == |s.before.lost| + |s.left|
    ensures s.counts.moved >= 0 && s.counts.readded >= 0
    ensures OneSided(s.after.lost, s.after.gained)
  {
    var c := Cancelled(Joined(s));
    CancelSizes(Joined(s));
    assert |s.left| == |Total(s.pairing)| + |s.kept|;
    assert c.lost == s.after.lost + (c.lost - s.after.lost);
  }

  lemma CancelSizes(p: Pools)
    ensures |Cancelled(p).lost| + |p.lost * p.gained| == |p.lost|
    ensures |Cancelled(p).gained| + |p.lost * p.gained| == |p.gained|
  {
    assert p.lost == (p.lost - p.gained) + p.lost * p.gained;
    assert p.gained == (p.gained - p.lost) + p.lost * p.gained;
  }

  /** The pools hold, text by text, the change from `first` to `last`, corrected for the annotations. */
  ghost predicate Holds(p: Pools, first: multiset<Key>, last: multiset<Key>, annotated: multiset<Key>) {
    forall t :: Tally(p.gained, t) - Tally(p.lost, t) == Tally(last, t) - Tally(first, t) + Tally(annotated, t)
  }

  lemma {:induction false} StepTally(s: Step, t: Text)
    requires Performed(s)
    ensures Tally(s.after.gained, t) - Tally(s.after.lost, t)
         == Tally(s.before.gained, t) - Tally(s.before.lost, t) + Tally(s.arrived, t) - Tally(s.left, t)
            + Tally(Total(s.pairing), t)
  {
    TallyDifference(Joined(s).gained, Joined(s).lost, t);
    TallyAdd(s.before.gained, s.arrived, TextOf, t);
    TallyAdd(s.before.lost, s.kept, TextOf, t);
    TallyAdd(Total(s.pairing), s.kept, TextOf, t);
    var c := Cancelled(Joined(s));
    assert Tally(c.lost, t) - Tally(s.after.lost, t) == Tally(c.gained, t) - Tally(s.after.gained, t);
  }

  lemma {:induction false} HoldsStep(s: Step, first: multiset<Key>, current: multiset<Key>, following: multiset<Key>,
                                     annotated: multiset<Key>)
    requires Performed(s) && s.left == current - following && s.arrived == following - current
    requires Holds(s.before, first, current, annotated)
    ensures Holds(s.after, first, following, annotated + Total(s.pairing))
  {
    forall t
      ensures Tally(s.after.gained, t) - Tally(s.after.lost, t)
           == Tally(following, t) - Tally(first, t) + Tally(annotated + Total(s.pairing), t)
    {
      StepTally(s, t);
      TallyDifference(following, current, t);
      TallyAdd(annotated, Total(s.pairing), TextOf, t);
      assert Tally(s.before.gained, t) - Tally(s.before.lost, t)
           == Tally(current, t) - Tally(first, t) + Tally(annotated, t);
    }
  }

  /* ---- the two endpoints alone ---- */

  lemma DeltasAreDisjoint(a: multiset<Key>, b: multiset<Key>)
    ensures (b - a) !! (a - b)
    ensures |a - b| - |b - a| == |a| - |b|
  {
    TallyDifference(a, b, "");
  }

  /** The step from one scan to another, with given pools before it. */
  ghost predicate StepBetween(s: Step, base: Scan, head: Scan) {
    && Performed(s)
    && s.left == Held(base) - Held(head) && s.arrived == Held(head) - Held(base)
    && s.exempted == Lines(head.exemptByFile) - Lines(base.exemptByFile)
  }

  lemma NothingToCancel(kept: multiset<Key>, arrived: multiset<Key>)
    requires kept !! arrived
    ensures Cancelled(Pools(kept, arrived)) == Pools(kept, arrived) && kept * arrived == multiset{}
  {
  }

  /** Pair off one transition: annotations first, then moves. */
  method Classify(left: multiset<Key>, arrived: multiset<Key>, exempted: multiset<Key>)
    returns (annotated: nat, moved: nat, removed: nat, added: nat, ghost s: Step)
    requires left !! arrived
    ensures Performed(s) && s.before == EMPTY && s.left == left && s.arrived == arrived && s.exempted == exempted
    ensures s.counts == Counts(annotated, 0, moved)
    ensures removed == |s.after.lost| && added == |s.after.gained|
  {
    var pools := new LinePools(left, arrived);
    ghost var pairing;
    annotated, pairing := pools.MatchAnnotations(exempted);
    ghost var kept := pools.lost;
    moved := pools.MatchMoves();
    removed, added := |pools.lost|, |pools.gained|;
    ghost var after := Pools(pools.lost, pools.gained);
    s := Step(EMPTY, left, arrived, exempted, pairing, kept, after, Counts(annotated, 0, moved));
    ClassifiedIsPerformed(s, annotated, moved);
  }

  lemma ClassifiedIsPerformed(s: Step, annotated: nat, moved: nat)
    requires s.before == EMPTY && s.left !! s.arrived && s.kept <= s.left && s.counts == Counts(annotated, 0, moved)
    requires Pairs(s.pairing, s.left, s.kept, s.exempted, {}) && annotated + |s.kept| == |s.left|
    requires s.after.lost <= s.kept && s.after.gained <= s.arrived
    requires |s.after.lost| + moved == |s.kept| && |s.after.gained| + moved == |s.arrived|
    requires forall t :: Tally(s.kept, t) - Tally(s.after.lost, t) == Tally(s.arrived, t) - Tally(s.after.gained, t)
    requires forall g, l :: g in s.after.gained && l in s.after.lost ==> !Movable(l, g)
    ensures Performed(s)
  {
    assert Joined(s) == Pools(s.kept, s.arrived);
    StillDisjoint(s.left, s.arrived, s.kept, s.arrived);
    NothingToCancel(s.kept, s.arrived);
    PairedOff(Pools(s.kept, s.arrived), s.after);
    assert |Total(s.pairing) + s.kept| == |Total(s.pairing)| + |s.kept|;
  }

  /**
    The two endpoints alone: the annotated losses are those the markers took, every text's moves pair off
    as many gains with remaining losses as there are, and the rest was added or removed.
  */
  method TransitionSummary(base: Scan, head: Scan) returns (r: Summary, ghost s: Step)
    ensures StepBetween(s, base, head) && s.before == EMPTY && s.counts == Counts(r.annotated, 0, r.moved)
    ensures r.removed == |s.after.lost| && r.added == |s.after.gained|
    ensures r.net == r.added - r.removed - r.annotated
    ensures r.net == |Total(head.byFile)| - |Total(base.byFile)|
  {
    var left, arrived, exempted := TransitionDelta(base, head);
    DeltasAreDisjoint(Held(head), Held(base));
    var annotated, moved, removed, added;
    annotated, moved, removed, added, s := Classify(left, arrived, exempted);
    var headTotal := Tallied(head.byFile);
    var baseTotal := Tallied(base.byFile);
    r := Summary(added, annotated, removed, moved, |headTotal| - |baseTotal|);
    StepBalances(s);
  }

  /* ---- a replayed history ---- */

  /** One step of a replay through the pools. */
  method ReplayStep(pools: LinePools, left: multiset<Key>, arrived: multiset<Key>, exempted: multiset<Key>)
    returns (annotated: nat, readded: nat, moved: nat, ghost s: Step)
    modifies pools
    ensures Performed(s) && s.left == left && s.arrived == arrived && s.exempted == exempted
    ensures s.before == Pools(old(pools.lost), old(pools.gained)) && s.after == Pools(pools.lost, pools.gained)
    ensures s.counts == Counts(annotated, readded, moved)
  {
    var step := new LinePools(left, arrived);
    ghost var pairing;
    annotated, pairing := step.MatchAnnotations(exempted);
    ghost var before := Pools(pools.lost, pools.gained);
    pools.lost, pools.gained := pools.lost + step.lost, pools.gained + arrived;
    ghost var joined := Pools(pools.lost, pools.gained);
    readded := pools.MatchReadditions();
    moved := pools.MatchMoves();
    s := Step(before, left, arrived, exempted, pairing, step.lost, Pools(pools.lost, pools.gained),
              Counts(annotated, readded, moved));
    ReplayedIsPerformed(s, joined, annotated, readded, moved);
  }

  lemma ReplayedIsPerformed(s: Step, joined: Pools, annotated: nat, readded: nat, moved: nat)
    requires joined == Joined(s) && s.counts == Counts(annotated, readded, moved)
    requires Pairs(s.pairing, s.left, s.kept, s.exempted, {}) && annotated + |s.kept| == |s.left|
    requires readded == |joined.lost| - |joined.lost - joined.gained|
    requires s.after.lost <= Cancelled(joined).lost && s.after.gained <= Cancelled(joined).gained
    requires |s.after.lost| + moved == |Cancelled(joined).lost|
    requires |s.after.gained| + moved == |Cancelled(joined).gained|
    requires forall t ::
      Tally(Cancelled(joined).lost, t) - Tally(s.after.lost, t)
      == Tally(Cancelled(joined).gained, t) - Tally(s.after.gained, t)
    requires forall g, l :: g in s.after.gained && l in s.after.lost ==> !Movable(l, g)
    ensures Performed(s)
  {
    CancelSizes(joined);
    DeltasAreDisjoint(joined.gained, joined.lost);
    PairedOff(Cancelled(joined), s.after);
    assert |Total(s.pairing) + s.kept| == |Total(s.pairing)| + |s.kept|;
  }

  /** The steps of a history: each between two scans, starting from the pools the one before left. */
  ghost predicate ReplayOf(scans: seq<Scan>, steps: seq<Step>) {
    Chain(StepBetween, scans, steps)
  }

  ghost predicate Chain(between: (Step, Scan, Scan) -> bool, scans: seq<Scan>, steps: seq<Step>) {
    && |steps| + 1 == |scans|
    && (steps != [] ==>
        var n := |steps| - 1;
        && Chain(between, scans[..n + 1], steps[..n])
        && between(steps[n], scans[n], scans[n + 1]) && steps[n].before == PoolsAfter(steps[..n]))
  }

  ghost function PoolsAfter(steps: seq<Step>): Pools {
    if steps == [] then EMPTY else steps[|steps| - 1].after
  }

  function Plus(c: Counts, d: Counts): Counts {
    Counts(c.annotated + d.annotated, c.readded + d.readded, c.moved + d.moved)
  }

  /** What the steps add up to. */
  ghost function CountsOf(steps: seq<Step>): Counts {
    if steps == [] then Counts(0, 0, 0) else Plus(CountsOf(steps[..|steps| - 1]), steps[|steps| - 1].counts)
  }

  /** The losses that were annotations. */
  ghost function AnnotatedLines(steps: seq<Step>): multiset<Key> {
    if steps == [] then multiset{} else AnnotatedLines(steps[..|steps| - 1]) + Total(steps[|steps| - 1].pairing)
  }

  ghost function GrossGained(scans: seq<Scan>): nat {
    if |scans| < 2 then 0
    else
      var n := |scans|;
      GrossGained(scans[..n - 1]) + |Held(scans[n - 1]) - Held(scans[n - 2])|
  }

  ghost function GrossLost(scans: seq<Scan>): nat {
    if |scans| < 2 then 0
    else
      var n := |scans|;
      GrossLost(scans[..n - 1]) + |Held(scans[n - 2]) - Held(scans[n - 1])|
  }

  lemma {:induction false} GrossNet(scans: seq<Scan>)
    requires scans != []
    ensures GrossGained(scans) - GrossLost(scans) == Size(scans[|scans| - 1]) - Size(scans[0])
  {
    if |scans| > 1 {
      var rest := scans[..|scans| - 1];
      GrossStep(scans, rest);
      GrossNet(rest);
    }
  }

  lemma GrossStep(scans: seq<Scan>, rest: seq<Scan>)
    requires |scans| > 1 && rest == scans[..|scans| - 1]
    ensures GrossGained(scans) - GrossLost(scans)
         == GrossGained(rest) - GrossLost(rest) + Size(scans[|scans| - 1]) - Size(rest[|rest| - 1])
  {
    HeldNet(scans[|scans| - 1], scans[|scans| - 2]);
  }

  ghost function Size(s: Scan): nat {
    |Total(s.byFile)|
  }

  lemma HeldNet(a: Scan, b: Scan)
    ensures |Held(a) - Held(b)| - |Held(b) - Held(a)| == Size(a) - Size(b)
  {
    DeltasAreDisjoint(Held(a), Held(b));
  }

  /**
    Every gross gain of a history is in the pool, moved or re-added, every gross loss in the pool, moved,
    re-added or annotated; and the pools hold the net change per text, corrected for the annotations, on
    one side only.
  */
  lemma {:induction false} ReplayBalances(scans: seq<Scan>, steps: seq<Step>)
    requires ReplayOf(scans, steps)
    ensures var p, c := PoolsAfter(steps), CountsOf(steps);
      && |p.gained| + c.readded + c.moved == GrossGained(scans)
      && |p.lost| + c.readded + c.moved + c.annotated == GrossLost(scans)
      && c.moved >= 0 && c.readded >= 0 && c.annotated == |AnnotatedLines(steps)|
      && OneSided(p.lost, p.gained)
      && Holds(p, Held(scans[0]), Held(scans[|steps|]), AnnotatedLines(steps))
  {
    if steps != [] {
      var n := |steps| - 1;
      ReplayBalances(scans[..n + 1], steps[..n]);
      var s := steps[n];
      StepBalances(s);
      HoldsStep(s, Held(scans[0]), Held(scans[n]), Held(scans[n + 1]), AnnotatedLines(steps[..n]));
    } else {
      EmptyHolds(Held(scans[0]));
    }
  }

  lemma EmptyHolds(first: multiset<Key>)
    ensures Holds(EMPTY, first, first, multiset{}) && OneSided(multiset{}, multiset{})
  {
  }

  /** A property every step of a replay has. */
  ghost predicate Sound(holds: (Step, Scan, Scan) -> bool) {
    forall s, base, head {:trigger StepBetween(s, base, head)} :: StepBetween(s, base, head) ==> holds(s, base, head)
  }

  /** One commit of the replay. */
  method ReplayCommit(pools: LinePools, current: Scan, following: Scan, ghost holds: (Step, Scan, Scan) -> bool)
    returns (annotated: nat, readded: nat, moved: nat, ghost s: Step)
    requires Sound(holds)
    modifies pools
    ensures holds(s, current, following)
    ensures s.before == Pools(old(pools.lost), old(pools.gained)) && s.after == Pools(pools.lost, pools.gained)
    ensures s.counts == Counts(annotated, readded, moved)
  {
    var left, arrived, exempted := TransitionDelta(current, following);
    annotated, readded, moved, s := ReplayStep(pools, left, arrived, exempted);
    assert StepBetween(s, current, following);
  }

  /** Replay the scans of a history, from the base to the head, through one pair of pools. */
  method ReplayScans(scans: seq<Scan>, ghost holds: (Step, Scan, Scan) -> bool)
    returns (lost: multiset<Key>, gained: multiset<Key>, annotated: nat, readded: nat, moved: nat,
             ghost steps: seq<Step>)
    requires scans != [] && Sound(holds)
    ensures Chain(holds, scans, steps) && Pools(lost, gained) == PoolsAfter(steps)
    ensures Counts(annotated, readded, moved) == CountsOf(steps)
  {
    var pools := new LinePools(multiset{}, multiset{});
    annotated, readded, moved, steps := 0, 0, 0, [];
    for i := 1 to |scans|
      invariant Chain(holds, scans[..i], steps) && Pools(pools.lost, pools.gained) == PoolsAfter(steps)
      invariant Counts(annotated, readded, moved) == CountsOf(steps)
    {
      ghost var s;
      var a, r, m;
      a, r, m, s := ReplayCommit(pools, scans[i - 1], scans[i], holds);
      ReplayMore(holds, scans, i, steps, s);
      annotated, readded, moved := annotated + a, readded + r, moved + m;
      steps := steps + [s];
    }
    assert scans[..|scans|] == scans;
    lost, gained := pools.lost, pools.gained;
  }

  lemma ReplayMore(between: (Step, Scan, Scan) -> bool, scans: seq<Scan>, i: nat, steps: seq<Step>, s: Step)
    requires 1 <= i < |scans| && Chain(between, scans[..i], steps)
    requires between(s, scans[i - 1], scans[i]) && s.before == PoolsAfter(steps)
    ensures Chain(between, scans[..i + 1], steps + [s]) && PoolsAfter(steps + [s]) == s.after
    ensures CountsOf(steps + [s]) == Plus(CountsOf(steps), s.counts)
  {
    assert (steps + [s])[..|steps|] == steps && scans[..i + 1][..i] == scans[..i];
  }

  /**
    The summary of a replayed history.  Every gross gain ends as added or moved and every gross loss as
    removed, moved or annotated; re-added lines count as added and as removed; and what waits in the pools
    at the end is one-sided, per text the net change corrected for the annotations.
  */
  method ReplaySummary(scans: seq<Scan>) returns (r: Summary, ghost steps: seq<Step>)
    requires scans != []
    ensures ReplayOf(scans, steps)
    ensures r.annotated == CountsOf(steps).annotated && r.moved == CountsOf(steps).moved
    ensures r.added == CountsOf(steps).readded + |PoolsAfter(steps).gained|
    ensures r.removed == CountsOf(steps).readded + |PoolsAfter(steps).lost|
    ensures r.added + r.moved == GrossGained(scans) && r.removed + r.moved + r.annotated == GrossLost(scans)
    ensures r.net == |Total(scans[|scans| - 1].byFile)| - |Total(scans[0].byFile)| == r.added - r.removed - r.annotated
    ensures OneSided(PoolsAfter(steps).lost, PoolsAfter(steps).gained)
    ensures Holds(PoolsAfter(steps), Held(scans[0]), Held(scans[|scans| - 1]), AnnotatedLines(steps))
  {
    var lost, gained, annotated, readded, moved;
    lost, gained, annotated, readded, moved, steps := ReplayScans(scans, StepBetween);
    ReplayBalances(scans, steps);
    GrossNet(scans);
    var headTotal := Tallied(scans[|scans| - 1].byFile);
    var baseTotal := Tallied(scans[0].byFile);
    r := Summary(readded + |gained|, annotated, readded + |lost|, moved, |headTotal| - |baseTotal|);
  }
}
