/**
  The net-new deferred lines of a change: a file's own base lines cancel its head lines
  first, what they leave of the base cancels lines relocated from other files, and new
  lines annotate old counted ones.
*/
module NewDeferredLines {
  import opened Common
  import opened Counters
  import opened MintLedger
  import opened TreeScan

  type DeferredPerFile = map<Path, multiset<DeferredLine>>

  /** How many deferred lines of all files have the canonical text. */
  ghost function CanonicalTotal(m: DeferredPerFile, t: Text): nat {
    Texts(Total(m), t)
  }

  /** The order in which lines are taken. */
  predicate LineLess(k: DeferredLine, l: DeferredLine) {
    || Less(k.canonical, l.canonical)
    || (&& k.canonical == l.canonical
        && (Less(k.reference, l.reference) || (k.reference == l.reference && FrameLess(k.frame, l.frame))))
  }

  /** By canonical text, then reference, then the two parts of the frame. */
  lemma LinesByField(k: DeferredLine, l: DeferredLine)
    ensures Less(k.canonical, l.canonical) ==> LineLess(k, l)
    ensures k.canonical == l.canonical && Less(k.reference, l.reference) ==> LineLess(k, l)
    ensures k.canonical == l.canonical && k.reference == l.reference ==>
      (Less(k.frame.0, l.frame.0) || (k.frame.0 == l.frame.0 && Less(k.frame.1, l.frame.1)) ==> LineLess(k, l))
  {
  }

  lemma LinesAreOrdered()
    ensures Orders(LineLess)
  {
    LessOrders();
    FramesAreOrdered();
  }

  /* ---- cancelling lines against a pool ---- */

  /** Lines and pool shrink together, text by text. */
  ghost predicate Conserves(lines: multiset<DeferredLine>, left: multiset<DeferredLine>, pool: multiset<Text>,
                            spare: multiset<Text>)
  {
    left <= lines && spare <= pool && forall t :: Texts(lines, t) + spare[t] == Texts(left, t) + pool[t]
  }

  /** Of the lines of one text, the first in order are taken first. */
  ghost predicate InOrder(lines: multiset<DeferredLine>, left: multiset<DeferredLine>, skip: set<Frame>) {
    forall k: DeferredLine, l: DeferredLine ::
      k.frame !in skip && l.frame !in skip && k.canonical == l.canonical && LineLess(k, l) && left[k] > 0 ==>
      left[l] == lines[l]
  }

  /** Nothing in the frames to skip is taken, and elsewhere everything the pool could still pay for. */
  ghost predicate Exhausts(lines: multiset<DeferredLine>, left: multiset<DeferredLine>, spare: multiset<Text>,
                           skip: set<Frame>)
  {
    forall l: DeferredLine :: if l.frame in skip then left[l] == lines[l] else left[l] == 0 || spare[l.canonical] == 0
  }

  method Claim(lines: multiset<DeferredLine>, pool: multiset<Text>, skip: set<Frame>)
    returns (left: multiset<DeferredLine>, spare: multiset<Text>)
    ensures Conserves(lines, left, pool, spare)
    ensures Exhausts(lines, left, spare, skip)
    ensures InOrder(lines, left, skip)
  {
    left, spare := lines, pool;
    LinesAreOrdered();
    var order := Sorted((set l | l in lines && l.frame !in skip), LineLess);
    for i := 0 to |order|
      invariant Conserves(lines, left, pool, spare)
      invariant forall l :: l !in order[..i] ==> left[l] == lines[l]
      invariant Taken(order, i, lines, left, spare)
    {
      ghost var before, had := left, spare;
      left, spare := ClaimLine(left, spare, order[i]);
      ConservesTwice(lines, before, left, pool, had, spare);
      TakenStep(order, i, lines, before, left, had, spare);
    }
    ClaimedInOrder(order, lines, left, spare, skip);
  }

  /** Of the first `n` lines each is used up or has used the pool up, and then no later line of its text lost any. */
  ghost predicate Taken(order: seq<DeferredLine>, n: nat, lines: multiset<DeferredLine>, left: multiset<DeferredLine>,
                        spare: multiset<Text>)
    requires n <= |order|
  {
    && (forall i :: 0 <= i < n ==> left[order[i]] == 0 || spare[order[i].canonical] == 0)
    && (forall i, j :: 0 <= i < j < n && order[i].canonical == order[j].canonical && left[order[i]] > 0 ==>
        left[order[j]] == lines[order[j]])
  }

  lemma TakenStep(order: seq<DeferredLine>, n: nat, lines: multiset<DeferredLine>, before: multiset<DeferredLine>,
                  left: multiset<DeferredLine>,
                  had: multiset<Text>, spare: multiset<Text>)
    requires n < |order| && Distinct(order) && Taken(order, n, lines, before, had)
    requires before[order[n]] == lines[order[n]] && spare <= had
    requires forall k :: k != order[n] ==> left[k] == before[k]
    requires left[order[n]] == 0 || spare[order[n].canonical] == 0
    requires had[order[n].canonical] == 0 ==> left[order[n]] == before[order[n]]
    ensures Taken(order, n + 1, lines, left, spare)
  {
    forall i | 0 <= i < n
      ensures left[order[i]] == before[order[i]]
    {
      assert order[i] != order[n];
    }
  }

  lemma ConservesTwice(a: multiset<DeferredLine>, b: multiset<DeferredLine>, c: multiset<DeferredLine>,
                       p: multiset<Text>, q: multiset<Text>, r: multiset<Text>)
    requires Conserves(a, b, p, q) && Conserves(b, c, q, r)
    ensures Conserves(a, c, p, r)
  {
    forall t
      ensures Texts(a, t) + r[t] == Texts(c, t) + p[t]
    {
      assert Texts(a, t) + q[t] == Texts(b, t) + p[t];
    }
  }

  lemma ClaimedInOrder(order: seq<DeferredLine>, lines: multiset<DeferredLine>, left: multiset<DeferredLine>,
                       spare: multiset<Text>, skip: set<Frame>)
    requires Orders(LineLess) && left <= lines
    requires forall l :: l in order <==> l in lines && l.frame !in skip
    requires forall i, j :: 0 <= i < j < |order| ==> LineLess(order[i], order[j])
    requires forall l :: l !in order ==> left[l] == lines[l]
    requires Taken(order, |order|, lines, left, spare)
    ensures Exhausts(lines, left, spare, skip) && InOrder(lines, left, skip)
  {
    forall l: DeferredLine
      ensures if l.frame in skip then left[l] == lines[l] else left[l] == 0 || spare[l.canonical] == 0
    {
      if l.frame !in skip && l in lines {
        var i :| 0 <= i < |order| && order[i] == l;
      }
    }
    forall k: DeferredLine, l: DeferredLine
      | k.frame !in skip && l.frame !in skip && k.canonical == l.canonical && LineLess(k, l) && left[k] > 0
      ensures left[l] == lines[l]
    {
      if l in lines {
        LaterIsWhole(order, lines, left, spare, k, l);
      }
    }
  }

  lemma LaterIsWhole(order: seq<DeferredLine>, lines: multiset<DeferredLine>, left: multiset<DeferredLine>,
                     spare: multiset<Text>,
                     k: DeferredLine, l: DeferredLine)
    requires Orders(LineLess) && k in order && l in order && k.canonical == l.canonical && LineLess(k, l) && left[k] > 0
    requires forall i, j :: 0 <= i < j < |order| ==> LineLess(order[i], order[j])
    requires Taken(order, |order|, lines, left, spare)
    ensures left[l] == lines[l]
  {
    var i :| 0 <= i < |order| && order[i] == k;
    var j :| 0 <= j < |order| && order[j] == l;
    assert i < j;
  }

  method ClaimLine(lines: multiset<DeferredLine>, pool: multiset<Text>, l: DeferredLine)
    returns (left: multiset<DeferredLine>, spare: multiset<Text>)
    ensures Conserves(lines, left, pool, spare)
    ensures forall k :: k != l ==> left[k] == lines[k]
    ensures left[l] == 0 || spare[l.canonical] == 0
    ensures pool[l.canonical] == 0 ==> left[l] == lines[l]
  {
    var consumed := Min(lines[l], pool[l.canonical]);
    left := lines[l := lines[l] - consumed];
    spare := pool[l.canonical := pool[l.canonical] - consumed];
    forall t
      ensures Texts(lines, t) + spare[t] == Texts(left, t) + pool[t]
    {
      TallySet(lines, LineCanonical, l, lines[l] - consumed, t);
    }
  }

  /* ---- what a file's own base lines leave ---- */

  /** The head lines a file's base lines do not cancel: as many of each text as there are more, the last in order. */
  ghost predicate Survive(head: multiset<DeferredLine>, base: multiset<DeferredLine>, left: multiset<DeferredLine>) {
    && left <= head
    && (forall t :: Texts(left, t) == Excess0(Texts(head, t), Texts(base, t)))
    && InOrder(head, left, {})
  }

  /** A counter no larger in any line of a text, and smaller in one, has fewer lines of the text. */
  lemma {:induction false} FewerLines(a: multiset<DeferredLine>, b: multiset<DeferredLine>, l: DeferredLine)
    requires a[l] < b[l]
    requires forall k: DeferredLine :: k.canonical == l.canonical ==> a[k] <= b[k]
    ensures Texts(a, l.canonical) < Texts(b, l.canonical)
  {
    var both := a * b;
    TallyOfAll(both, a, LineCanonical, l.canonical);
    TallyOfPart(b, both, LineCanonical, l.canonical);
    TallyDrop(b - both, LineCanonical, l, l.canonical);
  }

  lemma {:induction false} SurvivorsAreUnique(head: multiset<DeferredLine>, base: multiset<DeferredLine>,
                                              a: multiset<DeferredLine>, b: multiset<DeferredLine>)
    requires Survive(head, base, a) && Survive(head, base, b)
    ensures a == b
  {
    forall l
      ensures a[l] == b[l]
    {
      if a[l] < b[l] {
        NotFewer(head, base, a, b, l);
      } else if b[l] < a[l] {
        NotFewer(head, base, b, a, l);
      }
    }
  }

  lemma {:induction false} NotFewer(head: multiset<DeferredLine>, base: multiset<DeferredLine>,
                                    a: multiset<DeferredLine>, b: multiset<DeferredLine>, l: DeferredLine)
    requires Survive(head, base, a) && Survive(head, base, b)
    ensures a[l] >= b[l]
  {
    if a[l] < b[l] {
      forall k: DeferredLine | k.canonical == l.canonical
        ensures a[k] <= b[k]
      {
        NoneMore(head, base, a, b, k, l);
      }
      FewerLines(a, b, l);
    }
  }

  lemma NoneMore(head: multiset<DeferredLine>, base: multiset<DeferredLine>, a: multiset<DeferredLine>,
                 b: multiset<DeferredLine>,
                 k: DeferredLine, l: DeferredLine)
    requires Survive(head, base, a) && Survive(head, base, b) && a[l] < b[l] && k.canonical == l.canonical
    ensures a[k] <= b[k]
  {
    LinesAreOrdered();
  }

  method CountCanonicals(lines: multiset<DeferredLine>) returns (r: multiset<Text>)
    ensures forall t :: r[t] == Texts(lines, t)
  {
    r := multiset{};
    var rest := lines;
    while rest != multiset{}
      invariant forall t :: r[t] + Texts(rest, t) == Texts(lines, t)
      decreases |rest|
    {
      var l :| l in rest;
      forall t
        ensures Texts(rest, t) == Texts(rest[l := 0], t) + if l.canonical == t then rest[l] else 0
      {
        TallyDrop(rest, LineCanonical, l, t);
      }
      Dropped(rest, l);
      r := r[l.canonical := r[l.canonical] + rest[l]];
      rest := rest[l := 0];
    }
  }

  /** A file's own base lines cancel its head lines; what they do not cancel is left over for the pool. */
  method CancelOwn(head: multiset<DeferredLine>, base: multiset<DeferredLine>)
    returns (left: multiset<DeferredLine>, spare: multiset<Text>)
    ensures Survive(head, base, left)
    ensures forall t :: spare[t] == Excess0(Texts(base, t), Texts(head, t))
  {
    var own := CountCanonicals(base);
    left, spare := Claim(head, own, {});
    forall t
      ensures Texts(left, t) == Excess0(Texts(head, t), Texts(base, t))
      ensures spare[t] == Excess0(Texts(base, t), Texts(head, t))
    {
      if Texts(left, t) > 0 {
        TallyPositive(left, LineCanonical, t);
      }
    }
  }

  method SamePathPhase(base: DeferredPerFile, head: DeferredPerFile)
    returns (kept: DeferredPerFile, pool: multiset<Text>)
    ensures kept.Keys == head.Keys
    ensures forall p :: Survive(At(head, p), At(base, p), At(kept, p))
    ensures forall t :: CanonicalTotal(head, t) + pool[t] == CanonicalTotal(kept, t) + CanonicalTotal(base, t)
  {
    kept, pool := head, multiset{};
    var rest := base;
    while rest != map[]
      invariant rest.Keys <= base.Keys && forall p :: p in rest ==> rest[p] == base[p]
      invariant OwnPhase(kept, base, head, rest.Keys)
      invariant forall t ::
        CanonicalTotal(head, t) + CanonicalTotal(rest, t) + pool[t] == CanonicalTotal(kept, t) + CanonicalTotal(base, t)
      decreases |rest|
    {
      var p :| p in rest;
      ghost var before, had := kept, pool;
      var left, spare := CancelOwn(At(kept, p), rest[p]);
      kept := if p in kept then kept[p := left] else kept;
      pool := pool + spare;
      OwnPhaseStep(before, kept, base, head, p, left, rest.Keys);
      OwnTotals(before, kept, rest, p, left, spare, had);
      rest := rest - {p};
    }
    OwnPhaseEnds(kept, base, head);
  }

  lemma {:induction false} OwnTotals(before: DeferredPerFile, after: DeferredPerFile, rest: DeferredPerFile, p: Path,
                                     left: multiset<DeferredLine>, spare: multiset<Text>, had: multiset<Text>)
    requires p in rest && Survive(At(before, p), rest[p], left)
    requires after == if p in before then before[p := left] else before
    requires forall t :: spare[t] == Excess0(Texts(rest[p], t), Texts(At(before, p), t))
    ensures forall t :: CanonicalTotal(before, t) + CanonicalTotal(rest - {p}, t) + (had + spare)[t]
                     == CanonicalTotal(after, t) + CanonicalTotal(rest, t) + had[t]
    ensures |rest - {p}| < |rest|
  {
    assert rest.Keys == (rest - {p}).Keys + {p};
    forall t
      ensures CanonicalTotal(before, t) + CanonicalTotal(rest - {p}, t) + (had + spare)[t]
           == CanonicalTotal(after, t) + CanonicalTotal(rest, t) + had[t]
    {
      RestTotal(rest, p, t);
      KeptTotal(before, after, p, left, t);
      assert Texts(left, t) == Excess0(Texts(At(before, p), t), Texts(rest[p], t));
    }
  }

  lemma {:induction false} RestTotal(rest: DeferredPerFile, p: Path, t: Text)
    requires p in rest
    ensures CanonicalTotal(rest, t) == Texts(rest[p], t) + CanonicalTotal(rest - {p}, t)
  {
    TotalRemove(rest, p);
    TallyAdd(rest[p], Total(rest - {p}), LineCanonical, t);
  }

  lemma {:induction false} KeptTotal(before: DeferredPerFile, after: DeferredPerFile, p: Path,
                                     left: multiset<DeferredLine>, t: Text)
    requires after == (if p in before then before[p := left] else before) && left <= At(before, p)
    ensures CanonicalTotal(after, t) + Texts(At(before, p), t) == CanonicalTotal(before, t) + Texts(left, t)
  {
    if p in before {
      TallyReplace(before, p, left, LineCanonical, t);
    } else {
      assert left == multiset{};
    }
  }

  /** The files of `todo` are untouched, the others have cancelled what they could. */
  ghost predicate OwnPhase(kept: DeferredPerFile, base: DeferredPerFile, head: DeferredPerFile, todo: set<Path>) {
    && kept.Keys == head.Keys
    && (forall p :: p in todo || p !in base ==> At(kept, p) == At(head, p))
    && (forall p :: p in base && p !in todo ==> Survive(At(head, p), At(base, p), At(kept, p)))
  }

  lemma OwnPhaseStep(before: DeferredPerFile, after: DeferredPerFile, base: DeferredPerFile, head: DeferredPerFile,
                     p: Path,
                     left: multiset<DeferredLine>, todo: set<Path>)
    requires OwnPhase(before, base, head, todo) && p in todo && p in base && Survive(At(before, p), base[p], left)
    requires after == if p in before then before[p := left] else before
    ensures OwnPhase(after, base, head, todo - {p})
  {
    OthersKept(before, after, p, left);
    forall q | q in base && q !in todo - {p}
      ensures Survive(At(head, q), At(base, q), At(after, q))
    {
      if q == p {
        assert At(after, p) == left;
      }
    }
  }

  lemma OthersKept(before: DeferredPerFile, after: DeferredPerFile, p: Path, left: multiset<DeferredLine>)
    requires after == if p in before then before[p := left] else before
    ensures forall q :: q != p ==> At(after, q) == At(before, q)
  {
  }

  lemma OwnPhaseEnds(kept: DeferredPerFile, base: DeferredPerFile, head: DeferredPerFile)
    requires OwnPhase(kept, base, head, {})
    ensures forall p :: Survive(At(head, p), At(base, p), At(kept, p))
  {
    forall p
      ensures Survive(At(head, p), At(base, p), At(kept, p))
    {
    }
  }

  /* ---- lines relocated from other files ---- */

  /** The frames in which a file of the base held floor lines. */
  type FloorFrames = map<Path, set<Frame>>

  function Own(floors: FloorFrames, p: Path): set<Frame> {
    if p in floors then floors[p] else {}
  }

  /** The lines outside some frames. */
  ghost function Outside(m: multiset<DeferredLine>, skip: set<Frame>): (r: multiset<DeferredLine>)
    ensures forall l :: r[l] == if l.frame in skip then 0 else m[l]
    decreases |m|
  {
    if m == multiset{} then multiset{}
    else
      var l := PickElement(m);
      Dropped(m, l);
      Outside(m[l := 0], skip)[l := if l.frame in skip then 0 else m[l]]
  }

  /** The lines that did not change marker in place, and may have been relocated. */
  ghost function Loose(m: DeferredPerFile, floors: FloorFrames): DeferredPerFile {
    map p | p in m :: Outside(m[p], Own(floors, p))
  }

  /** Lines in a frame where their own file held a floor line are left alone. */
  ghost predicate Spares(before: DeferredPerFile, after: DeferredPerFile, floors: FloorFrames) {
    forall p, l: DeferredLine :: l.frame in Own(floors, p) ==> At(after, p)[l] == At(before, p)[l]
  }

  /** Wherever a predecessor is still to be had, the lines of its text that remain changed marker in place. */
  ghost predicate InPlace(remaining: DeferredPerFile, spare: multiset<Text>, floors: FloorFrames, todo: set<Path>) {
    forall p, l :: p !in todo && l in At(remaining, p) && spare[l.canonical] > 0 ==> l.frame in Own(floors, p)
  }

  method ClaimAcross(remaining: DeferredPerFile, pool: multiset<Text>, p: Path, skip: set<Frame>)
    returns (after: DeferredPerFile, spare: multiset<Text>)
    requires p in remaining
    ensures Conserves(remaining[p], At(after, p), pool, spare) && Exhausts(remaining[p], At(after, p), spare, skip)
    ensures InOrder(remaining[p], At(after, p), skip)
    ensures after == remaining[p := At(after, p)]
    ensures forall t :: CanonicalTotal(remaining, t) + spare[t] == CanonicalTotal(after, t) + pool[t]
  {
    var left;
    left, spare := Claim(remaining[p], pool, skip);
    after := remaining[p := left];
    forall t
      ensures CanonicalTotal(remaining, t) + spare[t] == CanonicalTotal(after, t) + pool[t]
    {
      TallyReplace(remaining, p, left, LineCanonical, t);
    }
  }

  /** A relocated line may take a predecessor from any file, unless its own file held a floor line in its very frame. */
  method CrossPathPhase(start: DeferredPerFile, pool: multiset<Text>, floors: FloorFrames)
    returns (remaining: DeferredPerFile, spare: multiset<Text>)
    ensures Crossed(start, remaining, pool, spare, floors, {})
    ensures FirstGo(start, remaining, floors)
    ensures forall t ::
      CanonicalTotal(remaining, t) + Min(CanonicalTotal(Loose(start, floors), t), pool[t]) == CanonicalTotal(start, t)
  {
    remaining, spare := start, pool;
    LessOrders();
    var paths := Sorted(start.Keys, Less);
    ghost var todo := start.Keys;
    for i := 0 to |paths|
      invariant Remain(todo, paths, i)
      invariant Crossed(start, remaining, pool, spare, floors, todo)
      invariant Untouched(start, remaining, todo) && FirstGo(start, remaining, floors)
    {
      var p := paths[i];
      ghost var before, had := remaining, spare;
      remaining, spare := ClaimAcross(remaining, spare, p, Own(floors, p));
      NextPath(paths, i, todo);
      CrossedStep(start, before, remaining, pool, had, spare, floors, todo, p);
      FirstGoStep(start, before, remaining, had, spare, floors, todo, p);
      todo := todo - {p};
    }
    assert todo == {};
    CrossedExactly(start, remaining, pool, spare, floors);
  }

  /** The paths still to come are those from index `n` on. */
  ghost predicate Remain(todo: set<Path>, paths: seq<Path>, n: nat)
    requires n <= |paths|
  {
    forall p :: p in todo <==> p in paths[n..]
  }

  lemma NextPath(paths: seq<Path>, n: nat, todo: set<Path>)
    requires n < |paths| && Remain(todo, paths, n) && Distinct(paths)
    requires forall i, j :: 0 <= i < j < |paths| ==> Less(paths[i], paths[j])
    ensures paths[n] in todo && Remain(todo - {paths[n]}, paths, n + 1)
    ensures forall q :: q in todo && q != paths[n] ==> Less(paths[n], q)
  {
    assert paths[n..] == [paths[n]] + paths[n + 1..];
    forall q | q in todo && q != paths[n]
      ensures Less(paths[n], q)
    {
      var j :| 0 <= j < |paths[n..]| && paths[n..][j] == q;
    }
  }

  /** The order of the lines of all files: by path, and within a file as they are taken. */
  predicate Before(p: Path, k: DeferredLine, q: Path, l: DeferredLine) {
    Less(p, q) || (p == q && LineLess(k, l))
  }

  /** Two lines of one text, both outside floor frames. */
  predicate Rivals(p: Path, k: DeferredLine, q: Path, l: DeferredLine, floors: FloorFrames) {
    k.canonical == l.canonical && k.frame !in Own(floors, p) && l.frame !in Own(floors, q)
  }

  /** Of the lines of one text outside floor frames, the first in that order go first. */
  ghost predicate FirstGo(start: DeferredPerFile, remaining: DeferredPerFile, floors: FloorFrames) {
    forall p, k: DeferredLine, q, l: DeferredLine ::
      Before(p, k, q, l) && Rivals(p, k, q, l, floors) && At(remaining, p)[k] > 0 ==>
        At(remaining, q)[l] == At(start, q)[l]
  }

  ghost predicate Untouched(start: DeferredPerFile, remaining: DeferredPerFile, todo: set<Path>) {
    forall p :: p in todo ==> At(remaining, p) == At(start, p)
  }

  /** The file `p`, the first still to come, has given up what the pool could take. */
  ghost predicate Visits(start: DeferredPerFile, before: DeferredPerFile, after: DeferredPerFile, had: multiset<Text>,
                         spare: multiset<Text>,
                         floors: FloorFrames, todo: set<Path>, p: Path)
  {
    && Untouched(start, before, todo) && InPlace(before, had, floors, todo)
    && p in todo && p in before && (forall q :: q in todo && q != p ==> Less(p, q))
    && Conserves(before[p], At(after, p), had, spare) && InOrder(before[p], At(after, p), Own(floors, p))
    && after == before[p := At(after, p)]
  }

  lemma FirstGoStep(start: DeferredPerFile, before: DeferredPerFile, after: DeferredPerFile,
                    had: multiset<Text>, spare: multiset<Text>, floors: FloorFrames, todo: set<Path>, p: Path)
    requires FirstGo(start, before, floors) && before.Keys == start.Keys
    requires Visits(start, before, after, had, spare, floors, todo, p)
    ensures FirstGo(start, after, floors) && Untouched(start, after, todo - {p})
  {
    forall q, k: DeferredLine, r, l: DeferredLine
      | Before(q, k, r, l) && Rivals(q, k, r, l, floors) && At(after, q)[k] > 0
      ensures At(after, r)[l] == At(start, r)[l]
    {
      if r == p {
        NothingAfter(start, before, after, had, spare, floors, todo, p, q, k, l);
      } else {
        assert At(before, q)[k] > 0 && At(after, r) == At(before, r);
      }
    }
  }

  /** The file visited gives up no line while one before it remains. */
  lemma NothingAfter(start: DeferredPerFile, before: DeferredPerFile, after: DeferredPerFile, had: multiset<Text>,
                     spare: multiset<Text>,
                     floors: FloorFrames, todo: set<Path>, p: Path, q: Path, k: DeferredLine, l: DeferredLine)
    requires Visits(start, before, after, had, spare, floors, todo, p)
    requires Before(q, k, p, l) && Rivals(q, k, p, l, floors) && At(after, q)[k] > 0
    ensures At(after, p)[l] == At(start, p)[l]
  {
    LessOrders();
    if q != p {
      assert q !in todo && k in At(before, q);
      NoneTaken(before[p], At(after, p), had, spare, l);
    }
  }

  /** An empty pool takes nothing. */
  lemma {:induction false} NoneTaken(lines: multiset<DeferredLine>, left: multiset<DeferredLine>, pool: multiset<Text>,
                                     spare: multiset<Text>,
                                     l: DeferredLine)
    requires Conserves(lines, left, pool, spare) && pool[l.canonical] == 0
    ensures left[l] == lines[l]
  {
    if left[l] < lines[l] {
      FewerLines(left, lines, l);
    }
  }

  /** What the phase keeps while the files of `todo` are still to come. */
  ghost predicate Crossed(start: DeferredPerFile, remaining: DeferredPerFile, pool: multiset<Text>,
                          spare: multiset<Text>,
                          floors: FloorFrames, todo: set<Path>)
  {
    && remaining.Keys == start.Keys && spare <= pool
    && (forall p :: At(remaining, p) <= At(start, p))
    && Spares(start, remaining, floors)
    && (forall t :: CanonicalTotal(start, t) + spare[t] == CanonicalTotal(remaining, t) + pool[t])
    && InPlace(remaining, spare, floors, todo)
  }

  lemma CrossedStep(start: DeferredPerFile, before: DeferredPerFile, after: DeferredPerFile, pool: multiset<Text>,
                    had: multiset<Text>, spare: multiset<Text>,
                    floors: FloorFrames, todo: set<Path>, p: Path)
    requires Crossed(start, before, pool, had, floors, todo) && p in before
    requires Conserves(before[p], At(after, p), had, spare) && Exhausts(before[p], At(after, p), spare, Own(floors, p))
    requires after == before[p := At(after, p)]
    requires forall t :: CanonicalTotal(before, t) + spare[t] == CanonicalTotal(after, t) + had[t]
    ensures Crossed(start, after, pool, spare, floors, todo - {p})
  {
    OthersKept(before, after, p, At(after, p));
    StillWithin(start, before, after, p);
    SparesStep(start, before, after, floors, p);
    InPlaceStep(before, had, after, spare, floors, todo, p);
    TotalsStep(CanonicalTotals(start), CanonicalTotals(before), CanonicalTotals(after), pool, had, spare);
  }

  ghost function CanonicalTotals(m: DeferredPerFile): (r: multiset<Text>)
    ensures forall t :: r[t] == CanonicalTotal(m, t)
  {
    Image(Total(m), LineCanonical)
  }

  lemma TotalsStep(a: multiset<Text>, b: multiset<Text>, c: multiset<Text>, pool: multiset<Text>, had: multiset<Text>,
                   spare: multiset<Text>)
    requires forall t :: a[t] + had[t] == b[t] + pool[t]
    requires forall t :: b[t] + spare[t] == c[t] + had[t]
    ensures forall t :: a[t] + spare[t] == c[t] + pool[t]
  {
    forall t
      ensures a[t] + spare[t] == c[t] + pool[t]
    {
      assert a[t] + had[t] == b[t] + pool[t];
    }
  }

  lemma StillWithin(start: DeferredPerFile, before: DeferredPerFile, after: DeferredPerFile, p: Path)
    requires forall q :: At(before, q) <= At(start, q)
    requires At(after, p) <= At(before, p) && forall q :: q != p ==> At(after, q) == At(before, q)
    ensures forall q :: At(after, q) <= At(start, q)
  {
    forall q
      ensures At(after, q) <= At(start, q)
    {
      assert At(after, q) <= At(before, q) <= At(start, q);
    }
  }

  lemma SparesStep(start: DeferredPerFile, before: DeferredPerFile, after: DeferredPerFile, floors: FloorFrames,
                   p: Path)
    requires Spares(start, before, floors)
    requires forall q :: q != p ==> At(after, q) == At(before, q)
    requires forall l: DeferredLine :: l.frame in Own(floors, p) ==> At(after, p)[l] == At(before, p)[l]
    ensures Spares(start, after, floors)
  {
    forall q, l: DeferredLine | l.frame in Own(floors, q)
      ensures At(after, q)[l] == At(start, q)[l]
    {
      assert At(after, q)[l] == At(before, q)[l];
    }
  }

  lemma InPlaceStep(before: DeferredPerFile, had: multiset<Text>, after: DeferredPerFile, spare: multiset<Text>,
                    floors: FloorFrames, todo: set<Path>, p: Path)
    requires InPlace(before, had, floors, todo) && spare <= had
    requires forall q :: q != p ==> At(after, q) == At(before, q)
    requires forall l :: l in At(after, p) && spare[l.canonical] > 0 ==> l.frame in Own(floors, p)
    ensures InPlace(after, spare, floors, todo - {p})
  {
    forall q, l | q !in todo - {p} && l in At(after, q) && spare[l.canonical] > 0
      ensures l.frame in Own(floors, q)
    {
      if q != p {
        assert l in At(before, q) && had[l.canonical] > 0;
      }
    }
  }

  /** The lines outside floor frames pay what the pool has, or all. */
  lemma {:induction false} CrossedExactly(start: DeferredPerFile, remaining: DeferredPerFile, pool: multiset<Text>,
                                          spare: multiset<Text>, floors: FloorFrames)
    requires Crossed(start, remaining, pool, spare, floors, {})
    ensures forall t ::
      CanonicalTotal(remaining, t) + Min(CanonicalTotal(Loose(start, floors), t), pool[t]) == CanonicalTotal(start, t)
  {
    forall t
      ensures CanonicalTotal(remaining, t) + Min(CanonicalTotal(Loose(start, floors), t), pool[t])
            == CanonicalTotal(start, t)
    {
      SameFixed(start, remaining, floors, t);
      if spare[t] > 0 {
        NoLooseLeft(remaining, spare, floors, t);
      }
      assert CanonicalTotal(start, t) + spare[t] == CanonicalTotal(remaining, t) + pool[t];
    }
  }

  lemma {:induction false} SameFixed(start: DeferredPerFile, remaining: DeferredPerFile, floors: FloorFrames, t: Text)
    requires remaining.Keys == start.Keys && Spares(start, remaining, floors)
    ensures CanonicalTotal(start, t) + CanonicalTotal(Loose(remaining, floors), t)
         == CanonicalTotal(remaining, t) + CanonicalTotal(Loose(start, floors), t)
  {
    var a, b := Loose(start, floors), Loose(remaining, floors);
    forall p
      ensures At(start, p) + At(b, p) == At(remaining, p) + At(a, p)
    {
      if p in start {
        OutsideBalances(start[p], remaining[p], floors, p);
      }
    }
    TotalsBalance(start, b, remaining, a);
    TallyAdd(Total(start), Total(b), LineCanonical, t);
    TallyAdd(Total(remaining), Total(a), LineCanonical, t);
  }

  lemma OutsideBalances(a: multiset<DeferredLine>, b: multiset<DeferredLine>, floors: FloorFrames, p: Path)
    requires forall l: DeferredLine :: l.frame in Own(floors, p) ==> a[l] == b[l]
    ensures a + Outside(b, Own(floors, p)) == b + Outside(a, Own(floors, p))
  {
  }

  lemma {:induction false} NoLooseLeft(remaining: DeferredPerFile, spare: multiset<Text>, floors: FloorFrames, t: Text)
    requires InPlace(remaining, spare, floors, {}) && spare[t] > 0
    ensures CanonicalTotal(Loose(remaining, floors), t) == 0
  {
    var loose := Loose(remaining, floors);
    if CanonicalTotal(loose, t) > 0 {
      TallyPositive(Total(loose), LineCanonical, t);
      var l :| l in Total(loose) && LineCanonical(l) == t;
      var p := InSome(loose, l);
    }
  }

  lemma {:induction false} InSome(m: DeferredPerFile, l: DeferredLine) returns (p: Path)
    requires l in Total(m)
    ensures p in m && l in m[p]
    decreases |m|
  {
    p := PickKey(m);
    if l !in m[p] {
      p := InSome(m - {p}, l);
    }
  }

  /* ---- the two phases together ---- */

  /** The base lines no line of their own file cancels. */
  ghost function Unmatched(base: DeferredPerFile, head: DeferredPerFile, kept: DeferredPerFile, t: Text): int {
    CanonicalTotal(kept, t) + CanonicalTotal(base, t) - CanonicalTotal(head, t)
  }

  /**
    Net-new deferred occurrences.  `kept` are those a file's own base lines leave; of these the loose ones
    give way to base lines of other files, as many as there are of the text, and the ones that changed
    marker in place all remain.
  */
  method NewDeferred(base: DeferredPerFile, head: DeferredPerFile, floors: FloorFrames)
    returns (remaining: DeferredPerFile, kept: DeferredPerFile)
    ensures NetNew(base, head, floors, kept, remaining) && FirstGo(kept, remaining, floors)
  {
    var pool, spare;
    kept, pool := SamePathPhase(base, head);
    remaining, spare := CrossPathPhase(kept, pool, floors);
    BothPhases(base, head, floors, kept, remaining, pool, spare);
  }

  lemma BothPhases(base: DeferredPerFile, head: DeferredPerFile, floors: FloorFrames, kept: DeferredPerFile,
                   remaining: DeferredPerFile,
                   pool: multiset<Text>, spare: multiset<Text>)
    requires kept.Keys == head.Keys && forall p :: Survive(At(head, p), At(base, p), At(kept, p))
    requires forall t :: CanonicalTotal(head, t) + pool[t] == CanonicalTotal(kept, t) + CanonicalTotal(base, t)
    requires Crossed(kept, remaining, pool, spare, floors, {})
    requires forall t ::
      CanonicalTotal(remaining, t) + Min(CanonicalTotal(Loose(kept, floors), t), pool[t]) == CanonicalTotal(kept, t)
    ensures NetNew(base, head, floors, kept, remaining)
  {
    forall t
      ensures Unmatched(base, head, kept, t) == pool[t]
    {
    }
  }

  /** The changes and the order of files and lines leave one answer. */
  lemma {:induction false} NetNewIsUnique(base: DeferredPerFile, head: DeferredPerFile, floors: FloorFrames,
                                          kept: DeferredPerFile, news: DeferredPerFile, alsoKept: DeferredPerFile,
                                          alsoNews: DeferredPerFile)
    requires NetNew(base, head, floors, kept, news) && FirstGo(kept, news, floors)
    requires NetNew(base, head, floors, alsoKept, alsoNews) && FirstGo(alsoKept, alsoNews, floors)
    ensures kept == alsoKept && news == alsoNews
  {
    forall p | p in head
      ensures kept[p] == alsoKept[p]
    {
      assert Survive(At(head, p), At(base, p), At(kept, p)) && Survive(At(head, p), At(base, p), At(alsoKept, p));
      SurvivorsAreUnique(At(head, p), At(base, p), kept[p], alsoKept[p]);
    }
    assert kept == alsoKept;
    forall t
      ensures CanonicalTotal(news, t) == CanonicalTotal(alsoNews, t)
    {
      var taken := Min(CanonicalTotal(Loose(kept, floors), t), Unmatched(base, head, kept, t));
      assert CanonicalTotal(news, t) + taken == CanonicalTotal(kept, t) == CanonicalTotal(alsoNews, t) + taken;
    }
    forall p | p in head
      ensures news[p] == alsoNews[p]
    {
      forall l
        ensures news[p][l] == alsoNews[p][l]
      {
        NoFewer(kept, news, alsoNews, floors, p, l);
        NoFewer(kept, alsoNews, news, floors, p, l);
      }
    }
  }

  /** What both of two answers share: they are parts of `kept`, spare the floor frames and let the first lines go. */
  ghost predicate Leaves(kept: DeferredPerFile, news: DeferredPerFile, floors: FloorFrames) {
    && news.Keys == kept.Keys && (forall p :: At(news, p) <= At(kept, p))
    && Spares(kept, news, floors) && FirstGo(kept, news, floors)
  }

  lemma {:induction false} NoFewer(kept: DeferredPerFile, a: DeferredPerFile, b: DeferredPerFile, floors: FloorFrames,
                                   p: Path, l: DeferredLine)
    requires Leaves(kept, a, floors) && Leaves(kept, b, floors) && p in kept
    requires CanonicalTotal(a, l.canonical) == CanonicalTotal(b, l.canonical)
    ensures At(a, p)[l] >= At(b, p)[l]
  {
    if At(a, p)[l] < At(b, p)[l] {
      forall q, k: DeferredLine | q in a && k.canonical == l.canonical
        ensures a[q][k] <= b[q][k]
      {
        NoneAhead(kept, a, b, floors, p, l, q, k);
      }
      FewerInAll(a, b, p, l);
    }
  }

  lemma NoneAhead(kept: DeferredPerFile, a: DeferredPerFile, b: DeferredPerFile, floors: FloorFrames,
                  p: Path, l: DeferredLine, q: Path, k: DeferredLine)
    requires Leaves(kept, a, floors) && Leaves(kept, b, floors) && At(a, p)[l] < At(b, p)[l]
    requires k.canonical == l.canonical
    ensures At(a, q)[k] <= At(b, q)[k]
  {
    LinesAreOrdered();
    LessOrders();
    assert l.frame !in Own(floors, p);
    if k.frame !in Own(floors, q) {
      assert Rivals(p, l, q, k, floors) && Rivals(q, k, p, l, floors);
      assert Before(p, l, q, k) || Before(q, k, p, l) || (p == q && k == l);
      assert At(a, q)[k] <= At(kept, q)[k] && At(b, p)[l] <= At(kept, p)[l];
    }
  }

  /** Files no larger in any line of a text, one of them smaller in one, hold fewer lines of it. */
  lemma {:induction false} FewerInAll(a: DeferredPerFile, b: DeferredPerFile, p: Path, l: DeferredLine)
    requires a.Keys == b.Keys && p in a && At(a, p)[l] < At(b, p)[l]
    requires forall q, k: DeferredLine :: q in a && k.canonical == l.canonical ==> a[q][k] <= b[q][k]
    ensures CanonicalTotal(a, l.canonical) < CanonicalTotal(b, l.canonical)
  {
    forall k: DeferredLine | k.canonical == l.canonical
      ensures Total(a)[k] <= Total(b)[k]
    {
      NoMoreInAll(a, b, k);
    }
    TotalRemove(a, p);
    TotalRemove(b, p);
    NoMoreInAll(a - {p}, b - {p}, l);
    FewerLines(Total(a), Total(b), l);
  }

  lemma {:induction false} NoMoreInAll(a: DeferredPerFile, b: DeferredPerFile, k: DeferredLine)
    requires a.Keys == b.Keys && forall q :: q in a ==> a[q][k] <= b[q][k]
    ensures Total(a)[k] <= Total(b)[k]
    decreases |a|
  {
    if a != map[] {
      var q := PickKey(a);
      TotalRemove(b, q);
      NoMoreInAll(a - {q}, b - {q}, k);
    }
  }

  /** Without floor lines the net-new lines of a text are the repo-wide gain. */
  lemma WithoutFloors(base: DeferredPerFile, head: DeferredPerFile, floors: FloorFrames, kept: DeferredPerFile,
                      news: DeferredPerFile, t: Text)
    requires NetNew(base, head, floors, kept, news) && forall p :: Own(floors, p) == {}
    ensures CanonicalTotal(news, t) == Excess0(CanonicalTotal(head, t), CanonicalTotal(base, t))
  {
    AllLoose(kept, floors);
    assert Unmatched(base, head, kept, t) >= 0;
    assert CanonicalTotal(news, t) + Min(CanonicalTotal(Loose(kept, floors), t), Unmatched(base, head, kept, t))
         == CanonicalTotal(kept, t);
  }

  ghost predicate NetNew(base: DeferredPerFile, head: DeferredPerFile, floors: FloorFrames, kept: DeferredPerFile,
                         news: DeferredPerFile)
  {
    && (forall p :: Survive(At(head, p), At(base, p), At(kept, p)))
    && kept.Keys == head.Keys && news.Keys == head.Keys && (forall p :: At(news, p) <= At(kept, p))
    && Spares(kept, news, floors)
    && (forall t :: Unmatched(base, head, kept, t) >= 0)
    && (forall t ::
        CanonicalTotal(news, t) + Min(CanonicalTotal(Loose(kept, floors), t), Unmatched(base, head, kept, t))
        == CanonicalTotal(kept, t))
  }

  lemma AllLoose(m: DeferredPerFile, floors: FloorFrames)
    requires forall p :: Own(floors, p) == {}
    ensures Loose(m, floors) == m
  {
    forall p | p in m
      ensures Outside(m[p], Own(floors, p)) == m[p]
    {
      OutsideNothing(m[p]);
    }
  }

  lemma OutsideNothing(m: multiset<DeferredLine>)
    ensures Outside(m, {}) == m
  {
  }

  /* ---- new lines that annotate old counted ones ---- */

  method AnnotateCounted(gained: multiset<DeferredLine>, available: multiset<Text>)
    returns (annotations: multiset<DeferredLine>, unallocated: multiset<DeferredLine>)
    ensures annotations + unallocated == gained
    ensures forall t :: Texts(annotations, t) == Min(Texts(gained, t), available[t])
    ensures InOrder(gained, unallocated, {})
  {
    var spare;
    unallocated, spare := Claim(gained, available, {});
    annotations := gained - unallocated;
    assert annotations + unallocated == gained;
    forall t
      ensures Texts(annotations, t) == Min(Texts(gained, t), available[t])
    {
      TallyOfPart(gained, unallocated, LineCanonical, t);
      if Texts(unallocated, t) > 0 {
        TallyPositive(unallocated, LineCanonical, t);
      }
    }
  }

  /** The counted lines of a file that carry no deferred attribute, per canonical text. */
  ghost function PlainCount(counted: multiset<Text>, deferred: multiset<DeferredLine>, t: Text): nat {
    Excess0(counted[t], Texts(deferred, t))
  }

  method Plain(counted: multiset<Text>, deferred: multiset<DeferredLine>) returns (plain: multiset<Text>)
    ensures forall t :: plain[t] == PlainCount(counted, deferred, t)
  {
    var taken := CountCanonicals(deferred);
    plain := counted - taken;
  }

  /** One file: an attribute annotates an old line only when a plain line of its text disappeared. */
  method DeferredAnnotations(baseCounted: multiset<Text>, baseDeferred: multiset<DeferredLine>,
                             headCounted: multiset<Text>, headDeferred: multiset<DeferredLine>,
                             gained: multiset<DeferredLine>)
    returns (annotations: multiset<DeferredLine>, unallocated: multiset<DeferredLine>)
    ensures annotations + unallocated == gained
    ensures forall t :: Texts(annotations, t)
                     == Min(Texts(gained, t),
                            Excess0(PlainCount(baseCounted, baseDeferred, t), PlainCount(headCounted, headDeferred, t)))
    ensures InOrder(gained, unallocated, {})
  {
    var basePlain := Plain(baseCounted, baseDeferred);
    var headPlain := Plain(headCounted, headDeferred);
    annotations, unallocated := AnnotateCounted(gained, basePlain - headPlain);
  }
}
