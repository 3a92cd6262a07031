/**
  Scanning a tree for legacy-name lines, and the incremental scan that stands in for
  a full rescan while a commit history is replayed.  Lines arrive already classified.
*/
module TreeScan {
  import opened Common
  import opened Counters
  import opened MintLedger

  type Frame = (string, string)
  type References = string -> bool

  /** The order of frames, as pairs of strings. */
  predicate FrameLess(f: Frame, g: Frame) {
    Less(f.0, g.0) || (f.0 == g.0 && Less(f.1, g.1))
  }

  lemma FramesAreOrdered()
    ensures Orders(FrameLess)
  {
    LessOrders();
  }

  /** A deferred annotation on a line: absent, malformed, or well formed. */
  datatype Deferral = NoDeferral | Malformed | Deferral(canonical: Text, reference: string, frame: Frame)

  datatype DeferredLine = DeferredLine(canonical: Text, reference: string, frame: Frame)

  /** One matching line; `permanent` says that a permanent marker exempts it. */
  datatype Line = Line(text: Text, permanent: bool, deferral: Deferral)

  type Tree = map<Path, seq<Line>>

  datatype Scan = Scan(byFile: PerFile, total: multiset<Text>, exemptByFile: PerFile,
                       deferredByFile: map<Path, multiset<DeferredLine>>)

  /** The text a line counts under, if it counts. */
  function Counted(line: Line): Option<Text> {
    if line.permanent then None
    else if line.deferral.Deferral? then Some(line.deferral.canonical)
    else Some(line.text)
  }

  function Exempt(line: Line): Option<Text> {
    if line.permanent then Some(line.text) else None
  }

  /** The deferred attribute a line contributes when `valid` accepts its decision reference. */
  function Deferred(line: Line, valid: References): Option<DeferredLine> {
    if line.deferral.Deferral? && !line.permanent && valid(line.deferral.reference)
    then Some(DeferredLine(line.deferral.canonical, line.deferral.reference, line.deferral.frame))
    else None
  }

  function DeferredWith(valid: References): Line -> Option<DeferredLine> {
    line => Deferred(line, valid)
  }

  /* ---- what a scan is: a function of each file's own lines ---- */

  ghost function Collect<X>(lines: seq<Line>, f: Line -> Option<X>): multiset<X> {
    if lines == [] then multiset{}
    else
      var m := Collect(lines[..|lines| - 1], f);
      match f(lines[|lines| - 1]) case None => m case Some(x) => m + multiset{x}
  }

  ghost function PerFileOf<X>(tree: Tree, f: Line -> Option<X>): map<Path, multiset<X>> {
    map p | p in tree && Collect(tree[p], f) != multiset{} :: Collect(tree[p], f)
  }

  ghost function FullScan(tree: Tree, valid: References): Scan {
    var byFile := PerFileOf(tree, Counted);
    Scan(byFile, Total(byFile), PerFileOf(tree, Exempt), PerFileOf(tree, DeferredWith(valid)))
  }

  function LineCanonical(l: DeferredLine): Text { l.canonical }

  /** How many of the lines have the canonical text. */
  ghost function Texts(lines: multiset<DeferredLine>, t: Text): nat {
    TallyBy(lines, LineCanonical, t)
  }

  /* ---- what a scan counts ---- */

  ghost function AtMostOne<X>(x: Option<X>): multiset<X> {
    match x case None => multiset{} case Some(v) => multiset{v}
  }

  function LinesIn(tree: Tree, p: Path): seq<Line> {
    if p in tree then tree[p] else []
  }

  lemma PerFileAt<X>(tree: Tree, f: Line -> Option<X>, p: Path)
    ensures At(PerFileOf(tree, f), p) == Collect(LinesIn(tree, p), f)
  {
  }

  /** Every line counts once: as a legacy line, or as an exempt one. */
  lemma {:induction false} EveryLineCountsOnce(tree: Tree, valid: References, p: Path)
    requires p in tree
    ensures var s := FullScan(tree, valid); |At(s.byFile, p)| + |At(s.exemptByFile, p)| == |tree[p]|
  {
    PerFileAt(tree, Counted, p);
    PerFileAt(tree, Exempt, p);
    LinesCountOnce(tree[p]);
  }

  lemma {:induction false} LinesCountOnce(lines: seq<Line>)
    ensures |Collect(lines, Counted)| + |Collect(lines, Exempt)| == |lines|
  {
    if lines != [] {
      LinesCountOnce(lines[..|lines| - 1]);
    }
  }

  /** A deferred line is a counted line of its canonical text. */
  lemma {:induction false} DeferredAreCounted(tree: Tree, valid: References, p: Path, t: Text)
    ensures var s := FullScan(tree, valid); Texts(At(s.deferredByFile, p), t) <= At(s.byFile, p)[t]
  {
    PerFileAt(tree, Counted, p);
    PerFileAt(tree, DeferredWith(valid), p);
    DeferredLinesCount(LinesIn(tree, p), valid, t);
  }

  lemma {:induction false} DeferredLinesCount(lines: seq<Line>, valid: References, t: Text)
    ensures Texts(Collect(lines, DeferredWith(valid)), t) <= Collect(lines, Counted)[t]
  {
    if lines != [] {
      var rest, last := lines[..|lines| - 1], lines[|lines| - 1];
      DeferredLinesCount(rest, valid, t);
      if Deferred(last, valid).Some? {
        var l := Deferred(last, valid).value;
        var before := Collect(rest, DeferredWith(valid));
        TallySet(before, LineCanonical, l, before[l] + 1, t);
        assert before + multiset{l} == before[l := before[l] + 1];
      }
    }
  }

  lemma CollectLast<X>(lines: seq<Line>, f: Line -> Option<X>)
    requires lines != []
    ensures Collect(lines, f) == Collect(lines[..|lines| - 1], f) + AtMostOne(f(lines[|lines| - 1]))
  {
  }

  lemma {:induction false} CollectUpdate<X>(lines: seq<Line>, i: nat, line: Line, f: Line -> Option<X>)
    requires i < |lines|
    ensures Collect(lines[i := line], f) + AtMostOne(f(lines[i])) == Collect(lines, f) + AtMostOne(f(line))
    decreases |lines|
  {
    var n, next := |lines| - 1, lines[i := line];
    CollectLast(lines, f);
    CollectLast(next, f);
    if i < n {
      assert next[..n] == lines[..n][i := line] && next[n] == lines[n] && lines[..n][i] == lines[i];
      CollectUpdate(lines[..n], i, line, f);
      SwapInside(Collect(lines, f), Collect(next, f), Collect(lines[..n], f), Collect(next[..n], f),
                 AtMostOne(f(lines[n])), AtMostOne(f(lines[i])), AtMostOne(f(line)));
    } else {
      assert next[..n] == lines[..n];
      Exchange(Collect(lines, f), Collect(next, f), Collect(lines[..n], f), AtMostOne(f(lines[n])), AtMostOne(f(line)));
    }
  }

  lemma SwapInside<T>(a: multiset<T>, b: multiset<T>, a': multiset<T>, b': multiset<T>, last: multiset<T>,
                      was: multiset<T>, now: multiset<T>)
    requires a == a' + last && b == b' + last && b' + was == a' + now
    ensures b + was == a + now
  {
    SwapIn(b', was, a', now, last);
  }

  lemma Exchange<T>(a: multiset<T>, b: multiset<T>, rest: multiset<T>, was: multiset<T>, now: multiset<T>)
    requires a == rest + was && b == rest + now
    ensures b + was == a + now
  {
  }

  /** A tree in which one line was rewritten. */
  function Rewritten(tree: Tree, p: Path, i: nat, line: Line): Tree
    requires p in tree && i < |tree[p]|
  {
    tree[p := tree[p][i := line]]
  }

  /** What one rewritten line does to one of the counters. */
  ghost predicate Swaps<X>(before: map<Path, multiset<X>>, after: map<Path, multiset<X>>, p: Path,
                           was: Option<X>, now: Option<X>)
  {
    && At(after, p) + AtMostOne(was) == At(before, p) + AtMostOne(now)
    && after - {p} == before - {p}
  }

  lemma {:induction false} RewritingSwaps<X>(tree: Tree, p: Path, i: nat, line: Line, f: Line -> Option<X>)
    requires p in tree && i < |tree[p]|
    ensures Swaps(PerFileOf(tree, f), PerFileOf(Rewritten(tree, p, i, line), f), p, f(tree[p][i]), f(line))
  {
    PerFileAt(tree, f, p);
    PerFileAt(Rewritten(tree, p, i, line), f, p);
    CollectUpdate(tree[p], i, line, f);
    OtherFiles(tree, p, tree[p][i := line], f);
  }

  lemma {:induction false} RewritingLine(tree: Tree, valid: References, p: Path, i: nat, line: Line)
    requires p in tree && i < |tree[p]|
    ensures var s, r, was := FullScan(tree, valid), FullScan(Rewritten(tree, p, i, line), valid), tree[p][i];
      && Swaps(s.byFile, r.byFile, p, Counted(was), Counted(line))
      && Swaps(s.exemptByFile, r.exemptByFile, p, Exempt(was), Exempt(line))
      && Swaps(s.deferredByFile, r.deferredByFile, p, Deferred(was, valid), Deferred(line, valid))
      && r.total + AtMostOne(Counted(was)) == s.total + AtMostOne(Counted(line))
  {
    RewritingSwaps(tree, p, i, line, Counted);
    RewritingSwaps(tree, p, i, line, Exempt);
    RewritingSwaps(tree, p, i, line, DeferredWith(valid));
    TotalSwaps(PerFileOf(tree, Counted), PerFileOf(Rewritten(tree, p, i, line), Counted), p, Counted(tree[p][i]),
               Counted(line));
  }

  lemma TotalSwaps<X>(before: map<Path, multiset<X>>, after: map<Path, multiset<X>>, p: Path,
                      was: Option<X>, now: Option<X>)
    requires Swaps(before, after, p, was, now)
    ensures Total(after) + AtMostOne(was) == Total(before) + AtMostOne(now)
  {
    TotalDrop(before, p);
    TotalDrop(after, p);
    SwapIn(At(after, p), AtMostOne(was), At(before, p), AtMostOne(now), Total(before - {p}));
  }

  lemma SwapIn<T>(a: multiset<T>, b: multiset<T>, c: multiset<T>, d: multiset<T>, rest: multiset<T>)
    requires a + b == c + d
    ensures (a + rest) + b == (c + rest) + d
  {
    assert (a + rest) + b == (a + b) + rest;
    assert (c + rest) + d == (c + d) + rest;
  }

  lemma OtherFiles<X>(tree: Tree, p: Path, lines: seq<Line>, f: Line -> Option<X>)
    ensures PerFileOf(tree[p := lines], f) - {p} == PerFileOf(tree, f) - {p}
  {
  }

  /**
    Annotating a plain line as deferred, under the line's own text, changes no count; the attribute is
    noted exactly when its decision reference is accepted.
  */
  lemma {:induction false} AnnotatingIsFree(tree: Tree, valid: References, p: Path, i: nat, text: Text,
                                            reference: string, frame: Frame)
    requires p in tree && i < |tree[p]| && !tree[p][i].permanent && !tree[p][i].deferral.Deferral?
    ensures
      var canonical := tree[p][i].text;
      var line := Line(text, false, Deferral(canonical, reference, frame));
      var s, r := FullScan(tree, valid), FullScan(Rewritten(tree, p, i, line), valid);
      && r.byFile == s.byFile && r.total == s.total && r.exemptByFile == s.exemptByFile
      && At(r.deferredByFile, p) == At(s.deferredByFile, p)
           + if valid(reference) then multiset{DeferredLine(canonical, reference, frame)} else multiset{}
  {
    var line := Line(text, false, Deferral(tree[p][i].text, reference, frame));
    var s, r := FullScan(tree, valid), FullScan(Rewritten(tree, p, i, line), valid);
    RewritingLine(tree, valid, p, i, line);
    Cancel(At(r.byFile, p), At(s.byFile, p), AtMostOne(Counted(line)));
    Cancel(r.total, s.total, AtMostOne(Counted(line)));
    Cancel(At(r.exemptByFile, p), At(s.exemptByFile, p), multiset{});
    SameAt(r.byFile, s.byFile, p);
    SameAt(r.exemptByFile, s.exemptByFile, p);
  }

  /** Scans list a file only when there is something in it. */
  lemma SameAt<T>(a: map<Path, multiset<T>>, b: map<Path, multiset<T>>, p: Path)
    requires a - {p} == b - {p} && At(a, p) == At(b, p)
    requires (p in a ==> a[p] != multiset{}) && (p in b ==> b[p] != multiset{})
    ensures a == b
  {
    forall q
      ensures q in a <==> q in b
      ensures q in a ==> a[q] == b[q]
    {
      if q != p {
        assert q in a <==> q in a - {p};
        assert q in b <==> q in b - {p};
      }
    }
  }

  /** A malformed annotation does not change what a line counts under: its whole text. */
  lemma {:induction false} MalformedIsPlain(tree: Tree, valid: References, p: Path, i: nat)
    requires p in tree && i < |tree[p]| && tree[p][i].deferral.Malformed?
    ensures FullScan(Rewritten(tree, p, i, tree[p][i].(deferral := NoDeferral)), valid) == FullScan(tree, valid)
  {
    var line := tree[p][i].(deferral := NoDeferral);
    var s, r := FullScan(tree, valid), FullScan(Rewritten(tree, p, i, line), valid);
    RewritingLine(tree, valid, p, i, line);
    Cancel(At(r.byFile, p), At(s.byFile, p), AtMostOne(Counted(line)));
    Cancel(r.total, s.total, AtMostOne(Counted(line)));
    Cancel(At(r.exemptByFile, p), At(s.exemptByFile, p), AtMostOne(Exempt(line)));
    Cancel(At(r.deferredByFile, p), At(s.deferredByFile, p), multiset{});
    SameAt(r.byFile, s.byFile, p);
    SameAt(r.exemptByFile, s.exemptByFile, p);
    SameAt(r.deferredByFile, s.deferredByFile, p);
  }

  /** A permanent marker takes one occurrence of a plain line's text out of the count and exempts the marked line. */
  lemma {:induction false} ExemptingRemovesOne(tree: Tree, valid: References, p: Path, i: nat, line: Line)
    requires p in tree && i < |tree[p]| && !tree[p][i].permanent && !tree[p][i].deferral.Deferral? && line.permanent
    ensures
      var s, r, t := FullScan(tree, valid), FullScan(Rewritten(tree, p, i, line), valid), tree[p][i].text;
      && At(s.byFile, p) == At(r.byFile, p) + multiset{t} && s.total == r.total + multiset{t}
      && At(r.exemptByFile, p) == At(s.exemptByFile, p) + multiset{line.text}
      && At(r.deferredByFile, p) == At(s.deferredByFile, p)
  {
    RewritingLine(tree, valid, p, i, line);
    var s, r := FullScan(tree, valid), FullScan(Rewritten(tree, p, i, line), valid);
    Cancel(At(s.byFile, p), At(r.byFile, p) + multiset{tree[p][i].text}, multiset{});
    Cancel(At(s.deferredByFile, p), At(r.deferredByFile, p), multiset{});
  }

  /* ---- the scanning loop ---- */

  function LinesOf(found: seq<(Path, Line)>, p: Path): seq<Line> {
    if found == [] then []
    else
      var rest, last := LinesOf(found[..|found| - 1], p), found[|found| - 1];
      if last.0 == p then rest + [last.1] else rest
  }

  /** `found` lists the lines of the tree, each file's own lines in their order. */
  ghost predicate Lists(found: seq<(Path, Line)>, tree: Tree) {
    forall p :: LinesOf(found, p) == if p in tree then tree[p] else []
  }

  /** Count one more occurrence in a file, if there is one to count. */
  function Note<X>(m: map<Path, multiset<X>>, p: Path, x: Option<X>): map<Path, multiset<X>> {
    match x case None => m case Some(v) => m[p := At(m, p) + multiset{v}]
  }

  ghost function Gathered<X>(found: seq<(Path, Line)>, f: Line -> Option<X>): map<Path, multiset<X>> {
    if found == [] then map[]
    else var last := found[|found| - 1]; Note(Gathered(found[..|found| - 1], f), last.0, f(last.1))
  }

  lemma {:induction false} GatheredAt<X>(found: seq<(Path, Line)>, f: Line -> Option<X>, p: Path)
    ensures At(Gathered(found, f), p) == Collect(LinesOf(found, p), f)
    ensures p in Gathered(found, f) <==> Collect(LinesOf(found, p), f) != multiset{}
  {
    if found != [] {
      var rest, last := found[..|found| - 1], found[|found| - 1];
      GatheredAt(rest, f, p);
      if last.0 == p {
        assert LinesOf(found, p)[..|LinesOf(found, p)| - 1] == LinesOf(rest, p);
      }
    }
  }

  lemma {:induction false} GatheredIsPerFile<X>(found: seq<(Path, Line)>, f: Line -> Option<X>, tree: Tree)
    requires Lists(found, tree)
    ensures Gathered(found, f) == PerFileOf(tree, f)
  {
    forall p
      ensures p in Gathered(found, f) <==> p in PerFileOf(tree, f)
      ensures p in Gathered(found, f) ==> Gathered(found, f)[p] == PerFileOf(tree, f)[p]
    {
      GatheredAt(found, f, p);
    }
  }

  lemma TotalNote<X>(m: map<Path, multiset<X>>, p: Path, v: X)
    ensures Total(Note(m, p, Some(v))) == Total(m) + multiset{v}
  {
    TotalDrop(m, p);
    TotalDrop(Note(m, p, Some(v)), p);
    assert Note(m, p, Some(v)) - {p} == m - {p};
  }

  /** The counters a scan keeps, over the lines found so far. */
  ghost predicate Scanned(found: seq<(Path, Line)>, f: Line -> Option<DeferredLine>, byFile: PerFile,
                          total: multiset<Text>,
                          exempt: PerFile, deferred: map<Path, multiset<DeferredLine>>)
  {
    && byFile == Gathered(found, Counted) && total == Total(byFile)
    && exempt == Gathered(found, Exempt) && deferred == Gathered(found, f)
  }

  lemma ScannedMore(found: seq<(Path, Line)>, last: (Path, Line), f: Line -> Option<DeferredLine>, byFile: PerFile,
                    total: multiset<Text>,
                    exempt: PerFile, deferred: map<Path, multiset<DeferredLine>>)
    requires Scanned(found, f, byFile, total, exempt, deferred)
    ensures var more := match Counted(last.1) case None => total case Some(t) => total + multiset{t};
      Scanned(found + [last], f, Note(byFile, last.0, Counted(last.1)), more,
              Note(exempt, last.0, Exempt(last.1)), Note(deferred, last.0, f(last.1)))
  {
    assert (found + [last])[..|found|] == found;
    if Counted(last.1).Some? {
      TotalNote(byFile, last.0, Counted(last.1).value);
    }
  }

  method ScanTree(found: seq<(Path, Line)>, valid: References, ghost tree: Tree) returns (s: Scan)
    requires Lists(found, tree)
    ensures s == FullScan(tree, valid)
  {
    var byFile, exempt: PerFile := map[], map[];
    var total: multiset<Text> := multiset{};
    var deferred: map<Path, multiset<DeferredLine>> := map[];
    ghost var f := DeferredWith(valid);
    for i := 0 to |found|
      invariant Scanned(found[..i], f, byFile, total, exempt, deferred)
    {
      assert found[..i + 1] == found[..i] + [found[i]];
      ScannedMore(found[..i], found[i], f, byFile, total, exempt, deferred);
      var (path, line) := found[i];
      deferred := Note(deferred, path, Deferred(line, valid));
      exempt := Note(exempt, path, Exempt(line));
      var counted := Counted(line);
      if counted.Some? {
        total := total + multiset{counted.value};
      }
      byFile := Note(byFile, path, counted);
    }
    assert found[..|found|] == found;
    GatheredIsPerFile(found, Counted, tree);
    GatheredIsPerFile(found, Exempt, tree);
    GatheredIsPerFile(found, f, tree);
    s := Scan(byFile, total, exempt, deferred);
  }

  /* ---- the incremental scan ---- */

  function PathSet(paths: seq<Path>): set<Path> {
    set p | p in paths
  }

  ghost function Changed(tree: Tree, paths: seq<Path>): Tree {
    map p | p in tree && p in paths :: tree[p]
  }

  /** Rescanning the changed paths only: their old entries leave, their new ones arrive. */
  ghost function Updated(before: Scan, tree: Tree, paths: seq<Path>, valid: References): Scan {
    if paths == [] then before
    else
      var changed, gone := FullScan(Changed(tree, paths), valid), PathSet(paths);
      Scan(before.byFile - gone + changed.byFile,
           before.total + changed.total - Total(Only(before.byFile, gone)),
           before.exemptByFile - gone + changed.exemptByFile,
           before.deferredByFile - gone + changed.deferredByFile)
  }

  method UpdatedScan(before: Scan, found: seq<(Path, Line)>, paths: seq<Path>, valid: References, ghost tree: Tree)
    returns (s: Scan)
    requires Lists(found, Changed(tree, paths))
    ensures s == Updated(before, tree, paths, valid)
  {
    if paths == [] {
      return before;
    }
    // `Counter.subtract` may leave negative counts until the rescanned lines are added
    // back, and the final unary plus drops what is still not positive: so the popped
    // lines are subtracted last.
    var byFile, popped := PopAll(before.byFile, paths);
    var changed := ScanTree(found, valid, Changed(tree, paths));
    s := Scan(byFile + changed.byFile, before.total + changed.total - popped,
              before.exemptByFile - PathSet(paths) + changed.exemptByFile,
              before.deferredByFile - PathSet(paths) + changed.deferredByFile);
  }

  method PopAll(m: PerFile, paths: seq<Path>) returns (rest: PerFile, popped: multiset<Text>)
    ensures rest == m - PathSet(paths)
    ensures popped == Total(Only(m, PathSet(paths)))
  {
    rest, popped := m, multiset{};
    for i := 0 to |paths|
      invariant rest == m - PathSet(paths[..i])
      invariant popped + Total(rest) == Total(m)
    {
      assert PathSet(paths[..i + 1]) == PathSet(paths[..i]) + {paths[i]};
      TotalDrop(rest, paths[i]);
      popped := popped + At(rest, paths[i]);
      rest := rest - {paths[i]};
    }
    assert paths[..|paths|] == paths;
    TotalSplit(m, PathSet(paths));
    Cancel(popped, Total(Only(m, PathSet(paths))), Total(rest));
  }

  lemma Cancel<T>(a: multiset<T>, b: multiset<T>, c: multiset<T>)
    requires a + c == b + c
    ensures a == b
  {
    forall t
      ensures a[t] == b[t]
    {
      assert (a + c)[t] == (b + c)[t];
    }
  }

  /** Two trees that differ at most on the given paths. */
  ghost predicate AgreeOff(t1: Tree, t2: Tree, paths: seq<Path>) {
    forall p :: p !in paths ==> (p in t1 <==> p in t2) && (p in t1 ==> t1[p] == t2[p])
  }

  /** The scan holds the tree's counted lines, totals and exempt lines. */
  ghost predicate Tracks(s: Scan, tree: Tree) {
    && s.byFile == PerFileOf(tree, Counted)
    && s.total == Total(s.byFile)
    && s.exemptByFile == PerFileOf(tree, Exempt)
  }

  lemma {:induction false} MergedPerFile<X>(t1: Tree, t2: Tree, paths: seq<Path>, f: Line -> Option<X>)
    requires AgreeOff(t1, t2, paths)
    ensures PerFileOf(t1, f) - PathSet(paths) + PerFileOf(Changed(t2, paths), f) == PerFileOf(t2, f)
  {
  }

  lemma {:induction false} TotalOfUnion(a: PerFile, b: PerFile)
    requires a.Keys !! b.Keys
    ensures Total(a + b) == Total(b) + Total(a)
  {
    TotalSplit(a + b, b.Keys);
    assert Only(a + b, b.Keys) == b;
    assert (a + b) - b.Keys == a;
  }

  /** One incremental step keeps track of the tree, whatever became of the decision documents. */
  lemma {:induction false} IncrementalStep(before: Scan, t1: Tree, t2: Tree, paths: seq<Path>, valid: References)
    requires Tracks(before, t1) && AgreeOff(t1, t2, paths)
    ensures Tracks(Updated(before, t2, paths, valid), t2)
  {
    if paths == [] {
      assert t1 == t2;
    } else {
      MergedPerFile(t1, t2, paths, Counted);
      MergedPerFile(t1, t2, paths, Exempt);
      var changed := PerFileOf(Changed(t2, paths), Counted);
      TotalSplit(before.byFile, PathSet(paths));
      TotalOfUnion(before.byFile - PathSet(paths), changed);
      Replace(Total(Only(before.byFile, PathSet(paths))), Total(before.byFile - PathSet(paths)), Total(changed));
    }
  }

  lemma Replace<T>(gone: multiset<T>, kept: multiset<T>, changed: multiset<T>)
    ensures (gone + kept) + changed - gone == changed + kept
  {
  }

  /** One commit of a replayed history: the tree it leaves, the paths it changed, the documents that exist in it. */
  datatype Commit = Commit(tree: Tree, paths: seq<Path>, valid: References)

  ghost function TreeAfter(base: Tree, commits: seq<Commit>): Tree {
    if commits == [] then base else commits[|commits| - 1].tree
  }

  ghost predicate History(base: Tree, commits: seq<Commit>) {
    forall i :: 0 <= i < |commits| ==> AgreeOff(TreeAfter(base, commits[..i]), commits[i].tree, commits[i].paths)
  }

  ghost function Replayed(start: Scan, commits: seq<Commit>): Scan {
    if commits == [] then start
    else
      var c := commits[|commits| - 1];
      Updated(Replayed(start, commits[..|commits| - 1]), c.tree, c.paths, c.valid)
  }

  /** Replaying any history incrementally ends with the scan a full rescan would give. */
  lemma {:induction false} ReplayMatchesFullScan(base: Tree, start: Scan, commits: seq<Commit>)
    requires Tracks(start, base) && History(base, commits)
    ensures Tracks(Replayed(start, commits), TreeAfter(base, commits))
  {
    if commits != [] {
      var rest, c := commits[..|commits| - 1], commits[|commits| - 1];
      forall i | 0 <= i < |rest|
        ensures AgreeOff(TreeAfter(base, rest[..i]), rest[i].tree, rest[i].paths)
      {
        assert rest[..i] == commits[..i];
      }
      ReplayMatchesFullScan(base, start, rest);
      IncrementalStep(Replayed(start, rest), TreeAfter(base, rest), c.tree, c.paths, c.valid);
    }
  }

  /* ---- the deferred attributes, which are not a function of the file alone ---- */

  /** A line whose deferred attribute depends on its decision reference being valid. */
  predicate Depends(line: Line) {
    line.deferral.Deferral? && !line.permanent
  }

  ghost predicate SettledLines(lines: seq<Line>, v1: References, v2: References) {
    forall i :: 0 <= i < |lines| && Depends(lines[i]) ==>
      v1(lines[i].deferral.reference) == v2(lines[i].deferral.reference)
  }

  /** No unchanged line's decision reference changed between valid and invalid. */
  ghost predicate ReferencesSettled(tree: Tree, paths: seq<Path>, v1: References, v2: References) {
    forall p :: p in tree && p !in paths ==> SettledLines(tree[p], v1, v2)
  }

  lemma {:induction false} CollectedAreValid(lines: seq<Line>, v: References, d: DeferredLine)
    requires d in Collect(lines, DeferredWith(v))
    ensures v(d.reference)
  {
    var rest := lines[..|lines| - 1];
    if d in Collect(rest, DeferredWith(v)) {
      CollectedAreValid(rest, v, d);
    }
  }

  lemma {:induction false} ValidAreCollected(lines: seq<Line>, v: References, i: nat)
    requires i < |lines| && Depends(lines[i]) && v(lines[i].deferral.reference)
    ensures Deferred(lines[i], v).value in Collect(lines, DeferredWith(v))
  {
    if i < |lines| - 1 {
      ValidAreCollected(lines[..|lines| - 1], v, i);
    }
  }

  lemma {:induction false} SettledCollect(lines: seq<Line>, v1: References, v2: References)
    requires SettledLines(lines, v1, v2)
    ensures Collect(lines, DeferredWith(v1)) == Collect(lines, DeferredWith(v2))
  {
    if lines != [] {
      SettledCollect(lines[..|lines| - 1], v1, v2);
      assert Depends(lines[|lines| - 1]) ==>
        v1(lines[|lines| - 1].deferral.reference) == v2(lines[|lines| - 1].deferral.reference);
    }
  }

  lemma {:induction false} UnsettledCollect(lines: seq<Line>, v1: References, v2: References, i: nat)
    requires i < |lines| && Depends(lines[i])
    requires v1(lines[i].deferral.reference) && !v2(lines[i].deferral.reference)
    ensures Collect(lines, DeferredWith(v1)) != Collect(lines, DeferredWith(v2))
  {
    ValidAreCollected(lines, v1, i);
    var d := Deferred(lines[i], v1).value;
    if d in Collect(lines, DeferredWith(v2)) {
      CollectedAreValid(lines, v2, d);
    }
  }

  lemma {:induction false} CollectIff(lines: seq<Line>, v1: References, v2: References)
    ensures Collect(lines, DeferredWith(v1)) == Collect(lines, DeferredWith(v2)) <==> SettledLines(lines, v1, v2)
  {
    if i :|
      0 <= i < |lines| && Depends(lines[i]) && v1(lines[i].deferral.reference) != v2(lines[i].deferral.reference)
    {
      if v1(lines[i].deferral.reference) {
        UnsettledCollect(lines, v1, v2, i);
      } else {
        UnsettledCollect(lines, v2, v1, i);
      }
    } else {
      SettledCollect(lines, v1, v2);
    }
  }

  /**
    The deferred attributes of an incremental scan are right exactly when no unchanged line's
    decision reference became valid or invalid: they also depend on documents elsewhere in the tree.
  */
  lemma {:induction false} DeferredAreStaleIff(t1: Tree, t2: Tree, paths: seq<Path>, v1: References, v2: References)
    requires AgreeOff(t1, t2, paths)
    ensures Updated(FullScan(t1, v1), t2, paths, v2).deferredByFile == FullScan(t2, v2).deferredByFile
       <==> ReferencesSettled(t2, paths, v1, v2)
  {
    var u, full := Updated(FullScan(t1, v1), t2, paths, v2).deferredByFile, FullScan(t2, v2).deferredByFile;
    forall p | p in t2
      ensures At(u, p) == At(full, p) <==> p in paths || SettledLines(t2[p], v1, v2)
    {
      UpdatedDeferredAt(t1, t2, paths, v1, v2, p);
      CollectIff(t2[p], v1, v2);
    }
    UpdatedDeferredKeys(t1, t2, paths, v1, v2);
    SameCounters(u, full, t2.Keys);
  }

  lemma UpdatedDeferredAt(t1: Tree, t2: Tree, paths: seq<Path>, v1: References, v2: References, p: Path)
    requires AgreeOff(t1, t2, paths) && p in t2
    ensures At(Updated(FullScan(t1, v1), t2, paths, v2).deferredByFile, p)
         == Collect(t2[p], DeferredWith(if p in paths then v2 else v1))
    ensures At(FullScan(t2, v2).deferredByFile, p) == Collect(t2[p], DeferredWith(v2))
  {
    FullDeferredAt(t2, v2, p);
    var before, changed := FullScan(t1, v1).deferredByFile, FullScan(Changed(t2, paths), v2).deferredByFile;
    MergedAt(before, changed, PathSet(paths), p);
    if p in paths {
      FullDeferredAt(Changed(t2, paths), v2, p);
    } else {
      FullDeferredAt(t1, v1, p);
    }
  }

  lemma FullDeferredAt(tree: Tree, v: References, p: Path)
    ensures At(FullScan(tree, v).deferredByFile, p)
          == if p in tree then Collect(tree[p], DeferredWith(v)) else multiset{}
  {
  }

  lemma MergedAt<T>(before: map<Path, multiset<T>>, changed: map<Path, multiset<T>>, gone: set<Path>, p: Path)
    requires changed.Keys <= gone
    ensures At(before - gone + changed, p) == if p in gone then At(changed, p) else At(before, p)
  {
  }

  lemma UpdatedDeferredKeys(t1: Tree, t2: Tree, paths: seq<Path>, v1: References, v2: References)
    requires AgreeOff(t1, t2, paths)
    ensures var u := Updated(FullScan(t1, v1), t2, paths, v2).deferredByFile;
      u.Keys <= t2.Keys && forall p :: p in u ==> u[p] != multiset{}
  {
    var before, changed := FullScan(t1, v1).deferredByFile, FullScan(Changed(t2, paths), v2).deferredByFile;
    DeferredKeys(t1, v1);
    DeferredKeys(Changed(t2, paths), v2);
    forall p | p in before - PathSet(paths) + changed
      ensures p in t2
    {
    }
  }

  lemma DeferredKeys(tree: Tree, v: References)
    ensures var d := FullScan(tree, v).deferredByFile;
      d.Keys <= tree.Keys && forall p :: p in d ==> d[p] != multiset{}
  {
  }

  /** Two maps of non-empty counters are equal exactly when they agree as counters. */
  lemma SameCounters<T>(a: map<Path, multiset<T>>, b: map<Path, multiset<T>>, keys: set<Path>)
    requires a.Keys <= keys && b.Keys <= keys
    requires forall p :: p in a ==> a[p] != multiset{}
    requires forall p :: p in b ==> b[p] != multiset{}
    ensures a == b <==> forall p :: p in keys ==> At(a, p) == At(b, p)
  {
    if forall p :: p in keys ==> At(a, p) == At(b, p) {
      forall p
        ensures p in a <==> p in b
        ensures p in a && p in b ==> a[p] == b[p]
      {
        assert p in keys ==> At(a, p) == At(b, p);
      }
    }
  }

  /** Deleting a decision document leaves a stale attribute on a line of an untouched file. */
  lemma DeferredCanGoStale(v1: References, v2: References)
    requires v1("decision.md") && !v2("decision.md")
    ensures var tree: Tree := map["a" := [Line("x", false, Deferral("x", "decision.md", ("x", "")))]];
      Updated(FullScan(tree, v1), tree, ["decision.md"], v2).deferredByFile != FullScan(tree, v2).deferredByFile
  {
    var tree: Tree := map["a" := [Line("x", false, Deferral("x", "decision.md", ("x", "")))]];
    DeferredAreStaleIff(tree, tree, ["decision.md"], v1, v2);
    assert Depends(tree["a"][0]);
  }
}
