/**
  The legacy-name gate from two scans to its verdict: net-new deferred lines, those that
  annotate old lines, those that replace floor lines, and the charge for the rest.
*/
module Gate {
  import opened Counters
  import opened MintLedger
  import opened TreeScan
  import opened DeferredMarkers
  import opened NewDeferredLines

  /** What a scan says of a tree, and of one file; permanently marked lines are resolved. */
  datatype Side = Side(counted: PerFile, permanent: map<Path, multiset<Permanent>>, deferred: DeferredPerFile)
  datatype File = File(counted: multiset<Text>, permanent: multiset<Permanent>, deferred: multiset<DeferredLine>)

  function FileAt(s: Side, p: Path): File {
    File(At(s.counted, p), At(s.permanent, p), At(s.deferred, p))
  }

  /**
    What becomes of the net-new deferred lines of a file, the floor lines unclaimed by their frame and
    those free to be replaced, and the texts excused.
  */
  datatype Outcome = Outcome(annotated: multiset<DeferredLine>, unallocated: multiset<DeferredLine>,
                             unclaimed: multiset<Permanent>, free: multiset<Permanent>,
                             spent: multiset<DeferredLine>, excused: multiset<Text>)

  /** Annotations take the plain lines that disappeared. */
  ghost predicate Annotates(base: File, head: File, news: multiset<DeferredLine>, o: Outcome) {
    && o.annotated + o.unallocated == news
    && forall t :: Texts(o.annotated, t) == Min(Texts(news, t), Vanished(base, head, t))
  }

  /** The plain counted lines of a text that disappeared. */
  ghost function Vanished(base: File, head: File, t: Text): nat {
    Excess0(PlainCount(base.counted, base.deferred, t), PlainCount(head.counted, head.deferred, t))
  }

  ghost predicate Frees(base: File, head: File, o: Outcome) {
    FreeFloors(Floors(base.permanent), head.permanent, o.unclaimed, o.free)
  }

  /** Unallocated lines replace free floor lines of their frame, as many as both sides have, and are excused. */
  ghost predicate Replaces(branded: Text -> bool, o: Outcome) {
    && o.spent <= Branded(o.unallocated, branded)
    && (forall f ::
        TallyBy(o.spent, LineFrame, f)
        == Min(TallyBy(o.free, FrameOf, f), TallyBy(Branded(o.unallocated, branded), LineFrame, f)))
    && (forall t :: o.excused[t] == Texts(o.spent, t))
  }

  ghost predicate Examined(base: File, head: File, branded: Text -> bool, news: multiset<DeferredLine>, o: Outcome) {
    Annotates(base, head, news, o) && Frees(base, head, o) && Replaces(branded, o)
  }

  /** The canonical texts of the replaced lines, one for each pair. */
  method Excuse(paired: map<DeferredLine, multiset<Permanent>>, ghost used: multiset<DeferredLine>)
    returns (excused: multiset<Text>)
    requires forall l :: |At(paired, l)| == used[l]
    ensures forall t :: excused[t] == Texts(used, t)
  {
    excused := multiset{};
    var todo := paired.Keys;
    ghost var rest := used;
    while todo != {}
      invariant todo <= paired.Keys
      invariant forall l :: rest[l] == if l in todo then used[l] else 0
      invariant forall t :: excused[t] + Texts(rest, t) == Texts(used, t)
    {
      var l :| l in todo;
      forall t
        ensures Texts(rest, t) == Texts(rest[l := 0], t) + if l.canonical == t then rest[l] else 0
      {
        TallyDrop(rest, LineCanonical, l, t);
      }
      excused := excused[l.canonical := excused[l.canonical] + |paired[l]|];
      rest, todo := rest[l := 0], todo - {l};
    }
    assert rest == multiset{};
  }

  method ExamineFile(base: File, head: File, branded: Text -> bool, news: multiset<DeferredLine>) returns (o: Outcome)
    ensures Examined(base, head, branded, news, o)
  {
    var annotated, unallocated := DeferredAnnotations(base.counted, base.deferred, head.counted, head.deferred, news);
    var paired, spent, free, unclaimed := FileTransitions(base.permanent, head.permanent, unallocated, branded);
    var excused := Excuse(paired, spent);
    o := Outcome(annotated, unallocated, unclaimed, free, spent, excused);
  }

  function FramesOf(m: map<Path, multiset<Permanent>>): FloorFrames {
    map p | p in m :: set x | x in m[p] && x.isFloor :: x.frame
  }

  /** The base held a floor line in the frame, in that file. */
  ghost predicate HeldFloor(base: Side, p: Path, f: Frame) {
    exists x :: x in At(base.permanent, p) && x.isFloor && x.frame == f
  }

  lemma FramesOfHeld(base: Side, p: Path, f: Frame)
    ensures f in Own(FramesOf(base.permanent), p) <==> HeldFloor(base, p, f)
  {
  }

  /** `loose` are the lines in no frame where their own file held a floor line. */
  ghost predicate LooseIn(base: Side, kept: DeferredPerFile, loose: DeferredPerFile) {
    forall p, l: DeferredLine :: At(loose, p)[l] == if HeldFloor(base, p, l.frame) then 0 else At(kept, p)[l]
  }

  /**
    A line whose own file held a floor line in its frame changed marker in place and stays net-new; of the
    others as many of each text were relocated as base lines are unmatched, or all.
  */
  ghost predicate Relocates(base: Side, head: Side, kept: DeferredPerFile, news: DeferredPerFile) {
    && (forall p, l: DeferredLine :: HeldFloor(base, p, l.frame) ==> At(news, p)[l] == At(kept, p)[l])
    && exists loose :: LooseIn(base, kept, loose) && TakesLoose(base, head, kept, news, loose)
  }

  ghost predicate TakesLoose(base: Side, head: Side, kept: DeferredPerFile, news: DeferredPerFile,
                             loose: DeferredPerFile)
  {
    forall t ::
      Unmatched(base.deferred, head.deferred, kept, t) >= 0
      && CanonicalTotal(news, t) + Min(CanonicalTotal(loose, t), Unmatched(base.deferred, head.deferred, kept, t))
         == CanonicalTotal(kept, t)
  }

  lemma NetNewRelocates(base: Side, head: Side, kept: DeferredPerFile, news: DeferredPerFile)
    requires NetNew(base.deferred, head.deferred, FramesOf(base.permanent), kept, news)
    ensures Relocates(base, head, kept, news)
  {
    HeldFloorsStay(base, kept, news);
    LooseAreFree(base, kept);
    assert TakesLoose(base, head, kept, news, Loose(kept, FramesOf(base.permanent)));
  }

  lemma HeldFloorsStay(base: Side, kept: DeferredPerFile, news: DeferredPerFile)
    requires Spares(kept, news, FramesOf(base.permanent))
    ensures forall p, l: DeferredLine :: HeldFloor(base, p, l.frame) ==> At(news, p)[l] == At(kept, p)[l]
  {
    forall p, l: DeferredLine | HeldFloor(base, p, l.frame)
      ensures At(news, p)[l] == At(kept, p)[l]
    {
      FramesOfHeld(base, p, l.frame);
    }
  }

  lemma LooseAreFree(base: Side, kept: DeferredPerFile)
    ensures LooseIn(base, kept, Loose(kept, FramesOf(base.permanent)))
  {
    forall p, l: DeferredLine
      ensures At(Loose(kept, FramesOf(base.permanent)), p)[l]
           == if HeldFloor(base, p, l.frame) then 0 else At(kept, p)[l]
    {
      FramesOfHeld(base, p, l.frame);
    }
  }

  ghost function ExaminedAt(base: Side, head: Side, branded: Text -> bool,
                            news: DeferredPerFile): (Path, Outcome) -> bool
  {
    (p: Path, o: Outcome) => Examined(FileAt(base, p), FileAt(head, p), branded, At(news, p), o)
  }

  /** The files with an outcome were examined, and nothing is excused elsewhere. */
  ghost predicate SoFar(examined: (Path, Outcome) -> bool, outcomes: map<Path, Outcome>, excused: PerFile) {
    && (forall p :: p in outcomes ==> examined(p, outcomes[p]))
    && (forall p :: At(excused, p) == if p in outcomes then outcomes[p].excused else multiset{})
  }

  lemma OneMore(examined: (Path, Outcome) -> bool, outcomes: map<Path, Outcome>, excused: PerFile, p: Path, o: Outcome)
    requires SoFar(examined, outcomes, excused) && examined(p, o)
    ensures SoFar(examined, outcomes[p := o], excused[p := o.excused])
  {
  }

  /** Each file's net-new lines were examined. */
  ghost predicate AllExamined(base: Side, head: Side, branded: Text -> bool, news: DeferredPerFile,
                              outcomes: map<Path, Outcome>, excused: PerFile)
  {
    outcomes.Keys == news.Keys && SoFar(ExaminedAt(base, head, branded, news), outcomes, excused)
  }

  lemma ExaminedIn(base: Side, head: Side, branded: Text -> bool, news: DeferredPerFile, outcomes: map<Path, Outcome>,
                   excused: PerFile, p: Path)
    requires AllExamined(base, head, branded, news, outcomes, excused) && p in news
    ensures Examined(FileAt(base, p), FileAt(head, p), branded, At(news, p), outcomes[p])
    ensures At(excused, p) == outcomes[p].excused
  {
    assert ExaminedAt(base, head, branded, news)(p, outcomes[p]);
  }

  method ExamineAt(base: Side, head: Side, branded: Text -> bool, news: DeferredPerFile, p: Path) returns (o: Outcome)
    ensures ExaminedAt(base, head, branded, news)(p, o)
  {
    o := ExamineFile(FileAt(base, p), FileAt(head, p), branded, At(news, p));
  }

  method ExamineFiles(base: Side, head: Side, branded: Text -> bool, news: DeferredPerFile)
    returns (excused: PerFile, outcomes: map<Path, Outcome>)
    ensures AllExamined(base, head, branded, news, outcomes, excused)
  {
    excused, outcomes := map[], map[];
    var todo := news.Keys;
    while todo != {}
      invariant todo <= news.Keys && outcomes.Keys == news.Keys - todo
      invariant SoFar(ExaminedAt(base, head, branded, news), outcomes, excused)
    {
      var p :| p in todo;
      var o := ExamineAt(base, head, branded, news, p);
      OneMore(ExaminedAt(base, head, branded, news), outcomes, excused, p, o);
      excused, outcomes, todo := excused[p := o.excused], outcomes[p := o], todo - {p};
    }
  }

  /**
    The gate.  Of a file's net-new deferred lines each is spent at most once, as an annotation or as the
    replacement of a floor line, and everything a file gained beyond the excused texts is minted or moved.
  */
  method RunGate(order: seq<Path>, base: Side, head: Side, added: set<Path>, deleted: set<Path>, branded: Text -> bool)
    returns (grown: PerFile, moves: PerFile, excused: PerFile,
             kept: DeferredPerFile, news: DeferredPerFile, outcomes: map<Path, Outcome>)
    requires VisitOrder(order, head.counted, added) && deleted !! head.counted.Keys
    ensures NetNew(base.deferred, head.deferred, FramesOf(base.permanent), kept, news)
    ensures Relocates(base, head, kept, news) && FirstGo(kept, news, FramesOf(base.permanent))
    ensures AllExamined(base, head, branded, news, outcomes, excused)
    ensures forall p ::
      p in outcomes ==> outcomes[p].annotated + outcomes[p].spent <= At(news, p) <= At(head.deferred, p)
    ensures Charges(head.counted, base.counted, excused, added, deleted, grown, moves)
    ensures grown == map[] <==>
      && Budget(head.counted, base.counted, excused) == multiset{}
      && Uninherited(head.counted, base.counted, excused, added, deleted) == multiset{}
  {
    news, kept := NewDeferred(base.deferred, head.deferred, FramesOf(base.permanent));
    NetNewRelocates(base, head, kept, news);
    excused, outcomes := ExamineFiles(base, head, branded, news);
    forall p | p in outcomes
      ensures outcomes[p].annotated + outcomes[p].spent <= At(news, p) <= At(head.deferred, p)
    {
      ExaminedIn(base, head, branded, news, outcomes, excused, p);
      SpentOnce(FileAt(base, p), FileAt(head, p), branded, At(news, p), outcomes[p]);
      assert At(news, p) <= At(kept, p) <= At(head.deferred, p);
    }
    grown, moves := ChargeChange(order, head.counted, base.counted, excused, added, deleted);
  }

  /**
    Per file the additions are minted or moved; the added files bear their uninherited additions, the others
    the rest of the budget.
  */
  ghost predicate Charges(head: PerFile, base: PerFile, excused: PerFile, added: set<Path>, deleted: set<Path>,
                          grown: PerFile, moves: PerFile)
  {
    && (forall p :: p in head ==> At(grown, p) + At(moves, p) == At(Additions(head, base, excused), p))
    && Total(Only(grown, added)) == Uninherited(head, base, excused, added, deleted)
    && Total(grown - added) == Budget(head, base, excused) - Uninherited(head, base, excused, added, deleted)
    && Total(grown) == Join(Budget(head, base, excused), Uninherited(head, base, excused, added, deleted))
  }

  lemma SpentOnce(base: File, head: File, branded: Text -> bool, news: multiset<DeferredLine>, o: Outcome)
    requires Examined(base, head, branded, news, o)
    ensures o.annotated + o.spent <= news
  {
    assert o.spent <= o.unallocated by {
      forall l
        ensures o.spent[l] <= o.unallocated[l]
      {
        assert o.spent[l] <= Branded(o.unallocated, branded)[l];
      }
    }
  }
}
