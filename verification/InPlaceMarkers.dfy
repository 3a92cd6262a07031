/**
  What the gate as a whole guarantees: no counted line is free unless a floor line gave
  way to it, and a change that only turns floor markers into deferred ones is free
  exactly when its lines can be told from the others of their text.
*/
module InPlaceMarkers {
  import opened Counters
  import opened MintLedger
  import opened TreeScan
  import opened DeferredMarkers
  import opened NewDeferredLines
  import opened Gate

  /* ---- counting by frame and by text ---- */

  /** A part with as many elements of every key is the whole. */
  lemma {:induction false} EqualByTally<T(!new), K(!new)>(part: multiset<T>, m: multiset<T>, key: T -> K)
    requires part <= m && forall k :: TallyBy(part, key, k) == TallyBy(m, key, k)
    ensures part == m
  {
    if x :| x in m - part {
      TallyOfPart(m, part, key, key(x));
      TallyDrop(m - part, key, x, key(x));
      assert false;
    }
    assert m == part + (m - part);
  }

  lemma {:induction false} PartTally<T, K>(part: multiset<T>, m: multiset<T>, key: T -> K, k: K)
    requires part <= m
    ensures TallyBy(part, key, k) <= TallyBy(m, key, k)
  {
    TallyOfPart(m, part, key, k);
  }

  /** The canonical text of a marked line is a function of its frame, for both kinds of marker. */
  ghost predicate Resolved(f: File, canon: Frame -> Text) {
    && (forall x :: x in f.permanent ==> x.canonical == canon(x.frame))
    && (forall l :: l in f.deferred ==> l.canonical == canon(l.frame))
  }

  ghost function Frames(m: multiset<Permanent>): multiset<Frame> {
    Image(m, FrameOf)
  }

  ghost function LineFrames(m: multiset<DeferredLine>): multiset<Frame> {
    Image(m, LineFrame)
  }

  lemma {:induction false} TextsByFrame(m: multiset<DeferredLine>, f: File, canon: Frame -> Text, t: Text)
    requires Resolved(f, canon) && m <= f.deferred
    ensures TallyBy(LineFrames(m), canon, t) == Texts(m, t)
  {
    forall l | l in m
      ensures LineCanonical(l) == canon(LineFrame(l))
    {
      assert l in f.deferred;
    }
    TallyOfImage(m, LineFrame, canon, LineCanonical, t);
  }

  lemma {:induction false} CanonicalByFrame(m: multiset<Permanent>, f: File, canon: Frame -> Text, t: Text)
    requires Resolved(f, canon) && m <= f.permanent
    ensures TallyBy(Frames(m), canon, t) == TallyBy(m, CanonicalOf, t)
  {
    forall x | x in m
      ensures CanonicalOf(x) == canon(FrameOf(x))
    {
      assert x in f.permanent;
    }
    TallyOfImage(m, FrameOf, canon, CanonicalOf, t);
  }

  lemma FloorsArePermanent(f: File)
    ensures Floors(f.permanent) <= f.permanent
  {
  }

  lemma ResolvedIsConsistent(base: File, head: File, canon: Frame -> Text)
    requires Resolved(base, canon) && Resolved(head, canon)
    ensures Consistent(Floors(base.permanent) + head.permanent)
  {
    forall x | x in Floors(base.permanent) + head.permanent
      ensures x.canonical == canon(x.frame)
    {
      assert x in base.permanent || x in head.permanent;
    }
  }

  /* ---- no free line ---- */

  /** The floor lines of a file beyond the permanent lines that survive there, by canonical text. */
  ghost function LostFloors(base: File, head: File): multiset<Text> {
    Image(Floors(base.permanent), CanonicalOf) - Image(head.permanent, CanonicalOf)
  }

  lemma {:induction false} SpentWithinFree(base: File, head: File, canon: Frame -> Text, spent: multiset<DeferredLine>,
                                           free: multiset<Permanent>, t: Text)
    requires Resolved(base, canon) && Resolved(head, canon) && spent <= head.deferred && free <= base.permanent
    requires LineFrames(spent) <= Frames(free)
    ensures Texts(spent, t) <= TallyBy(free, CanonicalOf, t)
  {
    TextsByFrame(spent, head, canon, t);
    CanonicalByFrame(free, base, canon, t);
    PartTally(LineFrames(spent), Frames(free), canon, t);
  }

  lemma SpentFrames(branded: Text -> bool, o: Outcome)
    requires Replaces(branded, o)
    ensures LineFrames(o.spent) <= Frames(o.free)
    ensures o.spent <= o.unallocated
  {
    forall l
      ensures o.spent[l] <= o.unallocated[l]
    {
      assert o.spent[l] <= Branded(o.unallocated, branded)[l];
    }
  }

  lemma Within<T>(a: multiset<T>, b: multiset<T>, c: multiset<T>)
    requires a <= b <= c
    ensures a <= c
  {
  }

  /** What is excused in a file is covered by floor lines that gave way there. */
  lemma {:induction false} ExcusedIsLost(base: File, head: File, canon: Frame -> Text, branded: Text -> bool,
                                         news: multiset<DeferredLine>, o: Outcome, t: Text)
    requires Resolved(base, canon) && Resolved(head, canon)
    requires Examined(base, head, branded, news, o) && news <= head.deferred
    ensures o.excused[t] <= LostFloors(base, head)[t]
  {
    SpentFrames(branded, o);
    assert o.unallocated <= news;
    Within(o.spent, o.unallocated, news);
    Within(o.spent, news, head.deferred);
    FloorsArePermanent(base);
    Within(o.free, Floors(base.permanent), base.permanent);
    SpentWithinFree(base, head, canon, o.spent, o.free, t);
    FreeIsLost(base, head, canon, o, t);
  }

  lemma FreeIsLost(base: File, head: File, canon: Frame -> Text, o: Outcome, t: Text)
    requires Resolved(base, canon) && Resolved(head, canon) && Frees(base, head, o)
    ensures TallyBy(o.free, CanonicalOf, t) == LostFloors(base, head)[t]
  {
    ResolvedIsConsistent(base, head, canon);
  }

  ghost function AllLostFloors(base: Side, head: Side, paths: set<Path>): PerFile {
    map p | p in paths :: LostFloors(FileAt(base, p), FileAt(head, p))
  }

  /** Every line the repo gains of a text is charged, or a floor line of the text gave way in a file. */
  lemma {:induction false} NoFreeLine(base: Side, head: Side, canon: Frame -> Text, branded: Text -> bool,
                                      kept: DeferredPerFile, news: DeferredPerFile,
                                      outcomes: map<Path, Outcome>, excused: PerFile, uninherited: multiset<Text>,
                                      grown: PerFile, t: Text)
    requires forall p :: Resolved(FileAt(base, p), canon) && Resolved(FileAt(head, p), canon)
    requires NetNew(base.deferred, head.deferred, FramesOf(base.permanent), kept, news)
    requires AllExamined(base, head, branded, news, outcomes, excused)
    requires Total(grown) == Join(Budget(head.counted, base.counted, excused), uninherited)
    ensures Total(head.counted)[t]
          <= Total(base.counted)[t] + Total(grown)[t] + Total(AllLostFloors(base, head, news.Keys))[t]
  {
    var lost := AllLostFloors(base, head, news.Keys);
    forall p | p in excused
      ensures excused[p] <= At(lost, p)
    {
      if p in news {
        NewsAreHeadLines(base, head, kept, news, p);
        ExaminedIn(base, head, branded, news, outcomes, excused, p);
        ExcusedWithin(FileAt(base, p), FileAt(head, p), canon, branded, At(news, p), outcomes[p]);
        assert excused[p] == At(excused, p) == outcomes[p].excused;
      } else {
        assert excused[p] == At(excused, p) == multiset{};
      }
    }
    TotalMonotone(excused, lost);
    BudgetBound(Total(head.counted), Total(base.counted), Total(excused), uninherited, t);
  }

  lemma ExcusedWithin(base: File, head: File, canon: Frame -> Text, branded: Text -> bool, news: multiset<DeferredLine>,
                      o: Outcome)
    requires Resolved(base, canon) && Resolved(head, canon)
    requires Examined(base, head, branded, news, o) && news <= head.deferred
    ensures o.excused <= LostFloors(base, head)
  {
    forall t
      ensures o.excused[t] <= LostFloors(base, head)[t]
    {
      ExcusedIsLost(base, head, canon, branded, news, o, t);
    }
  }

  lemma NewsAreHeadLines(base: Side, head: Side, kept: DeferredPerFile, news: DeferredPerFile, p: Path)
    requires NetNew(base.deferred, head.deferred, FramesOf(base.permanent), kept, news)
    ensures At(news, p) <= At(head.deferred, p)
  {
    assert Survive(At(head.deferred, p), At(base.deferred, p), At(kept, p));
    Within(At(news, p), At(kept, p), At(head.deferred, p));
  }

  lemma BudgetBound(h: multiset<Text>, b: multiset<Text>, e: multiset<Text>, u: multiset<Text>, t: Text)
    ensures h[t] <= b[t] + e[t] + Join(MintBudget(h, b + e), u)[t]
  {
  }

  /* ---- changing markers in place ---- */

  /**
    What a change does to one file: the floor lines `changed` become the deferred lines `markers`, and the
    deferred lines `gone` leave for other files while `came` arrive from them.
  */
  datatype Edit = Edit(changed: multiset<Permanent>, markers: multiset<DeferredLine>,
                       gone: multiset<DeferredLine>, came: multiset<DeferredLine>)

  /** Only the floor lines `changed` lose their permanent marker. */
  ghost predicate Demotes(base: File, head: File, changed: multiset<Permanent>) {
    changed <= Floors(base.permanent) && head.permanent + changed == base.permanent
  }

  /** The frames of the changed lines stay, and the lines are counted from now on. */
  ghost predicate InPlaceFile(base: File, head: File, e: Edit, canon: Frame -> Text, branded: Text -> bool) {
    && Resolved(base, canon) && Resolved(head, canon)
    && Demotes(base, head, e.changed)
    && e.gone <= base.deferred && head.deferred + e.gone == base.deferred + e.markers + e.came
    && head.counted + Image(e.gone, LineCanonical)
       == base.counted + Image(e.markers, LineCanonical) + Image(e.came, LineCanonical)
    && LineFrames(e.markers) == Frames(e.changed)
    && forall l :: l in e.markers ==> branded(l.canonical)
  }

  /** Permanent lines of the text that are not floor lines. */
  ghost function Aliases(f: File, t: Text): int {
    TallyBy(f.permanent, CanonicalOf, t) - TallyBy(Floors(f.permanent), CanonicalOf, t)
  }

  /**
    The new lines can be told apart: the lines that survive the file's own deferred lines fill the frames
    of the changed ones, and no alias line has a changed text.
  */
  ghost predicate Clean(base: File, head: File, changed: multiset<Permanent>) {
    && (exists rest :: Survive(head.deferred, base.deferred, rest) && Frames(changed) <= LineFrames(rest))
    && NoAliasesOf(base, changed)
  }

  ghost predicate NoAliasesOf(base: File, changed: multiset<Permanent>) {
    forall t :: TallyBy(changed, CanonicalOf, t) == 0 || Aliases(base, t) == 0
  }

  /** The plain counted lines of such a file are as many per text as before. */
  lemma {:induction false} PlainLinesStay(base: File, head: File, e: Edit, canon: Frame -> Text,
                                          branded: Text -> bool, t: Text)
    requires InPlaceFile(base, head, e, canon, branded)
    ensures PlainCount(base.counted, base.deferred, t) == PlainCount(head.counted, head.deferred, t)
  {
    DeferredTexts(head.deferred, e.gone, base.deferred, e.markers, e.came, t);
    CountedTexts(head.counted, Image(e.gone, LineCanonical), base.counted, Image(e.markers, LineCanonical),
                 Image(e.came, LineCanonical), t);
  }

  lemma {:induction false} DeferredTexts(a: multiset<DeferredLine>, b: multiset<DeferredLine>,
                                         c: multiset<DeferredLine>, d: multiset<DeferredLine>,
                                         e: multiset<DeferredLine>, t: Text)
    requires a + b == c + d + e
    ensures Texts(a, t) + Texts(b, t) == Texts(c, t) + Texts(d, t) + Texts(e, t)
  {
    TallyAdd(a, b, LineCanonical, t);
    TallyAdd(c, d, LineCanonical, t);
    TallyAdd(c + d, e, LineCanonical, t);
  }

  lemma CountedTexts(a: multiset<Text>, b: multiset<Text>, c: multiset<Text>, d: multiset<Text>, e: multiset<Text>,
                     t: Text)
    requires a + b == c + d + e
    ensures a[t] + b[t] == c[t] + d[t] + e[t]
  {
    assert (a + b)[t] == (c + d + e)[t];
  }

  lemma {:induction false} NoTextsNoLines(m: multiset<DeferredLine>)
    requires forall t :: Texts(m, t) == 0
    ensures m == multiset{}
  {
    if m != multiset{} {
      var l :| l in m;
      var n := Texts(m, l.canonical);
      TallyDrop(m, LineCanonical, l, l.canonical);
    }
  }

  /** No net-new line annotates an old line. */
  lemma {:induction false} NoneAnnotates(base: File, head: File, e: Edit, canon: Frame -> Text, branded: Text -> bool,
                                         news: multiset<DeferredLine>, o: Outcome)
    requires InPlaceFile(base, head, e, canon, branded) && Annotates(base, head, news, o)
    ensures o.unallocated == news
  {
    forall t
      ensures Texts(o.annotated, t) == 0
    {
      PlainLinesStay(base, head, e, canon, branded, t);
    }
    NoTextsNoLines(o.annotated);
  }

  lemma {:induction false} FreePerFrameOf(base: File, head: File, changed: multiset<Permanent>, o: Outcome, f: Frame)
    requires Demotes(base, head, changed) && Frees(base, head, o)
    ensures TallyBy(o.free, FrameOf, f) <= TallyBy(changed, FrameOf, f)
  {
    FloorsArePermanent(base);
    FreePerFrame(Floors(base.permanent), head.permanent, o.unclaimed, o.free, f);
    TallyAdd(head.permanent, changed, FrameOf, f);
    PartTally(Floors(base.permanent), base.permanent, FrameOf, f);
  }

  lemma {:induction false} FreePerText(base: File, head: File, changed: multiset<Permanent>, o: Outcome, t: Text)
    requires Demotes(base, head, changed) && Frees(base, head, o) && Consistent(Floors(base.permanent) + head.permanent)
    ensures Aliases(base, t) >= 0
    ensures TallyBy(o.free, CanonicalOf, t) == Excess0(TallyBy(changed, CanonicalOf, t), Aliases(base, t))
  {
    FloorsArePermanent(base);
    TallyAdd(head.permanent, changed, CanonicalOf, t);
    PartTally(Floors(base.permanent), base.permanent, CanonicalOf, t);
    PartTally(changed, Floors(base.permanent), CanonicalOf, t);
  }

  /**
    The free floor lines, by frame, are among the changed ones, and per text all of them unless an alias takes
    some.
  */
  lemma {:induction false} FreeAreChanged(base: File, head: File, changed: multiset<Permanent>, o: Outcome)
    requires Demotes(base, head, changed) && Frees(base, head, o) && Consistent(Floors(base.permanent) + head.permanent)
    ensures Frames(o.free) <= Frames(changed)
    ensures forall t :: Aliases(base, t) >= 0
    ensures forall t :: TallyBy(o.free, CanonicalOf, t) == Excess0(TallyBy(changed, CanonicalOf, t), Aliases(base, t))
  {
    forall f
      ensures Frames(o.free)[f] <= Frames(changed)[f]
    {
      FreePerFrameOf(base, head, changed, o, f);
    }
    forall t
      ensures TallyBy(o.free, CanonicalOf, t) == Excess0(TallyBy(changed, CanonicalOf, t), Aliases(base, t))
      ensures Aliases(base, t) >= 0
    {
      FreePerText(base, head, changed, o, t);
    }
  }

  ghost predicate SameTexts(a: multiset<Frame>, b: multiset<Frame>, canon: Frame -> Text) {
    forall t :: TallyBy(a, canon, t) == TallyBy(b, canon, t)
  }

  ghost predicate Unaliased(changed: multiset<Frame>, canon: Frame -> Text, aliases: Text -> int) {
    forall t :: TallyBy(changed, canon, t) == 0 || aliases(t) == 0
  }

  /** `free` are the changed frames but for those that aliases take. */
  ghost predicate FreeBut(free: multiset<Frame>, changed: multiset<Frame>, canon: Frame -> Text, aliases: Text -> int) {
    && free <= changed
    && forall t :: aliases(t) >= 0 && TallyBy(free, canon, t) == Excess0(TallyBy(changed, canon, t), aliases(t))
  }

  lemma {:induction false} UnaliasedIff(free: multiset<Frame>, changed: multiset<Frame>, canon: Frame -> Text,
                                        aliases: Text -> int)
    requires FreeBut(free, changed, canon, aliases)
    ensures Unaliased(changed, canon, aliases) <==> free == changed
  {
    if Unaliased(changed, canon, aliases) {
      forall t
        ensures TallyBy(free, canon, t) == TallyBy(changed, canon, t)
      {
        assert TallyBy(free, canon, t) == Excess0(TallyBy(changed, canon, t), aliases(t));
      }
      EqualByTally(free, changed, canon);
    }
    if free == changed {
      forall t
        ensures TallyBy(changed, canon, t) == 0 || aliases(t) == 0
      {
        assert TallyBy(free, canon, t) == Excess0(TallyBy(changed, canon, t), aliases(t)) && aliases(t) >= 0;
      }
    }
  }

  /** Pairing `news` with `free` frame by frame fills the changed frames if and only if both do. */
  lemma {:induction false} AllPairedIff(free: multiset<Frame>, news: multiset<Frame>, spent: multiset<Frame>,
                                        changed: multiset<Frame>, canon: Frame -> Text)
    requires forall f :: spent[f] == Min(free[f], news[f])
    requires free <= changed
    ensures SameTexts(spent, changed, canon) <==> changed <= news && free == changed
  {
    assert spent <= free;
    Within(spent, free, changed);
    if SameTexts(spent, changed, canon) {
      EqualByTally(spent, changed, canon);
      assert free == changed;
      assert spent <= news;
    }
    if changed <= news && free == changed {
      assert spent == changed;
    }
  }

  /** The same counts by frame and by text. */
  lemma {:induction false} CountsByFrame(base: File, head: File, e: Edit, canon: Frame -> Text, branded: Text -> bool,
                                         o: Outcome)
    requires InPlaceFile(base, head, e, canon, branded) && Frees(base, head, o) && o.spent <= head.deferred
    ensures forall t :: TallyBy(LineFrames(o.spent), canon, t) == Texts(o.spent, t)
    ensures forall t ::
      TallyBy(Frames(e.changed), canon, t) == Texts(e.markers, t) == TallyBy(e.changed, CanonicalOf, t)
    ensures forall t :: TallyBy(Frames(o.free), canon, t) == TallyBy(o.free, CanonicalOf, t)
  {
    FloorsArePermanent(base);
    Within(e.changed, Floors(base.permanent), base.permanent);
    Within(o.free, Floors(base.permanent), base.permanent);
    MarkersAreHeadLines(base, head, e, canon, branded);
    forall t
      ensures TallyBy(LineFrames(o.spent), canon, t) == Texts(o.spent, t)
      ensures TallyBy(Frames(e.changed), canon, t) == Texts(e.markers, t) == TallyBy(e.changed, CanonicalOf, t)
      ensures TallyBy(Frames(o.free), canon, t) == TallyBy(o.free, CanonicalOf, t)
    {
      TextsByFrame(e.markers, head, canon, t);
      TextsByFrame(o.spent, head, canon, t);
      CanonicalByFrame(e.changed, base, canon, t);
      CanonicalByFrame(o.free, base, canon, t);
    }
  }

  lemma MarkersAreHeadLines(base: File, head: File, e: Edit, canon: Frame -> Text, branded: Text -> bool)
    requires InPlaceFile(base, head, e, canon, branded)
    ensures e.markers <= head.deferred
  {
    LeftOver(head.deferred, e.gone, base.deferred, e.markers, e.came);
  }

  lemma LeftOver<T>(a: multiset<T>, b: multiset<T>, c: multiset<T>, d: multiset<T>, e: multiset<T>)
    requires a + b == c + d + e && b <= c
    ensures d <= a
  {
    forall x
      ensures d[x] <= a[x]
    {
      assert (a + b)[x] == (c + d + e)[x];
    }
  }

  ghost function AliasesOf(f: File): Text -> int {
    (t: Text) => Aliases(f, t)
  }

  lemma {:induction false} FreeIsChangedIff(base: File, head: File, changed: multiset<Permanent>,
                                            canon: Frame -> Text, o: Outcome)
    requires Demotes(base, head, changed) && Frees(base, head, o) && Consistent(Floors(base.permanent) + head.permanent)
    requires forall t :: TallyBy(Frames(changed), canon, t) == TallyBy(changed, CanonicalOf, t)
    requires forall t :: TallyBy(Frames(o.free), canon, t) == TallyBy(o.free, CanonicalOf, t)
    ensures Frames(o.free) <= Frames(changed)
    ensures Frames(o.free) == Frames(changed) <==> NoAliasesOf(base, changed)
  {
    FreeAreChanged(base, head, changed, o);
    assert FreeBut(Frames(o.free), Frames(changed), canon, AliasesOf(base));
    UnaliasedIff(Frames(o.free), Frames(changed), canon, AliasesOf(base));
  }

  /** All texts of the markers are excused when the lines spent have them. */
  lemma {:induction false} ExcusedIff(markers: multiset<DeferredLine>, changed: multiset<Frame>, canon: Frame -> Text,
                                      o: Outcome)
    requires LineFrames(o.spent) <= changed && forall t :: o.excused[t] == Texts(o.spent, t)
    requires forall t :: TallyBy(LineFrames(o.spent), canon, t) == Texts(o.spent, t)
    requires forall t :: TallyBy(changed, canon, t) == Texts(markers, t)
    ensures o.excused <= Image(markers, LineCanonical)
    ensures o.excused == Image(markers, LineCanonical) <==> SameTexts(LineFrames(o.spent), changed, canon)
  {
    forall t
      ensures o.excused[t] <= Image(markers, LineCanonical)[t]
    {
      PartTally(LineFrames(o.spent), changed, canon, t);
    }
    if SameTexts(LineFrames(o.spent), changed, canon) {
      forall t
        ensures o.excused[t] == Image(markers, LineCanonical)[t]
      {
        assert TallyBy(LineFrames(o.spent), canon, t) == TallyBy(changed, canon, t);
      }
    }
    if o.excused == Image(markers, LineCanonical) {
      forall t
        ensures TallyBy(LineFrames(o.spent), canon, t) == TallyBy(changed, canon, t)
      {
        assert o.excused[t] == Image(markers, LineCanonical)[t];
      }
    }
  }

  /** The lines in the frames of the changed ones, which no other file's lines cancel. */
  ghost predicate KeepsFrames(kept: multiset<DeferredLine>, news: multiset<DeferredLine>,
                              changed: multiset<Permanent>)
  {
    news <= kept && forall l: DeferredLine :: l.frame in Frames(changed) ==> news[l] == kept[l]
  }

  lemma {:induction false} FileIsFreeIff(base: File, head: File, e: Edit, canon: Frame -> Text, branded: Text -> bool,
                                         kept: multiset<DeferredLine>, news: multiset<DeferredLine>, o: Outcome)
    requires InPlaceFile(base, head, e, canon, branded)
    requires Survive(head.deferred, base.deferred, kept) && KeepsFrames(kept, news, e.changed)
    requires Examined(base, head, branded, news, o)
    ensures o.excused <= Image(e.markers, LineCanonical)
    ensures o.excused == Image(e.markers, LineCanonical) <==> Clean(base, head, e.changed)
  {
    NoneAnnotates(base, head, e, canon, branded, news, o);
    SpentOf(head, kept, news, branded, o);
    CountsByFrame(base, head, e, canon, branded, o);
    ResolvedIsConsistent(base, head, canon);
    FreeIsChangedIff(base, head, e.changed, canon, o);
    ChangedFrames(base, head, e, canon, branded, kept, news);
    PairsFill(Frames(e.changed), canon, kept, news, branded, o);
    ExcusedIff(e.markers, Frames(e.changed), canon, o);
    CleanIff(base, head, e.changed, kept);
  }

  lemma SpentOf(head: File, kept: multiset<DeferredLine>, news: multiset<DeferredLine>, branded: Text -> bool,
                o: Outcome)
    requires kept <= head.deferred && news <= kept && Replaces(branded, o) && o.unallocated == news
    ensures o.spent <= head.deferred
    ensures forall f :: LineFrames(o.spent)[f] == Min(Frames(o.free)[f], LineFrames(Branded(news, branded))[f])
    ensures forall t :: o.excused[t] == Texts(o.spent, t)
  {
    SpentFrames(branded, o);
    Within(o.spent, news, kept);
    Within(o.spent, kept, head.deferred);
  }

  /** The lines spent fill the changed frames exactly when the free ones and the lines kept do. */
  lemma {:induction false} PairsFill(changed: multiset<Frame>, canon: Frame -> Text, kept: multiset<DeferredLine>,
                                     news: multiset<DeferredLine>, branded: Text -> bool, o: Outcome)
    requires forall f :: LineFrames(o.spent)[f] == Min(Frames(o.free)[f], LineFrames(Branded(news, branded))[f])
    requires Frames(o.free) <= changed
    requires changed <= LineFrames(Branded(news, branded)) <==> changed <= LineFrames(kept)
    ensures LineFrames(o.spent) <= changed
    ensures SameTexts(LineFrames(o.spent), changed, canon) <==> changed <= LineFrames(kept) && Frames(o.free) == changed
  {
    AllPairedIff(Frames(o.free), LineFrames(Branded(news, branded)), LineFrames(o.spent), changed, canon);
    assert LineFrames(o.spent) <= Frames(o.free);
    Within(LineFrames(o.spent), Frames(o.free), changed);
  }

  /** In the frames of the changed lines nothing is lost to other files or for lack of a brand. */
  lemma {:induction false} ChangedFrames(base: File, head: File, e: Edit, canon: Frame -> Text, branded: Text -> bool,
                                         kept: multiset<DeferredLine>, news: multiset<DeferredLine>)
    requires InPlaceFile(base, head, e, canon, branded) && kept <= head.deferred && KeepsFrames(kept, news, e.changed)
    ensures Frames(e.changed) <= LineFrames(Branded(news, branded)) <==> Frames(e.changed) <= LineFrames(kept)
  {
    forall f | f in Frames(e.changed)
      ensures LineFrames(Branded(news, branded))[f] == LineFrames(kept)[f]
    {
      BrandedFrame(base, head, e, canon, branded, f);
      forall l: DeferredLine | l.frame == f
        ensures Branded(news, branded)[l] == kept[l]
      {
        if l in kept {
          assert l in head.deferred;
        }
      }
      SameInFrame(Branded(news, branded), kept, f);
    }
    FramesFilled(Frames(e.changed), LineFrames(Branded(news, branded)), LineFrames(kept));
  }

  lemma FramesFilled(changed: multiset<Frame>, a: multiset<Frame>, b: multiset<Frame>)
    requires forall f :: f in changed ==> a[f] == b[f]
    ensures changed <= a <==> changed <= b
  {
    if changed <= a {
      assert forall f :: changed[f] <= b[f];
    }
    if changed <= b {
      assert forall f :: changed[f] <= a[f];
    }
  }

  /** The text of a changed frame is one the gate looks for. */
  lemma {:induction false} BrandedFrame(base: File, head: File, e: Edit, canon: Frame -> Text, branded: Text -> bool,
                                        f: Frame)
    requires InPlaceFile(base, head, e, canon, branded) && f in Frames(e.changed)
    ensures branded(canon(f))
  {
    MarkersAreHeadLines(base, head, e, canon, branded);
    assert LineFrames(e.markers)[f] > 0;
    TallyPositive(e.markers, LineFrame, f);
    var l :| l in e.markers && LineFrame(l) == f;
    assert l in head.deferred;
  }

  lemma {:induction false} SameInFrame(a: multiset<DeferredLine>, b: multiset<DeferredLine>, f: Frame)
    requires forall l: DeferredLine :: l.frame == f ==> a[l] == b[l]
    ensures TallyBy(a, LineFrame, f) == TallyBy(b, LineFrame, f)
  {
    TallyOfAll(a * b, a, LineFrame, f);
    TallyOfAll(a * b, b, LineFrame, f);
  }

  lemma {:induction false} CleanIff(base: File, head: File, changed: multiset<Permanent>, kept: multiset<DeferredLine>)
    requires Survive(head.deferred, base.deferred, kept)
    ensures Clean(base, head, changed) <==> Frames(changed) <= LineFrames(kept) && NoAliasesOf(base, changed)
  {
    if rest :| Survive(head.deferred, base.deferred, rest) && Frames(changed) <= LineFrames(rest) {
      SurvivorsAreUnique(head.deferred, base.deferred, rest, kept);
    }
  }

  /* ---- the whole change ---- */

  /** What a change does to every file. */
  datatype Edits = Edits(changed: map<Path, multiset<Permanent>>, markers: DeferredPerFile,
                         gone: DeferredPerFile, came: DeferredPerFile)

  function EditAt(es: Edits, p: Path): Edit {
    Edit(At(es.changed, p), At(es.markers, p), At(es.gone, p), At(es.came, p))
  }

  /** Markers change in place, and as many deferred lines of each text arrive in files as leave others. */
  ghost predicate InPlaceChange(base: Side, head: Side, es: Edits, canon: Frame -> Text, branded: Text -> bool) {
    && (forall p :: InPlaceFile(FileAt(base, p), FileAt(head, p), EditAt(es, p), canon, branded))
    && (forall t :: CanonicalTotal(es.gone, t) == CanonicalTotal(es.came, t))
  }

  ghost function TextsOf(m: DeferredPerFile): PerFile {
    map p | p in m :: Image(m[p], LineCanonical)
  }

  lemma TextsAt(m: DeferredPerFile, p: Path)
    ensures At(TextsOf(m), p) == Image(At(m, p), LineCanonical)
  {
  }

  lemma {:induction false} SumOfTexts(order: seq<Path>, m: DeferredPerFile, texts: PerFile, t: Text)
    requires forall p :: At(texts, p)[t] == Texts(At(m, p), t)
    ensures SumOver(order, texts)[t] == Texts(SumOver(order, m), t)
  {
    if order != [] {
      var p, rest := order[|order| - 1], order[..|order| - 1];
      SumOfTexts(rest, m, texts, t);
      TallyAdd(SumOver(rest, m), At(m, p), LineCanonical, t);
      AddAt(SumOver(rest, texts), At(texts, p), t);
    }
  }

  lemma AddAt<T>(a: multiset<T>, b: multiset<T>, t: T)
    ensures (a + b)[t] == a[t] + b[t]
  {
  }

  lemma {:induction false} TotalOfTexts(m: DeferredPerFile, t: Text)
    ensures Total(TextsOf(m))[t] == CanonicalTotal(m, t)
  {
    var order := Listed(m.Keys);
    forall p
      ensures At(TextsOf(m), p)[t] == Texts(At(m, p), t)
    {
      TextsAt(m, p);
    }
    SumOfTexts(order, m, TextsOf(m), t);
    SumOverTotal(order, m);
    SumOverTotal(order, TextsOf(m));
  }

  /** Files that are nowhere more, and in total no less, are everywhere the same. */
  lemma {:induction false} EqualInTotal(a: PerFile, b: PerFile, p: Path)
    requires forall q :: At(a, q) <= At(b, q)
    requires Total(b) <= Total(a)
    ensures At(a, p) == At(b, p)
  {
    TotalDrop(a, p);
    TotalDrop(b, p);
    forall q | q in a - {p}
      ensures (a - {p})[q] <= At(b - {p}, q)
    {
      assert At(a, q) <= At(b, q);
    }
    TotalMonotone(a - {p}, b - {p});
    Squeeze(At(a, p), At(b, p), Total(a - {p}), Total(b - {p}));
  }

  lemma Squeeze<T>(a: multiset<T>, b: multiset<T>, c: multiset<T>, d: multiset<T>)
    requires a <= b && c <= d && b + d <= a + c
    ensures a == b
  {
    forall x
      ensures a[x] == b[x]
    {
      assert (b + d)[x] <= (a + c)[x];
    }
  }

  lemma {:induction false} NoFramesNoLines(m: multiset<Permanent>)
    requires Frames(m) == multiset{}
    ensures m == multiset{}
  {
    forall x
      ensures m[x] == 0
    {
      TallyDrop(m, FrameOf, x, x.frame);
      assert Frames(m)[x.frame] == 0;
    }
  }

  lemma {:induction false} UntouchedIsClean(base: File, head: File, e: Edit, canon: Frame -> Text,
                                            branded: Text -> bool)
    requires InPlaceFile(base, head, e, canon, branded) && head.deferred == multiset{}
    ensures Image(e.markers, LineCanonical) == multiset{} && Clean(base, head, e.changed)
  {
    MarkersAreHeadLines(base, head, e, canon, branded);
    assert e.markers == multiset{};
    NoFramesNoLines(e.changed);
    assert Survive(head.deferred, base.deferred, multiset{});
  }

  /** A changed line leaves a frame where the file held a floor line. */
  lemma {:induction false} ChangedFramesWereHeld(base: Side, es: Edits, kept: DeferredPerFile, news: DeferredPerFile,
                                                 p: Path)
    requires At(es.changed, p) <= Floors(At(base.permanent, p)) && At(news, p) <= At(kept, p)
    requires forall l: DeferredLine :: HeldFloor(base, p, l.frame) ==> At(news, p)[l] == At(kept, p)[l]
    ensures KeepsFrames(At(kept, p), At(news, p), At(es.changed, p))
  {
    var changed := At(es.changed, p);
    forall l: DeferredLine | l.frame in Frames(changed)
      ensures At(news, p)[l] == At(kept, p)[l]
    {
      TallyPositive(changed, FrameOf, l.frame);
      var x :| x in changed && FrameOf(x) == l.frame;
      assert x in Floors(At(base.permanent, p));
      assert HeldFloor(base, p, l.frame);
    }
  }

  /** One file of the whole change; `seen` says that it had deferred lines to examine. */
  lemma {:induction false} FileOfChange(base: File, head: File, e: Edit, canon: Frame -> Text, branded: Text -> bool,
                                        kept: multiset<DeferredLine>, news: multiset<DeferredLine>, seen: bool,
                                        o: Outcome)
    requires InPlaceFile(base, head, e, canon, branded)
    requires Survive(head.deferred, base.deferred, kept) && KeepsFrames(kept, news, e.changed)
    requires if seen then Examined(base, head, branded, news, o) else head.deferred == multiset{}
    ensures var excused := if seen then o.excused else multiset{};
      && excused <= Image(e.markers, LineCanonical)
      && (excused == Image(e.markers, LineCanonical) <==> Clean(base, head, e.changed))
  {
    if seen {
      FileIsFreeIff(base, head, e, canon, branded, kept, news, o);
    } else {
      UntouchedIsClean(base, head, e, canon, branded);
    }
  }

  /** What is known of each file: its edit, the lines kept, and what was examined. */
  ghost function Edited(base: Side, head: Side, es: Edits, canon: Frame -> Text, branded: Text -> bool): Path -> bool {
    (p: Path) => InPlaceFile(FileAt(base, p), FileAt(head, p), EditAt(es, p), canon, branded)
  }

  ghost function Kept(base: Side, head: Side, es: Edits, kept: DeferredPerFile, news: DeferredPerFile): Path -> bool {
    (p: Path) =>
      && Survive(At(head.deferred, p), At(base.deferred, p), At(kept, p))
      && KeepsFrames(At(kept, p), At(news, p), At(es.changed, p))
  }

  ghost function ExaminedOrNone(base: Side, head: Side, branded: Text -> bool,
                                news: DeferredPerFile): (Path, Outcome) -> bool
  {
    (p: Path, o: Outcome) =>
      if p in news then Examined(FileAt(base, p), FileAt(head, p), branded, At(news, p), o)
      else At(head.deferred, p) == multiset{}
  }

  /** What was examined in a file, and what is excused there. */
  lemma OutcomeOf(base: Side, head: Side, branded: Text -> bool, kept: DeferredPerFile, news: DeferredPerFile,
                  outcomes: map<Path, Outcome>, excused: PerFile, p: Path) returns (o: Outcome)
    requires NetNew(base.deferred, head.deferred, FramesOf(base.permanent), kept, news)
    requires AllExamined(base, head, branded, news, outcomes, excused)
    ensures At(excused, p) == if p in news then o.excused else multiset{}
    ensures ExaminedOrNone(base, head, branded, news)(p, o)
  {
    if p in news {
      o := outcomes[p];
      ExaminedIn(base, head, branded, news, outcomes, excused, p);
    } else {
      o := Outcome(multiset{}, multiset{}, multiset{}, multiset{}, multiset{}, multiset{});
    }
  }

  lemma EditOf(base: Side, head: Side, es: Edits, canon: Frame -> Text, branded: Text -> bool, p: Path)
    requires InPlaceChange(base, head, es, canon, branded)
    ensures Edited(base, head, es, canon, branded)(p) && At(es.changed, p) <= Floors(At(base.permanent, p))
  {
  }

  lemma NewsOf(base: Side, head: Side, es: Edits, kept: DeferredPerFile, news: DeferredPerFile, p: Path)
    requires NetNew(base.deferred, head.deferred, FramesOf(base.permanent), kept, news)
    requires Relocates(base, head, kept, news) && At(es.changed, p) <= Floors(At(base.permanent, p))
    ensures Kept(base, head, es, kept, news)(p)
  {
    ChangedFramesWereHeld(base, es, kept, news, p);
  }

  lemma {:induction false} CountedTotals(base: Side, head: Side, es: Edits, canon: Frame -> Text,
                                         branded: Text -> bool)
    requires InPlaceChange(base, head, es, canon, branded)
    ensures Total(base.counted) + Total(TextsOf(es.markers)) == Total(head.counted)
  {
    var came, gone := TextsOf(es.came), TextsOf(es.gone);
    var order := Listed(base.counted.Keys + head.counted.Keys + es.markers.Keys + es.came.Keys + es.gone.Keys);
    forall p
      ensures At(base.counted, p) + At(TextsOf(es.markers), p) + At(came, p) == At(head.counted, p) + At(gone, p)
    {
      TextsAt(es.markers, p);
      TextsAt(es.came, p);
      TextsAt(es.gone, p);
      assert InPlaceFile(FileAt(base, p), FileAt(head, p), EditAt(es, p), canon, branded);
    }
    SumsOfFive(order, base.counted, TextsOf(es.markers), came, head.counted, gone);
    SumOverTotal(order, base.counted);
    SumOverTotal(order, TextsOf(es.markers));
    SumOverTotal(order, came);
    SumOverTotal(order, head.counted);
    SumOverTotal(order, gone);
    forall t
      ensures Total(came)[t] == Total(gone)[t]
    {
      TotalOfTexts(es.came, t);
      TotalOfTexts(es.gone, t);
    }
    CancelSame(Total(base.counted) + Total(TextsOf(es.markers)), Total(came), Total(head.counted), Total(gone));
  }

  lemma CancelSame<T>(a: multiset<T>, b: multiset<T>, c: multiset<T>, d: multiset<T>)
    requires a + b == c + d && b == d
    ensures a == c
  {
    forall x
      ensures a[x] == c[x]
    {
      assert (a + b)[x] == (c + d)[x];
    }
  }

  lemma BalanceFive<T>(a: multiset<T>, b: multiset<T>, c: multiset<T>, d: multiset<T>, e: multiset<T>,
                       a': multiset<T>, b': multiset<T>, c': multiset<T>, d': multiset<T>, e': multiset<T>)
    requires a + b + c == d + e && a' + b' + c' == d' + e'
    ensures (a + a') + (b + b') + (c + c') == (d + d') + (e + e')
  {
    forall x
      ensures ((a + a') + (b + b') + (c + c'))[x] == ((d + d') + (e + e'))[x]
    {
      assert (a + b + c)[x] == (d + e)[x] && (a' + b' + c')[x] == (d' + e')[x];
    }
  }

  lemma {:induction false} SumsOfFive(order: seq<Path>, a: PerFile, b: PerFile, c: PerFile, d: PerFile, e: PerFile)
    requires forall p :: At(a, p) + At(b, p) + At(c, p) == At(d, p) + At(e, p)
    ensures SumOver(order, a) + SumOver(order, b) + SumOver(order, c) == SumOver(order, d) + SumOver(order, e)
  {
    if order != [] {
      var p, rest := order[|order| - 1], order[..|order| - 1];
      SumsOfFive(rest, a, b, c, d, e);
      BalanceFive(SumOver(rest, a), SumOver(rest, b), SumOver(rest, c), SumOver(rest, d), SumOver(rest, e),
                  At(a, p), At(b, p), At(c, p), At(d, p), At(e, p));
    }
  }

  /** The budget of such a change is what is not excused of its markers. */
  lemma {:induction false} BudgetIsUnexcused(base: Side, head: Side, es: Edits, canon: Frame -> Text,
                                             branded: Text -> bool, excused: PerFile)
    requires InPlaceChange(base, head, es, canon, branded)
    requires forall p :: At(excused, p) <= At(TextsOf(es.markers), p)
    ensures Budget(head.counted, base.counted, excused) == multiset{} <==> AllExcused(excused, TextsOf(es.markers))
  {
    CountedTotals(base, head, es, canon, branded);
    NoBudgetIff(Total(head.counted), Total(base.counted), Total(TextsOf(es.markers)), Total(excused));
    if Total(TextsOf(es.markers)) <= Total(excused) {
      forall p
        ensures At(excused, p) == At(TextsOf(es.markers), p)
      {
        EqualInTotal(excused, TextsOf(es.markers), p);
      }
    }
    if AllExcused(excused, TextsOf(es.markers)) {
      TotalMonotone(TextsOf(es.markers), excused);
    }
  }

  lemma NoBudgetIff(h: multiset<Text>, b: multiset<Text>, m: multiset<Text>, e: multiset<Text>)
    requires b + m == h
    ensures MintBudget(h, b + e) == multiset{} <==> m <= e
  {
    forall t
      ensures MintBudget(h, b + e)[t] == Excess0(m[t], e[t])
    {
      assert (b + m)[t] == h[t];
    }
    if MintBudget(h, b + e) == multiset{} {
      forall t
        ensures m[t] <= e[t]
      {
        assert MintBudget(h, b + e)[t] == 0;
      }
    }
  }

  /**
    A change that turns floor markers into deferred ones in place, and may relocate deferred lines between
    existing files, is charged nothing if and only if every file is clean.
  */
  method InPlaceGate(order: seq<Path>, base: Side, head: Side, branded: Text -> bool, ghost es: Edits,
                     ghost canon: Frame -> Text)
    returns (grown: PerFile, moves: PerFile)
    requires VisitOrder(order, head.counted, {})
    requires InPlaceChange(base, head, es, canon, branded)
    ensures grown == map[] <==> AllClean(base, head, es)
  {
    var excused, kept, news, outcomes;
    grown, moves, excused, kept, news, outcomes := RunGate(order, base, head, {}, {}, branded);
    InPlaceIsFreeIff(base, head, es, canon, branded, kept, news, outcomes, excused);
  }

  ghost predicate AllClean(base: Side, head: Side, es: Edits) {
    forall p :: Clean(FileAt(base, p), FileAt(head, p), At(es.changed, p))
  }

  lemma {:induction false} InPlaceIsFreeIff(base: Side, head: Side, es: Edits, canon: Frame -> Text,
                                            branded: Text -> bool, kept: DeferredPerFile, news: DeferredPerFile,
                                            outcomes: map<Path, Outcome>, excused: PerFile)
    requires InPlaceChange(base, head, es, canon, branded)
    requires NetNew(base.deferred, head.deferred, FramesOf(base.permanent), kept, news)
    requires Relocates(base, head, kept, news)
    requires AllExamined(base, head, branded, news, outcomes, excused)
    ensures Budget(head.counted, base.counted, excused) == multiset{} <==> AllClean(base, head, es)
    ensures Uninherited(head.counted, base.counted, excused, {}, {}) == multiset{}
  {
    forall p
      ensures Verdict(base, head, es, excused)(p)
    {
      VerdictAt(base, head, es, canon, branded, kept, news, outcomes, excused, p);
    }
    CleanIsExcused(base, head, es, excused);
    BudgetIsUnexcused(base, head, es, canon, branded, excused);
    NoneAdded(head.counted, base.counted, excused);
  }

  lemma NoneAdded(head: PerFile, base: PerFile, excused: PerFile)
    ensures Uninherited(head, base, excused, {}, {}) == multiset{}
  {
    assert Only(Additions(head, base, excused), {}) == map[];
  }

  ghost predicate AllExcused(excused: PerFile, texts: PerFile) {
    forall p :: At(excused, p) == At(texts, p)
  }

  lemma CleanAt(base: Side, head: Side, es: Edits, canon: Frame -> Text, branded: Text -> bool,
                kept: DeferredPerFile, news: DeferredPerFile, excused: PerFile, p: Path, o: Outcome)
    requires Edited(base, head, es, canon, branded)(p) && Kept(base, head, es, kept, news)(p)
    requires ExaminedOrNone(base, head, branded, news)(p, o)
    requires At(excused, p) == if p in news then o.excused else multiset{}
    ensures Verdict(base, head, es, excused)(p)
  {
    TextsAt(es.markers, p);
    FileOfChange(FileAt(base, p), FileAt(head, p), EditAt(es, p), canon, branded, At(kept, p), At(news, p),
                 p in news, o);
  }

  /** What is excused in a file is what its markers need exactly when it is clean. */
  ghost function Verdict(base: Side, head: Side, es: Edits, excused: PerFile): Path -> bool {
    (p: Path) =>
      && At(excused, p) <= At(TextsOf(es.markers), p)
      && (At(excused, p) == At(TextsOf(es.markers), p) <==> Clean(FileAt(base, p), FileAt(head, p), At(es.changed, p)))
  }

  lemma {:induction false} VerdictAt(base: Side, head: Side, es: Edits, canon: Frame -> Text,
                                     branded: Text -> bool, kept: DeferredPerFile, news: DeferredPerFile,
                                     outcomes: map<Path, Outcome>, excused: PerFile, p: Path)
    requires InPlaceChange(base, head, es, canon, branded)
    requires NetNew(base.deferred, head.deferred, FramesOf(base.permanent), kept, news)
    requires Relocates(base, head, kept, news)
    requires AllExamined(base, head, branded, news, outcomes, excused)
    ensures Verdict(base, head, es, excused)(p)
  {
    EditOf(base, head, es, canon, branded, p);
    NewsOf(base, head, es, kept, news, p);
    var o := OutcomeOf(base, head, branded, kept, news, outcomes, excused, p);
    CleanAt(base, head, es, canon, branded, kept, news, excused, p, o);
  }

  lemma {:induction false} CleanIsExcused(base: Side, head: Side, es: Edits, excused: PerFile)
    requires forall p :: Verdict(base, head, es, excused)(p)
    ensures forall p :: At(excused, p) <= At(TextsOf(es.markers), p)
    ensures AllExcused(excused, TextsOf(es.markers)) <==> AllClean(base, head, es)
  {
    forall p
      ensures At(excused, p) <= At(TextsOf(es.markers), p)
      ensures At(excused, p) == At(TextsOf(es.markers), p)
              <==> Clean(FileAt(base, p), FileAt(head, p), At(es.changed, p))
    {
      assert Verdict(base, head, es, excused)(p);
    }
  }

  /* ---- when a file is clean, and two ways in which it is not ---- */

  /** A file is clean when no deferred line of the base and no alias line has the text of a changed line. */
  lemma {:induction false} PlainFileIsClean(base: File, head: File, e: Edit, canon: Frame -> Text,
                                            branded: Text -> bool, kept: multiset<DeferredLine>)
    requires InPlaceFile(base, head, e, canon, branded) && Survive(head.deferred, base.deferred, kept)
    requires forall t ::
      TallyBy(e.changed, CanonicalOf, t) > 0 ==> Aliases(base, t) == 0 && Texts(base.deferred, t) == 0
    ensures Clean(base, head, e.changed)
  {
    MarkersAreHeadLines(base, head, e, canon, branded);
    forall f | f in Frames(e.changed)
      ensures Frames(e.changed)[f] <= LineFrames(kept)[f]
    {
      NoneTakenInFrame(base, head, e, canon, branded, kept, f);
      SameInFrame(kept, head.deferred, f);
      PartTally(e.markers, head.deferred, LineFrame, f);
      assert LineFrames(e.markers)[f] == Frames(e.changed)[f];
    }
    assert forall f :: Frames(e.changed)[f] <= LineFrames(kept)[f];
  }

  lemma {:induction false} NoneTakenInFrame(base: File, head: File, e: Edit, canon: Frame -> Text,
                                            branded: Text -> bool, kept: multiset<DeferredLine>, f: Frame)
    requires InPlaceFile(base, head, e, canon, branded) && Survive(head.deferred, base.deferred, kept)
    requires forall t :: TallyBy(e.changed, CanonicalOf, t) > 0 ==> Texts(base.deferred, t) == 0
    requires f in Frames(e.changed)
    ensures forall l: DeferredLine :: l.frame == f ==> kept[l] == head.deferred[l]
  {
    TallyPositive(e.changed, FrameOf, f);
    var x :| x in e.changed && FrameOf(x) == f;
    assert x in Floors(base.permanent) && x in base.permanent && x.canonical == canon(f);
    TallyDrop(e.changed, CanonicalOf, x, canon(f));
    assert Texts(kept, canon(f)) == Excess0(Texts(head.deferred, canon(f)), Texts(base.deferred, canon(f)));
    forall l: DeferredLine | l.frame == f
      ensures kept[l] == head.deferred[l]
    {
      if kept[l] < head.deferred[l] {
        assert l in head.deferred && l.canonical == canon(f);
        FewerLines(kept, head.deferred, l);
      }
    }
  }

  lemma {:induction false} TallyOne<T, K>(x: T, key: T -> K, k: K)
    ensures TallyBy(multiset{x}, key, k) == if key(x) == k then 1 else 0
  {
    TallyDrop(multiset{x}, key, x, k);
    assert multiset{x}[x := 0] == multiset{};
  }

  lemma {:induction false} TallyTwo<T, K>(x: T, y: T, key: T -> K, k: K)
    ensures TallyBy(multiset{x, y}, key, k) == (if key(x) == k then 1 else 0) + if key(y) == k then 1 else 0
  {
    assert multiset{x, y} == multiset{x} + multiset{y};
    TallyAdd(multiset{x}, multiset{y}, key, k);
    TallyOne(x, key, k);
    TallyOne(y, key, k);
  }

  lemma {:induction false} FramesOfOne(x: Permanent, l: DeferredLine)
    requires x.frame == l.frame
    ensures LineFrames(multiset{l}) == Frames(multiset{x})
    ensures Image(multiset{l}, LineCanonical) == multiset{l.canonical}
  {
    forall f
      ensures LineFrames(multiset{l})[f] == Frames(multiset{x})[f]
    {
      TallyOne(x, FrameOf, f);
      TallyOne(l, LineFrame, f);
    }
    forall t
      ensures Image(multiset{l}, LineCanonical)[t] == multiset{l.canonical}[t]
    {
      TallyOne(l, LineCanonical, t);
    }
  }

  /** A tree of one file. */
  function OneFile(p: Path, f: File): Side {
    Side(map[p := f.counted], map[p := f.permanent], map[p := f.deferred])
  }

  /** An edit of one file that moves nothing. */
  function OneEdit(p: Path, floor: Permanent, l: DeferredLine): Edits {
    Edits(map[p := multiset{floor}], map[p := multiset{l}], map[], map[])
  }

  /** What a change does to one file is what it does to the tree of that file. */
  lemma {:induction false} LiftFile(p: Path, base: File, head: File, floor: Permanent, l: DeferredLine,
                                    canon: Frame -> Text, branded: Text -> bool)
    requires InPlaceFile(base, head, Edit(multiset{floor}, multiset{l}, multiset{}, multiset{}), canon, branded)
    ensures InPlaceChange(OneFile(p, base), OneFile(p, head), OneEdit(p, floor, l), canon, branded)
    ensures AllClean(OneFile(p, base), OneFile(p, head), OneEdit(p, floor, l)) ==> Clean(base, head, multiset{floor})
  {
    var b, h, es := OneFile(p, base), OneFile(p, head), OneEdit(p, floor, l);
    assert FileAt(b, p) == base && FileAt(h, p) == head && At(es.changed, p) == multiset{floor};
    forall q
      ensures InPlaceFile(FileAt(b, q), FileAt(h, q), EditAt(es, q), canon, branded)
    {
      if q != p {
        NothingInPlace(canon, branded);
      }
    }
  }

  lemma NothingInPlace(canon: Frame -> Text, branded: Text -> bool)
    ensures var none := File(multiset{}, multiset{}, multiset{});
      InPlaceFile(none, none, Edit(multiset{}, multiset{}, multiset{}, multiset{}), canon, branded)
  {
    assert LineFrames(multiset{}) == Frames(multiset{});
    assert Image<DeferredLine, Text>(multiset{}, LineCanonical) == multiset{};
  }

  /** One floor line changed into one deferred line. */
  lemma OneLineInPlace(base: File, head: File, floor: Permanent, l: DeferredLine, canon: Frame -> Text,
                       branded: Text -> bool)
    requires Resolved(base, canon) && Resolved(head, canon)
    requires floor.frame == l.frame && branded(l.canonical) && floor in Floors(base.permanent)
    requires head.permanent + multiset{floor} == base.permanent && head.deferred == base.deferred + multiset{l}
    requires head.counted == base.counted + multiset{l.canonical}
    ensures InPlaceFile(base, head, Edit(multiset{floor}, multiset{l}, multiset{}, multiset{}), canon, branded)
  {
    FramesOfOne(floor, l);
    assert Image<DeferredLine, Text>(multiset{}, LineCanonical) == multiset{};
  }

  /** An alias line beside the floor line claims it, although it was there before. */
  lemma {:induction false} AliasIsNotClean(floor: Permanent, alias: Permanent, l: DeferredLine)
    requires floor.isFloor && !alias.isFloor && alias.canonical == floor.canonical
    ensures !Clean(AliasFiles(floor, alias, l).0, AliasFiles(floor, alias, l).1, multiset{floor})
  {
    var base, t := AliasFiles(floor, alias, l).0, floor.canonical;
    TallyTwo(floor, alias, CanonicalOf, t);
    TallyOne(floor, CanonicalOf, t);
    assert Floors(base.permanent) == multiset{floor};
    assert Aliases(base, t) == 1;
  }

  function AliasFiles(floor: Permanent, alias: Permanent, l: DeferredLine): (File, File) {
    (File(multiset{}, multiset{floor, alias}, multiset{}), File(multiset{l.canonical}, multiset{alias}, multiset{l}))
  }

  /** A change of one file in place that the gate charges because of an alias line of the same text. */
  lemma AliasMakesItCharged(p: Path, floor: Permanent, alias: Permanent, l: DeferredLine, canon: Frame -> Text,
                            branded: Text -> bool)
    requires floor.isFloor && !alias.isFloor && floor.frame == l.frame
    requires floor.canonical == canon(floor.frame) && alias.canonical == canon(alias.frame)
    requires l.canonical == canon(l.frame)
    requires alias.canonical == floor.canonical && branded(l.canonical)
    ensures
      var files, es := AliasFiles(floor, alias, l), OneEdit(p, floor, l);
      && InPlaceChange(OneFile(p, files.0), OneFile(p, files.1), es, canon, branded)
      && !AllClean(OneFile(p, files.0), OneFile(p, files.1), es)
  {
    var files := AliasFiles(floor, alias, l);
    OneLineInPlace(files.0, files.1, floor, l, canon, branded);
    AliasIsNotClean(floor, alias, l);
    LiftFile(p, files.0, files.1, floor, l, canon, branded);
  }

  function OtherFrameFiles(floor: Permanent, before: DeferredLine, l: DeferredLine): (File, File) {
    (File(multiset{l.canonical}, multiset{floor}, multiset{before}),
     File(multiset{l.canonical} + multiset{l.canonical}, multiset{}, multiset{before} + multiset{l}))
  }

  /** A deferred line of the same text in another frame, later in order, survives in place of the new line. */
  lemma {:induction false} OtherFrameIsNotClean(floor: Permanent, before: DeferredLine, l: DeferredLine)
    requires floor.frame == l.frame && before.frame != l.frame && before.canonical == l.canonical && LineLess(l, before)
    ensures !Clean(OtherFrameFiles(floor, before, l).0, OtherFrameFiles(floor, before, l).1, multiset{floor})
  {
    var (base, head) := OtherFrameFiles(floor, before, l);
    OlderSurvives(before, l);
    assert head.deferred == multiset{before, l};
    CleanIff(base, head, multiset{floor}, multiset{before});
    TallyOne(before, LineFrame, l.frame);
    TallyOne(floor, FrameOf, l.frame);
    assert LineFrames(multiset{before})[l.frame] < Frames(multiset{floor})[l.frame];
  }

  /**
    A change of one file in place that the gate charges because of a deferred line of the same text in another
    frame.
  */
  lemma OtherFrameMakesItCharged(p: Path, floor: Permanent, before: DeferredLine, l: DeferredLine, canon: Frame -> Text,
                                 branded: Text -> bool)
    requires floor.isFloor && floor.frame == l.frame && before.frame != l.frame
    requires floor.canonical == canon(floor.frame) && before.canonical == canon(before.frame)
    requires l.canonical == canon(l.frame)
    requires before.canonical == l.canonical && LineLess(l, before) && branded(l.canonical)
    ensures
      var files, es := OtherFrameFiles(floor, before, l), OneEdit(p, floor, l);
      && InPlaceChange(OneFile(p, files.0), OneFile(p, files.1), es, canon, branded)
      && !AllClean(OneFile(p, files.0), OneFile(p, files.1), es)
  {
    var files := OtherFrameFiles(floor, before, l);
    OneLineInPlace(files.0, files.1, floor, l, canon, branded);
    OtherFrameIsNotClean(floor, before, l);
    LiftFile(p, files.0, files.1, floor, l, canon, branded);
  }

  lemma {:induction false} OlderSurvives(before: DeferredLine, l: DeferredLine)
    requires before.canonical == l.canonical && LineLess(l, before)
    ensures Survive(multiset{before, l}, multiset{before}, multiset{before})
  {
    LinesAreOrdered();
    assert before != l;
    forall t
      ensures Texts(multiset{before}, t) == Excess0(Texts(multiset{before, l}, t), Texts(multiset{before}, t))
    {
      TallyTwo(before, l, LineCanonical, t);
      TallyOne(before, LineCanonical, t);
    }
  }
}
