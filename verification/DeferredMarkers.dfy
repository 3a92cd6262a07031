/**
  Which deferred lines of a file replace a floor line and are therefore excused: the
  lines that survive under a permanent marker claim the base's floor lines first.
*/
module DeferredMarkers {
  import opened Common
  import opened Counters
  import opened MintLedger
  import opened TreeScan

  /** A permanently marked line, resolved to its canonical text and its syntactic frame. */
  datatype Permanent = Permanent(text: Text, isFloor: bool, canonical: Text, frame: Frame)

  function FrameOf(x: Permanent): Frame { x.frame }
  function CanonicalOf(x: Permanent): Text { x.canonical }
  function LineFrame(l: DeferredLine): Frame { l.frame }

  function Tagged<K>(tag: Frame -> K): Permanent -> K {
    (x: Permanent) => tag(x.frame)
  }

  /* ---- claiming floor lines ---- */

  /** What went from `floors` to `left` went from `pool` to `spare`, tag by tag. */
  ghost predicate Claimed<K(!new)>(floors: multiset<Permanent>, left: multiset<Permanent>,
                                   pool: multiset<K>, spare: multiset<K>, tag: Frame -> K)
  {
    && left <= floors && spare <= pool
    && forall k :: TallyBy(floors, Tagged(tag), k) + spare[k] == TallyBy(left, Tagged(tag), k) + pool[k]
  }

  /** No line of the frame is left. */
  ghost predicate Gone(left: multiset<Permanent>, f: Frame) {
    forall x :: x in left ==> x.frame != f
  }

  /** All lines of the frame are left. */
  ghost predicate Whole(floors: multiset<Permanent>, left: multiset<Permanent>, f: Frame) {
    forall x: Permanent :: x.frame == f ==> left[x] == floors[x]
  }

  /** Of the frames with one tag the first in order are used up first. */
  ghost predicate ByFrame<K>(floors: multiset<Permanent>, left: multiset<Permanent>, tag: Frame -> K) {
    forall f, g :: tag(f) == tag(g) && FrameLess(f, g) ==> Gone(left, f) || Whole(floors, left, g)
  }

  /**
    Let the counts of `pool` claim candidate floor lines, frame by frame: a frame claims from the
    count its tag has.  Tags may be shared by frames.
  */
  method Consume<K(==, !new)>(floors: multiset<Permanent>, tag: Frame -> K, pool: multiset<K>)
    returns (left: multiset<Permanent>, spare: multiset<K>)
    ensures Claimed(floors, left, pool, spare, tag)
    ensures forall k :: spare[k] == 0 || TallyBy(left, Tagged(tag), k) == 0
    ensures ByFrame(floors, left, tag)
  {
    left, spare := floors, pool;
    FramesAreOrdered();
    var order := Sorted((set x | x in floors :: x.frame), FrameLess);
    for i := 0 to |order|
      invariant Claimed(floors, left, pool, spare, tag)
      invariant forall f :: f !in order[..i] ==> Whole(floors, left, f)
      invariant Used(order, i, floors, left, spare, tag)
    {
      var rest, unspent := ConsumeTag(left, order[i], spare, tag);
      ClaimedTwice(floors, left, rest, pool, spare, unspent, tag);
      UsedMore(order, i, floors, left, rest, spare, unspent, tag);
      left, spare := rest, unspent;
    }
    UsedUp(order, floors, left, spare, tag);
    UsedByFrame(order, floors, left, spare, tag);
  }

  /** Of the first `n` frames each is used up or has used its count up, and then no later frame of its tag lost any. */
  ghost predicate Used<K>(order: seq<Frame>, n: nat, floors: multiset<Permanent>, left: multiset<Permanent>,
                          spare: multiset<K>, tag: Frame -> K)
    requires n <= |order|
  {
    && (forall i :: 0 <= i < n ==> Gone(left, order[i]) || spare[tag(order[i])] == 0)
    && (forall i, j :: 0 <= i < j < n && tag(order[i]) == tag(order[j]) ==>
        Gone(left, order[i]) || Whole(floors, left, order[j]))
  }

  lemma UsedMore<K>(order: seq<Frame>, n: nat, floors: multiset<Permanent>, left: multiset<Permanent>,
                    rest: multiset<Permanent>,
                    spare: multiset<K>, unspent: multiset<K>, tag: Frame -> K)
    requires n < |order| && Distinct(order) && Used(order, n, floors, left, spare, tag)
    requires forall f :: f !in order[..n] ==> Whole(floors, left, f)
    requires unspent <= spare && forall x: Permanent :: x.frame != order[n] ==> rest[x] == left[x]
    requires Gone(rest, order[n]) || unspent[tag(order[n])] == 0
    requires spare[tag(order[n])] == 0 ==> rest == left
    ensures Used(order, n + 1, floors, rest, unspent, tag)
    ensures forall f :: f !in order[..n + 1] ==> Whole(floors, rest, f)
  {
    forall f | f != order[n]
      ensures Gone(left, f) <==> Gone(rest, f)
      ensures Whole(floors, left, f) ==> Whole(floors, rest, f)
    {
      SameFrame(floors, left, rest, f, order[n]);
    }
    assert order[n] !in order[..n];
    forall i | 0 <= i < n
      ensures order[i] != order[n]
    {
    }
  }

  lemma SameFrame(floors: multiset<Permanent>, left: multiset<Permanent>, rest: multiset<Permanent>, f: Frame, g: Frame)
    requires f != g && forall x: Permanent :: x.frame != g ==> rest[x] == left[x]
    ensures Gone(left, f) <==> Gone(rest, f)
    ensures Whole(floors, left, f) ==> Whole(floors, rest, f)
  {
    forall x: Permanent | x.frame == f
      ensures rest[x] == left[x] && (x in rest <==> x in left)
    {
    }
  }

  lemma UsedByFrame<K>(order: seq<Frame>, floors: multiset<Permanent>, left: multiset<Permanent>, spare: multiset<K>,
                       tag: Frame -> K)
    requires Orders(FrameLess) && left <= floors && Used(order, |order|, floors, left, spare, tag)
    requires forall f :: f in order <==> exists x :: x in floors && x.frame == f
    requires forall i, j :: 0 <= i < j < |order| ==> FrameLess(order[i], order[j])
    ensures ByFrame(floors, left, tag)
  {
    forall f, g | tag(f) == tag(g) && FrameLess(f, g)
      ensures Gone(left, f) || Whole(floors, left, g)
    {
      if f in order && g in order {
        var i :| 0 <= i < |order| && order[i] == f;
        var j :| 0 <= j < |order| && order[j] == g;
        assert i < j;
      } else if f !in order {
        NoLines(floors, left, f);
      } else {
        NoLines(floors, left, g);
      }
    }
  }

  lemma NoLines(floors: multiset<Permanent>, left: multiset<Permanent>, f: Frame)
    requires left <= floors && forall x :: x in floors ==> x.frame != f
    ensures Gone(left, f) && Whole(floors, left, f)
  {
    forall x | x in left
      ensures x in floors
    {
    }
  }

  lemma UsedUp<K(!new)>(order: seq<Frame>, floors: multiset<Permanent>, left: multiset<Permanent>,
                        spare: multiset<K>, tag: Frame -> K)
    requires left <= floors && Used(order, |order|, floors, left, spare, tag)
    requires forall f :: f in order <==> exists x :: x in floors && x.frame == f
    ensures forall k :: spare[k] == 0 || TallyBy(left, Tagged(tag), k) == 0
  {
    forall k
      ensures spare[k] == 0 || TallyBy(left, Tagged(tag), k) == 0
    {
      if TallyBy(left, Tagged(tag), k) > 0 {
        TallyPositive(left, Tagged(tag), k);
        var x :| x in left && Tagged(tag)(x) == k;
        assert x in floors && x.frame in order;
        var i :| 0 <= i < |order| && order[i] == x.frame;
      }
    }
  }

  lemma ClaimedTwice<K(!new)>(a: multiset<Permanent>, b: multiset<Permanent>, c: multiset<Permanent>,
                              p: multiset<K>, q: multiset<K>, r: multiset<K>, tag: Frame -> K)
    requires Claimed(a, b, p, q, tag) && Claimed(b, c, q, r, tag)
    ensures Claimed(a, c, p, r, tag)
  {
    forall k
      ensures TallyBy(a, Tagged(tag), k) + r[k] == TallyBy(c, Tagged(tag), k) + p[k]
    {
      assert TallyBy(a, Tagged(tag), k) + q[k] == TallyBy(b, Tagged(tag), k) + p[k];
    }
  }

  method ConsumeTag<K(==, !new)>(floors: multiset<Permanent>, f: Frame, pool: multiset<K>, tag: Frame -> K)
    returns (left: multiset<Permanent>, spare: multiset<K>)
    ensures Claimed(floors, left, pool, spare, tag)
    ensures forall x: Permanent :: x.frame != f ==> left[x] == floors[x]
    ensures Gone(left, f) || spare[tag(f)] == 0
    ensures pool[tag(f)] == 0 ==> left == floors
  {
    var n;
    left, n := ConsumeFrame(floors, f, pool[tag(f)], tag);
    spare := pool[tag(f) := pool[tag(f)] - n];
  }

  method ConsumeFrame<K(==, !new)>(floors: multiset<Permanent>, f: Frame, available: nat, ghost tag: Frame -> K)
    returns (left: multiset<Permanent>, n: nat)
    ensures left <= floors && n <= available
    ensures forall x: Permanent :: x.frame != f ==> left[x] == floors[x]
    ensures n == available || Gone(left, f)
    ensures available == 0 ==> left == floors
    ensures forall k :: TallyBy(floors, Tagged(tag), k) - TallyBy(left, Tagged(tag), k) == if k == tag(f) then n else 0
  {
    var order := Enumerate(set x | x in floors && x.frame == f);
    left, n := Drain(floors, order, available);
    assert floors == left + (floors - left);
    forall k
      ensures TallyBy(floors, Tagged(tag), k) - TallyBy(left, Tagged(tag), k) == if k == tag(f) then n else 0
    {
      TallyTaken(floors, left, Tagged(tag), tag(f), k);
    }
  }

  /* ---- resolving marked lines ---- */

  /** The floor lines among permanently marked ones. */
  ghost function Floors(m: multiset<Permanent>): (r: multiset<Permanent>)
    ensures forall x :: r[x] == if x.isFloor then m[x] else 0
    decreases |m|
  {
    if m == multiset{} then multiset{}
    else
      var x := PickElement(m);
      Dropped(m, x);
      Floors(m[x := 0])[x := if x.isFloor then m[x] else 0]
  }

  method SelectFloors(m: multiset<Permanent>) returns (r: multiset<Permanent>)
    ensures r == Floors(m)
  {
    r := m;
    var todo := set x | x in m && !x.isFloor;
    while todo != {}
      invariant forall x :: x in todo ==> !x.isFloor
      invariant forall x :: r[x] == if x.isFloor || x in todo then m[x] else 0
    {
      var x :| x in todo;
      todo := todo - {x};
      r := r[x := 0];
    }
  }

  method CountFrames(m: multiset<Permanent>) returns (frames: multiset<Frame>)
    ensures frames == Image(m, FrameOf)
  {
    frames := multiset{};
    var rest := m;
    while rest != multiset{}
      invariant forall f :: frames[f] + TallyBy(rest, FrameOf, f) == TallyBy(m, FrameOf, f)
      decreases |rest|
    {
      var x :| x in rest;
      forall f
        ensures TallyBy(rest, FrameOf, f) == TallyBy(rest[x := 0], FrameOf, f) + if x.frame == f then rest[x] else 0
      {
        TallyDrop(rest, FrameOf, x, f);
      }
      Dropped(rest, x);
      frames := frames[x.frame := frames[x.frame] + rest[x]];
      rest := rest[x := 0];
    }
  }

  /** The canonical text of each frame, the last line of the frame winning. */
  method Canonicals(m: multiset<Permanent>) returns (c: map<Frame, Text>)
    ensures Reads(c, m)
  {
    c := map[];
    var todo := set x | x in m;
    while todo != {}
      invariant forall x :: x in todo ==> x in m
      invariant forall x :: x in m ==> x in todo || x.frame in c
      invariant forall f :: f in c ==> exists x :: x in m && x.frame == f && x.canonical == c[f]
    {
      var x :| x in todo;
      todo := todo - {x};
      c := c[x.frame := x.canonical];
    }
  }

  function Lookup(c: map<Frame, Text>): Frame -> Text {
    (f: Frame) => if f in c then c[f] else ""
  }

  method ByCanonical(frames: multiset<Frame>, c: map<Frame, Text>) returns (r: multiset<Text>)
    ensures forall t :: r[t] == TallyBy(frames, Lookup(c), t)
  {
    r := multiset{};
    var rest := frames;
    while rest != multiset{}
      invariant forall t :: r[t] + TallyBy(rest, Lookup(c), t) == TallyBy(frames, Lookup(c), t)
      decreases |rest|
    {
      var f :| f in rest;
      forall t
        ensures TallyBy(rest, Lookup(c), t) == TallyBy(rest[f := 0], Lookup(c), t) + if Lookup(c)(f)
              == t then rest[f] else 0
      {
        TallyDrop(rest, Lookup(c), f, t);
      }
      Dropped(rest, f);
      r := r[Lookup(c)(f) := r[Lookup(c)(f)] + rest[f]];
      rest := rest[f := 0];
    }
  }

  /* ---- the floor lines no surviving permanent line claims ---- */

  function Itself(f: Frame): Frame { f }

  lemma {:induction false} TallyByFrame(m: multiset<Permanent>)
    ensures forall f :: TallyBy(m, Tagged(Itself), f) == TallyBy(m, FrameOf, f)
  {
    forall f
      ensures TallyBy(m, Tagged(Itself), f) == TallyBy(m, FrameOf, f)
    {
      TallySameKey(m, Tagged(Itself), FrameOf, f);
    }
  }

  /** Lines of one frame have one canonical text: the canonical text is computed from the frame. */
  ghost predicate Consistent(m: multiset<Permanent>) {
    forall x, y :: x in m && y in m && x.frame == y.frame ==> x.canonical == y.canonical
  }

  /** The canonical-text map of the lines of a counter. */
  ghost predicate Reads(c: map<Frame, Text>, m: multiset<Permanent>) {
    && (forall x :: x in m ==> x.frame in c)
    && (forall f :: f in c ==> exists x :: x in m && x.frame == f && x.canonical == c[f])
  }

  /** A canonical-text map read off a consistent counter gives each of its lines its own canonical text. */
  lemma LooksUp(all: multiset<Permanent>, part: multiset<Permanent>, m: multiset<Permanent>, c: map<Frame, Text>)
    requires Consistent(all) && m <= part <= all && Reads(c, part)
    ensures forall x :: x in m ==> Tagged(Lookup(c))(x) == CanonicalOf(x)
  {
    forall x | x in m
      ensures Tagged(Lookup(c))(x) == CanonicalOf(x)
    {
      assert x in part && x in all;
      var y :| y in part && y.frame == x.frame && y.canonical == c[x.frame];
    }
  }

  lemma {:induction false} CanonicalTally(all: multiset<Permanent>, part: multiset<Permanent>, m: multiset<Permanent>,
                                          c: map<Frame, Text>, t: Text)
    requires Consistent(all) && m <= part <= all && Reads(c, part)
    ensures TallyBy(Image(m, FrameOf), Lookup(c), t) == TallyBy(m, CanonicalOf, t)
  {
    LooksUp(all, part, m, c);
    forall x | x in m
      ensures CanonicalOf(x) == Lookup(c)(FrameOf(x))
    {
      assert Tagged(Lookup(c))(x) == CanonicalOf(x);
    }
    TallyOfImage(m, FrameOf, Lookup(c), CanonicalOf, t);
  }

  lemma {:induction false} TallyBalance<T(!new), K>(a: multiset<T>, b: multiset<T>, p: multiset<T>, q: multiset<T>,
                                                    key: T -> K, k: K)
    requires forall x :: a[x] + q[x] == b[x] + p[x]
    ensures TallyBy(a, key, k) - TallyBy(b, key, k) == TallyBy(p, key, k) - TallyBy(q, key, k)
  {
    assert a + q == b + p;
    TallyAdd(a, q, key, k);
    TallyAdd(b, p, key, k);
  }

  /** What the frames' exact claims leave, summed by canonical text on both sides. */
  lemma {:induction false} ExactByCanonical(floors: multiset<Permanent>, head: multiset<Permanent>,
                                            exact: multiset<Permanent>,
                                            spare: multiset<Frame>, c: map<Frame, Text>, t: Text)
    requires exact <= floors && Consistent(floors + head) && Reads(c, floors + head)
    requires forall f ::
      TallyBy(floors, FrameOf, f) + spare[f] == TallyBy(exact, FrameOf, f) + TallyBy(head, FrameOf, f)
    ensures TallyBy(floors, CanonicalOf, t) + TallyBy(spare, Lookup(c), t)
         == TallyBy(exact, CanonicalOf, t) + TallyBy(head, CanonicalOf, t)
  {
    var all := floors + head;
    TallyBalance(Image(floors, FrameOf), Image(exact, FrameOf), Image(head, FrameOf), spare, Lookup(c), t);
    CanonicalTally(all, all, floors, c, t);
    CanonicalTally(all, all, head, c, t);
    CanonicalTally(all, all, exact, c, t);
  }

  /** The head's permanent lines claim floor lines of their own frame. */
  method ClaimExact(floors: multiset<Permanent>, head: multiset<Permanent>)
    returns (exact: multiset<Permanent>, spare: multiset<Frame>)
    ensures exact <= floors && spare <= Image(head, FrameOf)
    ensures forall f :: TallyBy(floors, FrameOf, f) + spare[f] == TallyBy(exact, FrameOf, f) + TallyBy(head, FrameOf, f)
    ensures forall f :: spare[f] == 0 || TallyBy(exact, FrameOf, f) == 0
  {
    var frames := CountFrames(head);
    exact, spare := Consume(floors, Itself, frames);
    TallyByFrame(floors);
    TallyByFrame(exact);
  }

  /** Of the lines with one canonical text, those in the first frames go first. */
  ghost predicate FirstFramesGo(before: multiset<Permanent>, left: multiset<Permanent>) {
    forall x, y :: x in left && y in before && x.canonical == y.canonical && FrameLess(x.frame, y.frame) ==>
      left[y] == before[y]
  }

  lemma ByFrameIsByText(all: multiset<Permanent>, floors: multiset<Permanent>, before: multiset<Permanent>,
                        left: multiset<Permanent>, c: map<Frame, Text>)
    requires Consistent(all) && left <= before <= floors <= all && Reads(c, floors)
    requires ByFrame(before, left, Lookup(c))
    ensures FirstFramesGo(before, left)
  {
    LooksUp(all, floors, before, c);
    forall x, y | x in left && y in before && x.canonical == y.canonical && FrameLess(x.frame, y.frame)
      ensures left[y] == before[y]
    {
      assert x in before;
      assert Tagged(Lookup(c))(x) == CanonicalOf(x) && Tagged(Lookup(c))(y) == CanonicalOf(y);
      assert !Gone(left, x.frame);
    }
  }

  /** The claims no frame could meet fall back to floor lines of the same canonical text. */
  method ClaimCanonical(floors: multiset<Permanent>, head: multiset<Permanent>, exact: multiset<Permanent>,
                        spare: multiset<Frame>)
    returns (left: multiset<Permanent>)
    requires exact <= floors && spare <= Image(head, FrameOf)
    requires forall f ::
      TallyBy(floors, FrameOf, f) + spare[f] == TallyBy(exact, FrameOf, f) + TallyBy(head, FrameOf, f)
    ensures left <= exact
    ensures Consistent(floors + head) ==> FirstFramesGo(exact, left) && forall t ::
      TallyBy(left, CanonicalOf, t) == Excess0(TallyBy(floors, CanonicalOf, t), TallyBy(head, CanonicalOf, t))
  {
    var floorCanonical := Canonicals(floors);
    var headCanonical := Canonicals(head);
    var permanent := ByCanonical(spare, headCanonical);
    ghost var unspent;
    left, unspent := Consume(exact, Lookup(floorCanonical), permanent);
    ClaimedByText(floors, head, exact, spare, left, permanent, unspent, floorCanonical, headCanonical);
  }

  lemma ClaimedByText(floors: multiset<Permanent>, head: multiset<Permanent>, exact: multiset<Permanent>,
                      spare: multiset<Frame>, left: multiset<Permanent>, permanent: multiset<Text>,
                      unspent: multiset<Text>, floorCanonical: map<Frame, Text>, headCanonical: map<Frame, Text>)
    requires left <= exact <= floors && spare <= Image(head, FrameOf)
    requires forall f ::
      TallyBy(floors, FrameOf, f) + spare[f] == TallyBy(exact, FrameOf, f) + TallyBy(head, FrameOf, f)
    requires Reads(floorCanonical, floors) && Reads(headCanonical, head)
    requires forall t :: permanent[t] == TallyBy(spare, Lookup(headCanonical), t)
    requires forall t ::
      TallyBy(exact, Tagged(Lookup(floorCanonical)), t) + unspent[t]
      == TallyBy(left, Tagged(Lookup(floorCanonical)), t) + permanent[t]
    requires forall t :: unspent[t] == 0 || TallyBy(left, Tagged(Lookup(floorCanonical)), t) == 0
    requires ByFrame(exact, left, Lookup(floorCanonical))
    ensures Consistent(floors + head) ==> FirstFramesGo(exact, left) && forall t ::
      TallyBy(left, CanonicalOf, t) == Excess0(TallyBy(floors, CanonicalOf, t), TallyBy(head, CanonicalOf, t))
  {
    if Consistent(floors + head) {
      ByFrameIsByText(floors + head, floors, exact, left, floorCanonical);
      forall t
        ensures TallyBy(left, CanonicalOf, t) == Excess0(TallyBy(floors, CanonicalOf, t), TallyBy(head, CanonicalOf, t))
      {
        LeftPerText(floors, head, exact, spare, left, permanent, unspent, floorCanonical, headCanonical, t);
      }
    }
  }

  lemma {:induction false} LeftPerText(floors: multiset<Permanent>, head: multiset<Permanent>,
                                       exact: multiset<Permanent>,
                                       spare: multiset<Frame>, left: multiset<Permanent>, permanent: multiset<Text>,
                                       unspent: multiset<Text>, floorCanonical: map<Frame, Text>,
                                       headCanonical: map<Frame, Text>, t: Text)
    requires Consistent(floors + head) && left <= exact <= floors && spare <= Image(head, FrameOf)
    requires forall f ::
      TallyBy(floors, FrameOf, f) + spare[f] == TallyBy(exact, FrameOf, f) + TallyBy(head, FrameOf, f)
    requires Reads(floorCanonical, floors) && Reads(headCanonical, head)
    requires permanent[t] == TallyBy(spare, Lookup(headCanonical), t)
    requires TallyBy(exact, Tagged(Lookup(floorCanonical)), t) + unspent[t]
          == TallyBy(left, Tagged(Lookup(floorCanonical)), t) + permanent[t]
    requires unspent[t] == 0 || TallyBy(left, Tagged(Lookup(floorCanonical)), t) == 0
    ensures TallyBy(left, CanonicalOf, t) == Excess0(TallyBy(floors, CanonicalOf, t), TallyBy(head, CanonicalOf, t))
  {
    CanonicalExact(floors, head, exact, spare, floorCanonical, headCanonical, t);
    CanonicalTags(floors, head, exact, floorCanonical, t);
    CanonicalTags(floors, head, left, floorCanonical, t);
  }

  /**
    The floor lines free to be replaced.  `unclaimed` are those beyond the permanent lines of their own
    frame; of these, the permanent lines left over claim lines of their canonical text, first frames first.
  */
  ghost predicate FreeFloors(floors: multiset<Permanent>, head: multiset<Permanent>,
                             unclaimed: multiset<Permanent>, free: multiset<Permanent>)
  {
    && free <= unclaimed <= floors
    && (forall f :: TallyBy(unclaimed, FrameOf, f) == Excess0(TallyBy(floors, FrameOf, f), TallyBy(head, FrameOf, f)))
    && (Consistent(floors + head) ==> FirstFramesGo(unclaimed, free) && forall t ::
        TallyBy(free, CanonicalOf, t) == Excess0(TallyBy(floors, CanonicalOf, t), TallyBy(head, CanonicalOf, t)))
  }

  /** Floor lines of the base that stay free once the head's permanent lines have claimed theirs. */
  method FloorsLeft(base: multiset<Permanent>, head: multiset<Permanent>)
    returns (free: multiset<Permanent>, unclaimed: multiset<Permanent>)
    ensures FreeFloors(Floors(base), head, unclaimed, free)
  {
    var floors := SelectFloors(base);
    var spare;
    unclaimed, spare := ClaimExact(floors, head);
    free := ClaimCanonical(floors, head, unclaimed, spare);
    forall f
      ensures TallyBy(unclaimed, FrameOf, f) == Excess0(TallyBy(floors, FrameOf, f), TallyBy(head, FrameOf, f))
    {
    }
  }

  /** Per frame no more floor lines are free than there are beyond its permanent lines. */
  lemma {:induction false} FreePerFrame(floors: multiset<Permanent>, head: multiset<Permanent>,
                                        unclaimed: multiset<Permanent>, free: multiset<Permanent>, f: Frame)
    requires FreeFloors(floors, head, unclaimed, free)
    ensures TallyBy(free, FrameOf, f) <= Excess0(TallyBy(floors, FrameOf, f), TallyBy(head, FrameOf, f))
  {
    TallyOfPart(unclaimed, free, FrameOf, f);
  }

  /** The claims by exact frame, seen per canonical text. */
  lemma {:induction false} CanonicalExact(floors: multiset<Permanent>, head: multiset<Permanent>,
                                          exact: multiset<Permanent>,
                                          spare: multiset<Frame>, floorCanonical: map<Frame, Text>,
                                          headCanonical: map<Frame, Text>, t: Text)
    requires exact <= floors && spare <= Image(head, FrameOf) && Consistent(floors + head)
    requires forall f ::
      TallyBy(floors, FrameOf, f) + spare[f] == TallyBy(exact, FrameOf, f) + TallyBy(head, FrameOf, f)
    requires Reads(floorCanonical, floors) && Reads(headCanonical, head)
    ensures TallyBy(floors, CanonicalOf, t) + TallyBy(spare, Lookup(headCanonical), t)
         == TallyBy(exact, CanonicalOf, t) + TallyBy(head, CanonicalOf, t)
  {
    var both := floorCanonical + headCanonical;
    ReadsBoth(floorCanonical, headCanonical, floors, head);
    ExactByCanonical(floors, head, exact, spare, both, t);
    SpareIsHeads(spare, head, headCanonical, both);
    TallySameKey(spare, Lookup(headCanonical), Lookup(both), t);
  }

  lemma {:induction false} CanonicalTags(floors: multiset<Permanent>, head: multiset<Permanent>,
                                         part: multiset<Permanent>,
                                         floorCanonical: map<Frame, Text>, t: Text)
    requires part <= floors && Consistent(floors + head) && Reads(floorCanonical, floors)
    ensures TallyBy(part, Tagged(Lookup(floorCanonical)), t) == TallyBy(part, CanonicalOf, t)
  {
    LooksUp(floors + head, floors, part, floorCanonical);
    TallySameKey(part, Tagged(Lookup(floorCanonical)), CanonicalOf, t);
  }

  lemma ReadsBoth(a: map<Frame, Text>, b: map<Frame, Text>, m: multiset<Permanent>, n: multiset<Permanent>)
    requires Reads(a, m) && Reads(b, n)
    ensures Reads(a + b, m + n)
  {
    forall f | f in a + b
      ensures exists x :: x in m + n && x.frame == f && x.canonical == (a + b)[f]
    {
      if f in b {
        var x :| x in n && x.frame == f && x.canonical == b[f];
        assert x in m + n;
      } else {
        var x :| x in m && x.frame == f && x.canonical == a[f];
        assert x in m + n;
      }
    }
  }

  /** The head wins where the two canonical maps overlap, so the spare frames read the same in both. */
  lemma SpareIsHeads(spare: multiset<Frame>, head: multiset<Permanent>, b: map<Frame, Text>, both: map<Frame, Text>)
    requires spare <= Image(head, FrameOf)
    requires Reads(b, head) && forall f :: f in b ==> f in both && both[f] == b[f]
    ensures forall f :: f in spare ==> Lookup(b)(f) == Lookup(both)(f)
  {
    forall f | f in spare
      ensures Lookup(b)(f) == Lookup(both)(f)
    {
      TallyPositive(head, FrameOf, f);
    }
  }

  /* ---- pairing what is left with new deferred lines ---- */

  /** The deferred lines that still carry the legacy name; no other line is paired. */
  ghost function Branded(m: multiset<DeferredLine>, branded: Text -> bool): (r: multiset<DeferredLine>)
    ensures forall l :: r[l] == if branded(l.canonical) then m[l] else 0
    decreases |m|
  {
    if m == multiset{} then multiset{}
    else
      var l := PickElement(m);
      Dropped(m, l);
      Branded(m[l := 0], branded)[l := if branded(l.canonical) then m[l] else 0]
  }

  /** The floor lines one deferred line replaces: same frame, at most as many as it occurs. */
  method PairLine(floors: multiset<Permanent>, l: DeferredLine, available: nat)
    returns (rest: multiset<Permanent>, taken: multiset<Permanent>)
    ensures rest + taken == floors && |taken| <= available
    ensures forall x :: x in taken ==> x.frame == l.frame
    ensures |taken| == available || forall x :: x in rest ==> x.frame != l.frame
  {
    var order := Enumerate(set x | x in floors && x.frame == l.frame);
    var n;
    rest, n := Drain(floors, order, available);
    taken := floors - rest;
    assert rest + taken == floors;
  }

  /** Which floor lines each deferred line replaces; `used` counts the replacements per deferred line. */
  method PairAll(floors: multiset<Permanent>, gained: multiset<DeferredLine>, branded: Text -> bool)
    returns (paired: map<DeferredLine, multiset<Permanent>>, used: multiset<DeferredLine>)
    ensures Total(paired) <= floors && used <= Branded(gained, branded)
    ensures forall l :: |At(paired, l)| == used[l]
    ensures forall l, x :: l in paired && x in paired[l] ==> x.frame == l.frame
    ensures forall f :: TallyBy(used, LineFrame, f) == TallyBy(Total(paired), FrameOf, f)
    ensures forall f :: TallyBy(used, LineFrame, f)
                     == Min(TallyBy(floors, FrameOf, f), TallyBy(Branded(gained, branded), LineFrame, f))
  {
    paired, used := map[], multiset{};
    var rest := floors;
    var todo := set l | l in gained && branded(l.canonical);
    ghost var goal := Branded(gained, branded);
    while todo != {}
      invariant forall l :: l in todo ==> l in goal
      invariant Pairing(floors, rest, paired, used, goal, todo)
    {
      var l :| l in todo;
      var left, taken := PairLine(rest, l, gained[l]);
      PairingStep(floors, rest, left, paired, used, goal, todo, l, taken);
      paired, used, rest, todo := paired[l := taken], used[l := |taken|], left, todo - {l};
    }
    Settle(floors, rest, Total(paired), used, goal);
  }

  ghost predicate Pairing(floors: multiset<Permanent>, rest: multiset<Permanent>,
                          paired: map<DeferredLine, multiset<Permanent>>,
                          used: multiset<DeferredLine>, goal: multiset<DeferredLine>, todo: set<DeferredLine>)
  {
    && Shape(paired, used, goal, todo)
    && rest + Total(paired) == floors
    && (forall f :: TallyBy(used, LineFrame, f) == TallyBy(Total(paired), FrameOf, f))
    && Spent(rest, used, goal, todo)
  }

  lemma PairingStep(floors: multiset<Permanent>, rest: multiset<Permanent>, left: multiset<Permanent>,
                    paired: map<DeferredLine, multiset<Permanent>>, used: multiset<DeferredLine>,
                    goal: multiset<DeferredLine>, todo: set<DeferredLine>, l: DeferredLine, taken: multiset<Permanent>)
    requires Pairing(floors, rest, paired, used, goal, todo) && l in todo
    requires left + taken == rest && |taken| <= goal[l]
    requires forall x :: x in taken ==> x.frame == l.frame
    requires |taken| == goal[l] || forall x :: x in left ==> x.frame != l.frame
    ensures Pairing(floors, left, paired[l := taken], used[l := |taken|], goal, todo - {l})
  {
    TotalInsert(paired, l, taken);
    PairedTally(paired, used, l, taken);
    ShapeStep(paired, used, goal, todo, l, taken);
    SpentStep(rest, left, used, goal, todo, l, taken);
    assert left + (Total(paired) + taken) == rest + Total(paired);
  }

  /** Each deferred line is paired with lines of its frame, as often as it is used, and waits in `todo` until then. */
  ghost predicate Shape(paired: map<DeferredLine, multiset<Permanent>>, used: multiset<DeferredLine>,
                        goal: multiset<DeferredLine>, todo: set<DeferredLine>)
  {
    && (forall l :: l in todo ==> l !in paired && used[l] == 0)
    && (forall l :: |At(paired, l)| == used[l] <= goal[l])
    && (forall l :: l in paired ==> forall x: Permanent :: x in paired[l] ==> x.frame == l.frame)
  }

  lemma ShapeStep(paired: map<DeferredLine, multiset<Permanent>>, used: multiset<DeferredLine>,
                  goal: multiset<DeferredLine>, todo: set<DeferredLine>, l: DeferredLine, taken: multiset<Permanent>)
    requires Shape(paired, used, goal, todo) && l in todo
    requires |taken| <= goal[l] && forall x :: x in taken ==> x.frame == l.frame
    ensures Shape(paired[l := taken], used[l := |taken|], goal, todo - {l})
  {
    var p, u := paired[l := taken], used[l := |taken|];
    forall m: DeferredLine
      ensures |At(p, m)| == u[m] && u[m] <= goal[m]
      ensures m in todo - {l} ==> m !in p && u[m] == 0
      ensures m in p ==> forall x: Permanent :: x in p[m] ==> x.frame == m.frame
    {
      if m != l {
        assert At(p, m) == At(paired, m) && u[m] == used[m] <= goal[m];
      }
    }
  }

  /** A line done with either is fully paired or finds no floor line of its frame. */
  ghost predicate Spent(rest: multiset<Permanent>, used: multiset<DeferredLine>, goal: multiset<DeferredLine>,
                        todo: set<DeferredLine>)
  {
    forall l :: l in goal && l !in todo ==> used[l] == goal[l] || forall x :: x in rest ==> x.frame != l.frame
  }

  lemma SpentStep(rest: multiset<Permanent>, left: multiset<Permanent>, used: multiset<DeferredLine>,
                  goal: multiset<DeferredLine>, todo: set<DeferredLine>, l: DeferredLine, taken: multiset<Permanent>)
    requires Spent(rest, used, goal, todo) && left + taken == rest
    requires |taken| == goal[l] || forall x :: x in left ==> x.frame != l.frame
    ensures Spent(left, used[l := |taken|], goal, todo - {l})
  {
    forall x | x in left
      ensures x in rest
    {
      assert x in left + taken;
    }
  }

  lemma {:induction false} PairedTally(paired: map<DeferredLine, multiset<Permanent>>, used: multiset<DeferredLine>,
                                       l: DeferredLine, taken: multiset<Permanent>)
    requires used[l] == 0 && forall x :: x in taken ==> x.frame == l.frame
    requires forall f :: TallyBy(used, LineFrame, f) == TallyBy(Total(paired), FrameOf, f)
    ensures forall f :: TallyBy(used[l := |taken|], LineFrame, f) == TallyBy(Total(paired) + taken, FrameOf, f)
  {
    forall f
      ensures TallyBy(used[l := |taken|], LineFrame, f) == TallyBy(Total(paired) + taken, FrameOf, f)
    {
      TallySet(used, LineFrame, l, |taken|, f);
      TallyAdd(Total(paired), taken, FrameOf, f);
      TallyUniform(taken, FrameOf, l.frame, f);
    }
  }

  lemma {:induction false} Settle(floors: multiset<Permanent>, rest: multiset<Permanent>, paired: multiset<Permanent>,
                                  used: multiset<DeferredLine>, goal: multiset<DeferredLine>)
    requires rest + paired == floors && used <= goal
    requires forall f :: TallyBy(used, LineFrame, f) == TallyBy(paired, FrameOf, f)
    requires forall l :: l in goal ==> used[l] == goal[l] || forall x :: x in rest ==> x.frame != l.frame
    ensures forall f :: TallyBy(used, LineFrame, f) == Min(TallyBy(floors, FrameOf, f), TallyBy(goal, LineFrame, f))
  {
    forall f
      ensures TallyBy(used, LineFrame, f) == Min(TallyBy(floors, FrameOf, f), TallyBy(goal, LineFrame, f))
    {
      TallyAdd(rest, paired, FrameOf, f);
      TallyOfPart(goal, used, LineFrame, f);
      if TallyBy(rest, FrameOf, f) > 0 {
        TallyPositive(rest, FrameOf, f);
        TallyOfAll(used, goal, LineFrame, f);
      }
    }
  }

  /**
    The floor-to-deferred transitions of one file: per frame, the smaller of the new deferred lines and
    the free floor lines.  A surviving floor line authorises nothing.
  */
  method FileTransitions(base: multiset<Permanent>, head: multiset<Permanent>, gained: multiset<DeferredLine>,
                         branded: Text -> bool)
    returns (paired: map<DeferredLine, multiset<Permanent>>, used: multiset<DeferredLine>,
             free: multiset<Permanent>, unclaimed: multiset<Permanent>)
    ensures FreeFloors(Floors(base), head, unclaimed, free)
    ensures Total(paired) <= free && used <= Branded(gained, branded)
    ensures forall l :: |At(paired, l)| == used[l]
    ensures forall l, x :: l in paired && x in paired[l] ==> x.frame == l.frame
    ensures forall f :: TallyBy(used, LineFrame, f) == TallyBy(Total(paired), FrameOf, f)
                     == Min(TallyBy(free, FrameOf, f), TallyBy(Branded(gained, branded), LineFrame, f))
  {
    free, unclaimed := FloorsLeft(base, head);
    paired, used := PairAll(free, gained, branded);
  }
}
