/**
  The mint/move ledger of the legacy-name ratchet: a repo-wide budget and a pool of
  inheritable lines, spent file by file, decide which added lines are charged as
  minted and which are excused as moves.
*/
module MintLedger {
  import opened Common
  import opened Counters

  type Text = string
  type Path = string
  type PerFile = map<Path, multiset<Text>>

  /** The lines every file gained, less what floor-to-deferred transitions excuse there. */
  function Additions(head: PerFile, base: PerFile, excused: PerFile): (r: PerFile)
    ensures r.Keys == head.Keys
    ensures forall p :: p in head ==> r[p] == head[p] - At(base, p) - At(excused, p)
  {
    Excess(Excess(head, base), excused)
  }

  /** How many of each text the repo gained: `base` already includes the excused gains. */
  function MintBudget(head: multiset<Text>, base: multiset<Text>): multiset<Text> {
    head - base
  }

  function Only(m: PerFile, paths: set<Path>): PerFile {
    map p | p in m && p in paths :: m[p]
  }

  /**
    Take from a pool what it holds of the wanted lines, text by text.  Texts never
    interact, so one pass over them is one spending of the whole pool.
  */
  method Spend(pool: multiset<Text>, wanted: multiset<Text>) returns (left: multiset<Text>, taken: multiset<Text>)
    ensures taken == wanted * pool && left == pool - wanted
  {
    left, taken := pool, multiset{};
    var todo := set t | t in wanted;
    while todo != {}
      invariant forall t :: t in todo ==> taken[t] == 0 && left[t] == pool[t]
      invariant forall t :: t !in todo ==> taken[t] == Min(wanted[t], pool[t]) && left[t] + taken[t] == pool[t]
    {
      var t :| t in todo;
      todo := todo - {t};
      var spent := Min(wanted[t], left[t]);
      left := left[t := left[t] - spent];
      taken := taken[t := spent];
    }
  }

  lemma SplitBy<T>(a: multiset<T>, pool: multiset<T>)
    ensures (a * pool) + (a - pool) == a && (a - pool) + (a * pool) == a
    ensures pool - a == pool - (a * pool)
    ensures a - (a * pool) == a - pool
  {
  }

  /** The two shared counters that `_minted` spends in place. */
  class Ledger {
    var budget: multiset<Text>
    var inheritable: multiset<Text>

    constructor (budget: multiset<Text>, inheritable: multiset<Text>)
      ensures this.budget == budget && this.inheritable == inheritable
    {
      this.budget, this.inheritable := budget, inheritable;
    }

    /** Split the lines a file gained into minted and moved, spending the shared counters. */
    method Minted(added: multiset<Text>, isNew: bool) returns (minted: multiset<Text>, moved: multiset<Text>)
      modifies this
      ensures minted + moved == added
      ensures minted == if isNew then added - old(inheritable) else added * old(budget)
      ensures budget == old(budget) - minted
      ensures inheritable == if isNew then old(inheritable) - added else old(inheritable)
    {
      SplitBy(added, if isNew then inheritable else budget);
      if isNew {
        // Inherited first; whatever is left is minted however the repo-wide count moved.
        inheritable, moved := Spend(inheritable, added);
        minted := added - moved;
        var left, _ := Spend(budget, minted);
        budget := left;
      } else {
        budget, minted := Spend(budget, added);
        moved := added - minted;
      }
    }
  }

  /** Every file of the head tree once, the files this change adds before the others. */
  ghost predicate VisitOrder(order: seq<Path>, head: PerFile, added: set<Path>) {
    && Distinct(order)
    && (forall p :: p in order <==> p in head)
    && (forall i, j :: 0 <= i < j < |order| && order[j] in added ==> order[i] in added)
  }

  /** The lines a new file may take over: those of the files the change deletes. */
  ghost function Inheritable(base: PerFile, deleted: set<Path>): multiset<Text> {
    Total(Only(base, deleted))
  }

  /** Additions of the added files that the deleted files do not pay for. */
  ghost function Uninherited(head: PerFile, base: PerFile, excused: PerFile, added: set<Path>, deleted: set<Path>)
    : multiset<Text>
  {
    Total(Only(Additions(head, base, excused), added)) - Inheritable(base, deleted)
  }

  /** The repo-wide gain in each text beyond the excused transitions. */
  ghost function Budget(head: PerFile, base: PerFile, excused: PerFile): multiset<Text> {
    MintBudget(Total(head), Total(base) + Total(excused))
  }

  /** No file but those added or deleted changed. */
  ghost predicate OnlyFilesMove(head: PerFile, base: PerFile, added: set<Path>, deleted: set<Path>) {
    && added !! base.Keys && deleted !! head.Keys
    && forall p :: p !in added && p !in deleted ==> At(head, p) == At(base, p)
  }

  /** Renaming or splitting files is free: what added files hold was in deleted ones. */
  lemma {:induction false} RenamingIsFree(head: PerFile, base: PerFile, added: set<Path>, deleted: set<Path>)
    requires OnlyFilesMove(head, base, added, deleted)
    requires Total(Only(head, added)) <= Total(Only(base, deleted))
    ensures Budget(head, base, map[]) == multiset{} && Uninherited(head, base, map[], added, deleted) == multiset{}
  {
    TotalSplit(head, added);
    TotalSplit(base, deleted);
    SameRest(head, base, added, deleted);
    AddedFilesGain(head, base, added);
    SumsOrdered(Total(Only(head, added)), Total(head - added), Total(Only(base, deleted)), Total(base - deleted));
    NoGainNoBudget(head, base);
    NothingLeft(Total(Only(head, added)), Total(Only(base, deleted)));
  }

  lemma NoGainNoBudget(head: PerFile, base: PerFile)
    requires Total(head) <= Total(base)
    ensures Budget(head, base, map[]) == multiset{}
  {
    assert Total(base) + multiset{} == Total(base);
    NothingLeft(Total(head), Total(base));
  }

  lemma NothingLeft<T>(a: multiset<T>, b: multiset<T>)
    requires a <= b
    ensures a - b == multiset{}
  {
  }

  lemma SameTotal(a: PerFile, b: PerFile)
    requires forall p :: At(a, p) == At(b, p)
    ensures Total(a) == Total(b)
  {
    assert forall p :: p in a ==> a[p] <= At(b, p);
    assert forall p :: p in b ==> b[p] <= At(a, p);
    TotalMonotone(a, b);
    TotalMonotone(b, a);
  }

  lemma SumsOrdered<T>(a: multiset<T>, b: multiset<T>, c: multiset<T>, d: multiset<T>)
    requires a <= c && b == d
    ensures a + b <= c + d
  {
  }

  /** Every line of an added file is charged when nothing was deleted, even if another file lost as many. */
  lemma {:induction false} NewFilesInheritNothing(head: PerFile, base: PerFile, added: set<Path>)
    requires added !! base.Keys
    ensures Uninherited(head, base, map[], added, {}) == Total(Only(head, added))
  {
    AddedFilesGain(head, base, added);
    assert Only(base, {}) == map[];
  }

  lemma AddedFilesGain(head: PerFile, base: PerFile, added: set<Path>)
    requires added !! base.Keys
    ensures Only(Additions(head, base, map[]), added) == Only(head, added)
  {
    var all := Additions(head, base, map[]);
    forall p | p in head && p in added
      ensures all[p] == head[p]
    {
      LessNothing(all[p], head[p], At(base, p), At(map[], p));
    }
    SameOnly(all, head, added);
  }

  lemma LessNothing<T>(all: multiset<T>, a: multiset<T>, b: multiset<T>, c: multiset<T>)
    requires all == a - b - c && b == multiset{} && c == multiset{}
    ensures all == a
  {
  }

  lemma SameOnly(a: PerFile, b: PerFile, paths: set<Path>)
    requires a.Keys == b.Keys && forall p :: p in a && p in paths ==> a[p] == b[p]
    ensures Only(a, paths) == Only(b, paths)
  {
  }

  lemma SameRest(head: PerFile, base: PerFile, added: set<Path>, deleted: set<Path>)
    requires OnlyFilesMove(head, base, added, deleted)
    ensures Total(head - added) == Total(base - deleted)
  {
    forall p
      ensures At(head - added, p) == At(base - deleted, p)
    {
      assert p in added ==> p !in base;
      assert p in deleted ==> p !in head;
    }
    SameTotal(head - added, base - deleted);
  }

  method Tallied(m: PerFile) returns (t: multiset<Text>)
    ensures t == Total(m)
  {
    t := multiset{};
    var rest := m;
    while rest != map[]
      invariant t + Total(rest) == Total(m)
      decreases |rest|
    {
      var p :| p in rest;
      TotalRemove(rest, p);
      t := t + rest[p];
      rest := rest - {p};
    }
  }

  lemma {:induction false} SumOverNothing<K, T>(order: seq<K>, m: map<K, multiset<T>>)
    requires forall k :: k in order ==> k !in m
    ensures SumOver(order, m) == multiset{}
  {
    if order != [] {
      SumOverNothing(order[..|order| - 1], m);
    }
  }

  /** The shared counters, and what was charged so far in added files and in others. */
  datatype Tab = Tab(budget: multiset<Text>, pool: multiset<Text>, byNew: multiset<Text>, byOld: multiset<Text>)

  function Open(budget: multiset<Text>, pool: multiset<Text>): Tab {
    Tab(budget, pool, multiset{}, multiset{})
  }

  function Bump(t: Tab, n: multiset<Text>, isNew: bool): Tab {
    if isNew then Tab(t.budget - (n - t.pool), t.pool - n, t.byNew + (n - t.pool), t.byOld)
    else Tab(t.budget - n * t.budget, t.pool, t.byNew, t.byOld + n * t.budget)
  }

  ghost function Visited(order: seq<Path>, all: PerFile, added: set<Path>, start: Tab): Tab {
    if order == [] then start
    else
      var p := order[|order| - 1];
      Bump(Visited(order[..|order| - 1], all, added, start), At(all, p), p in added)
  }

  /** The counters once added files gained `a` and existing files gained `e`, in any order among themselves. */
  function Settled(funds: multiset<Text>, pool: multiset<Text>, a: multiset<Text>, e: multiset<Text>): Tab {
    Tab(funds - (a - pool) - e, pool - a, a - pool, e * (funds - (a - pool)))
  }

  lemma AddedStep(funds: multiset<Text>, pool: multiset<Text>, a: multiset<Text>, n: multiset<Text>)
    ensures Bump(Settled(funds, pool, a, multiset{}), n, true) == Settled(funds, pool, a + n, multiset{})
  {
    var minted := n - (pool - a);
    assert (a - pool) + minted == (a + n) - pool;
    assert (pool - a) - n == pool - (a + n);
    assert funds - (a - pool) - multiset{} - minted == funds - ((a - pool) + minted) - multiset{};
  }

  lemma ExistingStep(funds: multiset<Text>, pool: multiset<Text>, a: multiset<Text>, e: multiset<Text>,
                     n: multiset<Text>)
    ensures Bump(Settled(funds, pool, a, e), n, false) == Settled(funds, pool, a, e + n)
  {
    var left := funds - (a - pool);
    assert (left - e) - n * (left - e) == left - (e + n);
    assert e * left + n * (left - e) == (e + n) * left;
  }

  lemma {:induction false} SumOverSkip<K, T>(order: seq<K>, m: map<K, multiset<T>>)
    requires order != [] && order[|order| - 1] !in m
    ensures SumOver(order, m) == SumOver(order[..|order| - 1], m)
  {
  }

  lemma {:induction false} VisitedClosedForm(order: seq<Path>, all: PerFile, added: set<Path>,
                                             funds: multiset<Text>, pool: multiset<Text>)
    requires forall i, j :: 0 <= i < j < |order| && order[j] in added ==> order[i] in added
    ensures Visited(order, all, added, Open(funds, pool))
         == Settled(funds, pool, SumOver(order, Only(all, added)), SumOver(order, all - added))
  {
    if order != [] {
      var p, rest := order[|order| - 1], order[..|order| - 1];
      VisitedClosedForm(rest, all, added, funds, pool);
      var a, e := SumOver(rest, Only(all, added)), SumOver(rest, all - added);
      if p in added {
        SumOverNothing(rest, all - added);
        SumOverSkip(order, all - added);
        AddedStep(funds, pool, a, At(all, p));
      } else {
        SumOverSkip(order, Only(all, added));
        ExistingStep(funds, pool, a, e, At(all, p));
      }
    }
  }

  /** The minted or moved lines of a file are recorded only when there are some; `added` splits the totals. */
  method Record(m: PerFile, p: Path, lines: multiset<Text>, ghost added: set<Path>) returns (r: PerFile)
    requires p !in m
    ensures r.Keys <= m.Keys + {p} && At(r, p) == lines
    ensures forall q :: q != p ==> At(r, q) == At(m, q)
    ensures (forall q :: q in m ==> m[q] != multiset{}) ==> (forall q :: q in r ==> r[q] != multiset{})
    ensures Total(Only(r, added)) == Total(Only(m, added)) + if p in added then lines else multiset{}
    ensures Total(r - added) == Total(m - added) + if p in added then multiset{} else lines
  {
    r := if lines != multiset{} then m[p := lines] else m;
    RecordedNew(m, r, p, lines, added);
    RecordedOld(m, r, p, lines, added);
  }

  lemma RecordedNew(m: PerFile, r: PerFile, p: Path, lines: multiset<Text>, added: set<Path>)
    requires p !in m && r == if lines != multiset{} then m[p := lines] else m
    ensures Total(Only(r, added)) == Total(Only(m, added)) + if p in added then lines else multiset{}
  {
    if p in added && lines != multiset{} {
      assert Only(r, added) == Only(m, added)[p := lines];
      TotalInsert(Only(m, added), p, lines);
    } else {
      assert Only(r, added) == Only(m, added);
    }
  }

  lemma RecordedOld(m: PerFile, r: PerFile, p: Path, lines: multiset<Text>, added: set<Path>)
    requires p !in m && r == if lines != multiset{} then m[p := lines] else m
    ensures Total(r - added) == Total(m - added) + if p in added then multiset{} else lines
  {
    if p !in added && lines != multiset{} {
      assert r - added == (m - added)[p := lines];
      TotalInsert(m - added, p, lines);
    } else {
      assert r - added == m - added;
    }
  }

  /** The first `n` files were visited: what each gained is recorded, and nothing of the others. */
  ghost predicate Recorded(order: seq<Path>, n: nat, all: PerFile, grown: PerFile, moves: PerFile)
    requires n <= |order|
  {
    && (forall p :: p in grown || p in moves ==> p in order)
    && (forall p :: p in grown ==> grown[p] != multiset{})
    && (forall j :: n <= j < |order| ==> order[j] !in grown && order[j] !in moves)
    && (forall j :: 0 <= j < n ==> At(grown, order[j]) + At(moves, order[j]) == At(all, order[j]))
  }

  lemma RecordMore(order: seq<Path>, n: nat, all: PerFile, grown: PerFile, moves: PerFile, grown': PerFile,
                   moves': PerFile)
    requires n < |order| && Distinct(order) && Recorded(order, n, all, grown, moves)
    requires grown'.Keys <= grown.Keys + {order[n]} && moves'.Keys <= moves.Keys + {order[n]}
    requires forall q :: q != order[n] ==> At(grown', q) == At(grown, q) && At(moves', q) == At(moves, q)
    requires At(grown', order[n]) + At(moves', order[n]) == At(all, order[n])
    requires forall p :: p in grown' ==> grown'[p] != multiset{}
    ensures Recorded(order, n + 1, all, grown', moves')
  {
    forall j | 0 <= j < n + 1
      ensures At(grown', order[j]) + At(moves', order[j]) == At(all, order[j])
    {
      if j < n {
        assert order[j] != order[n];
      }
    }
  }

  /** The visiting loop of the gate: `all` holds the lines each file gained. */
  method VisitFiles(order: seq<Path>, all: PerFile, added: set<Path>, funds: multiset<Text>, pool: multiset<Text>)
    returns (grown: PerFile, moves: PerFile)
    requires Distinct(order)
    ensures Recorded(order, |order|, all, grown, moves)
    ensures Total(Only(grown, added)) == Visited(order, all, added, Open(funds, pool)).byNew
    ensures Total(grown - added) == Visited(order, all, added, Open(funds, pool)).byOld
  {
    var ledger := new Ledger(funds, pool);
    grown, moves := map[], map[];
    for i := 0 to |order|
      invariant Recorded(order, i, all, grown, moves)
      invariant Tab(ledger.budget, ledger.inheritable, Total(Only(grown, added)), Total(grown - added))
             == Visited(order[..i], all, added, Open(funds, pool))
    {
      var p := order[i];
      assert order[..i + 1][..i] == order[..i];
      var minted, moved := ledger.Minted(At(all, p), p in added);
      ghost var before := (grown, moves);
      moves := Record(moves, p, moved, added);
      grown := Record(grown, p, minted, added);
      RecordMore(order, i, all, before.0, before.1, grown, moves);
    }
    assert order[..|order|] == order;
  }

  /** One run of the gate's accounting over a base and a head tree. */
  method ChargeChange(order: seq<Path>, head: PerFile, base: PerFile, excused: PerFile,
                      added: set<Path>, deleted: set<Path>)
    returns (grown: PerFile, moves: PerFile)
    requires VisitOrder(order, head, added)
    requires deleted !! head.Keys
    ensures forall p :: p in grown || p in moves ==> p in head
    ensures forall p :: p in grown ==> grown[p] != multiset{}
    ensures forall p :: p in head ==> At(grown, p) + At(moves, p) == Additions(head, base, excused)[p]
    ensures Total(Only(grown, added)) == Uninherited(head, base, excused, added, deleted)
    ensures Total(grown - added) == Budget(head, base, excused) - Uninherited(head, base, excused, added, deleted)
    ensures Total(grown) == Join(Budget(head, base, excused), Uninherited(head, base, excused, added, deleted))
    ensures added !! head.Keys && excused == map[] ==>
      && Total(grown) == Total(head) - Total(base)
      && Total(moves) == Total(Excess(head, base)) * Total(Excess(base, head))
    ensures grown == map[] <==>
      Budget(head, base, excused) == multiset{} && Uninherited(head, base, excused, added, deleted) == multiset{}
  {
    grown, moves := ChargeFiles(order, head, base, excused, added, deleted);
    ChargesJoin(grown, added, Budget(head, base, excused), Uninherited(head, base, excused, added, deleted));
    NothingCharged(grown, Budget(head, base, excused), Uninherited(head, base, excused, added, deleted));
    if added !! head.Keys && excused == map[] {
      OrdinaryCharge(head, base, added, deleted, grown, moves);
    }
  }

  /** The charge in added files and in the others. */
  method ChargeFiles(order: seq<Path>, head: PerFile, base: PerFile, excused: PerFile, added: set<Path>,
                     deleted: set<Path>)
    returns (grown: PerFile, moves: PerFile)
    requires VisitOrder(order, head, added)
    requires deleted !! head.Keys
    ensures grown.Keys <= head.Keys && moves.Keys <= head.Keys
    ensures forall p :: p in grown ==> grown[p] != multiset{}
    ensures forall p :: p in head ==> At(grown, p) + At(moves, p) == Additions(head, base, excused)[p]
    ensures Total(Only(grown, added)) == Uninherited(head, base, excused, added, deleted)
    ensures Total(grown - added) == Budget(head, base, excused) - Uninherited(head, base, excused, added, deleted)
  {
    var headTotal := Tallied(head);
    var baseTotal := Tallied(base);
    var excusedTotal := Tallied(excused);
    var pool := Tallied(Only(base, deleted));
    var all := Additions(head, base, excused);
    grown, moves := VisitFiles(order, all, added, MintBudget(headTotal, baseTotal + excusedTotal), pool);
    ChargeIsExact(order, head, base, excused, added, deleted);
    RecordedInAll(order, all, grown, moves);
  }

  lemma RecordedInAll(order: seq<Path>, all: PerFile, grown: PerFile, moves: PerFile)
    requires Recorded(order, |order|, all, grown, moves) && forall p :: p in order <==> p in all
    ensures grown.Keys <= all.Keys && moves.Keys <= all.Keys
    ensures forall p :: p in grown ==> grown[p] != multiset{}
    ensures forall p :: p in all ==> At(grown, p) + At(moves, p) == all[p]
  {
    forall p | p in all
      ensures At(grown, p) + At(moves, p) == all[p]
    {
      var j :| 0 <= j < |order| && order[j] == p;
    }
  }

  lemma NothingCharged(grown: PerFile, funds: multiset<Text>, r: multiset<Text>)
    requires (forall p :: p in grown ==> grown[p] != multiset{}) && Total(grown) == Join(funds, r)
    ensures grown == map[] <==> funds == multiset{} && r == multiset{}
  {
    TotalEmpty(grown);
    JoinEmpty(funds, r);
  }

  lemma {:induction false} OrdinaryCharge(head: PerFile, base: PerFile, added: set<Path>, deleted: set<Path>,
                                          grown: PerFile, moves: PerFile)
    requires added !! head.Keys && grown.Keys <= head.Keys && moves.Keys <= head.Keys
    requires forall p :: p in head ==> At(grown, p) + At(moves, p) == Additions(head, base, map[])[p]
    requires Total(grown) == Join(Budget(head, base, map[]), Uninherited(head, base, map[], added, deleted))
    ensures Total(grown) == Total(head) - Total(base)
    ensures Total(moves) == Total(Excess(head, base)) * Total(Excess(base, head))
  {
    TotalSum(grown, moves, Additions(head, base, map[]));
    OrdinaryChange(head, base, added, deleted, Total(grown), Total(moves));
  }

  lemma JoinEmpty<T(!new)>(a: multiset<T>, b: multiset<T>)
    ensures Join(a, b) == multiset{} <==> a == multiset{} && b == multiset{}
  {
  }

  lemma {:induction false} TotalSum(a: PerFile, b: PerFile, c: PerFile)
    requires a.Keys <= c.Keys && b.Keys <= c.Keys
    requires forall p :: p in c ==> At(a, p) + At(b, p) == c[p]
    ensures Total(a) + Total(b) == Total(c)
    decreases |c|
  {
    if c == map[] {
      assert a == map[] && b == map[];
    } else {
      var p := PickKey(c);
      forall q | q in c - {p}
        ensures At(a - {p}, q) + At(b - {p}, q) == (c - {p})[q]
      {
        assert At(a - {p}, q) == At(a, q) && At(b - {p}, q) == At(b, q);
      }
      TotalSum(a - {p}, b - {p}, c - {p});
      TotalDrop(a, p);
      TotalDrop(b, p);
      Regroup(At(a, p), Total(a - {p}), At(b, p), Total(b - {p}));
    }
  }

  lemma Regroup<T>(a: multiset<T>, b: multiset<T>, c: multiset<T>, d: multiset<T>)
    ensures (a + b) + (c + d) == (a + c) + (b + d)
  {
  }

  lemma TotalEmpty(m: PerFile)
    requires forall p :: p in m ==> m[p] != multiset{}
    ensures Total(m) == multiset{} <==> m == map[]
  {
    if m != map[] {
      var p := PickKey(m);
      var t :| t in m[p];
      assert Total(m)[t] >= m[p][t];
    }
  }

  /**
    With no added file and no floor transition, the charge is the repo-wide gain and the moves pair gains with
    losses.
  */
  lemma {:induction false} OrdinaryChange(head: PerFile, base: PerFile, added: set<Path>, deleted: set<Path>,
                                          minted: multiset<Text>, moved: multiset<Text>)
    requires added !! head.Keys
    requires minted == Join(Budget(head, base, map[]), Uninherited(head, base, map[], added, deleted))
    requires minted + moved == Total(Additions(head, base, map[]))
    ensures minted == Total(head) - Total(base)
    ensures moved == Total(Excess(head, base)) * Total(Excess(base, head))
  {
    assert Only(Additions(head, base, map[]), added) == map[];
    ExcessOverNothing(Excess(head, base));
    Balance(head, base);
    GainArithmetic(Total(head), Total(base), Total(Excess(head, base)), Total(Excess(base, head)), minted, moved);
  }

  lemma GainArithmetic<T>(h: multiset<T>, b: multiset<T>, gain: multiset<T>, loss: multiset<T>,
                          minted: multiset<T>, moved: multiset<T>)
    requires h + loss == b + gain
    requires minted == h - b && minted + moved == gain
    ensures moved == gain * loss
  {
    forall t
      ensures moved[t] == (gain * loss)[t]
    {
      assert (h + loss)[t] == (b + gain)[t];
      assert (minted + moved)[t] == gain[t];
    }
  }

  lemma {:induction false} ChargeIsExact(order: seq<Path>, head: PerFile, base: PerFile, excused: PerFile,
                                         added: set<Path>, deleted: set<Path>)
    requires VisitOrder(order, head, added)
    requires deleted !! head.Keys
    ensures var t := Visited(order, Additions(head, base, excused), added,
                             Open(Budget(head, base, excused), Inheritable(base, deleted)));
      && t.byNew == Uninherited(head, base, excused, added, deleted)
      && t.byOld == Budget(head, base, excused) - Uninherited(head, base, excused, added, deleted)
  {
    var all := Additions(head, base, excused);
    VisitedClosedForm(order, all, added, Budget(head, base, excused), Inheritable(base, deleted));
    SumOverTotal(order, Only(all, added));
    SumOverTotal(order, all - added);
    BudgetIsCovered(head, base, excused, added, deleted);
    AllCharged(Budget(head, base, excused), Uninherited(head, base, excused, added, deleted), Total(all - added));
  }

  lemma AllCharged<T(!new)>(funds: multiset<T>, r: multiset<T>, e: multiset<T>)
    requires funds <= r + e
    ensures e * (funds - r) == funds - r
  {
  }

  /** Both kinds of charge together are the larger of the budget and the new files' own. */
  lemma ChargesJoin(grown: PerFile, added: set<Path>, funds: multiset<Text>, r: multiset<Text>)
    requires Total(Only(grown, added)) == r && Total(grown - added) == funds - r
    ensures Total(grown) == Join(funds, r)
  {
    TotalSplit(grown, added);
    JoinSwaps(funds, r);
  }

  lemma JoinSwaps<T(!new)>(a: multiset<T>, b: multiset<T>)
    ensures b + (a - b) == Join(a, b)
  {
  }

  lemma {:induction false} TotalSubadditive<K, T>(a: map<K, multiset<T>>, b: map<K, multiset<T>>,
                                                  c: map<K, multiset<T>>)
    requires forall k :: k in a ==> a[k] <= At(b, k) + At(c, k)
    ensures Total(a) <= Total(b) + Total(c)
    decreases |a|
  {
    if a != map[] {
      var k := PickKey(a);
      TotalSubadditive(a - {k}, b - {k}, c - {k});
      TotalDrop(b, k);
      TotalDrop(c, k);
    }
  }

  lemma {:induction false} TotalSplit(m: PerFile, paths: set<Path>)
    ensures Total(m) == Total(Only(m, paths)) + Total(m - paths)
    decreases |m|
  {
    if m == map[] {
      assert Only(m, paths) == map[] && m - paths == map[];
    } else {
      var k := PickKey(m);
      TotalSplit(m - {k}, paths);
      SplitWithout(m, paths, k);
      TotalDrop(m, k);
      TotalDrop(Only(m, paths), k);
      TotalDrop(m - paths, k);
      Share(Total(Only(m - {k}, paths)), Total(m - {k} - paths), At(Only(m, paths), k), At(m - paths, k), At(m, k));
    }
  }

  lemma SplitWithout(m: PerFile, paths: set<Path>, k: Path)
    requires k in m
    ensures Only(m, paths) - {k} == Only(m - {k}, paths) && m - paths - {k} == m - {k} - paths
    ensures At(Only(m, paths), k) + At(m - paths, k) == At(m, k)
  {
  }

  lemma Share<T>(a: multiset<T>, b: multiset<T>, x: multiset<T>, y: multiset<T>, z: multiset<T>)
    requires x + y == z
    ensures (a + b) + z == (a + x) + (b + y)
  {
  }

  lemma CoverArithmetic<T>(h: multiset<T>, b: multiset<T>, x: multiset<T>, gain: multiset<T>, loss: multiset<T>,
                           news: multiset<T>, olds: multiset<T>, pool: multiset<T>)
    requires h + loss == b + gain
    requires gain <= (news + olds) + x
    requires pool <= loss
    ensures h - (b + x) <= (news - pool) + olds
  {
    forall t
      ensures (h - (b + x))[t] <= ((news - pool) + olds)[t]
    {
      assert (h + loss)[t] == (b + gain)[t];
      assert gain[t] <= ((news + olds) + x)[t];
    }
  }

  /** The files of the head tree gained at least the budget, even after the inherited lines are set aside. */
  lemma {:induction false} BudgetIsCovered(head: PerFile, base: PerFile, excused: PerFile, added: set<Path>,
                                           deleted: set<Path>)
    requires deleted !! head.Keys
    ensures Budget(head, base, excused)
         <= Uninherited(head, base, excused, added, deleted) + Total(Additions(head, base, excused) - added)
  {
    var all := Additions(head, base, excused);
    TotalSplit(all, added);
    GainsAreAdditions(head, base, excused);
    InheritableIsLost(head, base, deleted);
    Balance(head, base);
    CoverArithmetic(Total(head), Total(base), Total(excused), Total(Excess(head, base)), Total(Excess(base, head)),
                    Total(Only(all, added)), Total(all - added), Inheritable(base, deleted));
  }

  lemma {:induction false} GainsAreAdditions(head: PerFile, base: PerFile, excused: PerFile)
    ensures Total(Excess(head, base)) <= Total(Additions(head, base, excused)) + Total(excused)
  {
    var gains := Excess(head, base);
    forall k | k in gains
      ensures gains[k] <= At(Excess(gains, excused), k) + At(excused, k)
    {
    }
    TotalSubadditive(gains, Excess(gains, excused), excused);
  }

  lemma {:induction false} InheritableIsLost(head: PerFile, base: PerFile, deleted: set<Path>)
    requires deleted !! head.Keys
    ensures Inheritable(base, deleted) <= Total(Excess(base, head))
  {
    forall k | k in Only(base, deleted)
      ensures Only(base, deleted)[k] <= At(Excess(base, head), k)
    {
      assert At(head, k) == multiset{};
    }
    TotalMonotone(Only(base, deleted), Excess(base, head));
  }
}
