/**
  The ledger's charge under an arbitrary visiting order, one text at a time: when it is
  the exact amount, and by what it can exceed it.
*/
module VisitingOrder {
  import opened Common
  import opened Counters
  import opened MintLedger

  /** What one visited file adds of a text, and whether the change adds the file. */
  datatype Visit = Visit(gain: nat, isNew: bool)

  /** The counters of one text. */
  datatype Count = Count(budget: nat, pool: nat, minted: nat)

  function Charge(c: Count, v: Visit): Count {
    var minted := if v.isNew then Excess0(v.gain, c.pool) else Min(v.gain, c.budget);
    Count(Excess0(c.budget, minted), if v.isNew then Excess0(c.pool, v.gain) else c.pool, c.minted + minted)
  }

  ghost function Charged(v: seq<Visit>, start: Count): Count {
    if v == [] then start else Charge(Charged(v[..|v| - 1], start), v[|v| - 1])
  }

  /** The gains of the added files, or of the others. */
  ghost function Gain(v: seq<Visit>, isNew: bool): nat {
    if v == [] then 0 else Gain(v[..|v| - 1], isNew) + if v[|v| - 1].isNew == isNew then v[|v| - 1].gain else 0
  }

  /** What visited files claim of the budget: uninherited additions of added files, all additions of others. */
  ghost function Claims(v: seq<Visit>, pool: nat): nat {
    Excess0(Gain(v, true), pool) + Gain(v, false)
  }

  /** The `i`-th file exists before, and adds the text while the claims before it leave budget for it. */
  ghost predicate ChargedAt(v: seq<Visit>, i: nat, funds: nat, pool: nat)
    requires i < |v|
  {
    !v[i].isNew && v[i].gain > 0 && Claims(v[..i], pool) < funds
  }

  /** The `i`-th file is added, and its uninherited additions of the text go beyond the budget. */
  ghost predicate ShortAt(v: seq<Visit>, i: nat, funds: nat, pool: nat)
    requires i < |v|
  {
    v[i].isNew && Claims(v[..i], pool) < Claims(v[..i + 1], pool) && funds < Claims(v[..i + 1], pool)
  }

  ghost predicate ChargesExisting(v: seq<Visit>, funds: nat, pool: nat) {
    exists i :: 0 <= i < |v| && ChargedAt(v, i, funds, pool)
  }

  ghost predicate RunsShort(v: seq<Visit>, funds: nat, pool: nat) {
    exists i :: 0 <= i < |v| && ShortAt(v, i, funds, pool)
  }

  lemma SameBefore(v: seq<Visit>, w: seq<Visit>, i: nat, funds: nat, pool: nat)
    requires i < |w| <= |v| && w == v[..|w|]
    ensures ChargedAt(v, i, funds, pool) == ChargedAt(w, i, funds, pool)
    ensures ShortAt(v, i, funds, pool) == ShortAt(w, i, funds, pool)
  {
    assert v[..i] == w[..i] && v[..i + 1] == w[..i + 1];
  }

  lemma OneMoreFile(v: seq<Visit>, funds: nat, pool: nat)
    requires v != []
    ensures var w := v[..|v| - 1];
      ChargesExisting(v, funds, pool) <==> ChargesExisting(w, funds, pool) || ChargedAt(v, |v| - 1, funds, pool)
    ensures var w := v[..|v| - 1];
      RunsShort(v, funds, pool) <==> RunsShort(w, funds, pool) || ShortAt(v, |v| - 1, funds, pool)
  {
    var w := v[..|v| - 1];
    forall i | 0 <= i < |w|
      ensures ChargedAt(v, i, funds, pool) == ChargedAt(w, i, funds, pool)
      ensures ShortAt(v, i, funds, pool) == ShortAt(w, i, funds, pool)
    {
      SameBefore(v, w, i, funds, pool);
    }
  }

  /**
    The counters once added files gained `a` and existing files `e`; `charged` and `short` say what happened
    on the way.
  */
  predicate Tracked(c: Count, funds: nat, pool: nat, a: nat, e: nat, charged: bool, short: bool) {
    && c.pool == Excess0(pool, a)
    && c.budget == Excess0(funds, Excess0(a, pool) + e)
    && (if charged then c.minted > Excess0(a, pool) else c.minted == Excess0(a, pool))
    && (if short then c.minted + c.budget > funds else c.minted + c.budget == funds)
  }

  lemma AddedTracked(c: Count, n: nat, funds: nat, pool: nat, a: nat, e: nat, charged: bool, short: bool)
    requires Tracked(c, funds, pool, a, e, charged, short)
    ensures var u, w := Excess0(a, pool) + e, Excess0(a + n, pool) + e;
      Tracked(Charge(c, Visit(n, true)), funds, pool, a + n, e, charged, short || (u < w && funds < w))
  {
  }

  lemma ExistingTracked(c: Count, n: nat, funds: nat, pool: nat, a: nat, e: nat, charged: bool, short: bool)
    requires Tracked(c, funds, pool, a, e, charged, short)
    ensures Tracked(Charge(c, Visit(n, false)), funds, pool, a, e + n,
                    charged || (n > 0 && Excess0(a, pool) + e < funds), short)
  {
  }

  /** What is charged beyond the claims of added files, and beyond the budget, is what the two conditions say. */
  lemma {:induction false} ChargedTracked(v: seq<Visit>, funds: nat, pool: nat)
    ensures Tracked(Charged(v, Count(funds, pool, 0)), funds, pool, Gain(v, true), Gain(v, false),
                    ChargesExisting(v, funds, pool), RunsShort(v, funds, pool))
  {
    if v != [] {
      var k := |v| - 1;
      var w, n := v[..k], v[k].gain;
      ChargedTracked(w, funds, pool);
      OneMoreFile(v, funds, pool);
      assert v[..k + 1] == v;
      var c := Charged(w, Count(funds, pool, 0));
      var charged, short := ChargesExisting(w, funds, pool), RunsShort(w, funds, pool);
      if v[k].isNew {
        AddedTracked(c, n, funds, pool, Gain(w, true), Gain(w, false), charged, short);
      } else {
        ExistingTracked(c, n, funds, pool, Gain(w, true), Gain(w, false), charged, short);
      }
    }
  }

  /* ---- the ledger, text by text ---- */

  ghost function Visits(order: seq<Path>, all: PerFile, added: set<Path>, x: Text): (v: seq<Visit>)
    ensures |v| == |order| && forall i :: 0 <= i < |order| ==> v[i] == Visit(At(all, order[i])[x], order[i] in added)
  {
    seq(|order|, i requires 0 <= i < |order| => Visit(At(all, order[i])[x], order[i] in added))
  }

  function CountOf(t: Tab, x: Text): Count {
    Count(t.budget[x], t.pool[x], t.byNew[x] + t.byOld[x])
  }

  lemma BumpCount(t: Tab, n: multiset<Text>, isNew: bool, x: Text)
    ensures CountOf(Bump(t, n, isNew), x) == Charge(CountOf(t, x), Visit(n[x], isNew))
  {
  }

  lemma {:induction false} VisitedCount(order: seq<Path>, all: PerFile, added: set<Path>, start: Tab, x: Text)
    ensures CountOf(Visited(order, all, added, start), x) == Charged(Visits(order, all, added, x), CountOf(start, x))
  {
    if order != [] {
      var p, rest := order[|order| - 1], order[..|order| - 1];
      VisitedCount(rest, all, added, start, x);
      assert Visits(order, all, added, x)[..|order| - 1] == Visits(rest, all, added, x);
      BumpCount(Visited(rest, all, added, start), At(all, p), p in added, x);
    }
  }

  lemma {:induction false} GainIsSum(order: seq<Path>, all: PerFile, part: PerFile, added: set<Path>, isNew: bool,
                                     x: Text)
    requires forall p :: At(part, p)[x] == if (p in added) == isNew then At(all, p)[x] else 0
    ensures Gain(Visits(order, all, added, x), isNew) == SumOver(order, part)[x]
  {
    if order != [] {
      var p, rest := order[|order| - 1], order[..|order| - 1];
      GainIsSum(rest, all, part, added, isNew, x);
      assert Visits(order, all, added, x)[..|order| - 1] == Visits(rest, all, added, x);
      SumAt(SumOver(rest, part), At(part, p), x);
    }
  }

  lemma SumAt(a: multiset<Text>, b: multiset<Text>, x: Text)
    ensures (a + b)[x] == a[x] + b[x]
  {
  }

  lemma TotalGain(order: seq<Path>, all: PerFile, added: set<Path>, x: Text)
    requires Distinct(order) && forall p :: p in all ==> p in order
    ensures Gain(Visits(order, all, added, x), true) == Total(Only(all, added))[x]
    ensures Gain(Visits(order, all, added, x), false) == Total(all - added)[x]
  {
    GainIsSum(order, all, Only(all, added), added, true, x);
    GainIsSum(order, all, all - added, added, false, x);
    SumOverTotal(order, Only(all, added));
    SumOverTotal(order, all - added);
  }

  function Larger(a: nat, b: nat): nat { if a < b then b else a }

  /** Covered by the claims, a budget is exceeded only when both conditions hold. */
  lemma {:induction false} ExactUnlessBoth(v: seq<Visit>, funds: nat, pool: nat)
    requires funds <= Claims(v, pool)
    ensures var minted, exact := Charged(v, Count(funds, pool, 0)).minted, Larger(funds, Excess0(Gain(v, true), pool));
      minted >= exact && (minted == exact <==> !(ChargesExisting(v, funds, pool) && RunsShort(v, funds, pool)))
  {
    ChargedTracked(v, funds, pool);
  }

  /** What a text is charged when the files are visited in the given order. */
  ghost function ChargeIn(order: seq<Path>, head: PerFile, base: PerFile, excused: PerFile, added: set<Path>,
                          deleted: set<Path>, x: Text): nat
  {
    var start := Open(Budget(head, base, excused), Inheritable(base, deleted));
    CountOf(Visited(order, Additions(head, base, excused), added, start), x).minted
  }

  ghost function ExactCharge(head: PerFile, base: PerFile, excused: PerFile, added: set<Path>, deleted: set<Path>,
                             x: Text): nat
  {
    Join(Budget(head, base, excused), Uninherited(head, base, excused, added, deleted))[x]
  }

  /**
    In every visiting order a text is charged at least the exact amount, and exactly that unless the
    order charges an existing file and lets an added file run short.
  */
  lemma OrderIsExactIff(order: seq<Path>, head: PerFile, base: PerFile, excused: PerFile, added: set<Path>,
                        deleted: set<Path>, x: Text)
    requires Distinct(order) && (forall p :: p in order <==> p in head)
    requires deleted !! head.Keys
    ensures ChargeIn(order, head, base, excused, added, deleted, x)
          >= ExactCharge(head, base, excused, added, deleted, x)
    ensures var v := Visits(order, Additions(head, base, excused), added, x);
      var funds, pool := Budget(head, base, excused)[x], Inheritable(base, deleted)[x];
      ChargeIn(order, head, base, excused, added, deleted, x) == ExactCharge(head, base, excused, added, deleted, x)
      <==> !(ChargesExisting(v, funds, pool) && RunsShort(v, funds, pool))
  {
    var all, funds, pool := Additions(head, base, excused), Budget(head, base, excused), Inheritable(base, deleted);
    var v := Visits(order, all, added, x);
    VisitedCount(order, all, added, Open(funds, pool), x);
    TotalGain(order, all, added, x);
    BudgetIsCovered(head, base, excused, added, deleted);
    CoveredAt(funds, Total(Only(all, added)), pool, Total(all - added), x);
    ExactUnlessBoth(v, funds[x], pool[x]);
  }

  lemma CoveredAt(funds: multiset<Text>, a: multiset<Text>, pool: multiset<Text>, e: multiset<Text>, x: Text)
    requires funds <= (a - pool) + e
    ensures funds[x] <= Excess0(a[x], pool[x]) + e[x]
    ensures Join(funds, a - pool)[x] == Larger(funds[x], Excess0(a[x], pool[x]))
  {
    assert funds[x] <= ((a - pool) + e)[x];
  }

  /** An order that puts an existing file before an added one can charge both for a single gain. */
  lemma LateAddedFileIsOvercharged()
    ensures var early, late := [Visit(1, true), Visit(1, false)], [Visit(1, false), Visit(1, true)];
      && Charged(early, Count(1, 0, 0)).minted == 1
      && Charged(late, Count(1, 0, 0)).minted == 2
      && ChargesExisting(late, 1, 0) && RunsShort(late, 1, 0)
  {
    var early, late := [Visit(1, true), Visit(1, false)], [Visit(1, false), Visit(1, true)];
    assert early[..1] == [Visit(1, true)] && early[..1][..0] == [];
    assert late[..1] == [Visit(1, false)] && late[..1][..0] == [];
    ChargedTracked(late, 1, 0);
    ChargedTracked(early, 1, 0);
  }
}
