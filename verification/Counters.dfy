/**
  Counting, as the two gates do it.  A Python `Counter` whose counts are never
  negative is a `multiset`: `a - b` is Counter subtraction, `a * b` the pointwise
  minimum, `|a|` the sum of the counts.  A `dict[str, Counter[str]]` is a map to
  multisets, and `Total` adds its values up.
*/
module Counters {
  import opened Common

  /** The counter stored under `k`, or the empty one: `d.get(k, Counter())`. */
  function At<K, T>(m: map<K, multiset<T>>, k: K): (r: multiset<T>) {
    if k in m then m[k] else multiset{}
  }

  /** The pointwise maximum of two counters. */
  function Join<T(!new)>(a: multiset<T>, b: multiset<T>): (r: multiset<T>)
    ensures forall t :: r[t] == if a[t] < b[t] then b[t] else a[t]
  {
    a + (b - a)
  }

  ghost function PickKey<K, T>(m: map<K, multiset<T>>): K
    requires m != map[]
    ensures PickKey(m) in m
  {
    var k :| k in m; k
  }

  /** The sum of all counters of a map. */
  ghost function Total<K, T>(m: map<K, multiset<T>>): multiset<T>
    decreases |m|
  {
    if m == map[] then multiset{}
    else var k := PickKey(m); m[k] + Total(m - {k})
  }

  lemma TotalRemove<K, T>(m: map<K, multiset<T>>, k: K)
    requires k in m
    ensures Total(m) == m[k] + Total(m - {k})
    decreases |m|
  {
    var q := PickKey(m);
    if q != k {
      TotalRemove(m - {q}, k);
      TotalRemove(m - {k}, q);
      assert m - {q} - {k} == m - {k} - {q};
      Swap(m[q], m[k], Total(m - {q} - {k}));
    }
  }

  lemma Swap<T>(a: multiset<T>, b: multiset<T>, c: multiset<T>)
    ensures a + (b + c) == b + (a + c)
  {
  }

  lemma TotalDrop<K, T>(m: map<K, multiset<T>>, k: K)
    ensures Total(m) == At(m, k) + Total(m - {k})
  {
    if k in m {
      TotalRemove(m, k);
    } else {
      assert m - {k} == m;
    }
  }

  lemma TotalInsert<K, T>(m: map<K, multiset<T>>, k: K, c: multiset<T>)
    requires k !in m
    ensures Total(m[k := c]) == Total(m) + c
  {
    TotalRemove(m[k := c], k);
    assert m[k := c] - {k} == m;
  }

  /** The part of `a` that each key has beyond what `b` has under the same key. */
  function Excess<K, T>(a: map<K, multiset<T>>, b: map<K, multiset<T>>): map<K, multiset<T>> {
    map k | k in a :: a[k] - At(b, k)
  }

  lemma {:induction false} ExcessWithout<K, T>(a: map<K, multiset<T>>, b: map<K, multiset<T>>, k: K)
    ensures Excess(a, b) - {k} == Excess(a - {k}, b - {k})
  {
    var l, r := Excess(a, b) - {k}, Excess(a - {k}, b - {k});
    assert l.Keys == r.Keys;
    forall j | j in l
      ensures l[j] == r[j]
    {
      assert At(b, j) == At(b - {k}, j);
    }
  }

  lemma {:induction false} ExcessDrop<K, T>(a: map<K, multiset<T>>, b: map<K, multiset<T>>, k: K)
    ensures Total(Excess(a, b)) == (At(a, k) - At(b, k)) + Total(Excess(a - {k}, b - {k}))
  {
    TotalDrop(Excess(a, b), k);
    ExcessWithout(a, b, k);
  }

  lemma {:induction false} ExcessOverNothing<K, T>(b: map<K, multiset<T>>)
    ensures Excess(b, map[]) == b
  {
    forall k | k in b
      ensures Excess(b, map[])[k] == b[k]
    {
      assert b[k] - multiset{} == b[k];
    }
  }

  lemma {:induction false} BalanceStep<T>(x: multiset<T>, y: multiset<T>, p: multiset<T>, q: multiset<T>,
                                          r: multiset<T>, s: multiset<T>)
    requires p + s == q + r
    ensures (x + p) + ((y - x) + s) == (y + q) + ((x - y) + r)
  {
    assert (x + p) + ((y - x) + s) == (x + (y - x)) + (p + s);
    assert x + (y - x) == y + (x - y);
    assert (y + q) + ((x - y) + r) == (y + (x - y)) + (q + r);
  }

  /** What `a` gained over `b` and what it lost balance the two totals. */
  lemma {:induction false} Balance<K, T>(a: map<K, multiset<T>>, b: map<K, multiset<T>>)
    ensures Total(a) + Total(Excess(b, a)) == Total(b) + Total(Excess(a, b))
    decreases |a|
  {
    if a == map[] {
      ExcessOverNothing(b);
      assert Excess(a, b) == map[];
    } else {
      var k := PickKey(a);
      Balance(a - {k}, b - {k});
      TotalDrop(a, k);
      TotalDrop(b, k);
      ExcessDrop(a, b, k);
      ExcessDrop(b, a, k);
      BalanceStep(At(a, k), At(b, k), Total(a - {k}), Total(b - {k}),
                  Total(Excess(a - {k}, b - {k})), Total(Excess(b - {k}, a - {k})));
    }
  }

  /** A pointwise smaller map, on at least the same keys, has a smaller total. */
  lemma {:induction false} TotalMonotone<K, T>(a: map<K, multiset<T>>, b: map<K, multiset<T>>)
    requires forall k :: k in a ==> a[k] <= At(b, k)
    ensures Total(a) <= Total(b)
    decreases |a|
  {
    if a != map[] {
      var k := PickKey(a);
      TotalMonotone(a - {k}, b - {k});
      TotalDrop(b, k);
    }
  }

  /** The sum of the counters a sequence of keys visits. */
  ghost function SumOver<K, T>(order: seq<K>, m: map<K, multiset<T>>): multiset<T> {
    if order == [] then multiset{}
    else SumOver(order[..|order| - 1], m) + At(m, order[|order| - 1])
  }

  lemma {:induction false} SumOverTotal<K, T>(order: seq<K>, m: map<K, multiset<T>>)
    requires Distinct(order)
    requires forall k :: k in m ==> k in order
    ensures SumOver(order, m) == Total(m)
  {
    if order != [] {
      var k := order[|order| - 1];
      var rest := order[..|order| - 1];
      SumOverTotal(rest, m - {k});
      SumOverSame(rest, m, m - {k});
      TotalDrop(m, k);
    }
  }

  lemma {:induction false} SumOverSame<K, T>(order: seq<K>, a: map<K, multiset<T>>, b: map<K, multiset<T>>)
    requires forall k :: k in order ==> At(a, k) == At(b, k)
    ensures SumOver(order, a) == SumOver(order, b)
  {
    if order != [] {
      SumOverSame(order[..|order| - 1], a, b);
    }
  }

  lemma {:induction false} Listed<K>(s: set<K>) returns (order: seq<K>)
    ensures Distinct(order) && forall k :: k in order <==> k in s
  {
    order := [];
    if s != {} {
      var k :| k in s;
      var rest := Listed(s - {k});
      order := rest + [k];
    }
  }

  lemma BalanceTwo<T>(a: multiset<T>, b: multiset<T>, c: multiset<T>, d: multiset<T>,
                      e: multiset<T>, f: multiset<T>, g: multiset<T>, h: multiset<T>)
    requires a + b == c + d && e + f == g + h
    ensures (a + e) + (b + f) == (c + g) + (d + h)
  {
    assert (a + e) + (b + f) == (a + b) + (e + f);
    assert (c + g) + (d + h) == (c + d) + (g + h);
  }

  lemma {:induction false} SumsBalance<K, T>(order: seq<K>, a: map<K, multiset<T>>, b: map<K, multiset<T>>,
                                             c: map<K, multiset<T>>, d: map<K, multiset<T>>)
    requires forall k :: k in order ==> At(a, k) + At(b, k) == At(c, k) + At(d, k)
    ensures SumOver(order, a) + SumOver(order, b) == SumOver(order, c) + SumOver(order, d)
  {
    if order != [] {
      var k, rest := order[|order| - 1], order[..|order| - 1];
      SumsBalance(rest, a, b, c, d);
      BalanceTwo(SumOver(rest, a), SumOver(rest, b), SumOver(rest, c), SumOver(rest, d),
                 At(a, k), At(b, k), At(c, k), At(d, k));
    }
  }

  /** What balances under every key balances in total. */
  lemma {:induction false} TotalsBalance<K(!new), T>(a: map<K, multiset<T>>, b: map<K, multiset<T>>,
                                                     c: map<K, multiset<T>>, d: map<K, multiset<T>>)
    requires forall k :: At(a, k) + At(b, k) == At(c, k) + At(d, k)
    ensures Total(a) + Total(b) == Total(c) + Total(d)
  {
    var order := Listed(a.Keys + b.Keys + c.Keys + d.Keys);
    SumsBalance(order, a, b, c, d);
    SumOverTotal(order, a);
    SumOverTotal(order, b);
    SumOverTotal(order, c);
    SumOverTotal(order, d);
  }

  /* ---- counting by a key ---- */

  ghost function PickElement<T>(m: multiset<T>): T
    requires m != multiset{}
    ensures PickElement(m) in m
  {
    var x :| x in m; x
  }

  /** How many elements of a counter have the key `k`. */
  ghost function TallyBy<T, K>(m: multiset<T>, key: T -> K, k: K): nat
    decreases |m|
  {
    if m == multiset{} then 0
    else
      var x := PickElement(m);
      Dropped(m, x);
      TallyBy(m[x := 0], key, k) + if key(x) == k then m[x] else 0
  }

  lemma Dropped<T>(m: multiset<T>, x: T)
    ensures |m[x := 0]| + m[x] == |m|
  {
    assert m == m[x := 0] + multiset{}[x := m[x]];
  }

  lemma Resized<T>(m: multiset<T>, x: T, n: nat)
    ensures |m[x := n]| == |m| - m[x] + n
  {
    Dropped(m, x);
    Dropped(m[x := n], x);
    assert m[x := n][x := 0] == m[x := 0];
  }

  lemma {:induction false} TallyDrop<T, K>(m: multiset<T>, key: T -> K, x: T, k: K)
    ensures TallyBy(m, key, k) == TallyBy(m[x := 0], key, k) + if key(x) == k then m[x] else 0
    decreases |m|
  {
    if x !in m {
      assert m[x := 0] == m;
    } else {
      var y := PickElement(m);
      if y != x {
        Dropped(m, y);
        Dropped(m, x);
        TallyDrop(m[y := 0], key, x, k);
        TallyDrop(m[x := 0], key, y, k);
        assert m[y := 0][x := 0] == m[x := 0][y := 0];
      }
    }
  }

  lemma {:induction false} TallySet<T, K>(m: multiset<T>, key: T -> K, x: T, n: nat, k: K)
    ensures TallyBy(m[x := n], key, k) == TallyBy(m, key, k) + if key(x) == k then n - m[x] else 0
  {
    TallyDrop(m, key, x, k);
    TallyDrop(m[x := n], key, x, k);
    assert m[x := n][x := 0] == m[x := 0];
  }

  lemma {:induction false} TallyAdd<T, K>(a: multiset<T>, b: multiset<T>, key: T -> K, k: K)
    ensures TallyBy(a + b, key, k) == TallyBy(a, key, k) + TallyBy(b, key, k)
    decreases |b|
  {
    if b == multiset{} {
      assert a + b == a;
    } else {
      var x := PickElement(b);
      Dropped(b, x);
      TallyAdd(a, b[x := 0], key, k);
      TallySet(a + b[x := 0], key, x, (a + b)[x], k);
      TallyDrop(b, key, x, k);
      assert (a + b[x := 0])[x := (a + b)[x]] == a + b;
    }
  }

  lemma {:induction false} TallyOfPart<T, K>(a: multiset<T>, b: multiset<T>, key: T -> K, k: K)
    requires b <= a
    ensures TallyBy(a, key, k) == TallyBy(b, key, k) + TallyBy(a - b, key, k)
  {
    assert a == b + (a - b);
    TallyAdd(b, a - b, key, k);
  }

  lemma {:induction false} TallyPositive<T(!new), K>(m: multiset<T>, key: T -> K, k: K)
    requires TallyBy(m, key, k) > 0
    ensures exists x :: x in m && key(x) == k
    decreases |m|
  {
    var y := PickElement(m);
    if key(y) != k {
      Dropped(m, y);
      TallyPositive(m[y := 0], key, k);
      var x :| x in m[y := 0] && key(x) == k;
      assert x in m;
    }
  }

  /** A counter whose elements all have one key. */
  lemma {:induction false} TallyUniform<T(!new), K>(m: multiset<T>, key: T -> K, only: K, k: K)
    requires forall x :: x in m ==> key(x) == only
    ensures TallyBy(m, key, k) == if k == only then |m| else 0
    decreases |m|
  {
    if m != multiset{} {
      var x := PickElement(m);
      Dropped(m, x);
      TallyUniform(m[x := 0], key, only, k);
    }
  }

  /** Taking elements of one key out of a counter changes that key's tally and no other. */
  lemma {:induction false} TallyTaken<T(!new), K>(m: multiset<T>, left: multiset<T>, key: T -> K, only: K, k: K)
    requires left <= m
    requires forall x :: left[x] != m[x] ==> key(x) == only
    ensures TallyBy(m, key, k) == TallyBy(left, key, k) + if k == only then |m| - |left| else 0
  {
    var taken := m - left;
    assert m == left + taken;
    TallyAdd(left, taken, key, k);
    TallyUniform(taken, key, only, k);
  }

  /** Storing another counter under one key shifts the tally of the total by the difference. */
  lemma {:induction false} TallyReplace<P, T, K>(m: map<P, multiset<T>>, p: P, c: multiset<T>, key: T -> K, k: K)
    ensures TallyBy(Total(m[p := c]), key, k) + TallyBy(At(m, p), key, k)
          == TallyBy(Total(m), key, k) + TallyBy(c, key, k)
  {
    TotalDrop(m, p);
    TotalDrop(m[p := c], p);
    assert m[p := c] - {p} == m - {p};
    TallyAdd(At(m, p), Total(m - {p}), key, k);
    TallyAdd(c, Total(m - {p}), key, k);
  }

  /** Two keys that agree on the elements of a counter tally it alike. */
  lemma {:induction false} TallySameKey<T, K>(m: multiset<T>, key: T -> K, other: T -> K, k: K)
    requires forall x | x in m :: key(x) == other(x)
    ensures TallyBy(m, key, k) == TallyBy(m, other, k)
    decreases |m|
  {
    if m != multiset{} {
      var x := PickElement(m);
      Dropped(m, x);
      TallySameKey(m[x := 0], key, other, k);
    }
  }

  /** A part that has all elements of the key `k` has their whole tally. */
  lemma {:induction false} TallyOfAll<T(!new), K>(part: multiset<T>, m: multiset<T>, key: T -> K, k: K)
    requires part <= m
    requires forall x :: x in m && key(x) == k ==> part[x] == m[x]
    ensures TallyBy(part, key, k) == TallyBy(m, key, k)
  {
    TallyOfPart(m, part, key, k);
    if TallyBy(m - part, key, k) > 0 {
      TallyPositive(m - part, key, k);
    }
  }

  /** The counter of keys. */
  ghost function Image<T, K(!new)>(m: multiset<T>, key: T -> K): (r: multiset<K>)
    ensures forall k :: r[k] == TallyBy(m, key, k)
    decreases |m|
  {
    if m == multiset{} then multiset{}
    else
      var x := PickElement(m);
      Dropped(m, x);
      var rest := Image(m[x := 0], key);
      rest[key(x) := rest[key(x)] + m[x]]
  }

  lemma {:induction false} TallyOfImage<T, K(!new), L>(m: multiset<T>, key: T -> K, tag: K -> L, both: T -> L, l: L)
    requires forall x | x in m :: both(x) == tag(key(x))
    ensures TallyBy(Image(m, key), tag, l) == TallyBy(m, both, l)
    decreases |m|
  {
    if m != multiset{} {
      var x := PickElement(m);
      Dropped(m, x);
      TallyOfImage(m[x := 0], key, tag, both, l);
      var rest := Image(m[x := 0], key);
      TallySet(rest, tag, key(x), rest[key(x)] + m[x], l);
    }
  }

  /* ---- spending a counter ---- */

  function Min(a: nat, b: nat): nat { if a <= b then a else b }

  /** How much of `a` is beyond `b`. */
  function Excess0(a: int, b: int): nat { if a > b then a - b else 0 }

  method Enumerate<T(==, !new)>(s: set<T>) returns (order: seq<T>)
    ensures Distinct(order) && forall x :: x in order <==> x in s
  {
    order := [];
    var rest := s;
    while rest != {}
      invariant rest <= s && Distinct(order)
      invariant forall x :: x in s <==> x in order || x in rest
      invariant forall x :: x in order ==> x !in rest
    {
      var x :| x in rest;
      order, rest := order + [x], rest - {x};
    }
  }

  /** Take up to `available` elements from a pool, exhausting each candidate before the next. */
  method Drain<T(==, !new)>(pool: multiset<T>, order: seq<T>, available: nat) returns (left: multiset<T>, matched: nat)
    ensures left <= pool && |left| + matched == |pool| && matched <= available
    ensures forall x :: x !in order ==> left[x] == pool[x]
    ensures matched == available || forall x :: x in order ==> left[x] == 0
    ensures Distinct(order) ==>
      forall i, j :: 0 <= i < j < |order| && left[order[j]] < pool[order[j]] ==> left[order[i]] == 0
  {
    left, matched := pool, 0;
    for i := 0 to |order|
      invariant left <= pool && |left| + matched == |pool| && matched <= available
      invariant forall x :: x !in order[..i] ==> left[x] == pool[x]
      invariant forall j :: 0 <= j < i && matched < available ==> left[order[j]] == 0
      invariant Distinct(order) ==>
        forall j, k :: 0 <= j < k < i && left[order[k]] < pool[order[k]] ==> left[order[j]] == 0
    {
      var x := order[i];
      var n := Min(available - matched, left[x]);
      Resized(left, x, left[x] - n);
      left := left[x := left[x] - n];
      matched := matched + n;
    }
  }
}
