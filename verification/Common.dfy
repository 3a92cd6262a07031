/** What several models share: optional values, distinct sequences, white space, and Python's order on strings. */
module Common {

  datatype Option<+T> = None | Some(value: T)

  ghost predicate Distinct<T>(s: seq<T>) {
    forall i, j :: 0 <= i < j < |s| ==> s[i] != s[j]
  }

  /** The characters `str.strip` removes and `\s` matches. */
  predicate Space(c: char) {
    || '\t' <= c <= '\r' || '\U{1C}' <= c <= ' ' || c == '\U{85}' || c == '\U{A0}'
    || c == '\U{1680}' || '\U{2000}' <= c <= '\U{200A}' || c == '\U{2028}' || c == '\U{2029}'
    || c == '\U{202F}' || c == '\U{205F}' || c == '\U{3000}'
  }

  /** Six of ASCII, its four separators, and nineteen more of Unicode. */
  const WHITE_SPACE: string :=
    "\t\n\U{0B}\U{0C}\r \U{1C}\U{1D}\U{1E}\U{1F}\U{85}\U{A0}\U{1680}" +
    "\U{2000}\U{2001}\U{2002}\U{2003}\U{2004}\U{2005}\U{2006}\U{2007}\U{2008}\U{2009}\U{200A}" +
    "\U{2028}\U{2029}\U{202F}\U{205F}\U{3000}"

  lemma SpaceIff(c: char)
    ensures Space(c) <==> c in WHITE_SPACE
    ensures |WHITE_SPACE| == 29
  {
  }

  function StripLeft(s: string): string {
    if s != [] && Space(s[0]) then StripLeft(s[1..]) else s
  }

  function StripRight(s: string): string {
    if s != [] && Space(s[|s| - 1]) then StripRight(s[..|s| - 1]) else s
  }

  function Strip(s: string): string {
    StripRight(StripLeft(s))
  }

  /* ---- order ---- */

  /** A strict total order. */
  ghost predicate Orders<T(!new)>(less: (T, T) -> bool) {
    && (forall x :: !less(x, x))
    && (forall x, y :: x == y || less(x, y) || less(y, x))
    && (forall x, y, z :: less(x, y) && less(y, z) ==> less(x, z))
  }

  /** Strings in the order of their code points. */
  predicate Less(a: string, b: string) {
    b != "" && (a == "" || a[0] < b[0] || (a[0] == b[0] && Less(a[1..], b[1..])))
  }

  /** The strings agree before `k`, where the first ends or is smaller. */
  predicate SmallerAt(a: string, b: string, k: nat) {
    k <= |a| && k < |b| && a[..k] == b[..k] && (k == |a| || a[k] < b[k])
  }

  lemma AgreeFirst(a: string, b: string, k: nat)
    requires SmallerAt(a, b, k)
    ensures k == 0 || (a != "" && a[0] == b[0])
  {
    assert k > 0 ==> a[..k][0] == a[0] && b[..k][0] == b[0];
  }

  /** One string comes before another when it is a proper prefix, or smaller at the first difference. */
  lemma {:induction false} LessIff(a: string, b: string)
    ensures Less(a, b) <==> exists k: nat :: SmallerAt(a, b, k)
  {
    if b != "" && (a == "" || a[0] != b[0]) {
      assert Less(a, b) ==> SmallerAt(a, b, 0);
      forall k: nat | SmallerAt(a, b, k)
        ensures k == 0
      {
        AgreeFirst(a, b, k);
      }
    } else if b != "" {
      LessIff(a[1..], b[1..]);
      if k: nat :| SmallerAt(a[1..], b[1..], k) {
        assert a[..k + 1] == [a[0]] + a[1..][..k] && b[..k + 1] == [b[0]] + b[1..][..k];
        assert SmallerAt(a, b, k + 1);
      }
      if k: nat :| SmallerAt(a, b, k) {
        assert a[1..][..k - 1] == a[..k][1..] && b[1..][..k - 1] == b[..k][1..];
        assert SmallerAt(a[1..], b[1..], k - 1);
      }
    }
  }

  lemma {:induction false} LessIsTotal(a: string, b: string)
    ensures !Less(a, a)
    ensures a == b || Less(a, b) || Less(b, a)
  {
    if a != "" {
      LessIsTotal(a[1..], if b != "" then b[1..] else "");
      if b != "" && a[0] == b[0] && a[1..] == b[1..] {
        assert a == [a[0]] + a[1..] && b == [b[0]] + b[1..];
      }
    }
  }

  lemma {:induction false} LessIsTransitive(a: string, b: string, c: string)
    requires Less(a, b) && Less(b, c)
    ensures Less(a, c)
  {
    if a != "" && a[0] == b[0] && b[0] == c[0] {
      LessIsTransitive(a[1..], b[1..], c[1..]);
    }
  }

  lemma LessOrders()
    ensures Orders(Less)
  {
    forall x, y
      ensures !Less(x, x) && (x == y || Less(x, y) || Less(y, x))
    {
      LessIsTotal(x, y);
    }
    forall x, y, z | Less(x, y) && Less(y, z)
      ensures Less(x, z)
    {
      LessIsTransitive(x, y, z);
    }
  }

  lemma {:induction false} LeastExists<T(!new)>(s: set<T>, less: (T, T) -> bool)
    requires s != {} && Orders(less)
    ensures exists x :: x in s && forall y :: y in s && y != x ==> less(x, y)
  {
    var x :| x in s;
    var rest := s - {x};
    if rest == {} {
      assert s == {x};
    } else {
      LeastExists(rest, less);
      var k :| k in rest && forall y :: y in rest && y != k ==> less(k, y);
      var least := if less(x, k) then x else k;
      forall y | y in s && y != least
        ensures less(least, y)
      {
        assert y == x || y in rest;
      }
    }
  }

  method Sorted<T(==, !new)>(s: set<T>, less: (T, T) -> bool) returns (order: seq<T>)
    requires Orders(less)
    ensures forall x :: x in order <==> x in s
    ensures forall i, j :: 0 <= i < j < |order| ==> less(order[i], order[j])
    ensures Distinct(order)
  {
    order := [];
    var rest := s;
    while rest != {}
      invariant rest <= s
      invariant forall x :: x in s <==> x in order || x in rest
      invariant forall i, j :: 0 <= i < j < |order| ==> less(order[i], order[j])
      invariant forall i, x :: 0 <= i < |order| && x in rest ==> less(order[i], x)
    {
      LeastExists(rest, less);
      var x :| x in rest && forall y :: y in rest && y != x ==> less(x, y);
      order, rest := order + [x], rest - {x};
    }
  }
}
