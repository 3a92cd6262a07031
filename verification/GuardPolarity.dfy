/**
  The polarity analysis of the tenant-scope gate: which scope keys an `if <test>: raise`
  guard is credited with, and when that credit is right.  A credited test ought to be
  true in every request that binds no scope at all.
*/
module GuardPolarity {

  const BINDING_SCOPE: set<string> := {"tenant_id", "org_id"}

  datatype Value = NoneValue | Str(s: string) | Bool(b: bool) | Object(id: nat)

  predicate Truthy(v: Value) {
    match v
    case NoneValue => false
    case Str(s) => s != ""
    case Bool(b) => b
    case Object(_) => true
  }

  lemma TruthyIff(v: Value)
    ensures Truthy(v) <==> v !in {NoneValue, Str(""), Bool(false)}
  {
  }

  datatype Connective = Or | And
  datatype Comparison = Is | Eq | IsNot | NotEq | OtherComparison

  /**
    The tests of a guard.  `Read` is `receiver.get(key, fallback)`, or `receiver.pop(key, fallback)` of a
    scope key, with the fallback None when it is not given;
    `Row` is an attribute of a loaded row whose column is never null; `IsInstance` asks for some class
    that None is not of; `Opaque` is any other expression, with the sub-expressions it mentions.
  */
  datatype Expr =
    | BoolOp(op: Connective, values: seq<Expr>)
    | Not(operand: Expr)
    | Compare(cmp: Comparison, left: Expr, right: Expr)
    | Name(id: string)
    | Read(receiver: string, key: string, fallback: Value)
    | Row(owner: string, column: string)
    | Lit(value: Value)
    | IsInstance(arg: Expr)
    | Opaque(args: seq<Expr>)

  /** A name bound to the read of a scope key. */
  datatype Alias = Alias(key: string, fallback: Value)

  /** What is known at the guard: aliases of scope keys, scope parameters, request-derived names. */
  datatype Context = Context(aliases: map<string, Alias>, params: set<string>, derived: set<string>)

  /* ---- the analysis ---- */

  function NameKeys(id: string, ctx: Context): set<string> {
    if id in ctx.aliases then {ctx.aliases[id].key} else if id in ctx.params then {id} else {}
  }

  predicate IsScopeRead(receiver: string, key: string, ctx: Context) {
    receiver in ctx.derived && key in BINDING_SCOPE
  }

  /** The scope keys an expression mentions anywhere. */
  function Mentioned(e: Expr, ctx: Context): set<string>
    decreases e
  {
    match e
    case BoolOp(_, values) => set v, k | v in values && k in Mentioned(v, ctx) :: k
    case Not(x) => Mentioned(x, ctx)
    case Compare(_, l, r) => Mentioned(l, ctx) + Mentioned(r, ctx)
    case Name(id) => NameKeys(id, ctx)
    case Read(receiver, key, _) =>
      (if IsScopeRead(receiver, key, ctx) then {key} else {}) + NameKeys(receiver, ctx)
    case Row(owner, _) => NameKeys(owner, ctx)
    case Lit(_) => {}
    case IsInstance(x) => Mentioned(x, ctx)
    case Opaque(args) => set a, k | a in args && k in Mentioned(a, ctx) :: k
  }

  predicate IsFalsyLiteral(e: Expr) {
    e == Lit(NoneValue) || e == Lit(Str(""))
  }

  function Negated(values: seq<Expr>): (r: seq<Expr>)
    ensures |r| == |values| && forall i :: 0 <= i < |values| ==> r[i] == Not(values[i])
  {
    seq(|values|, i requires 0 <= i < |values| => Not(values[i]))
  }

  /** De Morgan: the negation of a connective, pushed onto its operands. */
  function Flipped(e: Expr): Expr
    requires e.BoolOp?
  {
    BoolOp(if e.op == Or then And else Or, Negated(e.values))
  }

  /** Pushing a negation inward grows the term, but not this weight. */
  ghost function Weight(e: Expr): (w: nat)
    ensures w >= 1
    decreases e, 1
  {
    match e
    case BoolOp(_, values) => 1 + WeightOf(values)
    case Not(x) => 2 * Weight(x)
    case _ => 1
  }

  ghost function WeightOf(values: seq<Expr>): nat
    decreases values, 0
  {
    if values == [] then 0 else Weight(values[0]) + WeightOf(values[1..])
  }

  lemma {:induction false} WeightOfMember(values: seq<Expr>, i: nat)
    requires i < |values|
    ensures Weight(values[i]) <= WeightOf(values)
    decreases |values|
  {
    if i > 0 {
      WeightOfMember(values[1..], i - 1);
    }
  }

  lemma {:induction false} WeightOfNegated(values: seq<Expr>)
    ensures WeightOf(Negated(values)) == 2 * WeightOf(values)
    decreases |values|
  {
    if values != [] {
      assert Negated(values)[1..] == Negated(values[1..]);
      WeightOfNegated(values[1..]);
    }
  }

  lemma {:induction false} FlippingIsLighter(e: Expr)
    requires e.BoolOp?
    ensures Weight(Flipped(e)) < Weight(Not(e))
  {
    WeightOfNegated(e.values);
  }

  lemma {:induction false} OperandIsLighter(e: Expr, i: nat)
    requires e.BoolOp? && i < |e.values|
    ensures Weight(e.values[i]) < Weight(e)
  {
    WeightOfMember(e.values, i);
  }

  /** Scope keys the gate credits a guard test with. */
  function Rejected(e: Expr, ctx: Context): set<string>
    decreases Weight(e)
  {
    match e
    case BoolOp(op, values) =>
      assert forall i :: 0 <= i < |values| ==> Weight(values[i]) < Weight(e) by {
        forall i | 0 <= i < |values| ensures Weight(values[i]) < Weight(e) { OperandIsLighter(e, i); }
      }
      if op == Or || forall i :: 0 <= i < |values| ==> Rejected(values[i], ctx) != {}
      then set i, k | 0 <= i < |values| && k in Rejected(values[i], ctx) :: k
      else {}
    case Not(x) =>
      if x.BoolOp? then FlippingIsLighter(x); Rejected(Flipped(x), ctx)
      else Mentioned(x, ctx)
    case Compare(cmp, l, r) =>
      if (cmp == Is || cmp == Eq) && IsFalsyLiteral(r) then Mentioned(l, ctx)
      else if (cmp == NotEq || cmp == IsNot) && !IsFalsyLiteral(r) && !IsFalsyLiteral(l)
      then Mentioned(l, ctx) + Mentioned(r, ctx)
      else {}
    case _ => {}
  }

  /* ---- what a test does in a request that binds no scope ---- */

  /** The answers the program gives to the opaque parts of a test, one per position. */
  datatype Answers = Answers(value: Value, subs: seq<Answers>)

  function Sub(r: Answers, i: nat): Answers {
    if i < |r.subs| then r.subs[i] else Answers(NoneValue, [])
  }

  /** What the names, reads and rows of a test hold: one value each, wherever they occur. */
  type Env = map<Expr, Value>

  function Held(env: Env, e: Expr): Value {
    if e in env then env[e] else NoneValue
  }

  /** A name or read that holds a binding scope, and so is absent. */
  predicate IsScope(e: Expr, ctx: Context) {
    (e.Name? && NameKeys(e.id, ctx) != {}) || (e.Read? && IsScopeRead(e.receiver, e.key, ctx))
  }

  /** What an absent scope reads as: its fallback, which is None unless the handler gives another. */
  function AbsentValue(e: Expr, ctx: Context): Value
    requires IsScope(e, ctx)
  {
    if e.Read? then e.fallback else if e.id in ctx.aliases then ctx.aliases[e.id].fallback else NoneValue
  }

  /** An absent scope that reads as None. */
  predicate IsUnset(e: Expr, ctx: Context) {
    IsScope(e, ctx) && AbsentValue(e, ctx) == NoneValue
  }

  predicate IsAtom(e: Expr) {
    !e.BoolOp? && !e.Not? && !e.Compare?
  }

  /** The value of an atom when every binding scope is absent. */
  function ValueOf(e: Expr, ctx: Context, env: Env, r: Answers): Value {
    match e
    case Lit(v) => v
    case Row(_, _) => if Held(env, e) == NoneValue then Object(0) else Held(env, e)
    case IsInstance(x) => Bool(ValueOf(x, ctx, env, Sub(r, 0)) != NoneValue && Truthy(r.value))
    case Opaque(_) => r.value
    case _ => if IsScope(e, ctx) then AbsentValue(e, ctx) else Held(env, e)
  }

  predicate Holds(e: Expr, ctx: Context, env: Env, r: Answers) {
    match e
    case BoolOp(Or, values) => exists i :: 0 <= i < |values| && Holds(values[i], ctx, env, Sub(r, i))
    case BoolOp(And, values) => forall i :: 0 <= i < |values| ==> Holds(values[i], ctx, env, Sub(r, i))
    case Not(x) => !Holds(x, ctx, env, r)
    case Compare(cmp, l, rt) =>
      var same := ValueOf(l, ctx, env, Sub(r, 0)) == ValueOf(rt, ctx, env, Sub(r, 1));
      if cmp == Is || cmp == Eq then same
      else if cmp == IsNot || cmp == NotEq then !same
      else Truthy(r.value)
    case _ => Truthy(ValueOf(e, ctx, env, r))
  }

  /** The test has the truth value `want` in every request that binds no scope. */
  ghost predicate Always(e: Expr, ctx: Context, want: bool) {
    forall env, r :: Holds(e, ctx, env, r) == want
  }

  /** Arbitrary and/or/not nesting over atoms and comparisons of atoms. */
  predicate InFragment(e: Expr) {
    match e
    case BoolOp(_, values) => forall i :: 0 <= i < |values| ==> InFragment(values[i])
    case Not(x) => InFragment(x)
    case Compare(_, l, r) => IsAtom(l) && IsAtom(r) && InFragment(l) && InFragment(r)
    case IsInstance(x) => IsAtom(x) && InFragment(x)
    case _ => true
  }

  /* ---- deciding the truth of a test in all those requests ---- */

  /** What the values of an atom may be. */
  datatype Shape = Known(v: Value) | NonNull | SomeBool | Anything

  function ShapeOf(e: Expr, ctx: Context): Shape {
    match e
    case Lit(v) => Known(v)
    case Row(_, _) => NonNull
    case IsInstance(x) => if ShapeOf(x, ctx) == Known(NoneValue) then Known(Bool(false)) else SomeBool
    case _ => if IsScope(e, ctx) then Known(AbsentValue(e, ctx)) else Anything
  }

  predicate Allows(s: Shape, v: Value) {
    match s
    case Known(u) => v == u
    case NonNull => v != NoneValue
    case SomeBool => v.Bool?
    case Anything => true
  }

  predicate AlwaysEqual(s: Shape, t: Shape) {
    s.Known? && t.Known? && s.v == t.v
  }

  predicate NeverEqual(s: Shape, t: Shape) {
    match (s, t)
    case (Known(u), _) => !Allows(t, u)
    case (_, Known(u)) => !Allows(s, u)
    case _ => false
  }

  /** The test has the truth value `want` in every request that binds no scope: a syntactic check. */
  predicate Fires(e: Expr, ctx: Context, want: bool) {
    match e
    case BoolOp(op, values) =>
      if (op == Or) == want
      then exists i :: 0 <= i < |values| && Fires(values[i], ctx, want)
      else forall i :: 0 <= i < |values| ==> Fires(values[i], ctx, want)
    case Not(x) => Fires(x, ctx, !want)
    case Compare(cmp, l, r) =>
      var s, t := ShapeOf(l, ctx), ShapeOf(r, ctx);
      if cmp == Is || cmp == Eq then (if want then AlwaysEqual(s, t) else NeverEqual(s, t))
      else if cmp == IsNot || cmp == NotEq then (if want then NeverEqual(s, t) else AlwaysEqual(s, t))
      else false
    case _ => var s := ShapeOf(e, ctx); s.Known? && Truthy(s.v) == want
  }

  lemma {:induction false} ValueIsAllowed(e: Expr, ctx: Context, env: Env, r: Answers)
    requires IsAtom(e) && InFragment(e)
    ensures Allows(ShapeOf(e, ctx), ValueOf(e, ctx, env, r))
  {
    if e.IsInstance? {
      ValueIsAllowed(e.arg, ctx, env, Sub(r, 0));
    }
  }

  function SomeValue(s: Shape): (v: Value)
    requires s != Known(NoneValue)
    ensures Allows(s, v) && v != NoneValue
  {
    match s case Known(u) => u case NonNull => Object(0) case SomeBool => Bool(true) case Anything => Object(0)
  }

  lemma {:induction false} FiresIsSound(e: Expr, ctx: Context, want: bool, env: Env, r: Answers)
    requires InFragment(e) && Fires(e, ctx, want)
    ensures Holds(e, ctx, env, r) == want
  {
    match e
    case BoolOp(op, values) =>
      forall i | 0 <= i < |values| && Fires(values[i], ctx, want)
        ensures Holds(values[i], ctx, env, Sub(r, i)) == want
      {
        FiresIsSound(values[i], ctx, want, env, Sub(r, i));
      }
    case Not(x) => FiresIsSound(x, ctx, !want, env, r);
    case Compare(_, l, rt) =>
      ValueIsAllowed(l, ctx, env, Sub(r, 0));
      ValueIsAllowed(rt, ctx, env, Sub(r, 1));
    case _ => ValueIsAllowed(e, ctx, env, r);
  }

  function Contrary(s: Shape, want: bool): (v: Value)
    ensures Allows(s, v)
  {
    match s case Known(u) => u case _ => Bool(!want)
  }

  /** A value two shapes share, and two values they do not. */
  lemma Overlap(s: Shape, t: Shape) returns (u: Value)
    requires !NeverEqual(s, t)
    ensures Allows(s, u) && Allows(t, u)
  {
    u := if s.Known? then s.v else if t.Known? then t.v else Bool(true);
  }

  lemma Differ(s: Shape, t: Shape) returns (u: Value, v: Value)
    requires !AlwaysEqual(s, t)
    ensures Allows(s, u) && Allows(t, v) && u != v
  {
    u := if s.Known? then s.v else Bool(true);
    v := if t.Known? then t.v else if u == Bool(true) then Bool(false) else Bool(true);
    if t.Known? && !s.Known? && v == Bool(true) {
      u := Bool(false);
    }
  }

  /* ---- tests whose leaves are independent ---- */

  /** The names, reads, rows and opaque expressions a test depends on, other than the absent scopes. */
  ghost function Leaves(e: Expr, ctx: Context): set<Expr>
    decreases e
  {
    match e
    case BoolOp(_, values) => set v, x | v in values && x in Leaves(v, ctx) :: x
    case Not(x) => Leaves(x, ctx)
    case Compare(_, l, r) => Leaves(l, ctx) + Leaves(r, ctx)
    case IsInstance(x) => Leaves(x, ctx)
    case Opaque(args) => {e} + set a, x | a in args && x in Leaves(a, ctx) :: x
    case Lit(_) => {}
    case _ => if IsScope(e, ctx) then {} else {e}
  }

  /** Two leaves whose values may depend on each other: a leaf and itself, or what is read off a name and the name. */
  predicate Clash(x: Expr, y: Expr) {
    || x == y
    || (x.Read? && y.Read? && x.receiver == y.receiver && x.key == y.key)
    || (x.Read? && y == Name(x.receiver)) || (y.Read? && x == Name(y.receiver))
    || (x.Row? && y == Name(x.owner)) || (y.Row? && x == Name(y.owner))
  }

  ghost predicate Apart(a: set<Expr>, b: set<Expr>) {
    forall x, y :: x in a && y in b ==> !Clash(x, y)
  }

  lemma ApartIsDisjoint(a: set<Expr>, b: set<Expr>)
    requires Apart(a, b)
    ensures a !! b
  {
    forall x | x in a
      ensures x !in b
    {
      assert Clash(x, x);
    }
  }

  /** No leaf occurs twice, nor a name beside something read off it. */
  ghost predicate Independent(e: Expr, ctx: Context) {
    match e
    case BoolOp(_, values) =>
      && (forall i :: 0 <= i < |values| ==> Independent(values[i], ctx))
      && (forall i, j :: 0 <= i < j < |values| ==> Apart(Leaves(values[i], ctx), Leaves(values[j], ctx)))
    case Not(x) => Independent(x, ctx)
    case Compare(_, l, r) => Independent(l, ctx) && Independent(r, ctx) && Apart(Leaves(l, ctx), Leaves(r, ctx))
    case IsInstance(x) => Independent(x, ctx)
    case _ => true
  }

  ghost predicate AgreeOn(env: Env, other: Env, leaves: set<Expr>) {
    forall x :: x in leaves ==> Held(env, x) == Held(other, x)
  }

  lemma {:induction false} ValueDependsOnLeaves(e: Expr, ctx: Context, env: Env, other: Env, r: Answers)
    requires IsAtom(e) && InFragment(e) && AgreeOn(env, other, Leaves(e, ctx))
    ensures ValueOf(e, ctx, env, r) == ValueOf(e, ctx, other, r)
  {
    if e.IsInstance? {
      ValueDependsOnLeaves(e.arg, ctx, env, other, Sub(r, 0));
    }
  }

  lemma {:induction false} DependsOnLeaves(e: Expr, ctx: Context, env: Env, other: Env, r: Answers)
    requires InFragment(e) && AgreeOn(env, other, Leaves(e, ctx))
    ensures Holds(e, ctx, env, r) == Holds(e, ctx, other, r)
  {
    match e
    case BoolOp(_, values) =>
      forall i | 0 <= i < |values|
        ensures Holds(values[i], ctx, env, Sub(r, i)) == Holds(values[i], ctx, other, Sub(r, i))
      {
        assert values[i] in values;
        DependsOnLeaves(values[i], ctx, env, other, Sub(r, i));
      }
    case Not(x) => DependsOnLeaves(x, ctx, env, other, r);
    case Compare(_, l, rt) =>
      ValueDependsOnLeaves(l, ctx, env, other, Sub(r, 0));
      ValueDependsOnLeaves(rt, ctx, env, other, Sub(r, 1));
    case _ => ValueDependsOnLeaves(e, ctx, env, other, r);
  }

  lemma {:induction false} AllowedIsAttained(e: Expr, ctx: Context, v: Value) returns (env: Env, r: Answers)
    requires IsAtom(e) && InFragment(e) && Allows(ShapeOf(e, ctx), v)
    ensures env.Keys <= Leaves(e, ctx) && ValueOf(e, ctx, env, r) == v
  {
    env, r := map[], Answers(v, []);
    if e.IsInstance? {
      if ShapeOf(e.arg, ctx) == Known(NoneValue) {
        ValueIsAllowed(e.arg, ctx, env, Sub(r, 0));
      } else {
        var u := SomeValue(ShapeOf(e.arg, ctx));
        var inner;
        env, inner := AllowedIsAttained(e.arg, ctx, u);
        r := Answers(v, [inner]);
      }
    } else if !e.Lit? && !e.Opaque? && !IsScope(e, ctx) {
      env := map[e := v];
    }
  }

  /** When the check fails, some request without a scope gives the other truth value. */
  lemma {:induction false} FiresIsComplete(e: Expr, ctx: Context, want: bool) returns (env: Env, r: Answers)
    requires InFragment(e) && Independent(e, ctx) && !Fires(e, ctx, want)
    ensures env.Keys <= Leaves(e, ctx) && Holds(e, ctx, env, r) == !want
    decreases e, 1
  {
    match e
    case BoolOp(op, values) =>
      if (op == Or) == want {
        forall i, j | 0 <= i < j < |values|
          ensures Leaves(values[i], ctx) !! Leaves(values[j], ctx)
        {
          ApartIsDisjoint(Leaves(values[i], ctx), Leaves(values[j], ctx));
        }
        var subs;
        env, subs := AllFail(values, ctx, want, |values|);
        r := Answers(NoneValue, subs);
        assert forall i :: 0 <= i < |values| ==> Sub(r, i) == subs[i];
        assert values[..|values|] == values;
      } else {
        var i :| 0 <= i < |values| && !Fires(values[i], ctx, want);
        var inner;
        env, inner := FiresIsComplete(values[i], ctx, want);
        r := Answers(NoneValue, seq(|values|, _ => inner));
        assert Sub(r, i) == inner && values[i] in values;
      }
    case Not(x) => env, r := FiresIsComplete(x, ctx, !want);
    case Compare(cmp, l, rt) =>
      var s, t := ShapeOf(l, ctx), ShapeOf(rt, ctx);
      ApartIsDisjoint(Leaves(l, ctx), Leaves(rt, ctx));
      if cmp == OtherComparison {
        env, r := map[], Answers(Bool(!want), []);
      } else if (cmp == Is || cmp == Eq) == want {
        var u, v := Differ(s, t);
        env, r := CompareRun(l, rt, ctx, u, v);
      } else {
        var u := Overlap(s, t);
        env, r := CompareRun(l, rt, ctx, u, u);
      }
    case _ =>
      env, r := AllowedIsAttained(e, ctx, Contrary(ShapeOf(e, ctx), want));
  }

  ghost function LeavesOf(values: seq<Expr>, ctx: Context): set<Expr> {
    set v, x | v in values && x in Leaves(v, ctx) :: x
  }

  lemma {:induction false} AllFail(values: seq<Expr>, ctx: Context, want: bool, n: nat)
    returns (env: Env, subs: seq<Answers>)
    requires n <= |values|
    requires forall i ::
      0 <= i < |values| ==> InFragment(values[i]) && Independent(values[i], ctx) && !Fires(values[i], ctx, want)
    requires forall i, j :: 0 <= i < j < |values| ==> Leaves(values[i], ctx) !! Leaves(values[j], ctx)
    ensures env.Keys <= LeavesOf(values[..n], ctx)
    ensures |subs| == n && forall i :: 0 <= i < n ==> Holds(values[i], ctx, env, subs[i]) == !want
    decreases values, 0, n
  {
    if n == 0 {
      env, subs := map[], [];
    } else {
      var before, answers := AllFail(values, ctx, want, n - 1);
      var here, last := FiresIsComplete(values[n - 1], ctx, want);
      env, subs := before + here, answers + [last];
      LeavesSplit(values, ctx, n);
      Merged(before, here, LeavesOf(values[..n - 1], ctx), Leaves(values[n - 1], ctx));
      DependsOnLeaves(values[n - 1], ctx, env, here, last);
      forall i | 0 <= i < n - 1
        ensures Holds(values[i], ctx, env, subs[i]) == !want
      {
        DependsOnLeaves(values[i], ctx, env, before, answers[i]);
      }
    }
  }

  /** Environments over disjoint leaves do not disturb each other. */
  lemma Merged(e: Env, f: Env, a: set<Expr>, b: set<Expr>)
    requires e.Keys <= a && f.Keys <= b && a !! b
    ensures (e + f).Keys <= a + b
    ensures AgreeOn(e + f, e, a) && AgreeOn(e + f, f, b)
  {
  }

  lemma LeavesSplit(values: seq<Expr>, ctx: Context, n: nat)
    requires 1 <= n <= |values|
    requires forall i, j :: 0 <= i < j < |values| ==> Leaves(values[i], ctx) !! Leaves(values[j], ctx)
    ensures LeavesOf(values[..n], ctx) == LeavesOf(values[..n - 1], ctx) + Leaves(values[n - 1], ctx)
    ensures LeavesOf(values[..n - 1], ctx) !! Leaves(values[n - 1], ctx)
    ensures forall i :: 0 <= i < n - 1 ==> Leaves(values[i], ctx) <= LeavesOf(values[..n - 1], ctx)
  {
    assert values[..n] == values[..n - 1] + [values[n - 1]];
    forall i | 0 <= i < n - 1
      ensures Leaves(values[i], ctx) <= LeavesOf(values[..n - 1], ctx)
    {
      assert values[i] in values[..n - 1];
    }
    var before, here := LeavesOf(values[..n - 1], ctx), Leaves(values[n - 1], ctx);
    forall x | x in before
      ensures x !in here
    {
      var v :| v in values[..n - 1] && x in Leaves(v, ctx);
      var i :| 0 <= i < n - 1 && values[i] == v;
      assert Leaves(values[i], ctx) !! Leaves(values[n - 1], ctx);
    }
  }

  lemma {:induction false} CompareRun(l: Expr, rt: Expr, ctx: Context, u: Value, v: Value)
    returns (env: Env, r: Answers)
    requires IsAtom(l) && InFragment(l) && Allows(ShapeOf(l, ctx), u)
    requires IsAtom(rt) && InFragment(rt) && Allows(ShapeOf(rt, ctx), v)
    requires Leaves(l, ctx) !! Leaves(rt, ctx)
    ensures env.Keys <= Leaves(l, ctx) + Leaves(rt, ctx)
    ensures ValueOf(l, ctx, env, Sub(r, 0)) == u && ValueOf(rt, ctx, env, Sub(r, 1)) == v
  {
    var e, a := AllowedIsAttained(l, ctx, u);
    var f, b := AllowedIsAttained(rt, ctx, v);
    env, r := e + f, Answers(NoneValue, [a, b]);
    Merged(e, f, Leaves(l, ctx), Leaves(rt, ctx));
    ValueDependsOnLeaves(l, ctx, env, e, a);
    ValueDependsOnLeaves(rt, ctx, env, f, b);
  }

  /**
    The check is sound for every test of the fragment.  It is exact for those whose leaves are
    independent, with opaque parts, `isinstance` and other comparisons free to answer anything: there it
    succeeds if and only if every request without a scope has that truth value.
  */
  lemma {:induction false} FiresIff(e: Expr, ctx: Context, want: bool)
    requires InFragment(e)
    ensures Fires(e, ctx, want) ==> Always(e, ctx, want)
    ensures Independent(e, ctx) ==> (Fires(e, ctx, want) <==> Always(e, ctx, want))
  {
    if Fires(e, ctx, want) {
      forall env, r
        ensures Holds(e, ctx, env, r) == want
      {
        FiresIsSound(e, ctx, want, env, r);
      }
    } else if Independent(e, ctx) {
      var env, r := FiresIsComplete(e, ctx, want);
    }
  }

  /* ---- when the credit is right ---- */

  /** Pushing a negation inward does not change the test. */
  lemma {:induction false} FlippingKeepsMeaning(e: Expr, ctx: Context, env: Env, r: Answers)
    requires e.BoolOp?
    ensures Holds(Flipped(e), ctx, env, r) == Holds(Not(e), ctx, env, r)
  {
    var f := Flipped(e);
    forall i | 0 <= i < |e.values|
      ensures Holds(f.values[i], ctx, env, Sub(r, i)) == !Holds(e.values[i], ctx, env, Sub(r, i))
    {
    }
  }

  lemma {:induction false} FlippingKeepsFires(e: Expr, ctx: Context)
    requires e.BoolOp?
    ensures Fires(Flipped(e), ctx, true) == Fires(Not(e), ctx, true)
  {
    var f := Flipped(e);
    forall i | 0 <= i < |e.values|
      ensures Fires(f.values[i], ctx, true) == Fires(e.values[i], ctx, false)
    {
    }
  }

  /** Every leaf of the De Morgan normal form that the gate credits does fire. */
  predicate LeavesSound(e: Expr, ctx: Context)
    decreases Weight(e)
  {
    match e
    case BoolOp(_, values) =>
      assert forall i :: 0 <= i < |values| ==> Weight(values[i]) < Weight(e) by {
        forall i | 0 <= i < |values| ensures Weight(values[i]) < Weight(e) { OperandIsLighter(e, i); }
      }
      forall i :: 0 <= i < |values| ==> LeavesSound(values[i], ctx)
    case Not(x) =>
      if x.BoolOp? then FlippingIsLighter(x); LeavesSound(Flipped(x), ctx)
      else Mentioned(x, ctx) != {} ==> Fires(e, ctx, true)
    case _ => Rejected(e, ctx) != {} ==> Fires(e, ctx, true)
  }

  /** The connectives never spoil a credit: only the leaves can. */
  lemma {:induction false} CreditCarries(e: Expr, ctx: Context)
    requires InFragment(e) && LeavesSound(e, ctx) && Rejected(e, ctx) != {}
    ensures Fires(e, ctx, true)
    decreases Weight(e)
  {
    match e
    case BoolOp(op, values) =>
      forall i | 0 <= i < |values| && Rejected(values[i], ctx) != {}
        ensures Fires(values[i], ctx, true)
      {
        OperandIsLighter(e, i);
        CreditCarries(values[i], ctx);
      }
      var k :| k in Rejected(e, ctx);
      var i :| 0 <= i < |values| && k in Rejected(values[i], ctx);
      assert Rejected(values[i], ctx) != {};
    case Not(x) =>
      if x.BoolOp? {
        FlippingIsLighter(x);
        FlippingKeepsFires(x, ctx);
        CreditCarries(Flipped(x), ctx);
      }
    case _ =>
  }

  /**
    For a credited test the credit is right if the syntactic check succeeds, and, when its leaves are
    independent and its opaque parts may answer anything, only if.
  */
  lemma {:induction false} CreditIsSoundIff(e: Expr, ctx: Context)
    requires InFragment(e) && Rejected(e, ctx) != {}
    ensures LeavesSound(e, ctx) ==> Fires(e, ctx, true)
    ensures Fires(e, ctx, true) ==> Always(e, ctx, true)
    ensures Independent(e, ctx) ==> (Always(e, ctx, true) <==> Fires(e, ctx, true))
  {
    FiresIff(e, ctx, true);
    if LeavesSound(e, ctx) {
      CreditCarries(e, ctx);
    }
  }

  /** With a name that occurs twice the check can fail although the test always raises. */
  lemma RepeatedNameRaises(ctx: Context, t: string, x: string)
    requires t in ctx.params && t !in ctx.aliases && NameKeys(x, ctx) == {}
    ensures var e := BoolOp(Or, [Compare(NotEq, Name(t), Name(x)), Compare(Eq, Name(t), Name(x))]);
      && InFragment(e) && t in Rejected(e, ctx) && Always(e, ctx, true)
      && !Fires(e, ctx, true) && !Independent(e, ctx)
  {
    var e := BoolOp(Or, [Compare(NotEq, Name(t), Name(x)), Compare(Eq, Name(t), Name(x))]);
    var differ := e.values[0];
    assert t in Mentioned(Name(t), ctx);
    assert t in Rejected(differ, ctx);
    assert Leaves(Name(t), ctx) == {} && Name(x) in Leaves(Name(x), ctx);
    assert Name(x) in Leaves(differ, ctx);
    assert Name(x) in Leaves(e.values[1], ctx);
    assert Clash(Name(x), Name(x));
    forall env, r
      ensures Holds(e, ctx, env, r)
    {
      assert Holds(e.values[0], ctx, env, Sub(r, 0)) || Holds(e.values[1], ctx, env, Sub(r, 1));
    }
  }

  /* ---- the idioms the routers use ---- */

  /** Under a negation: connectives over scope reads, `isinstance` of scope reads, and tests that mention no scope. */
  predicate PlainNegated(e: Expr, ctx: Context) {
    match e
    case BoolOp(_, values) => forall i :: 0 <= i < |values| ==> PlainNegated(values[i], ctx)
    case _ => Mentioned(e, ctx) == {} || IsUnset(e, ctx) || (e.IsInstance? && IsUnset(e.arg, ctx))
  }

  /** `scope is None`, `row.column != scope`, or a comparison that mentions no scope. */
  predicate PlainCompare(e: Expr, ctx: Context)
    requires e.Compare?
  {
    || Mentioned(e, ctx) == {}
    || ((e.cmp == Is || e.cmp == Eq) && IsUnset(e.left, ctx) && e.right == Lit(NoneValue))
    || ((e.cmp == IsNot || e.cmp == NotEq) && IsUnset(e.left, ctx) && e.right.Row?)
    || ((e.cmp == IsNot || e.cmp == NotEq) && e.left.Row? && IsUnset(e.right, ctx))
  }

  predicate Plain(e: Expr, ctx: Context) {
    match e
    case BoolOp(_, values) => forall i :: 0 <= i < |values| ==> Plain(values[i], ctx)
    case Not(x) => PlainNegated(x, ctx)
    case Compare(_, _, _) => PlainCompare(e, ctx)
    case _ => true
  }

  lemma {:induction false} AbsentScopeIsFalsy(e: Expr, ctx: Context)
    requires IsUnset(e, ctx) || (e.IsInstance? && IsUnset(e.arg, ctx))
    ensures Fires(e, ctx, false)
  {
    if e.IsInstance? {
      assert ShapeOf(e.arg, ctx) == Known(NoneValue);
    }
  }

  lemma {:induction false} PlainLeavesAreSound(e: Expr, ctx: Context)
    requires InFragment(e) && Plain(e, ctx)
    ensures LeavesSound(e, ctx)
    decreases Weight(e)
  {
    match e
    case BoolOp(_, values) =>
      forall i | 0 <= i < |values|
        ensures LeavesSound(values[i], ctx)
      {
        OperandIsLighter(e, i);
        PlainLeavesAreSound(values[i], ctx);
      }
    case Not(x) =>
      if x.BoolOp? {
        FlippingIsLighter(x);
        var f := Flipped(x);
        assert forall i :: 0 <= i < |x.values| ==> InFragment(f.values[i]) && Plain(f.values[i], ctx);
        PlainLeavesAreSound(f, ctx);
      } else if Mentioned(x, ctx) != {} {
        AbsentScopeIsFalsy(x, ctx);
      }
    case _ =>
  }

  /** A plain test credited with any scope key is true in every request that binds no scope. */
  lemma {:induction false} PlainCreditIsSound(e: Expr, ctx: Context, key: string)
    requires InFragment(e) && Plain(e, ctx) && key in Rejected(e, ctx)
    ensures Always(e, ctx, true)
  {
    PlainLeavesAreSound(e, ctx);
    CreditIsSoundIff(e, ctx);
  }

  /* ---- what is credited, and that nothing is missed ---- */

  /** The key of a scope: that of the alias, the parameter's own name, or the one read. */
  function KeyOf(e: Expr, ctx: Context): string
    requires IsScope(e, ctx)
  {
    if e.Read? then e.key else if e.id in ctx.aliases then ctx.aliases[e.id].key else e.id
  }

  /** Scopes are parameters, aliases, and the two binding keys read off the request; nothing else is. */
  lemma ScopeIff(e: Expr, ctx: Context)
    ensures IsScope(e, ctx) <==>
      || (e.Name? && (e.id in ctx.aliases || e.id in ctx.params))
      || (e.Read? && e.receiver in ctx.derived && (e.key == "tenant_id" || e.key == "org_id"))
  {
  }

  predicate IsScopeOf(e: Expr, ctx: Context, key: string) {
    IsScope(e, ctx) && KeyOf(e, ctx) == key
  }

  /** Everything that occurs in an expression, the names it reads off included. */
  ghost function Parts(e: Expr): set<Expr>
    decreases e
  {
    {e} + match e
      case BoolOp(_, values) => set v, x | v in values && x in Parts(v) :: x
      case Not(x) => Parts(x)
      case Compare(_, l, r) => Parts(l) + Parts(r)
      case Read(receiver, _, _) => {Name(receiver)}
      case Row(owner, _) => {Name(owner)}
      case IsInstance(x) => Parts(x)
      case Opaque(args) => set a, x | a in args && x in Parts(a) :: x
      case _ => {}
  }

  /** A key is mentioned if and only if a scope of that key occurs: a parameter, an alias, or a read off the request. */
  lemma {:induction false} MentionedIff(e: Expr, ctx: Context, key: string)
    ensures key in Mentioned(e, ctx) <==> exists x :: x in Parts(e) && IsScopeOf(x, ctx, key)
    decreases e
  {
    match e
    case BoolOp(_, values) => MentionedInSome(e, values, ctx, key);
    case Opaque(args) => MentionedInSome(e, args, ctx, key);
    case Not(x) => MentionedIff(x, ctx, key);
    case IsInstance(x) => MentionedIff(x, ctx, key);
    case Compare(_, l, r) =>
      MentionedIff(l, ctx, key);
      MentionedIff(r, ctx, key);
    case _ => LeafMentions(e, ctx, key);
  }

  lemma NameMentions(id: string, ctx: Context, key: string)
    ensures key in NameKeys(id, ctx) <==> IsScopeOf(Name(id), ctx, key)
  {
  }

  lemma LeafMentions(e: Expr, ctx: Context, key: string)
    requires e.Name? || e.Read? || e.Row? || e.Lit?
    ensures key in Mentioned(e, ctx) <==> exists x :: x in Parts(e) && IsScopeOf(x, ctx, key)
  {
    match e
    case Name(id) =>
      NameMentions(id, ctx, key);
      assert Parts(e) == {e};
    case Read(receiver, _, _) =>
      NameMentions(receiver, ctx, key);
      assert Parts(e) == {e, Name(receiver)};
      assert key in Mentioned(e, ctx) <==> IsScopeOf(e, ctx, key) || IsScopeOf(Name(receiver), ctx, key);
    case Row(owner, _) =>
      NameMentions(owner, ctx, key);
      assert Parts(e) == {e, Name(owner)};
    case Lit(_) => assert Parts(e) == {e};
  }

  lemma {:induction false} MentionedInSome(e: Expr, values: seq<Expr>, ctx: Context, key: string)
    requires (e.BoolOp? && e.values == values) || (e.Opaque? && e.args == values)
    ensures key in Mentioned(e, ctx) <==> exists x :: x in Parts(e) && IsScopeOf(x, ctx, key)
    decreases values
  {
    forall v | v in values
      ensures key in Mentioned(v, ctx) <==> exists x :: x in Parts(v) && IsScopeOf(x, ctx, key)
    {
      MentionedIff(v, ctx, key);
    }
    if x :| x in Parts(e) && IsScopeOf(x, ctx, key) {
      var v :| v in values && x in Parts(v);
      assert key in Mentioned(v, ctx);
    }
  }

  /** A condition that mentions no scope, and whose truth requests without a scope leave open. */
  predicate Open(e: Expr, ctx: Context) {
    Mentioned(e, ctx) == {} && !Fires(e, ctx, true) && !Fires(e, ctx, false)
  }

  predicate IsScopeTest(e: Expr, ctx: Context) {
    IsUnset(e, ctx) || (e.IsInstance? && IsUnset(e.arg, ctx))
  }

  /** The documented guards: scope tests, `scope is None`, `row.column != scope` and open conditions, connected. */
  predicate Idiom(e: Expr, ctx: Context) {
    match e
    case BoolOp(_, values) => values != [] && forall i :: 0 <= i < |values| ==> Idiom(values[i], ctx)
    case Not(x) => NegatedIdiom(x, ctx)
    case Compare(_, _, _) => Open(e, ctx) || (PlainCompare(e, ctx) && Mentioned(e, ctx) != {})
    case _ => Open(e, ctx) || IsScopeTest(e, ctx)
  }

  predicate NegatedIdiom(e: Expr, ctx: Context) {
    match e
    case BoolOp(_, values) => values != [] && forall i :: 0 <= i < |values| ==> NegatedIdiom(values[i], ctx)
    case _ => Open(e, ctx) || IsScopeTest(e, ctx)
  }

  lemma {:induction false} NegatedIdiomIsPlain(e: Expr, ctx: Context)
    requires NegatedIdiom(e, ctx)
    ensures PlainNegated(e, ctx)
  {
    if e.BoolOp? {
      forall i | 0 <= i < |e.values|
        ensures PlainNegated(e.values[i], ctx)
      {
        NegatedIdiomIsPlain(e.values[i], ctx);
      }
    }
  }

  lemma {:induction false} IdiomIsPlain(e: Expr, ctx: Context)
    requires Idiom(e, ctx)
    ensures Plain(e, ctx)
  {
    match e
    case BoolOp(_, values) =>
      forall i | 0 <= i < |values|
        ensures Plain(values[i], ctx)
      {
        IdiomIsPlain(values[i], ctx);
      }
    case Not(x) => NegatedIdiomIsPlain(x, ctx);
    case _ =>
  }

  lemma ScopeIsMentioned(e: Expr, ctx: Context)
    requires IsScope(e, ctx)
    ensures KeyOf(e, ctx) in Mentioned(e, ctx)
  {
    assert e in Parts(e);
    MentionedIff(e, ctx, KeyOf(e, ctx));
  }

  /** Whatever an idiom rejects in every request without a scope, the gate credits. */
  lemma {:induction false} IdiomIsCredited(e: Expr, ctx: Context)
    requires Idiom(e, ctx) && Fires(e, ctx, true)
    ensures Rejected(e, ctx) != {}
    decreases Weight(e)
  {
    match e
    case BoolOp(op, values) =>
      forall i | 0 <= i < |values| && Fires(values[i], ctx, true)
        ensures Rejected(values[i], ctx) != {}
      {
        OperandIsLighter(e, i);
        IdiomIsCredited(values[i], ctx);
      }
      var i := FiringOperand(e, ctx);
      var k :| k in Rejected(values[i], ctx);
      assert k in Rejected(e, ctx);
    case Not(x) =>
      if x.BoolOp? {
        FlippingIsLighter(x);
        FlippingKeepsFires(x, ctx);
        assert Idiom(Flipped(x), ctx);
        IdiomIsCredited(Flipped(x), ctx);
      } else if x.IsInstance? && IsScope(x.arg, ctx) {
        ScopeIsMentioned(x.arg, ctx);
      } else if IsScope(x, ctx) {
        ScopeIsMentioned(x, ctx);
      }
    case Compare(_, l, r) =>
      if IsScope(l, ctx) {
        ScopeIsMentioned(l, ctx);
      }
      if IsScope(r, ctx) {
        ScopeIsMentioned(r, ctx);
      }
    case _ =>
  }

  lemma FiringOperand(e: Expr, ctx: Context) returns (i: nat)
    requires e.BoolOp? && e.values != [] && Fires(e, ctx, true)
    ensures i < |e.values| && Fires(e.values[i], ctx, true)
  {
    if e.op == Or {
      i :| 0 <= i < |e.values| && Fires(e.values[i], ctx, true);
    } else {
      i := 0;
    }
  }

  /** On the documented guards the credit is exact: a scope is credited if and only if its absence always raises. */
  lemma {:induction false} IdiomCreditIff(e: Expr, ctx: Context)
    requires InFragment(e) && Idiom(e, ctx) && Independent(e, ctx)
    ensures Rejected(e, ctx) != {} <==> Always(e, ctx, true)
  {
    IdiomIsPlain(e, ctx);
    FiresIff(e, ctx, true);
    if Fires(e, ctx, true) {
      IdiomIsCredited(e, ctx);
    }
    if key :| key in Rejected(e, ctx) {
      PlainCreditIsSound(e, ctx, key);
    }
  }

  /** A check that is true when the scope is absent. */
  predicate Checks(e: Expr, scope: Expr) {
    || e == Not(scope) || e == Not(IsInstance(scope))
    || (e.Compare? && (e.cmp == Is || e.cmp == Eq) && e.left == scope && IsFalsyLiteral(e.right))
    || (e.Compare? && (e.cmp == IsNot || e.cmp == NotEq) && e.left.Row? && e.right == scope)
    || (e.Compare? && (e.cmp == IsNot || e.cmp == NotEq) && e.left == scope && e.right.Row?)
  }

  /** The check stands alone, under `or`, or under a negated `and`. */
  ghost predicate UnderOr(e: Expr, scope: Expr)
    decreases Weight(e)
  {
    || Checks(e, scope)
    || (e.BoolOp? && e.op == Or && exists i ::
        0 <= i < |e.values| && (OperandIsLighter(e, i); UnderOr(e.values[i], scope)))
    || (e.Not? && e.operand.BoolOp? && e.operand.op == And && (FlippingIsLighter(e.operand);
        UnderOr(Flipped(e.operand), scope)))
  }

  /** Each such check puts the key of its scope among those credited, whatever stands beside it. */
  lemma {:induction false} CheckedKeyIsCredited(e: Expr, ctx: Context, scope: Expr)
    requires IsScope(scope, ctx) && UnderOr(e, scope)
    ensures KeyOf(scope, ctx) in Rejected(e, ctx)
    decreases Weight(e)
  {
    ScopeIsMentioned(scope, ctx);
    if Checks(e, scope) {
      assert scope.Name? || scope.Read?;
    } else if e.BoolOp? {
      var i :| 0 <= i < |e.values| && (OperandIsLighter(e, i); UnderOr(e.values[i], scope));
      OperandIsLighter(e, i);
      CheckedKeyIsCredited(e.values[i], ctx, scope);
    } else {
      FlippingIsLighter(e.operand);
      CheckedKeyIsCredited(Flipped(e.operand), ctx, scope);
    }
  }

  /** Bare tests, order comparisons, equality with anything but None or "", and inequality with those earn nothing. */
  lemma NeverCredited(e: Expr, ctx: Context)
    requires
      || IsAtom(e)
      || (e.Compare? && e.cmp == OtherComparison)
      || (e.Compare? && (e.cmp == Is || e.cmp == Eq) && e.right != Lit(NoneValue) && e.right != Lit(Str("")))
      || (&& e.Compare? && (e.cmp == IsNot || e.cmp == NotEq)
          && (e.left in {Lit(NoneValue), Lit(Str(""))} || e.right in {Lit(NoneValue), Lit(Str(""))}))
    ensures Rejected(e, ctx) == {}
  {
  }

  /** An `and` that is credited at all is credited with the keys of every part. */
  lemma AndCreditsEveryPart(values: seq<Expr>, ctx: Context, i: nat)
    requires i < |values| && Rejected(BoolOp(And, values), ctx) != {}
    ensures Rejected(values[i], ctx) != {} && Rejected(values[i], ctx) <= Rejected(BoolOp(And, values), ctx)
  {
  }

  /** Only keys of scopes that occur in the test are credited. */
  lemma {:induction false} CreditIsMentioned(e: Expr, ctx: Context)
    ensures Rejected(e, ctx) <= Mentioned(e, ctx)
    decreases Weight(e)
  {
    match e
    case BoolOp(_, values) =>
      forall i | 0 <= i < |values|
        ensures Rejected(values[i], ctx) <= Mentioned(values[i], ctx) && values[i] in values
      {
        OperandIsLighter(e, i);
        CreditIsMentioned(values[i], ctx);
      }
    case Not(x) =>
      if x.BoolOp? {
        FlippingIsLighter(x);
        CreditIsMentioned(Flipped(x), ctx);
        FlippedMentions(x, ctx);
      }
    case _ =>
  }

  lemma FlippedMentions(e: Expr, ctx: Context)
    requires e.BoolOp?
    ensures Mentioned(Flipped(e), ctx) == Mentioned(e, ctx)
  {
    var f := Flipped(e);
    forall k
      ensures k in Mentioned(f, ctx) <==> k in Mentioned(e, ctx)
    {
      if k in Mentioned(f, ctx) {
        var v :| v in f.values && k in Mentioned(v, ctx);
        var i :| 0 <= i < |f.values| && f.values[i] == v;
        assert e.values[i] in e.values && k in Mentioned(e.values[i], ctx);
      }
      if k in Mentioned(e, ctx) {
        var v :| v in e.values && k in Mentioned(v, ctx);
        var i :| 0 <= i < |e.values| && e.values[i] == v;
        assert f.values[i] in f.values && k in Mentioned(f.values[i], ctx);
      }
    }
  }

  /** Six families the gate credits although no request without a scope, or not every one, reaches the raise. */
  lemma CreditedButNotRaised(ctx: Context, t: string, body: string)
    requires t in ctx.params && t !in ctx.aliases && body in ctx.derived
    ensures var e := Not(Not(Name(t))); t in Rejected(e, ctx) && Always(e, ctx, false)
    ensures var e := Not(Compare(Is, Name(t), Lit(NoneValue))); t in Rejected(e, ctx) && Always(e, ctx, false)
    ensures var e := Compare(Eq, Name(t), Lit(Str(""))); t in Rejected(e, ctx) && Always(e, ctx, false)
    ensures var e := Compare(NotEq, Name(t), Read(body, "tenant_id", NoneValue));
      t in Rejected(e, ctx) && Always(e, ctx, false)
    ensures var e := Not(Read(body, "tenant_id", Str("x"))); "tenant_id" in Rejected(e, ctx) && Always(e, ctx, false)
    ensures var e := Not(Opaque([Name(t)])); t in Rejected(e, ctx) && !Always(e, ctx, true)
  {
    var name := Name(t);
    assert Fires(name, ctx, false) && Fires(Not(name), ctx, true);
    FiresIff(Not(Not(name)), ctx, false);
    assert t in Mentioned(name, ctx) && [name][0] == name && name in [name];
    assert t in Mentioned(Opaque([name]), ctx);
    assert !Holds(Not(Opaque([name])), ctx, map[], Answers(Bool(true), []));
  }
}
