/**
  Name resolution in the tenant-scope gate: the names that hold something taken from the
  request, the bindings in effect at a line, and the constructors a statement can start from.
*/
module HandlerNames {
  import opened Common
  import opened Reachability

  /* ---- names derived from the request body ---- */

  const DICT_READS: set<string> := {"get", "pop"}

  /** The values assigned to names: what the analysis tells apart. */
  datatype Value =
    | RequestJson
    | Await(inner: Value)
    | NameValue(id: string)
    | Subscript(base: Value)
    | MethodCall(base: Value, attr: string)
    | OtherValue

  datatype Assignment = Assignment(target: string, value: Value)

  /** `name = await request.json()`, with or without the `await`. */
  predicate IsSeed(a: Assignment) {
    a.value == RequestJson || a.value == Await(RequestJson)
  }

  /** The name a subscript, `get` or `pop` reads from, if it reads from a bare name. */
  function BaseName(v: Value): Option<string> {
    match v
    case Subscript(NameValue(id)) => Some(id)
    case MethodCall(NameValue(id), attr) => if attr in DICT_READS then Some(id) else None
    case _ => None
  }

  predicate Grows(a: Assignment, from: set<string>) {
    !IsSeed(a) && BaseName(a.value).Some? && BaseName(a.value).value in from
  }

  /** The set holds the seeds and everything read off a member. */
  ghost predicate Closed(s: set<string>, assigns: seq<Assignment>) {
    forall a :: a in assigns && (IsSeed(a) || Grows(a, s)) ==> a.target in s
  }

  ghost predicate IsLeast(s: set<string>, assigns: seq<Assignment>) {
    Closed(s, assigns) && forall t: set<string> :: Closed(t, assigns) ==> s <= t
  }

  /** The least such set is unique, and the order and repetition of the assignments do not matter. */
  lemma OrderIsIrrelevant(s: set<string>, t: set<string>, a: seq<Assignment>, b: seq<Assignment>)
    requires IsLeast(s, a) && IsLeast(t, b)
    requires forall x :: x in a <==> x in b
    ensures s == t
  {
    assert Closed(s, b) && Closed(t, a);
  }

  /** The request body, awaited or not. */
  predicate IsBody(v: Value) {
    v == RequestJson || v == Await(RequestJson)
  }

  /** `name[...]`, `name.get(...)` or `name.pop(...)`. */
  predicate ReadsOff(v: Value, name: string) {
    || v == Subscript(NameValue(name))
    || v == MethodCall(NameValue(name), "get") || v == MethodCall(NameValue(name), "pop")
  }

  /** Some assignment gives the name the body, or something read off a name of the set. */
  ghost predicate Justified(n: string, s: set<string>, assigns: seq<Assignment>) {
    exists a :: a in assigns && a.target == n && (IsBody(a.value) || exists m :: m in s && ReadsOff(a.value, m))
  }

  lemma StepIff(a: Assignment, s: set<string>)
    ensures IsSeed(a) || Grows(a, s) <==> IsBody(a.value) || exists m :: m in s && ReadsOff(a.value, m)
  {
    if !IsSeed(a) && Grows(a, s) {
      assert ReadsOff(a.value, BaseName(a.value).value);
    }
  }

  /** A name is in the set if and only if an assignment puts it there. */
  lemma {:induction false} DerivedIff(s: set<string>, assigns: seq<Assignment>, n: string)
    requires IsLeast(s, assigns)
    ensures n in s <==> Justified(n, s, assigns)
  {
    if Justified(n, s, assigns) {
      var a :| a in assigns && a.target == n && (IsBody(a.value) || exists m :: m in s && ReadsOff(a.value, m));
      StepIff(a, s);
    } else if n in s {
      var t := s - {n};
      forall a | a in assigns && (IsSeed(a) || Grows(a, t))
        ensures a.target in t
      {
        assert IsSeed(a) || Grows(a, s);
        StepIff(a, s);
      }
      assert Closed(t, assigns);
    }
  }

  method SplitSeeds(assigns: seq<Assignment>) returns (derived: set<string>, others: seq<Assignment>)
    ensures forall n :: n in derived <==> exists a :: a in assigns && IsSeed(a) && a.target == n
    ensures forall a :: a in others <==> a in assigns && !IsSeed(a)
    ensures |others| <= |assigns|
  {
    derived, others := {}, [];
    for i := 0 to |assigns|
      invariant forall n :: n in derived <==> exists j :: 0 <= j < i && IsSeed(assigns[j]) && assigns[j].target == n
      invariant forall a :: a in others <==> a in assigns[..i] && !IsSeed(a)
      invariant |others| <= i
    {
      if IsSeed(assigns[i]) {
        derived := derived + {assigns[i].target};
      } else {
        others := others + [assigns[i]];
      }
    }
  }

  /** One pass over the assignments: it grows the set within every closed set, or finds it closed. */
  method Pass(assigns: seq<Assignment>, others: seq<Assignment>, before: set<string>, ghost targets: set<string>)
    returns (derived: set<string>, changed: bool)
    requires forall a :: a in others ==> a in assigns && !IsSeed(a) && a.target in targets
    requires forall t: set<string> :: Closed(t, assigns) ==> before <= t
    ensures before <= derived
    ensures forall t: set<string> :: Closed(t, assigns) ==> derived <= t
    ensures changed ==> |targets - derived| < |targets - before|
    ensures !changed ==> derived == before && forall a :: a in others && Grows(a, derived) ==> a.target in derived
  {
    derived, changed := before, false;
    for i := 0 to |others|
      invariant before <= derived
      invariant forall t: set<string> :: Closed(t, assigns) ==> derived <= t
      invariant if changed then |targets - derived| < |targets - before| else derived == before
      invariant !changed ==> forall j :: 0 <= j < i && Grows(others[j], derived) ==> others[j].target in derived
    {
      var a := others[i];
      if a.target !in derived && Grows(a, derived) {
        assert a.target in targets - derived;
        assert targets - (derived + {a.target}) == (targets - derived) - {a.target};
        derived, changed := derived + {a.target}, true;
      }
    }
  }

  /** Iterated to a fixed point; every pass but the last adds a name, so the assignments bound the passes. */
  method RequestDerivedNames(assigns: seq<Assignment>) returns (derived: set<string>, ghost passes: nat)
    ensures IsLeast(derived, assigns)
    ensures forall n :: n in derived <==> Justified(n, derived, assigns)
    ensures passes <= |assigns| + 1
  {
    var others;
    derived, others := SplitSeeds(assigns);
    ghost var targets := set a | a in others :: a.target;
    TargetsAreFew(others);
    passes := 0;
    var changed := true;
    while changed
      invariant forall a :: a in assigns && IsSeed(a) ==> a.target in derived
      invariant forall t: set<string> :: Closed(t, assigns) ==> derived <= t
      invariant !changed ==> forall a :: a in others && Grows(a, derived) ==> a.target in derived
      invariant passes + |targets - derived| <= |targets| + if changed then 0 else 1
      decreases |targets - derived|, changed
    {
      passes := passes + 1;
      derived, changed := Pass(assigns, others, derived, targets);
    }
    forall n
      ensures n in derived <==> Justified(n, derived, assigns)
    {
      DerivedIff(derived, assigns, n);
    }
  }

  lemma {:induction false} TargetsAreFew(others: seq<Assignment>)
    ensures |set a | a in others :: a.target| <= |others|
  {
    if others != [] {
      var rest := others[..|others| - 1];
      TargetsAreFew(rest);
      assert (set a | a in others :: a.target) == (set a | a in rest :: a.target) + {others[|others| - 1].target};
    }
  }

  /* ---- the bindings in effect at a line ---- */

  /** A name bound at a line, with the scope key it then holds, if any. */
  datatype Binding = Binding(line: int, name: string, key: Option<string>)

  /** What the last binding of `name` above `line` made it hold. */
  function LastKey(bindings: seq<Binding>, name: string, line: int): Option<string> {
    if bindings == [] then None
    else
      var last := bindings[|bindings| - 1];
      if last.name == name && last.line < line then last.key
      else LastKey(bindings[..|bindings| - 1], name, line)
  }

  lemma {:induction false} LaterBindingsDoNotMatter(bindings: seq<Binding>, i: nat, name: string, line: int)
    requires i <= |bindings|
    requires forall j :: i <= j < |bindings| ==> bindings[j].line >= line
    ensures LastKey(bindings, name, line) == LastKey(bindings[..i], name, line)
    decreases |bindings|
  {
    if i < |bindings| {
      var rest := bindings[..|bindings| - 1];
      assert rest[..i] == bindings[..i];
      LaterBindingsDoNotMatter(rest, i, name, line);
    } else {
      assert bindings[..i] == bindings;
    }
  }

  /** A binding of the name above the line. */
  predicate Binds(b: Binding, name: string, line: int) {
    b.name == name && b.line < line
  }

  /** The last binding of the name above the line. */
  ghost predicate Latest(bindings: seq<Binding>, i: nat, name: string, line: int) {
    && i < |bindings| && Binds(bindings[i], name, line)
    && forall j :: i < j < |bindings| ==> !Binds(bindings[j], name, line)
  }

  ghost predicate Unbound(bindings: seq<Binding>, name: string, line: int) {
    forall i :: 0 <= i < |bindings| ==> !Binds(bindings[i], name, line)
  }

  lemma {:induction false} LatestDecides(bindings: seq<Binding>, i: nat, name: string, line: int)
    requires Latest(bindings, i, name, line)
    ensures LastKey(bindings, name, line) == bindings[i].key
    decreases |bindings|
  {
    var n := |bindings| - 1;
    if i < n {
      assert !Binds(bindings[n], name, line);
      LatestDecides(bindings[..n], i, name, line);
    }
  }

  lemma {:induction false} UnboundHoldsNothing(bindings: seq<Binding>, name: string, line: int)
    requires Unbound(bindings, name, line)
    ensures LastKey(bindings, name, line) == None
  {
    if bindings != [] {
      assert !Binds(bindings[|bindings| - 1], name, line);
      UnboundHoldsNothing(bindings[..|bindings| - 1], name, line);
    }
  }

  lemma LastBindingDecides(bindings: seq<Binding>, line: int)
    ensures forall name :: Unbound(bindings, name, line) ==> LastKey(bindings, name, line) == None
    ensures forall name, i: nat :: Latest(bindings, i, name, line) ==> LastKey(bindings, name, line) == bindings[i].key
  {
    forall name | Unbound(bindings, name, line)
      ensures LastKey(bindings, name, line) == None
    {
      UnboundHoldsNothing(bindings, name, line);
    }
    forall name, i: nat | Latest(bindings, i, name, line)
      ensures LastKey(bindings, name, line) == bindings[i].key
    {
      LatestDecides(bindings, i, name, line);
    }
  }

  function Lookup(m: map<string, string>, name: string): Option<string> {
    if name in m then Some(m[name]) else None
  }

  method BindingsInEffect(bindings: seq<Binding>, line: int) returns (inEffect: map<string, string>)
    requires forall i, j :: 0 <= i < j < |bindings| ==> bindings[i].line <= bindings[j].line
    ensures forall name :: Lookup(inEffect, name) == LastKey(bindings, name, line)
    ensures forall name :: Unbound(bindings, name, line) ==> name !in inEffect
    ensures forall name, i: nat :: Latest(bindings, i, name, line) ==> Lookup(inEffect, name) == bindings[i].key
  {
    LastBindingDecides(bindings, line);
    inEffect := map[];
    for i := 0 to |bindings|
      invariant forall name :: Lookup(inEffect, name) == LastKey(bindings[..i], name, line)
    {
      var b := bindings[i];
      if b.line >= line {
        forall name
          ensures LastKey(bindings, name, line) == LastKey(bindings[..i], name, line)
        {
          LaterBindingsDoNotMatter(bindings, i, name, line);
        }
        return;
      }
      assert bindings[..i + 1][..i] == bindings[..i];
      inEffect := match b.key case None => inEffect - {b.name} case Some(k) => inEffect[b.name := k];
    }
    assert bindings[..|bindings|] == bindings;
  }

  /* ---- the constructors a statement can start from ---- */

  const UPDATE_ROOTS: set<string> := {"sql_update", "update"}
  const INSERT_ROOTS: set<string> := {"pg_insert", "insert"}

  datatype Expr = Call(func: Expr) | Attribute(value: Expr) | Var(id: string) | OtherExpr

  /** The values assigned to each local name of a function. */
  type Locals = map<string, seq<Expr>>

  /** The name a chain of calls and attributes hangs off. */
  function Head(e: Expr): Option<string> {
    match e
    case Call(f) => Head(f)
    case Attribute(v) => Head(v)
    case Var(id) => Some(id)
    case OtherExpr => None
  }

  method HeadOf(e: Expr) returns (head: Option<string>)
    ensures head == Head(e)
  {
    var current := e;
    while current.Call? || current.Attribute?
      invariant Head(current) == Head(e)
      decreases current
    {
      current := if current.Call? then current.func else current.value;
    }
    head := if current.Var? then Some(current.id) else None;
  }

  /** An assigned name leads to the heads of the values assigned to it. */
  function Origins(locals: Locals): Graph {
    map n | n in locals && locals[n] != [] :: set v | v in locals[n] && Head(v).Some? :: Head(v).value
  }

  lemma {:induction false} ReachStep(g: Graph, x: string, z: string, y: string)
    requires Edge(g, x, z) && Reach(g, z, y, {})
    ensures Reach(g, x, y, {})
  {
    var p :| IsPath(g, p, z, y) && Avoids(p, {});
    assert IsPath(g, [x] + p, x, y) && Avoids([x] + p, {});
  }

  lemma ReachSelf(g: Graph, x: string, seen: set<string>)
    requires x !in seen
    ensures Reach(g, x, x, seen)
  {
    ReachUnfolds(g, x, x, seen);
  }

  /** Nothing unreachable is among the roots. */
  ghost predicate Reachable(roots: set<string>, g: Graph, id: string) {
    forall u :: u in roots ==> Reach(g, id, u, {})
  }

  /** The unassigned names among the roots are exactly those reached outside `seen`. */
  ghost predicate Complete(roots: set<string>, g: Graph, id: string, seen: set<string>) {
    forall u :: u !in g ==> (u in roots <==> Reach(g, id, u, seen))
  }

  /** What is known of the roots of one expression. */
  ghost predicate RootsOf(roots: set<string>, g: Graph, head: Option<string>, seen: set<string>) {
    match head
    case None => roots == {}
    case Some(id) =>
      roots != {} && Reachable(roots, g, id) && if id in seen then roots == {id} else Complete(roots, g, id, seen)
  }

  /**
    Every name a chain can hang off, following every assignment of every name on the way, however
    the assignments refer to each other.
  */
  method StatementRoots(e: Expr, locals: Locals, seen: set<string>) returns (roots: set<string>)
    requires seen <= Origins(locals).Keys
    ensures RootsOf(roots, Origins(locals), Head(e), seen)
    decreases Origins(locals).Keys - seen, 1
  {
    var head := HeadOf(e);
    if head.None? {
      return {};
    }
    var id := head.value;
    ReachSelf(Origins(locals), id, {});
    if id in seen {
      return {id};
    }
    if id !in locals || locals[id] == [] {
      OnlyItself(Origins(locals), id, seen);
      return {id};
    }
    roots := OriginRoots(id, locals, seen);
    if roots == {} {
      roots := {id};
    }
  }

  lemma OnlyItself(g: Graph, id: string, seen: set<string>)
    requires id !in g && id !in seen
    ensures Complete({id}, g, id, seen)
  {
    forall u
      ensures Reach(g, id, u, seen) <==> u == id
    {
      ReachUnfolds(g, id, u, seen);
    }
  }

  method OriginRoots(id: string, locals: Locals, seen: set<string>) returns (roots: set<string>)
    requires seen <= Origins(locals).Keys && id in Origins(locals) && id !in seen
    ensures Reachable(roots, Origins(locals), id) && Complete(roots, Origins(locals), id, seen)
    decreases Origins(locals).Keys - seen, 0
  {
    ghost var g := Origins(locals);
    var origins := locals[id];
    roots := {};
    for i := 0 to |origins|
      invariant Reachable(roots, g, id)
      invariant Gathered(roots, g, origins[..i], seen + {id})
    {
      var more := StatementRoots(origins[i], locals, seen + {id});
      GatherStep(roots, more, g, origins, i, id, seen);
      roots := roots + more;
    }
    assert origins[..|origins|] == origins;
    GatheredIsComplete(roots, g, locals, id, seen);
  }

  /** The unassigned roots gathered are those reached from the head of one of the origins. */
  ghost predicate Gathered(roots: set<string>, g: Graph, origins: seq<Expr>, seen: set<string>) {
    forall u :: u !in g ==>
      (u in roots <==> exists v :: v in origins && Leads(v, g, u, seen))
  }

  ghost predicate Leads(v: Expr, g: Graph, u: string, seen: set<string>) {
    Head(v).Some? && Reach(g, Head(v).value, u, seen)
  }

  lemma {:induction false} GatherStep(roots: set<string>, more: set<string>, g: Graph, origins: seq<Expr>, i: nat,
                                      id: string, seen: set<string>)
    requires i < |origins| && id in g && seen <= g.Keys
    requires Head(origins[i]).Some? ==> Edge(g, id, Head(origins[i]).value)
    requires Reachable(roots, g, id) && Gathered(roots, g, origins[..i], seen + {id})
    requires RootsOf(more, g, Head(origins[i]), seen + {id})
    ensures Reachable(roots + more, g, id) && Gathered(roots + more, g, origins[..i + 1], seen + {id})
  {
    if Head(origins[i]).Some? {
      forall u | u in more
        ensures Reach(g, id, u, {})
      {
        ReachStep(g, id, Head(origins[i]).value, u);
      }
    }
    forall u | u !in g
      ensures u in roots + more <==> exists v :: v in origins[..i + 1] && Leads(v, g, u, seen + {id})
    {
      MoreGives(more, g, Head(origins[i]), seen + {id}, u);
      assert origins[..i + 1] == origins[..i] + [origins[i]];
      assert u in more <==> Leads(origins[i], g, u, seen + {id});
    }
  }

  lemma MoreGives(more: set<string>, g: Graph, head: Option<string>, seen: set<string>, u: string)
    requires RootsOf(more, g, head, seen) && u !in g && seen <= g.Keys
    ensures u in more <==> head.Some? && Reach(g, head.value, u, seen)
  {
    if head.Some? && head.value in seen {
      NothingFromSeen(g, head.value, u, seen);
    }
  }

  lemma {:induction false} GatheredIsComplete(roots: set<string>, g: Graph, locals: Locals, id: string,
                                              seen: set<string>)
    requires g == Origins(locals) && id in g && id !in seen
    requires Gathered(roots, g, locals[id], seen + {id})
    ensures Complete(roots, g, id, seen)
  {
    forall u | u !in g
      ensures u in roots <==> Reach(g, id, u, seen)
    {
      ReachUnfolds(g, id, u, seen);
      assert forall z :: Edge(g, id, z) <==> exists v :: v in locals[id] && Head(v) == Some(z);
    }
  }

  /** The chain can start from one of the names. */
  ghost predicate StartsFrom(e: Expr, locals: Locals, names: set<string>) {
    Head(e).Some? && exists u :: u in names && Reach(Origins(locals), Head(e).value, u, {})
  }

  /**
    Whether a `.values(...)` chain hangs off something that moves an existing row: it can start from an
    update builder, or from no insert builder.  A builder's name that is itself assigned locally is one
    more name on the way.
  */
  method IsUpdateStatement(e: Expr, locals: Locals) returns (r: bool)
    ensures StartsFrom(e, locals, UPDATE_ROOTS - Origins(locals).Keys) ==> r
    ensures !r ==> StartsFrom(e, locals, INSERT_ROOTS)
    ensures UPDATE_ROOTS + INSERT_ROOTS !! Origins(locals).Keys ==>
      (r <==> StartsFrom(e, locals, UPDATE_ROOTS) || !StartsFrom(e, locals, INSERT_ROOTS))
  {
    var roots := StatementRoots(e, locals, {});
    FoundAmong(roots, e, locals, UPDATE_ROOTS);
    FoundAmong(roots, e, locals, INSERT_ROOTS);
    if roots * UPDATE_ROOTS != {} {
      return true;
    }
    r := roots * INSERT_ROOTS == {};
  }

  lemma FoundAmong(roots: set<string>, e: Expr, locals: Locals, names: set<string>)
    requires RootsOf(roots, Origins(locals), Head(e), {})
    ensures StartsFrom(e, locals, names - Origins(locals).Keys) ==> roots * names != {}
    ensures roots * names != {} ==> StartsFrom(e, locals, names)
    ensures names !! Origins(locals).Keys ==> names - Origins(locals).Keys == names
  {
    if StartsFrom(e, locals, names - Origins(locals).Keys) {
      var u :| u in names - Origins(locals).Keys && Reach(Origins(locals), Head(e).value, u, {});
      assert u in roots * names;
    }
    if roots * names != {} {
      var u :| u in roots * names;
      assert Reach(Origins(locals), Head(e).value, u, {});
    }
  }
}
