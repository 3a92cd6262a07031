/**
  Third-party loggers lose their own handlers and propagate to the root logger, and a
  snapshot of what each was lets a reset put it back.
*/
module LoggerRouting {
  import opened Common

  /** A handler object, by identity. */
  type Handler = nat

  const NOTSET := 0

  datatype State = State(handlers: seq<Handler>, propagate: bool, level: int)

  /** A logger nobody configured. */
  const FRESH := State([], true, NOTSET)

  const UVICORN := "uvicorn"
  const ACCESS := "uvicorn.access"
  const ERROR := "uvicorn.error"
  const REROUTED: seq<string> := [UVICORN, ACCESS, ERROR, "fastmcp", "mcp", "slowapi"]

  /** One logger: its attributes, and the snapshot held of it. */
  datatype Cell = Cell(now: State, saved: Option<State>)

  /* ---- one logger under one step ---- */

  ghost function RerouteCell(name: string, c: Cell, accessLog: bool): Cell {
    if c.saved.Some? then c
    else if name == ACCESS && !accessLog then Cell(State([], false, c.now.level), Some(c.now))
    else if c.now.handlers == [] && c.now.propagate then c
    else Cell(State([], true, if c.now.handlers == [] then c.now.level else NOTSET), Some(c.now))
  }

  /** What adding the handlers one by one to an empty logger leaves: no duplicates. */
  ghost function Added(handlers: seq<Handler>): seq<Handler> {
    if handlers == [] then []
    else AddedTo(Added(handlers[..|handlers| - 1]), handlers[|handlers| - 1])
  }

  function AddedTo(handlers: seq<Handler>, h: Handler): seq<Handler> {
    if h in handlers then handlers else handlers + [h]
  }

  ghost function Restored(s: State): State {
    s.(handlers := Added(s.handlers))
  }

  ghost function ResetCell(c: Cell): Cell {
    match c.saved
    case None => c
    case Some(s) => Cell(Restored(s), None)
  }

  /* ---- the logging module ---- */

  class Logging {
    var loggers: map<string, State>
    var saved: map<string, State>

    constructor ()
      ensures loggers == map[] && saved == map[]
    {
      loggers, saved := map[], map[];
    }

    function Lookup(name: string): State
      reads this
    {
      if name in loggers then loggers[name] else FRESH
    }

    ghost function CellOf(name: string): Cell
      reads this
    {
      Cell(Lookup(name), if name in saved then Some(saved[name]) else None)
    }

    method RemoveHandler(name: string, h: Handler)
      modifies this`loggers
      ensures Lookup(name) == old(Lookup(name)).(handlers := Without(old(Lookup(name)).handlers, h))
      ensures forall n :: n != name ==> Lookup(n) == old(Lookup(n))
    {
      var s := Lookup(name);
      loggers := loggers[name := s.(handlers := Without(s.handlers, h))];
    }

    method AddHandler(name: string, h: Handler)
      modifies this`loggers
      ensures Lookup(name) == old(Lookup(name)).(handlers := AddedTo(old(Lookup(name)).handlers, h))
      ensures forall n :: n != name ==> Lookup(n) == old(Lookup(n))
    {
      var s := Lookup(name);
      loggers := loggers[name := s.(handlers := AddedTo(s.handlers, h))];
    }

    /** Removes every handler, over a copy of the list. */
    method Strip(name: string)
      modifies this`loggers
      ensures Lookup(name) == old(Lookup(name)).(handlers := [])
      ensures forall n :: n != name ==> Lookup(n) == old(Lookup(n))
    {
      var copy := Lookup(name).handlers;
      for i := 0 to |copy|
        invariant Lookup(name) == old(Lookup(name)).(handlers := copy[i..])
        invariant forall n :: n != name ==> Lookup(n) == old(Lookup(n))
      {
        RemoveHandler(name, copy[i]);
      }
    }

    method SetState(name: string, propagate: bool, level: int)
      modifies this`loggers
      ensures Lookup(name) == State(old(Lookup(name)).handlers, propagate, level)
      ensures forall n :: n != name ==> Lookup(n) == old(Lookup(n))
    {
      loggers := loggers[name := State(Lookup(name).handlers, propagate, level)];
    }

    method RerouteLogger(name: string, accessLog: bool)
      modifies this
      ensures CellOf(name) == RerouteCell(name, old(CellOf(name)), accessLog)
      ensures forall n :: n != name ==> CellOf(n) == old(CellOf(n))
    {
      if name in saved {
        return;
      }
      var was := Lookup(name);
      if name == ACCESS && !accessLog {
        saved := saved[name := was];
        Strip(name);
        SetState(name, false, was.level);
        return;
      }
      if was.handlers == [] && was.propagate {
        return;
      }
      saved := saved[name := was];
      Strip(name);
      SetState(name, true, if was.handlers != [] then NOTSET else was.level);
    }

    method Reroute(accessLog: bool)
      modifies this
      ensures forall n ::
        CellOf(n) == if n in REROUTED then RerouteCell(n, old(CellOf(n)), accessLog) else old(CellOf(n))
    {
      for i := 0 to |REROUTED|
        invariant forall n ::
          CellOf(n) == if n in REROUTED[..i] then RerouteCell(n, old(CellOf(n)), accessLog) else old(CellOf(n))
      {
        RerouteLogger(REROUTED[i], accessLog);
      }
    }

    method RestoreLogger(name: string, s: State)
      modifies this`loggers
      ensures Lookup(name) == Restored(s)
      ensures forall n :: n != name ==> Lookup(n) == old(Lookup(n))
    {
      Strip(name);
      for i := 0 to |s.handlers|
        invariant Lookup(name).handlers == Added(s.handlers[..i])
        invariant forall n :: n != name ==> Lookup(n) == old(Lookup(n))
      {
        assert s.handlers[..i + 1][..i] == s.handlers[..i];
        AddHandler(name, s.handlers[i]);
      }
      assert s.handlers[..|s.handlers|] == s.handlers;
      SetState(name, s.propagate, s.level);
    }

    method Reset()
      modifies this
      ensures forall n :: CellOf(n) == ResetCell(old(CellOf(n)))
    {
      var rest := saved.Keys;
      while rest != {}
        invariant rest <= saved.Keys && saved == old(saved)
        invariant forall n :: Lookup(n) == if n in saved && n !in rest then Restored(saved[n]) else old(Lookup(n))
        decreases rest
      {
        var name :| name in rest;
        RestoreLogger(name, saved[name]);
        rest := rest - {name};
      }
      saved := map[];
    }

    /** Any interleaving of the two operations. */
    method Run(steps: seq<Step>)
      modifies this
      ensures forall n :: CellOf(n) == RunCell(n, old(CellOf(n)), steps)
    {
      for i := 0 to |steps|
        invariant forall n :: CellOf(n) == RunCell(n, old(CellOf(n)), steps[..i])
      {
        assert steps[..i + 1][..i] == steps[..i];
        match steps[i]
        case Reroute(accessLog) => Reroute(accessLog);
        case Reset => Reset();
      }
      assert steps[..|steps|] == steps;
    }
  }

  /** `list.remove`, for a handler that may be absent. */
  function Without(handlers: seq<Handler>, h: Handler): seq<Handler> {
    if handlers == [] then []
    else if handlers[0] == h then handlers[1..]
    else [handlers[0]] + Without(handlers[1..], h)
  }

  /* ---- every run ---- */

  datatype Step = Reroute(accessLog: bool) | Reset

  ghost function RunCell(name: string, c: Cell, steps: seq<Step>): Cell {
    if steps == [] then c
    else
      StepCell(name, RunCell(name, c, steps[..|steps| - 1]), steps[|steps| - 1])
  }

  /** Rerouting leaves loggers it does not list alone, and so then does a reset. */
  ghost function StepCell(name: string, c: Cell, step: Step): Cell {
    match step
    case Reroute(accessLog) => if name in REROUTED then RerouteCell(name, c, accessLog) else c
    case Reset => ResetCell(c)
  }

  lemma {:induction false} UnlistedIsUntouched(name: string, origin: State, steps: seq<Step>)
    requires name !in REROUTED
    ensures RunCell(name, Cell(origin, None), steps) == Cell(origin, None)
  {
    if steps != [] {
      UnlistedIsUntouched(name, origin, steps[..|steps| - 1]);
    }
  }

  ghost predicate Reroutes(steps: seq<Step>) {
    exists i :: 0 <= i < |steps| && steps[i].Reroute?
  }

  lemma {:induction false} AddedFacts(handlers: seq<Handler>)
    ensures Distinct(Added(handlers))
    ensures forall h :: h in Added(handlers) <==> h in handlers
  {
    if handlers != [] {
      AddedFacts(handlers[..|handlers| - 1]);
      assert handlers == handlers[..|handlers| - 1] + [handlers[|handlers| - 1]];
    }
  }

  lemma {:induction false} AddedOfDistinct(handlers: seq<Handler>)
    requires Distinct(handlers)
    ensures Added(handlers) == handlers
  {
    if handlers != [] {
      var n := |handlers| - 1;
      var rest, h := handlers[..n], handlers[n];
      assert forall i :: 0 <= i < n ==> rest[i] == handlers[i];
      AddedOfDistinct(rest);
      forall i | 0 <= i < n
        ensures rest[i] != h
      {
        assert handlers[i] != handlers[n];
      }
      assert Added(handlers) == AddedTo(rest, h) == rest + [h];
    }
  }

  lemma AddedIsExactIff(handlers: seq<Handler>)
    ensures Added(handlers) == handlers <==> Distinct(handlers)
    ensures Added(Added(handlers)) == Added(handlers)
  {
    AddedFacts(handlers);
    AddedOfDistinct(Added(handlers));
    if Distinct(handlers) {
      AddedOfDistinct(handlers);
    }
  }

  /**
    The logger was never touched, or is back as a reset leaves it, or is stripped with
    its original state in the snapshot.
  */
  ghost predicate Recoverable(name: string, origin: State, c: Cell, rerouted: bool) {
    match c.saved
    case None => c.now == Restored(origin) || (c.now == origin && !rerouted)
    case Some(s) =>
      && rerouted
      && (s == origin || s == Restored(origin))
      && c.now.handlers == []
      && (c.now.propagate || name == ACCESS)
      && c.now.level == if c.now.propagate && s.handlers != [] then NOTSET else s.level
  }

  lemma RestoredTwice(s: State)
    ensures Restored(Restored(s)) == Restored(s)
    ensures Added(s.handlers) == [] <==> s.handlers == []
  {
    AddedIsExactIff(s.handlers);
    AddedFacts(s.handlers);
    if s.handlers != [] {
      assert s.handlers[0] in Added(s.handlers);
    }
  }

  lemma StepIsRecoverable(name: string, origin: State, c: Cell, rerouted: bool, step: Step)
    requires name in REROUTED
    requires Recoverable(name, origin, c, rerouted)
    ensures Recoverable(name, origin, StepCell(name, c, step), rerouted || step.Reroute?)
  {
    RestoredTwice(origin);
  }

  lemma ReroutesSplit(steps: seq<Step>)
    requires steps != []
    ensures Reroutes(steps) <==> Reroutes(steps[..|steps| - 1]) || steps[|steps| - 1].Reroute?
  {
    var rest := steps[..|steps| - 1];
    if i :| 0 <= i < |rest| && rest[i].Reroute? {
      assert steps[i].Reroute?;
    }
    if i :| 0 <= i < |rest| && steps[i].Reroute? {
      assert rest[i].Reroute?;
    }
  }

  lemma {:induction false} RunIsRecoverable(name: string, origin: State, steps: seq<Step>)
    requires name in REROUTED
    ensures Recoverable(name, origin, RunCell(name, Cell(origin, None), steps), Reroutes(steps))
  {
    if steps != [] {
      var n := |steps| - 1;
      RunIsRecoverable(name, origin, steps[..n]);
      StepIsRecoverable(name, origin, RunCell(name, Cell(origin, None), steps[..n]), Reroutes(steps[..n]), steps[n]);
      ReroutesSplit(steps);
    }
  }

  /** A reset after any run that rerouted puts a listed logger back exactly when its handlers were distinct. */
  lemma ResetRestoresIff(name: string, origin: State, steps: seq<Step>)
    requires name in REROUTED && Reroutes(steps)
    ensures ResetCell(RunCell(name, Cell(origin, None), steps)).now == origin <==> Distinct(origin.handlers)
    ensures ResetCell(RunCell(name, Cell(origin, None), steps)).saved == None
  {
    RunIsRecoverable(name, origin, steps);
    AddedIsExactIff(origin.handlers);
  }

  lemma RestoreCanDropADuplicate()
    ensures var twice := State([7, 7], true, NOTSET);
            ResetCell(RunCell(UVICORN, Cell(twice, None), [Reroute(true)])).now != twice
  {
    assert Reroutes([Reroute(true)]) by {
      assert [Reroute(true)][0].Reroute?;
    }
    assert REROUTED[0] == UVICORN;
    ResetRestoresIff(UVICORN, State([7, 7], true, NOTSET), [Reroute(true)]);
    assert [7, 7][0] == [7, 7][1];
  }

  /**
    A second pass changes nothing, except that switching the access line off in between
    silences an access logger the first pass had nothing to do for.
  */
  lemma RerouteIsIdempotentIff(name: string, c: Cell, first: bool, second: bool)
    ensures RerouteCell(name, RerouteCell(name, c, first), second) == RerouteCell(name, c, first)
       <==> !(name == ACCESS && first && !second && c.saved.None? && c.now.handlers == [] && c.now.propagate)
  {
  }

  /** Switching the access line off between two passes silences a logger the first pass left alone. */
  lemma SecondPassCanSilence()
    ensures var c := Cell(FRESH, None);
      RerouteCell(ACCESS, c, true) == c && RerouteCell(ACCESS, c, false) != c
  {
    RerouteIsIdempotentIff(ACCESS, Cell(FRESH, None), true, false);
  }

  /* ---- where a record goes ---- */

  /** The handlers a record of a logger reaches: its own, then its ancestors' while each propagates. */
  ghost function Reached(now: string -> State, root: seq<Handler>, name: string): seq<Handler>
    decreases name == ACCESS || name == ERROR
  {
    now(name).handlers +
    if !now(name).propagate then []
    else if name == ACCESS || name == ERROR then
      assert UVICORN != ACCESS && UVICORN != ERROR by { assert |UVICORN| == 7 && |ACCESS| == 14 && |ERROR| == 13; }
      Reached(now, root, UVICORN)
    else root
  }

  ghost predicate Uniform(steps: seq<Step>, accessLog: bool) {
    forall i :: 0 <= i < |steps| && steps[i].Reroute? ==> steps[i].accessLog == accessLog
  }

  lemma {:induction false} AccessFollowsTheSwitch(origin: State, steps: seq<Step>, accessLog: bool)
    requires Uniform(steps, accessLog)
    ensures var c := RunCell(ACCESS, Cell(origin, None), steps);
            c.saved.Some? ==> c.now.propagate == accessLog
  {
    if steps != [] {
      AccessFollowsTheSwitch(origin, steps[..|steps| - 1], accessLog);
      assert REROUTED[1] == ACCESS;
      assert steps[|steps| - 1].Reroute? ==> steps[|steps| - 1].accessLog == accessLog;
    }
  }

  /**
    After any run that ends in a reroute, a record of a listed logger reaches the root
    handlers and nothing else; one of the access logger may reach nothing at all, and
    does exactly when the line is switched off.
  */
  lemma RecordsReachTheRoot(origin: string -> State, root: seq<Handler>, steps: seq<Step>, accessLog: bool,
                            name: string)
    requires name in REROUTED
    ensures var all := steps + [Reroute(accessLog)];
            var reached := Reached(n => RunCell(n, Cell(origin(n), None), all).now, root, name);
            && (name != ACCESS ==> reached == root)
            && (name == ACCESS ==> reached == root || reached == [])
            && (name == ACCESS && Uniform(steps, accessLog) ==> reached == if accessLog then root else [])
  {
    var all := steps + [Reroute(accessLog)];
    assert all[..|all| - 1] == steps;
    PassesOn(origin(name), steps, accessLog, name);
    assert REROUTED[0] == UVICORN;
    PassesOn(origin(UVICORN), steps, accessLog, UVICORN);
    assert UVICORN != ACCESS && UVICORN != ERROR by { assert |UVICORN| == 7 && |ACCESS| == 14 && |ERROR| == 13; }
  }

  /**
    A logger that had handlers of its own loses its level with them, so that the root filters its records;
    one that had none, or is silenced, keeps the level it was given.
  */
  lemma PassesOn(origin: State, steps: seq<Step>, accessLog: bool, name: string)
    requires name in REROUTED
    ensures var s := RunCell(name, Cell(origin, None), steps + [Reroute(accessLog)]).now;
            && s.handlers == []
            && (name != ACCESS ==> s.propagate)
            && (name == ACCESS && Uniform(steps, accessLog) ==> s.propagate == accessLog)
            && s.level == if s.propagate && origin.handlers != [] then NOTSET else origin.level
  {
    var all := steps + [Reroute(accessLog)];
    assert all[..|all| - 1] == steps;
    RunIsRecoverable(name, origin, steps);
    RunIsRecoverable(name, origin, all);
    ReroutesSplit(all);
    RestoredTwice(origin);
    if name == ACCESS && Uniform(steps, accessLog) {
      AccessFollowsTheSwitch(origin, steps, accessLog);
    }
  }
}
