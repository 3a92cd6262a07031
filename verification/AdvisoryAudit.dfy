/**
  Collecting the high and critical advisories behind an npm audit report: a depth-first
  visit whose visited set belongs to the path, over a `via` graph that may be cyclic.
*/
module AdvisoryAudit {
  import opened Common
  import opened Reachability

  /** An entry of `via`: another package, an advisory, or neither.  `id` is absent when the URL names no advisory. */
  datatype Source = Package(name: string) | Advisory(high: bool, id: Option<string>) | Neither

  datatype Finding = Finding(high: bool, via: seq<Source>)

  type Report = map<string, Finding>

  /** The exceptions that make the audit of a lock file fail. */
  datatype Result = Found(ids: set<string>) | UnknownPackage | UnrecognizedAdvisory | InvalidSource | NoAdvisory

  function Via(report: Report): Graph {
    map n | n in report :: set s | s in report[n].via && s.Package? :: s.name
  }

  predicate BadSource(s: Source) {
    s.Neither? || (s.Advisory? && s.high && s.id.None?)
  }

  /** A package whose own entry raises no error. */
  predicate Good(report: Report, n: string) {
    n in report && forall s :: s in report[n].via ==> !BadSource(s)
  }

  /** The high or critical advisories attached to a package itself. */
  predicate Attached(report: Report, n: string, id: string) {
    n in report && Advisory(true, Some(id)) in report[n].via
  }

  /** All packages reached from `n` outside `seen` are good. */
  ghost predicate AllGood(report: Report, n: string, seen: set<string>) {
    forall y :: Reach(Via(report), n, y, seen) ==> Good(report, y)
  }

  ghost predicate AttachedBelow(report: Report, n: string, seen: set<string>, id: string) {
    exists y :: Reach(Via(report), n, y, seen) && Attached(report, y, id)
  }

  /** `Good` and `AttachedBelow` of a package, one `via` entry at a time. */
  lemma {:induction false} Below(report: Report, n: string, seen: set<string>)
    requires n in report && n !in seen
    ensures AllGood(report, n, seen) <==>
      forall s :: s in report[n].via ==> !BadSource(s) && (s.Package? ==> AllGood(report, s.name, seen + {n}))
    ensures forall id :: AttachedBelow(report, n, seen, id) <==>
      exists s :: s in report[n].via && Gives(report, s, seen + {n}, id)
  {
    var g := Via(report);
    assert forall z :: Edge(g, n, z) <==> Package(z) in report[n].via;
    forall y {
      ReachUnfolds(g, n, y, seen);
    }
  }

  /** The advisory `id` comes from the `via` entry `s`. */
  ghost predicate Gives(report: Report, s: Source, seen: set<string>, id: string) {
    s == Advisory(true, Some(id)) || (s.Package? && AttachedBelow(report, s.name, seen, id))
  }

  /**
    One visit: it succeeds exactly when every package reached is good, and then returns exactly the
    advisories attached to the packages reached.
  */
  method Visit(report: Report, name: string, seen: set<string>) returns (r: Result)
    requires seen <= report.Keys
    ensures r.Found? <==> AllGood(report, name, seen)
    ensures r.Found? ==> forall id :: id in r.ids <==> AttachedBelow(report, name, seen, id)
    decreases report.Keys - seen
  {
    if name in seen {
      assert forall y :: !Reach(Via(report), name, y, seen);
      return Found({});
    }
    ReachesItself(report, name, seen);
    if name !in report {
      return UnknownPackage;
    }
    Below(report, name, seen);
    var visited, via := seen + {name}, report[name].via;
    var found: set<string> := {};
    for i := 0 to |via|
      invariant forall j ::
        0 <= j < i ==> !BadSource(via[j]) && (via[j].Package? ==> AllGood(report, via[j].name, visited))
      invariant forall id :: id in found <==> exists j :: 0 <= j < i && Gives(report, via[j], visited, id)
    {
      assert via[i] in via && (BadSource(via[i]) ==> !AllGood(report, name, seen));
      match via[i]
      case Package(source) =>
        var below := Visit(report, source, visited);
        if !below.Found? {
          return below;
        }
        found := found + below.ids;
      case Advisory(high, id) =>
        if high {
          if id.None? {
            return UnrecognizedAdvisory;
          }
          found := found + {id.value};
        }
      case Neither => return InvalidSource;
    }
    r := Found(found);
  }

  lemma ReachesItself(report: Report, n: string, seen: set<string>)
    requires n !in seen
    ensures Reach(Via(report), n, n, seen)
  {
    ReachUnfolds(Via(report), n, n, seen);
  }

  /** A high finding that can be explained: everything below it is good and some advisory is attached there. */
  ghost predicate Explained(report: Report, n: string) {
    AllGood(report, n, {}) && exists id :: AttachedBelow(report, n, {}, id)
  }

  /**
    The whole report.  It succeeds exactly when every high finding is explained, and then returns
    the advisories attached to the packages reachable from high findings, and no others.
  */
  method Advisories(report: Report) returns (r: Result)
    ensures r.Found? <==> forall n :: n in report && report[n].high ==> Explained(report, n)
    ensures r.Found? ==> forall id ::
      id in r.ids <==> exists n :: n in report && report[n].high && AttachedBelow(report, n, {}, id)
  {
    var result: set<string> := {};
    var todo := report.Keys;
    while todo != {}
      invariant todo <= report.Keys
      invariant forall n :: n in report && n !in todo && report[n].high ==> Explained(report, n)
      invariant forall id ::
        id in result <==> exists n :: n in report && n !in todo && report[n].high && AttachedBelow(report, n, {}, id)
    {
      var n :| n in todo;
      todo := todo - {n};
      if report[n].high {
        var found := Visit(report, n, {});
        if !found.Found? {
          return found;
        }
        if found.ids == {} {
          return NoAdvisory;
        }
        var some :| some in found.ids;
        result := result + found.ids;
      }
    }
    r := Found(result);
  }
}
