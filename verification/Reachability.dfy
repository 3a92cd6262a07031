/**
  Reachability in a finite directed graph that may have cycles, with the unfolding law that
  traversals carrying a per-path visited set rest on.
*/
module Reachability {

  type Graph = map<string, set<string>>

  ghost predicate Edge(g: Graph, x: string, y: string) {
    x in g && y in g[x]
  }

  ghost predicate IsPath(g: Graph, p: seq<string>, x: string, y: string) {
    && p != [] && p[0] == x && p[|p| - 1] == y
    && forall i :: 0 <= i < |p| - 1 ==> Edge(g, p[i], p[i + 1])
  }

  ghost predicate Avoids(p: seq<string>, seen: set<string>) {
    forall i :: 0 <= i < |p| ==> p[i] !in seen
  }

  /** `y` is reached from `x` in zero or more steps through nodes outside `seen`. */
  ghost predicate Reach(g: Graph, x: string, y: string, seen: set<string>) {
    exists p :: IsPath(g, p, x, y) && Avoids(p, seen)
  }

  /** The part of a path after its last visit to `x`. */
  lemma {:induction false} AfterLastVisit(g: Graph, p: seq<string>, x: string, y: string, seen: set<string>,
                                          start: string)
    requires IsPath(g, p, start, y) && Avoids(p, seen) && x in p && y != x
    ensures exists z :: Edge(g, x, z) && Reach(g, z, y, seen + {x})
    decreases |p|
  {
    var rest := p[1..];
    assert IsPath(g, rest, rest[0], y);
    if x in rest {
      AfterLastVisit(g, rest, x, y, seen, rest[0]);
    } else {
      assert p[0] == x;
      assert Avoids(rest, seen + {x});
      assert Edge(g, p[0], p[1]);
    }
  }

  /** Reaching from `x` is being there, or reaching from a successor without coming back to `x`. */
  lemma {:induction false} ReachUnfolds(g: Graph, x: string, y: string, seen: set<string>)
    requires x !in seen
    ensures Reach(g, x, y, seen) <==> y == x || exists z :: Edge(g, x, z) && Reach(g, z, y, seen + {x})
  {
    if y == x {
      assert IsPath(g, [x], x, y) && Avoids([x], seen);
    } else if Reach(g, x, y, seen) {
      var p :| IsPath(g, p, x, y) && Avoids(p, seen);
      AfterLastVisit(g, p, x, y, seen, x);
    } else if z :| Edge(g, x, z) && Reach(g, z, y, seen + {x}) {
      var p :| IsPath(g, p, z, y) && Avoids(p, seen + {x});
      assert IsPath(g, [x] + p, x, y) && Avoids([x] + p, seen);
    }
  }

  lemma NothingFromSeen(g: Graph, x: string, y: string, seen: set<string>)
    requires x in seen
    ensures !Reach(g, x, y, seen)
  {
  }
}
