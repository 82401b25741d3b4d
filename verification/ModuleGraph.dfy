/** Finite dependency relations between module factories: reachability, acyclicity and the rank that
    makes a depth-first start terminate. */
module ModuleGraph {
  import opened Sets

  type Factory = nat

  /** What each module's ListDependencies answers. */
  type Graph = map<Factory, seq<Factory>>

  ghost predicate Closed(g: Graph) {
    forall m, i :: m in g && 0 <= i < |g[m]| ==> g[m][i] in g
  }

  ghost predicate DependsOn(g: Graph, m: Factory, d: Factory) {
    m in g && d in g[m]
  }

  ghost predicate Path(g: Graph, p: seq<Factory>) {
    |p| > 0 && p[0] in g && (|p| > 1 ==> DependsOn(g, p[0], p[1]) && Path(g, p[1..]))
  }

  ghost predicate Reaches(g: Graph, a: Factory, b: Factory) {
    exists p :: Path(g, p) && p[0] == a && p[|p| - 1] == b
  }

  /** No module depends on itself, however indirectly. */
  ghost predicate Acyclic(g: Graph) {
    forall p :: Path(g, p) && |p| > 1 ==> p[0] != p[|p| - 1]
  }

  /** The module and all its direct and indirect dependencies. */
  ghost function Reach(g: Graph, a: Factory): set<Factory> {
    set b | b in g && Reaches(g, a, b)
  }

  ghost function ReachAll(g: Graph, ms: seq<Factory>): set<Factory> {
    if ms == [] then {} else Reach(g, ms[0]) + ReachAll(g, ms[1..])
  }

  lemma ReachSelf(g: Graph, a: Factory)
    requires a in g
    ensures a in Reach(g, a)
  {
    assert Path(g, [a]);
  }

  lemma PathCons(g: Graph, a: Factory, p: seq<Factory>)
    requires Path(g, p) && DependsOn(g, a, p[0])
    ensures Path(g, [a] + p)
  {
    assert ([a] + p)[1..] == p;
  }

  /** The reach of a module is the module and the reach of its dependencies. */
  lemma ReachStep(g: Graph, a: Factory, b: Factory)
    requires a in g && b in g
    ensures b in Reach(g, a) <==> b == a || exists d :: d in g[a] && b in Reach(g, d)
  {
    ReachSelf(g, a);
    if b in Reach(g, a) && b != a {
      var p :| Path(g, p) && p[0] == a && p[|p| - 1] == b;
      assert Reaches(g, p[1], b);
    }
    forall d | d in g[a] && b in Reach(g, d) ensures b in Reach(g, a) {
      var p :| Path(g, p) && p[0] == d && p[|p| - 1] == b;
      PathCons(g, a, p);
      assert ([a] + p)[|p|] == b;
    }
  }

  lemma {:induction false} InReachAll(g: Graph, ms: seq<Factory>, b: Factory)
    ensures b in ReachAll(g, ms) <==> exists d :: d in ms && b in Reach(g, d)
  {
    if ms != [] {
      InReachAll(g, ms[1..], b);
    }
  }

  lemma ReachOfDeps(g: Graph, a: Factory)
    requires Closed(g) && a in g
    ensures Reach(g, a) == {a} + ReachAll(g, g[a])
  {
    forall b ensures b in Reach(g, a) <==> b in {a} + ReachAll(g, g[a]) {
      InReachAll(g, g[a], b);
      if b in g {
        ReachStep(g, a, b);
      }
    }
  }

  lemma NotInOwnDeps(g: Graph, a: Factory, d: Factory)
    requires Acyclic(g) && DependsOn(g, a, d)
    ensures a !in Reach(g, d)
  {
    forall p | Path(g, p) && p[0] == d ensures p[|p| - 1] != a {
      PathCons(g, a, p);
      assert ([a] + p)[|p|] == p[|p| - 1];
    }
  }

  ghost function Rank(g: Graph, a: Factory): nat {
    |Reach(g, a)|
  }

  /** A dependency reaches strictly fewer modules, so ranks fall along dependencies. */
  lemma DepRank(g: Graph, a: Factory, d: Factory)
    requires Closed(g) && Acyclic(g) && DependsOn(g, a, d) && d in g
    ensures Rank(g, d) < Rank(g, a)
  {
    forall b | b in Reach(g, d) ensures b in Reach(g, a) - {a} {
      ReachStep(g, a, b);
      NotInOwnDeps(g, a, d);
    }
    ReachSelf(g, a);
    SubsetSize(Reach(g, d), Reach(g, a) - {a});
  }

  /** A set that holds the dependencies of its members holds everything they reach. */
  lemma {:induction false} ClosedHoldsPath(g: Graph, s: set<Factory>, p: seq<Factory>)
    requires forall m, d :: m in s && DependsOn(g, m, d) ==> d in s
    requires Path(g, p) && p[0] in s
    ensures p[|p| - 1] in s
    decreases |p|
  {
    if |p| > 1 {
      ClosedHoldsPath(g, s, p[1..]);
    }
  }

  lemma ClosedHoldsReach(g: Graph, s: set<Factory>, a: Factory)
    requires forall m, d :: m in s && DependsOn(g, m, d) ==> d in s
    requires a in s
    ensures Reach(g, a) <= s
  {
    forall b | b in Reach(g, a) ensures b in s {
      var p :| Path(g, p) && p[0] == a && p[|p| - 1] == b;
      ClosedHoldsPath(g, s, p);
    }
  }
}
