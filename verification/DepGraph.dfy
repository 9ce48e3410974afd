/** Reachability in the graph of direct dependencies. A DSO is its position on the chain that starts at `head`. */
module DepGraph {

  type Dso = nat

  /** `g[d]` lists the direct dependencies of `d`; repetitions and cycles are allowed. */
  type Graph = seq<seq<Dso>>

  ghost predicate WellFormed(g: Graph) {
    forall d, j :: 0 <= d < |g| && 0 <= j < |g[d]| ==> g[d][j] < |g|
  }

  predicate Edge(g: Graph, a: Dso, b: Dso) {
    a < |g| && b in g[a]
  }

  /** A nonempty walk from `a` to `b` along direct dependencies. */
  ghost predicate Walk(g: Graph, w: seq<Dso>, a: Dso, b: Dso) {
    w != [] && w[0] == a < |g| && w[|w| - 1] == b < |g| &&
    forall k :: 0 <= k < |w| - 1 ==> Edge(g, w[k], w[k + 1])
  }

  /** `b` can be reached from `a` in zero or more steps. */
  ghost predicate Reaches(g: Graph, a: Dso, b: Dso) {
    exists w :: Walk(g, w, a, b)
  }

  /** `b` can be reached from `a` in one or more steps. */
  ghost predicate ReachesPlus(g: Graph, a: Dso, b: Dso) {
    exists c :: Edge(g, a, c) && Reaches(g, c, b)
  }

  /** `l` lists exactly what `d` depends on, directly or indirectly. */
  ghost predicate Closure(g: Graph, d: Dso, l: seq<Dso>) {
    forall x :: x in l <==> ReachesPlus(g, d, x)
  }

  lemma ReachesSelf(g: Graph, a: Dso)
    requires a < |g|
    ensures Reaches(g, a, a)
  {
    assert Walk(g, [a], a, a);
  }

  lemma ReachesStep(g: Graph, a: Dso, b: Dso, c: Dso)
    requires WellFormed(g) && Reaches(g, a, b) && Edge(g, b, c)
    ensures Reaches(g, a, c) && c < |g|
  {
    var w :| Walk(g, w, a, b);
    assert Walk(g, w + [c], a, c);
  }

  lemma StepReaches(g: Graph, a: Dso, b: Dso, c: Dso)
    requires Edge(g, a, b) && Reaches(g, b, c)
    ensures Reaches(g, a, c)
  {
    var w :| Walk(g, w, b, c);
    var v := [a] + w;
    assert forall k :: 0 <= k < |v| - 1 ==> Edge(g, v[k], v[k + 1]) by {
      forall k | 0 <= k < |v| - 1 ensures Edge(g, v[k], v[k + 1]) {
        if k > 0 { assert Edge(g, w[k - 1], w[k - 1 + 1]); }
      }
    }
    assert Walk(g, v, a, c);
  }

  /** A set that contains `a` and is closed under direct dependencies contains
      everything reachable from `a`. */
  lemma ClosedContainsReachable(g: Graph, s: set<Dso>, a: Dso, b: Dso)
    requires a in s && Reaches(g, a, b)
    requires forall c, d :: c in s && Edge(g, c, d) ==> d in s
    ensures b in s
  {
    var w :| Walk(g, w, a, b);
    var k := 0;
    while k < |w| - 1
      invariant 0 <= k < |w| && w[k] in s
    {
      assert Edge(g, w[k], w[k + 1]);
      k := k + 1;
    }
  }

  /** Everything reachable from `a`, `a` included. */
  ghost function Reachable(g: Graph, a: Dso): set<Dso> {
    set d | 0 <= d < |g| && Reaches(g, a, d)
  }

  ghost function Below(n: nat): set<nat> {
    if n == 0 then {} else Below(n - 1) + {n - 1}
  }

  lemma {:induction false} BelowSize(n: nat)
    ensures |Below(n)| == n && forall d: nat :: d in Below(n) <==> d < n
  {
    if n > 0 { BelowSize(n - 1); }
  }
}
