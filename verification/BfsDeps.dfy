/** `extend_bfs_deps` on the chain: DSOs are positions, and marks are a field of each. */
module BfsDeps {
  import opened Collections
  import opened DepGraph
  import opened ListGrowth

  ghost function AsMap(g: Graph): map<Dso, seq<Dso>> { map d: Dso | d < |g| :: g[d] }

  ghost function Marked(mark: seq<bool>): set<Dso> { set d: Dso | d < |mark| && mark[d] }

  /** `l` is being extended for `p` by a pass that found `m0` marked, and `i` members have
      been visited. */
  ghost predicate Growing(g: Graph, p: Dso, m0: seq<bool>, mark: seq<bool>, l: seq<Dso>, i: nat) {
    p < |g| == |mark| == |m0| && i <= |l| && (forall k :: 0 <= k < |l| ==> l[k] < |g|) &&
    Grown(AsMap(g), p, Marked(m0), Marked(mark), l, i)
  }

  /** Marks found at the start do no harm: whatever `p` depends on and was marked is one of
      its direct dependencies. */
  ghost predicate Harmless(g: Graph, p: Dso, m0: seq<bool>) {
    p < |g| && forall d :: 0 <= d < |m0| && m0[d] && ReachesPlus(g, p, d) ==> d in g[p]
  }

  lemma PlusIsDepends(g: Graph, a: Dso, b: Dso)
    requires WellFormed(g)
    ensures ReachesPlus(g, a, b) <==> Depends(AsMap(g), a, b)
  {
    var dm: map<Dso, seq<Dso>> := AsMap(g);
    assert forall x: Dso, y: Dso :: DepEdge(dm, x, y) <==> Edge(g, x, y);
    if ReachesPlus(g, a, b) {
      var c :| Edge(g, a, c) && Reaches(g, c, b);
      var w :| Walk(g, w, c, b);
      var v := [a] + w;
      forall k | 0 <= k < |v| - 1 ensures DepEdge(dm, v[k], v[k + 1]) {
        if k > 0 { assert Edge(g, w[k - 1], w[k - 1 + 1]); }
      }
      assert Leads(dm, v, a, b);
    }
    if Depends(dm, a, b) {
      var v :| Leads(dm, v, a, b);
      var n, w := |v|, v[1..];
      assert DepEdge(dm, v[0], v[0 + 1]) && DepEdge(dm, v[n - 2], v[n - 2 + 1]);
      forall k | 0 <= k < |w| - 1 ensures Edge(g, w[k], w[k + 1]) { assert DepEdge(dm, v[k + 1], v[k + 1 + 1]); }
      EdgeEnds(g, v[0], v[1]);
      EdgeEnds(g, v[n - 2], v[n - 1]);
      assert Walk(g, w, v[1], b);
    }
  }

  lemma EdgeEnds(g: Graph, a: Dso, b: Dso)
    requires WellFormed(g) && Edge(g, a, b)
    ensures b < |g|
  {
  }

  lemma BeginGrowing(g: Graph, p: Dso, mark: seq<bool>)
    requires WellFormed(g) && p < |g| == |mark| && forall d :: 0 <= d < |g| && d in g[p] ==> mark[d]
    ensures Growing(g, p, mark, mark, g[p], 0)
  {
    BeginGrown(AsMap(g), p, Marked(mark));
  }

  /** Appending an unmarked direct dependency of the member being visited. */
  lemma Append(g: Graph, p: Dso, m0: seq<bool>, mark: seq<bool>, l: seq<Dso>, i: nat, d: Dso)
    requires Growing(g, p, m0, mark, l, i) && i < |l| && Edge(g, l[i], d) && d < |g| && !mark[d]
    ensures Growing(g, p, m0, mark[d := true], l + [d], i)
  {
    hide Grown;
    var dm: map<Dso, seq<Dso>> := AsMap(g);
    assert dm[l[i]] == g[l[i]];
    GrownStarts(dm, p, Marked(m0), Marked(mark), l, i);
    GrowOne(dm, p, Marked(m0), Marked(mark), l, i, d, |dm[p]|);
    assert Marked(mark[d := true]) == Marked(mark) + {d};
  }

  lemma NextMember(g: Graph, p: Dso, m0: seq<bool>, mark: seq<bool>, l: seq<Dso>, i: nat)
    requires Growing(g, p, m0, mark, l, i) && i < |l| && l[i] < |g|
    requires forall j :: 0 <= j < |g[l[i]]| ==> g[l[i]][j] < |mark| && mark[g[l[i]][j]]
    ensures Growing(g, p, m0, mark, l, i + 1)
  {
    hide Grown;
    GrownNext(AsMap(g), p, Marked(m0), Marked(mark), l, i);
  }

  /** A list with no member left to visit holds dependencies of `p` only, and all of them
      if and only if the marks found at the start were harmless. */
  lemma GrownIsClosure(g: Graph, p: Dso, m0: seq<bool>, mark: seq<bool>, l: seq<Dso>, i: nat)
    requires WellFormed(g) && Growing(g, p, m0, mark, l, i) && i == |l|
    ensures p < |g| && g[p] <= l && Appended(l, |g[p]|)
    ensures Closure(g, p, l) <==> Harmless(g, p, m0)
  {
    hide ReachesPlus, Depends;
    var dm: map<Dso, seq<Dso>> := AsMap(g);
    forall x: Dso ensures ReachesPlus(g, p, x) <==> Depends(dm, p, x) { PlusIsDepends(g, p, x); }
    GrownAll(dm, p, Marked(m0), Marked(mark), l, {});
    hide Grown;
    GrownStarts(dm, p, Marked(m0), Marked(mark), l, i);
  }

  lemma MemberInRange(g: Graph, p: Dso, m0: seq<bool>, mark: seq<bool>, l: seq<Dso>, i: nat, k: nat)
    requires Growing(g, p, m0, mark, l, i) && k < |l|
    ensures l[k] < |g| && g[p] <= l
  {
  }

  /** How many entries of `ds` are not marked, repetitions included. */
  function CountUnmarked(mark: seq<bool>, ds: seq<Dso>): nat {
    if ds == [] then 0
    else CountUnmarked(mark, ds[..|ds| - 1]) +
         (if ds[|ds| - 1] < |mark| && !mark[ds[|ds| - 1]] then 1 else 0)
  }

  lemma CountOne(mark: seq<bool>, ds: seq<Dso>, j: nat)
    requires j < |ds|
    ensures CountUnmarked(mark, ds[..j + 1]) ==
            CountUnmarked(mark, ds[..j]) + (if ds[j] < |mark| && !mark[ds[j]] then 1 else 0)
  {
    assert ds[..j + 1][..j] == ds[..j];
  }

  lemma {:induction false} CountGrows(mark: seq<bool>, ds: seq<Dso>, j: nat)
    requires j <= |ds|
    ensures CountUnmarked(mark, ds[..j]) <= CountUnmarked(mark, ds)
    decreases |ds| - j
  {
    if j < |ds| {
      CountOne(mark, ds, j);
      CountGrows(mark, ds, j + 1);
    } else {
      assert ds[..j] == ds;
    }
  }

  ghost function UnmarkedSet(mark: seq<bool>): set<Dso> {
    set d | d in Below(|mark|) && d < |mark| && !mark[d]
  }

  lemma UnmarkedSetShrinks(mark: seq<bool>, d: Dso)
    requires d < |mark| && !mark[d]
    ensures |UnmarkedSet(mark[d := true])| < |UnmarkedSet(mark)|
  {
    BelowSize(|mark|);
    assert d in UnmarkedSet(mark);
    assert UnmarkedSet(mark[d := true]) <= UnmarkedSet(mark) - {d};
    SubsetFits(UnmarkedSet(mark[d := true]), UnmarkedSet(mark) - {d});
  }
}
