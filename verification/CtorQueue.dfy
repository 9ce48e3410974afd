/** `queue_ctors`: the dependency sort that decides constructor order. One buffer
    holds the output queue at its low end and the depth-first work stack at its high
    end. */
module CtorQueue {
  import opened Collections
  import opened DepGraph

  /** What a constructor queue for `root` must be: exactly the DSOs reachable from the
      root, once each, and each one after its direct dependencies, except where a
      dependency leads back to it. */
  ghost predicate QueueFor(g: Graph, root: Dso, q: seq<Dso>) {
    NoDup(q) &&
    (forall d :: d in q <==> Reaches(g, root, d)) &&
    (forall i, d :: 0 <= i < |q| && Edge(g, q[i], d) ==> DependencyFirst(g, q, i, d))
  }

  ghost predicate DependencyFirst(g: Graph, q: seq<Dso>, i: nat, d: Dso)
    requires i < |q|
  {
    d in q[..i] || Reaches(g, d, q[i])
  }

  /** The state of the search: `q` is the output so far; `path` is the work stack, top
      first, with the DSO being scanned on top. */
  ghost predicate Search(g: Graph, root: Dso, mark: seq<bool>, next: seq<nat>, q: seq<Dso>, path: seq<Dso>) {
    |mark| == |g| && |next| == |g| &&
    NoDup(q + path) &&
    (path != [] ==> path[|path| - 1] == root) &&
    (path == [] ==> root in q) &&
    (forall i :: 0 <= i < |q| ==> q[i] < |g| && Reaches(g, root, q[i])) &&
    (forall k :: 0 <= k < |path| ==> path[k] < |g| && Reaches(g, root, path[k])) &&
    (forall d :: 0 <= d < |g| && Reaches(g, root, d) ==> (mark[d] <==> d in q || d in path)) &&
    Chain(g, path) && Scanned(g, next, q, path) && Finished(g, q, path)
  }

  /** Each DSO on the stack was entered from the one below it. */
  ghost predicate Chain(g: Graph, path: seq<Dso>) {
    forall k :: 0 <= k < |path| - 1 ==> Edge(g, path[k + 1], path[k])
  }

  /** The dependencies already passed over are in the queue or lower on the stack. */
  ghost predicate Scanned(g: Graph, next: seq<nat>, q: seq<Dso>, path: seq<Dso>) {
    forall k: nat, j: nat :: PassedOver(g, next, q, path, k, j)
  }

  ghost predicate PassedOver(g: Graph, next: seq<nat>, q: seq<Dso>, path: seq<Dso>, k: nat, j: nat) {
    (k < |path| && path[k] < |g| && path[k] < |next| && j < next[path[k]]) ==>
      j < |g[path[k]]| && (g[path[k]][j] in q || g[path[k]][j] in path[k..])
  }

  ghost predicate Finished(g: Graph, q: seq<Dso>, path: seq<Dso>) {
    forall i: nat, d: Dso :: FinishedAt(g, q, path, i, d)
  }

  ghost predicate FinishedAt(g: Graph, q: seq<Dso>, path: seq<Dso>, i: nat, d: Dso) {
    (i < |q| && Edge(g, q[i], d)) ==> (d in q || d in path) && DependencyFirst(g, q, i, d)
  }

  lemma Begin(g: Graph, root: Dso, mark: seq<bool>, next: seq<nat>)
    requires root < |g| && |mark| == |g| && |next| == |g| && next[root] == 0
    requires forall d :: 0 <= d < |g| && Reaches(g, root, d) ==> (mark[d] <==> d == root)
    ensures Search(g, root, mark, next, [], [root])
  {
    ReachesSelf(g, root);
  }

  /** Passing over a marked dependency of the top DSO. */
  lemma Advance(g: Graph, root: Dso, mark: seq<bool>, next: seq<nat>, q: seq<Dso>, path: seq<Dso>)
    requires WellFormed(g) && Search(g, root, mark, next, q, path) && path != []
    requires next[path[0]] < |g[path[0]]| && mark[g[path[0]][next[path[0]]]]
    ensures Search(g, root, mark, next[path[0] := next[path[0]] + 1], q, path)
  {
    var p := path[0];
    var d := g[p][next[p]];
    assert Edge(g, p, d);
    ReachesStep(g, root, p, d);
    var next' := next[p := next[p] + 1];
    forall k: nat, j: nat ensures PassedOver(g, next', q, path, k, j) {
      assert PassedOver(g, next, q, path, k, j);
      assert 0 < k < |path| ==> path[k] != p by {
        if 0 < k < |path| { assert (q + path)[|q|] == p && (q + path)[|q| + k] == path[k]; }
      }
    }
  }

  lemma PushNoDup(q: seq<Dso>, path: seq<Dso>, d: Dso)
    requires NoDup(q + path) && d !in q && d !in path
    ensures NoDup(q + ([d] + path))
  {
    var path' := [d] + path;
    forall i, j | 0 <= i < j < |q + path'| ensures (q + path')[i] != (q + path')[j] {
      var i', j' := if i > |q| then i - 1 else i, if j > |q| then j - 1 else j;
      assert i != |q| ==> (q + path')[i] == (q + path)[i'];
      assert j != |q| ==> (q + path')[j] == (q + path)[j'];
    }
  }

  /** The parts of the search state that speak of the stack survive a push. */
  lemma PushShape(g: Graph, next: seq<nat>, q: seq<Dso>, path: seq<Dso>, d: Dso)
    requires path != [] && Edge(g, path[0], d) && d !in path && d < |g| == |next|
    requires Chain(g, path) && Scanned(g, next, q, path) && Finished(g, q, path)
    ensures Chain(g, [d] + path)
    ensures Scanned(g, next[d := 0], q, [d] + path) && Finished(g, q, [d] + path)
  {
    var path', next' := [d] + path, next[d := 0];
    forall k: nat, j: nat ensures PassedOver(g, next', q, path', k, j) {
      if k > 0 {
        var m: nat := k - 1;
        assert PassedOver(g, next, q, path, m, j);
        assert m < |path| ==> path[m] != d && path'[k..] == path[m..];
      }
    }
    forall k | 0 <= k < |path'| - 1 ensures Edge(g, path'[k + 1], path'[k]) {
      if k > 0 { assert Edge(g, path[k - 1 + 1], path[k - 1]); }
    }
    forall i: nat, e: Dso ensures FinishedAt(g, q, path', i, e) {
      assert FinishedAt(g, q, path, i, e);
    }
  }

  /** Entering an unmarked dependency of the top DSO. */
  lemma Descend(g: Graph, root: Dso, mark: seq<bool>, next: seq<nat>, q: seq<Dso>, path: seq<Dso>)
    requires WellFormed(g) && Search(g, root, mark, next, q, path) && path != []
    requires next[path[0]] < |g[path[0]]| && !mark[g[path[0]][next[path[0]]]]
    ensures var d := g[path[0]][next[path[0]]];
      Reaches(g, root, d) && d !in q && d !in path &&
      Search(g, root, mark[d := true], next[d := 0], q, [d] + path)
  {
    var d := g[path[0]][next[path[0]]];
    assert Edge(g, path[0], d);
    ReachesStep(g, root, path[0], d);
    assert d !in q && d !in path;
    PushNoDup(q, path, d);
    PushShape(g, next, q, path, d);
    assert forall x :: x in [d] + path <==> x == d || x in path;
  }

  /** Every DSO on the stack leads to the ones above it. */
  lemma {:induction false} StackReaches(g: Graph, path: seq<Dso>, k: nat)
    requires Chain(g, path) && k < |path| && path[0] < |g|
    ensures Reaches(g, path[k], path[0])
  {
    if k == 0 {
      ReachesSelf(g, path[0]);
    } else {
      StackReaches(g, path, k - 1);
      assert Edge(g, path[k - 1 + 1], path[k - 1]);
      StepReaches(g, path[k], path[k - 1], path[0]);
    }
  }

  /** A DSO all of whose dependencies are passed over satisfies the order. */
  lemma TopFinished(g: Graph, next: seq<nat>, q: seq<Dso>, path: seq<Dso>, d: Dso)
    requires Chain(g, path) && Scanned(g, next, q, path) && path != []
    requires path[0] < |g| == |next| && next[path[0]] >= |g[path[0]]| && Edge(g, path[0], d)
    ensures d in q || (d in path && Reaches(g, d, path[0]))
  {
    var j :| 0 <= j < |g[path[0]]| && g[path[0]][j] == d;
    assert PassedOver(g, next, q, path, 0, j);
    if d in path {
      var k :| 0 <= k < |path| && path[k] == d;
      StackReaches(g, path, k);
    }
  }

  lemma PopShape(g: Graph, next: seq<nat>, q: seq<Dso>, path: seq<Dso>)
    requires Chain(g, path) && Scanned(g, next, q, path) && Finished(g, q, path) && path != []
    requires path[0] < |g| == |next| && next[path[0]] >= |g[path[0]]|
    ensures Chain(g, path[1..])
    ensures Scanned(g, next, q + [path[0]], path[1..]) && Finished(g, q + [path[0]], path[1..])
  {
    var p := path[0];
    var q', path' := q + [p], path[1..];
    assert path == [p] + path';
    forall k: nat, j: nat ensures PassedOver(g, next, q', path', k, j) {
      assert PassedOver(g, next, q, path, k + 1, j);
      assert k < |path'| ==> path'[k..] == path[k + 1..];
    }
    forall k | 0 <= k < |path'| - 1 ensures Edge(g, path'[k + 1], path'[k]) {
      assert Edge(g, path[k + 1 + 1], path[k + 1]);
    }
    forall i: nat, d: Dso ensures FinishedAt(g, q', path', i, d) {
      if i < |q| {
        assert FinishedAt(g, q, path, i, d);
        assert q'[..i] == q[..i];
      } else if i == |q| && Edge(g, p, d) {
        TopFinished(g, next, q, path, d);
        assert q'[..i] == q;
      }
    }
  }

  /** Moving the top DSO, all of whose dependencies are passed over, to the queue. */
  lemma Emit(g: Graph, root: Dso, mark: seq<bool>, next: seq<nat>, q: seq<Dso>, path: seq<Dso>)
    requires WellFormed(g) && Search(g, root, mark, next, q, path) && path != []
    requires next[path[0]] >= |g[path[0]]|
    ensures Search(g, root, mark, next, q + [path[0]], path[1..])
  {
    PopShape(g, next, q, path);
    assert (q + [path[0]]) + path[1..] == q + path;
    assert path == [path[0]] + path[1..];
  }

  /** Queue and stack together never outnumber what is reachable. */
  lemma SearchFits(g: Graph, root: Dso, mark: seq<bool>, next: seq<nat>, q: seq<Dso>, path: seq<Dso>)
    requires Search(g, root, mark, next, q, path)
    ensures |mark| == |g| == |next| && |q| + |path| <= |Reachable(g, root)|
    ensures forall k :: 0 <= k < |path| ==> path[k] < |g| && next[path[k]] <= |g[path[k]]|
    ensures forall i :: 0 <= i < |q| ==> q[i] < |g|
  {
    forall k | 0 <= k < |path| ensures next[path[k]] <= |g[path[k]]| {
      assert PassedOver(g, next, q, path, k, |g[path[k]]|);
    }
    assert forall x :: x in q + path ==> x in Reachable(g, root);
    NoDupFits(q + path, Reachable(g, root));
  }

  /** With the stack empty the queue is what was wanted. */
  lemma Complete(g: Graph, root: Dso, mark: seq<bool>, next: seq<nat>, q: seq<Dso>)
    requires WellFormed(g) && Search(g, root, mark, next, q, [])
    ensures QueueFor(g, root, q)
  {
    assert q + [] == q;
    forall i, d | 0 <= i < |q| && Edge(g, q[i], d) ensures d in q && DependencyFirst(g, q, i, d) {
      assert FinishedAt(g, q, [], i, d);
    }
    var s := set d | d in q;
    forall d | Reaches(g, root, d) ensures d in q {
      forall c, e | c in s && Edge(g, c, e) ensures e in s {
        var i :| 0 <= i < |q| && q[i] == c;
        assert Edge(g, q[i], e);
      }
      ClosedContainsReachable(g, s, root, d);
    }
  }

  // ----- marks that are not the search's own

  /** The graph the search sees when `m` is marked at its start: a dependency that is
      marked is passed over, as one on the DSO itself would be. */
  ghost function Cut(g: Graph, m: seq<bool>, root: Dso): (c: Graph)
    ensures |c| == |g| && forall d :: 0 <= d < |g| ==> |c[d]| == |g[d]|
  {
    seq(|g|, d requires 0 <= d < |g| => CutList(g[d], m, root, d))
  }

  ghost function CutList(l: seq<Dso>, m: seq<bool>, root: Dso, d: Dso): (c: seq<Dso>)
    ensures |c| == |l|
  {
    seq(|l|, j requires 0 <= j < |l| => if Passed(m, root, l[j]) then d else l[j])
  }

  predicate Passed(m: seq<bool>, root: Dso, e: Dso) { e != root && e < |m| && m[e] }

  lemma CutWellFormed(g: Graph, m: seq<bool>, root: Dso)
    requires WellFormed(g)
    ensures WellFormed(Cut(g, m, root))
  {
  }

  lemma CutEdge(g: Graph, m: seq<bool>, root: Dso, a: Dso, b: Dso)
    ensures Edge(Cut(g, m, root), a, b) ==> (Edge(g, a, b) && !Passed(m, root, b)) || a == b
    ensures Edge(g, a, b) && !Passed(m, root, b) ==> Edge(Cut(g, m, root), a, b)
  {
    if a < |g| {
      var c := Cut(g, m, root);
      if b in c[a] { var j :| 0 <= j < |c[a]| && c[a][j] == b; }
      if b in g[a] && !Passed(m, root, b) {
        var j :| 0 <= j < |g[a]| && g[a][j] == b;
        assert c[a][j] == b;
      }
    }
  }

  lemma CutReaches(g: Graph, m: seq<bool>, root: Dso, a: Dso, b: Dso)
    requires WellFormed(g) && Reaches(Cut(g, m, root), a, b)
    ensures Reaches(g, a, b)
  {
    var s := Reachable(g, a);
    StartInRange(Cut(g, m, root), a, b);
    ReachesSelf(g, a);
    forall c, d | c in s && Edge(Cut(g, m, root), c, d) ensures d in s {
      CutEdge(g, m, root, c, d);
      if c != d { ReachesStep(g, a, c, d); }
    }
    ClosedContainsReachable(Cut(g, m, root), s, a, b);
  }

  lemma StartInRange(g: Graph, a: Dso, b: Dso)
    requires Reaches(g, a, b)
    ensures a < |g| && b < |g|
  {
    var w :| Walk(g, w, a, b);
  }

  /** Whatever the search can reach was not marked. */
  lemma CutUnmarked(g: Graph, m: seq<bool>, root: Dso, b: Dso)
    requires WellFormed(g) && root < |g| && Reaches(Cut(g, m, root), root, b)
    ensures !Passed(m, root, b)
  {
    var c := Cut(g, m, root);
    var s := set x | 0 <= x < |g| && !Passed(m, root, x);
    CutWellFormed(g, m, root);
    forall a: Dso, d: Dso | a in s && Edge(c, a, d) ensures d in s {
      CutEdge(g, m, root, a, d);
      assert d < |g|;
    }
    ClosedContainsReachable(c, s, root, b);
  }

  /** No mark hides anything from the search. */
  ghost predicate NoneHidden(g: Graph, root: Dso, m: seq<bool>) {
    forall d :: Reaches(g, root, d) ==> !Passed(m, root, d)
  }

  lemma SeesAll(g: Graph, m: seq<bool>, root: Dso, a: Dso, b: Dso)
    requires WellFormed(g) && NoneHidden(g, root, m) && Reaches(g, root, a) && Reaches(g, a, b)
    ensures Reaches(Cut(g, m, root), a, b) && Reaches(g, root, b)
  {
    var c := Cut(g, m, root);
    StartInRange(g, a, b);
    CutWellFormed(g, m, root);
    ReachesSelf(c, a);
    var s := set x | 0 <= x < |g| && Reaches(c, a, x) && Reaches(g, root, x);
    forall x, y | x in s && Edge(g, x, y) ensures y in s {
      ReachesStep(g, root, x, y);
      CutEdge(g, m, root, x, y);
      ReachesStep(c, a, x, y);
    }
    ClosedContainsReachable(g, s, a, b);
  }

  /** The search finds the constructor order if and only if no DSO it should reach was
      marked at its start. */
  lemma CutQueue(g: Graph, m: seq<bool>, root: Dso, q: seq<Dso>)
    requires WellFormed(g) && root < |g| && QueueFor(Cut(g, m, root), root, q)
    ensures QueueFor(g, root, q) <==> NoneHidden(g, root, m)
  {
    if NoneHidden(g, root, m) { CutIsWhole(g, m, root, q); }
    if QueueFor(g, root, q) {
      forall d | Reaches(g, root, d) ensures !Passed(m, root, d) {
        assert d in q;
        CutUnmarked(g, m, root, d);
      }
    }
  }

  lemma CutIsWhole(g: Graph, m: seq<bool>, root: Dso, q: seq<Dso>)
    requires WellFormed(g) && root < |g| && QueueFor(Cut(g, m, root), root, q) && NoneHidden(g, root, m)
    ensures QueueFor(g, root, q)
  {
    var c := Cut(g, m, root);
    ReachesSelf(g, root);
    forall d ensures d in q <==> Reaches(g, root, d) {
      if Reaches(g, root, d) { SeesAll(g, m, root, root, d); }
      if d in q { CutReaches(g, m, root, root, d); }
    }
    forall i, d | 0 <= i < |q| && Edge(g, q[i], d) ensures DependencyFirst(g, q, i, d) {
      assert q[i] in q;
      ReachesStep(g, root, q[i], d);
      CutEdge(g, m, root, q[i], d);
      assert DependencyFirst(c, q, i, d);
      if Reaches(c, d, q[i]) { CutReaches(g, m, root, d, q[i]); }
    }
  }

  /** The queue has as many members as there are DSOs to reach. */
  lemma QueueSize(g: Graph, root: Dso, q: seq<Dso>)
    requires QueueFor(g, root, q)
    ensures |q| == |Reachable(g, root)|
  {
    forall d: Dso | Reaches(g, root, d) ensures d < |g| { StartInRange(g, root, d); }
    NoDupFits(q, Reachable(g, root));
    CoveredFits(q, Reachable(g, root));
  }
}
