/** The reasoning behind `extend_bfs_deps`: a list of dependencies that grows while it is
    being iterated over, until it covers itself. `dm` gives the direct dependencies. */
module ListGrowth {
  import opened Collections

  ghost predicate DepEdge<T>(dm: map<T, seq<T>>, a: T, b: T) { a in dm && b in dm[a] }

  ghost predicate Leads<T>(dm: map<T, seq<T>>, w: seq<T>, a: T, b: T) {
    |w| >= 2 && w[0] == a && w[|w| - 1] == b && forall k :: 0 <= k < |w| - 1 ==> DepEdge(dm, w[k], w[k + 1])
  }

  /** `b` is reached from `a` in one or more steps. */
  ghost predicate Depends<T(!new)>(dm: map<T, seq<T>>, a: T, b: T) { exists w :: Leads(dm, w, a, b) }

  /** `l` is what `p` depends on, except that some of `s` may be missing; the direct
      dependencies first and as they were listed, the others once. */
  ghost predicate Everything<T(!new)>(dm: map<T, seq<T>>, p: T, l: seq<T>, s: set<T>) {
    p in dm && dm[p] <= l && Appended(l, |dm[p]|) && (forall x :: x in l ==> Depends(dm, p, x)) &&
    forall x :: x !in s && Depends(dm, p, x) ==> x in l
  }

  /** The members of `s` depend only on each other. */
  ghost predicate Closed<T(!new)>(dm: map<T, seq<T>>, s: set<T>) { forall x, y :: x in s && DepEdge(dm, x, y) ==> y in s }

  /** The list of `p` while it is being extended by a pass that found `pre` marked: by now the
      members are marked too, the direct dependencies come first, nothing is appended twice,
      and what the first `i` members depend on directly is marked. */
  ghost predicate Grown<T(!new)>(dm: map<T, seq<T>>, p: T, pre: set<T>, marked: set<T>, l: seq<T>, i: nat) {
    p in dm && dm[p] <= l && Appended(l, |dm[p]|) && (forall x :: x in marked <==> x in l || x in pre) &&
    (forall x :: x in l ==> Depends(dm, p, x) && (x in dm[p] || x !in pre)) &&
    forall k: nat, y: T :: k < i ==> CoveredAt(dm, marked, l, k, y)
  }

  ghost predicate CoveredAt<T>(dm: map<T, seq<T>>, marked: set<T>, l: seq<T>, k: nat, y: T) {
    k < |l| && (DepEdge(dm, l[k], y) ==> y in marked)
  }

  /** Marks found at the start do no harm outside `s`: whatever was marked and is depended on
      is a direct dependency. */
  ghost predicate NoHarm<T(!new)>(dm: map<T, seq<T>>, p: T, pre: set<T>, s: set<T>)
    requires p in dm
  {
    forall x :: x in pre && x !in s && Depends(dm, p, x) ==> x in dm[p]
  }

  lemma BeginGrown<T(!new)>(dm: map<T, seq<T>>, p: T, pre: set<T>)
    requires p in dm && forall x :: x in dm[p] ==> x in pre
    ensures Grown(dm, p, pre, pre, dm[p], 0)
  {
    forall x | x in dm[p] ensures Depends(dm, p, x) { assert Leads(dm, [p, x], p, x); }
  }

  lemma DependsStep<T(!new)>(dm: map<T, seq<T>>, p: T, x: T, y: T)
    requires Depends(dm, p, x) && DepEdge(dm, x, y)
    ensures Depends(dm, p, y)
  {
    var w :| Leads(dm, w, p, x);
    assert Leads(dm, w + [y], p, y);
  }

  /** Appending an unmarked direct dependency of the member being visited. */
  lemma GrowOne<T(!new)>(dm: map<T, seq<T>>, p: T, pre: set<T>, marked: set<T>, l: seq<T>, i: nat, y: T, n: nat)
    requires Grown(dm, p, pre, marked, l, i) && i < |l| && DepEdge(dm, l[i], y) && y !in marked && Appended(l, n)
    ensures Grown(dm, p, pre, marked + {y}, l + [y], i) && Appended(l + [y], n)
  {
    hide Depends;
    assert l[i] in l;
    DependsStep(dm, p, l[i], y);
    AppendedOne(l, y, |dm[p]|);
    AppendedOne(l, y, n);
    hide Appended;
    var l', marked' := l + [y], marked + {y};
    assert forall x :: x in l' <==> x == y || x in l;
    forall k: nat, z: T | k < i ensures CoveredAt(dm, marked', l', k, z) { assert CoveredAt(dm, marked, l, k, z); }
  }

  lemma AppendedOne<T>(l: seq<T>, y: T, n: nat)
    requires Appended(l, n) && y !in l
    ensures Appended(l + [y], n)
  {
    forall k | n <= k < |l + [y]| ensures (l + [y])[k] !in (l + [y])[..k] { assert (l + [y])[..k] == l[..k]; }
  }

  lemma GrownNext<T(!new)>(dm: map<T, seq<T>>, p: T, pre: set<T>, marked: set<T>, l: seq<T>, i: nat)
    requires Grown(dm, p, pre, marked, l, i) && i < |l| && l[i] in dm
    requires forall k :: 0 <= k < |dm[l[i]]| ==> dm[l[i]][k] in marked
    ensures Grown(dm, p, pre, marked, l, i + 1)
  {
    forall k: nat, y: T | k < i + 1 ensures CoveredAt(dm, marked, l, k, y) {
      if k < i { assert CoveredAt(dm, marked, l, k, y); }
    }
  }

  lemma GrownStarts<T(!new)>(dm: map<T, seq<T>>, p: T, pre: set<T>, marked: set<T>, l: seq<T>, i: nat)
    requires Grown(dm, p, pre, marked, l, i)
    ensures p in dm && dm[p] <= l && Appended(l, |dm[p]|)
  {
  }

  /** A list whose members have all been visited has everything outside a closed set, if and
      only if the marks found at the start did no harm there. */
  lemma GrownAll<T(!new)>(dm: map<T, seq<T>>, p: T, pre: set<T>, marked: set<T>, l: seq<T>, s: set<T>)
    requires Grown(dm, p, pre, marked, l, |l|) && Closed(dm, s)
    ensures Everything(dm, p, l, s) <==> NoHarm(dm, p, pre, s)
  {
    if NoHarm(dm, p, pre, s) {
      forall x | x !in s && Depends(dm, p, x) ensures x in l {
        var w :| Leads(dm, w, p, x);
        WalkInside(dm, p, pre, marked, l, s, w, |w| - 1);
      }
    }
  }

  lemma {:induction false} WalkInside<T(!new)>(dm: map<T, seq<T>>, p: T, pre: set<T>, marked: set<T>, l: seq<T>, s: set<T>,
                                               w: seq<T>, k: nat)
    requires Grown(dm, p, pre, marked, l, |l|) && Closed(dm, s) && NoHarm(dm, p, pre, s)
    requires 1 <= k < |w| && w[0] == p && forall j :: 0 <= j < |w| - 1 ==> DepEdge(dm, w[j], w[j + 1])
    requires w[k] !in s
    ensures w[k] in l && Depends(dm, p, w[k])
  {
    assert Leads(dm, w[..k + 1], p, w[k]) by {
      assert forall j :: 0 <= j <= k ==> w[..k + 1][j] == w[j];
    }
    hide Depends, Appended;
    assert DepEdge(dm, w[k - 1], w[k - 1 + 1]);
    var y := w[k];
    if k > 1 {
      WalkInside(dm, p, pre, marked, l, s, w, k - 1);
      var i :| 0 <= i < |l| && l[i] == w[k - 1];
      assert CoveredAt(dm, marked, l, i, y);
    }
    if y in dm[p] { assert y in l[..|dm[p]|]; }
  }
}
