/** The linker's per-DSO dependency fields, and the two loops that walk them:
    `extend_bfs_deps` and `queue_ctors`. */
module Dependencies {
  import opened Collections
  import opened DepGraph
  import opened CtorQueue
  import opened BfsDeps
  import opened ListGrowth

  const NULL: int := -1
  const BUILTIN_CTOR_QUEUE_LEN := 4

  /** The direct dependencies are a prefix of each list. */
  ghost function DirectOf(deps: seq<seq<Dso>>, ndepsDirect: seq<nat>): (g: Graph)
    requires |ndepsDirect| == |deps|
    requires forall d :: 0 <= d < |deps| ==> ndepsDirect[d] <= |deps[d]|
    ensures |g| == |deps|
    ensures forall d :: 0 <= d < |deps| ==> g[d] == deps[d][..ndepsDirect[d]]
  {
    seq(|deps|, d requires 0 <= d < |deps| => deps[d][..ndepsDirect[d]])
  }

  lemma FirstStep(g: Graph, a: Dso, b: Dso)
    requires WellFormed(g) && Reaches(g, a, b) && a != b
    ensures ReachesPlus(g, a, b)
  {
    var w :| Walk(g, w, a, b);
    assert Edge(g, w[0], w[0 + 1]);
    var v := w[1..];
    forall k | 0 <= k < |v| - 1 ensures Edge(g, v[k], v[k + 1]) {
      assert Edge(g, w[k + 1], w[k + 1 + 1]);
    }
    assert Walk(g, v, w[1], b);
  }

  lemma ReachesInRange(g: Graph, a: Dso, b: Dso)
    requires Reaches(g, a, b)
    ensures a < |g| && b < |g|
  {
    var w :| Walk(g, w, a, b);
  }

  lemma EdgeInRange(g: Graph, a: Dso, j: nat)
    requires WellFormed(g) && a < |g| && j < |g[a]|
    ensures g[a][j] < |g|
  {
  }

  lemma ListBounds(g: Graph, root: Dso, l: seq<Dso>)
    requires WellFormed(g) && root < |g| && Closure(g, root, l)
    ensures |Reachable(g, root)| <= |l| + 1
    ensures forall k :: 0 <= k < |l| ==> l[k] < |g|
  {
    forall d | d in Reachable(g, root) ensures d in l + [root] {
      if d != root { FirstStep(g, root, d); }
    }
    CoveredFits(l + [root], Reachable(g, root));
    forall k | 0 <= k < |l| ensures l[k] < |g| {
      assert ReachesPlus(g, root, l[k]);
      var c :| Edge(g, root, c) && Reaches(g, c, l[k]);
      ReachesInRange(g, c, l[k]);
    }
  }

  lemma ChainBounds(g: Graph, root: Dso)
    ensures |Reachable(g, root)| <= |g|
  {
    BelowSize(|g|);
    SubsetFits(Reachable(g, root), Below(|g|));
  }

  /** What the marks are after those of a list have been set. */
  ghost function Pre(mark: seq<bool>, l: seq<Dso>): seq<bool> {
    seq(|mark|, d requires 0 <= d < |mark| => mark[d] || d in l)
  }

  /** The marks that clearing those of a built list, or else all, leaves. */
  ghost function Still(mark: seq<bool>, built: bool, l: seq<Dso>): seq<bool> {
    seq(|mark|, d requires 0 <= d < |mark| => built && mark[d] && d !in l)
  }

  /** `l` is what a pass that found `m0` marked makes of the direct dependencies of `p`. */
  ghost predicate Extended(g: Graph, p: Dso, m0: seq<bool>, l: seq<Dso>) {
    p < |g| && g[p] <= l && Appended(l, |g[p]|) &&
    forall d :: d in l ==> ReachesPlus(g, p, d) && d < |g| && (d in g[p] || (d < |m0| && !m0[d]))
  }

  ghost predicate ListSound(g: Graph, d: Dso, l: seq<Dso>, ndirect: nat, built: bool) {
    if built then Closure(g, d, l) else |l| == ndirect
  }

  lemma GrowingExtends(g: Graph, p: Dso, m0: seq<bool>, mark: seq<bool>, l: seq<Dso>, i: nat)
    requires WellFormed(g) && Growing(g, p, m0, mark, l, i)
    ensures Extended(g, p, m0, l) && forall d :: 0 <= d < |mark| ==> (mark[d] <==> m0[d] || d in l)
  {
    hide ReachesPlus, Depends;
    forall d | d in l ensures ReachesPlus(g, p, d) && (d in g[p] || !m0[d]) {
      PlusIsDepends(g, p, d);
      assert d in g[p] || d !in Marked(m0);
    }
    forall d: Dso | d < |mark| ensures mark[d] <==> m0[d] || d in l {
      assert d in Marked(mark) <==> d in l || d in Marked(m0);
    }
  }

  lemma SoundStart(g: Graph, p: Dso, mark: seq<bool>, l: seq<Dso>, n: nat)
    requires p < |g| == |mark| && n <= |l| && g[p] == l[..n] && forall d :: 0 <= d < |mark| ==> !mark[d]
    ensures |l| == n ==> Harmless(g, p, Pre(mark, l))
  {
    if |l| == n {
      assert l[..n] == l;
      HarmlessIfClear(g, p, mark, l);
    }
  }

  /** From clear marks and an untouched list there is nothing to be harmed by. */
  lemma HarmlessIfClear(g: Graph, p: Dso, mark: seq<bool>, l: seq<Dso>)
    requires p < |g| == |mark| && l == g[p] && forall d :: 0 <= d < |mark| ==> !mark[d]
    ensures Harmless(g, p, Pre(mark, l))
  {
  }

  class Linker {
    // Field f of the DSO at position d of the chain is f[d]. A list in deps
    // does not include its terminating null.
    var deps: seq<seq<Dso>>
    var ndepsDirect: seq<nat>
    var bfsBuilt: seq<bool>
    var mark: seq<bool>
    var nextDep: seq<nat>

    /** A linker whose chain holds DSOs with these direct dependencies. */
    constructor (direct: seq<seq<Dso>>)
      requires WellFormed(direct)
      ensures Shape() && Sound() && Direct() == direct && deps == direct
      ensures forall d :: 0 <= d < |deps| ==> !bfsBuilt[d]
    {
      deps, ndepsDirect := direct, seq(|direct|, d requires 0 <= d < |direct| => |direct[d]|);
      bfsBuilt, mark, nextDep := seq(|direct|, _ => false), seq(|direct|, _ => false), seq(|direct|, _ => 0);
      new;
      assert forall d :: 0 <= d < |direct| ==> Direct()[d] == direct[d];
      assert Direct() == direct;
    }

    ghost predicate Shape()
      reads this
    {
      |ndepsDirect| == |deps| && |bfsBuilt| == |deps| && |mark| == |deps| && |nextDep| == |deps| &&
      (forall d :: 0 <= d < |deps| ==> ndepsDirect[d] <= |deps[d]|) &&
      (forall d :: 0 <= d < |deps| && ndepsDirect[d] == 0 ==> deps[d] == [])
    }

    ghost function Direct(): Graph
      reads this
      requires Shape()
    {
      DirectOf(deps, ndepsDirect)
    }

    /** Every list names DSOs of the chain. Nothing is said of the marks, or of a list that
        an earlier failure left behind. */
    ghost predicate Valid()
      reads this
    {
      Shape() && WellFormed(Direct()) && WellFormed(deps)
    }

    /** As long as no reallocation has failed: marks are clear, and a list is the direct
        dependencies or, once built, everything depended on. */
    ghost predicate Sound()
      reads this
    {
      Valid() && (forall d :: 0 <= d < |deps| ==> !mark[d]) &&
      forall d :: 0 <= d < |deps| ==> ListSound(Direct(), d, deps[d], ndepsDirect[d], bfsBuilt[d])
    }

    /** Replace the direct dependency list of `p` by the list of everything it depends
        on. The list is reallocated for each member visited, with room for that member's
        unmarked dependencies and the terminator; the first `room` reallocations succeed.
        A failure leaves the list as far as it has grown, and the marks. The marks found at
        the start, and a list left by an earlier failure, decide whether the result is
        complete. */
    method ExtendBfsDeps(p: Dso, room: nat) returns (ok: bool)
      requires Valid() && p < |deps|
      modifies this`deps, this`bfsBuilt, this`mark
      ensures Valid() && Direct() == old(Direct()) && deps == old(deps)[p := deps[p]]
      ensures old(bfsBuilt)[p] ==> ok && deps == old(deps) && bfsBuilt == old(bfsBuilt) && mark == old(mark)
      ensures !old(bfsBuilt)[p] ==> (ok <==> |deps[p]| <= room)
      ensures !old(bfsBuilt)[p] && ok ==>
        bfsBuilt == old(bfsBuilt)[p := true] && (forall d :: 0 <= d < |deps| ==> !mark[d]) &&
        (Closure(Direct(), p, deps[p]) <==> Harmless(Direct(), p, Pre(old(mark), old(deps)[p])))
      ensures !old(bfsBuilt)[p] && (ok || room > 0) ==> Extended(Direct(), p, Pre(old(mark), old(deps)[p]), deps[p])
      ensures !ok ==>
        bfsBuilt == old(bfsBuilt) &&
        forall d :: 0 <= d < |deps| ==> (mark[d] <==> Pre(old(mark), old(deps)[p])[d] || d in deps[p])
      ensures old(Sound()) && ok ==> Sound()
    {
      hide Closure, Growing, WellFormed, UnmarkedSet, Appended, Harmless, Extended;
      ok := true;
      if bfsBuilt[p] { return; }
      ghost var g, m0 := Direct(), Pre(mark, deps[p]);
      if forall d :: 0 <= d < |deps| ==> !mark[d] { SoundStart(g, p, mark, deps[p], ndepsDirect[p]); }
      var l, n;
      ok, l, n := GrowList(p, room);
      if !ok && n == 0 { return; }
      StoreList(g, p, m0, l);
      if !ok { return; }
      bfsBuilt := bfsBuilt[p := true];
      var _ := ClearAll();
    }

    /** The loop: `n` members have been visited when it ends, or a reallocation fails. */
    method GrowList(p: Dso, room: nat) returns (ok: bool, l: seq<Dso>, n: nat)
      requires Valid() && p < |deps|
      modifies this`mark
      ensures |mark| == |deps| && (ok <==> |l| <= room) && (ok ==> n == |l|) && (!ok ==> n == room)
      ensures Extended(Direct(), p, Pre(old(mark), deps[p]), l) && (n == 0 ==> l == Direct()[p])
      ensures forall d :: 0 <= d < |deps| ==> (mark[d] <==> Pre(old(mark), deps[p])[d] || d in l)
      ensures ok ==> (Closure(Direct(), p, l) <==> Harmless(Direct(), p, Pre(old(mark), deps[p])))
    {
      hide Closure, Growing, WellFormed, UnmarkedSet, Appended, Harmless, Extended;
      ghost var g, m0 := Direct(), Pre(mark, deps[p]);
      var ndepsAll := ndepsDirect[p];
      var list := new int[|deps[p]| + 1];
      MarkListed(p, list);
      ghost var ll := g[p];
      n := 0;
      while list[n] != NULL && n < room
        modifies this`mark
        invariant n <= |ll| == ndepsAll && |mark| == |deps| && fresh(list) && Begun(list[..], ll)
        invariant Growing(g, p, m0, mark, ll, n) && n <= room
        invariant if n == 0 then ll == g[p] && Terminated(list[..], deps[p]) else Terminated(list[..], ll)
        decreases |UnmarkedSet(mark)| + |ll| - n
      {
        list, ndepsAll, ll := VisitMember(g, p, m0, list, ndepsAll, ll, n);
        n := n + 1;
      }
      ok := list[n] == NULL;
      GrowingExtends(g, p, m0, mark, ll, n);
      if ok { GrownIsClosure(g, p, m0, mark, ll, n); }
      l := list[..ndepsAll];
      assert l == ll;
    }

    /** More DSOs at the end of the chain, with their direct dependencies. */
    method Load(more: seq<seq<Dso>>)
      requires Valid() && forall d, j :: 0 <= d < |more| && 0 <= j < |more[d]| ==> more[d][j] < |deps| + |more|
      modifies this
      ensures Valid() && Direct() == old(Direct()) + more && deps == old(deps) + more
      ensures mark == old(mark) + seq(|more|, _ => false) && bfsBuilt == old(bfsBuilt) + seq(|more|, _ => false)
      ensures old(Sound()) ==> Sound()
    {
      hide Closure;
      ghost var g, n := Direct(), |deps|;
      MoreListed(deps, more);
      MoreListed(g, more);
      hide WellFormed;
      deps, ndepsDirect := deps + more, ndepsDirect + seq(|more|, d requires 0 <= d < |more| => |more[d]|);
      mark, bfsBuilt := mark + seq(|more|, _ => false), bfsBuilt + seq(|more|, _ => false);
      nextDep := nextDep + seq(|more|, _ => 0);
      assert Direct() == g + more by {
        forall d | 0 <= d < |deps| ensures Direct()[d] == (g + more)[d] {
          if d < n { assert deps[d] == old(deps)[d]; } else { assert deps[d] == more[d - n]; }
        }
      }
      if old(Sound()) {
        forall d | 0 <= d < |deps| ensures ListSound(g + more, d, deps[d], ndepsDirect[d], bfsBuilt[d]) {
          if d < n {
            assert old(ListSound(Direct(), d, deps[d], ndepsDirect[d], bfsBuilt[d]));
            if bfsBuilt[d] { ClosureStays(g, more, d, deps[d]); }
          }
        }
      }
    }

    /** Store the list of `p`, which starts with its direct dependencies. */
    method StoreList(ghost g: Graph, p: Dso, ghost m0: seq<bool>, l: seq<Dso>)
      requires Valid() && p < |deps| && g == Direct() && Extended(g, p, m0, l)
      modifies this`deps
      ensures Valid() && Direct() == g && deps == old(deps)[p := l]
    {
      assert l[..|g[p]|] == g[p];
      if l != [] { HasStart(g, p, m0, l); }
      StoredOk(deps, g, p, m0, l);
      hide WellFormed, Extended;
      deps := deps[p := l];
      assert Direct() == g by {
        assert forall d :: 0 <= d < |g| ==> Direct()[d] == g[d];
      }
    }

    /** Mark what is on the list of `p`, so that it is not appended again. */
    method MarkListed(p: Dso, list: array<int>)
      requires Valid() && p < |deps| && list.Length == |deps[p]| + 1
      modifies this`mark, list
      ensures mark == Pre(old(mark), deps[p]) && Terminated(list[..], deps[p])
      ensures Growing(Direct(), p, mark, mark, Direct()[p], 0)
    {
      var i := 0;
      while i < |deps[p]|
        invariant 0 <= i <= |deps[p]| && |mark| == |deps|
        invariant forall k :: 0 <= k < i ==> list[k] == deps[p][k]
        invariant forall d :: 0 <= d < |deps| ==> (mark[d] <==> old(mark)[d] || d in deps[p][..i])
      {
        EdgeInRange(deps, p, i);
        list[i] := deps[p][i];
        mark := mark[deps[p][i] := true];
        i := i + 1;
      }
      list[i] := NULL;
      assert deps[p] == deps[p][..i];
      assert mark == Pre(old(mark), deps[p]);
      forall d | d in Direct()[p] ensures d in deps[p] { }
      BeginGrowing(Direct(), p, mark);
    }

    method CountNew(dep: Dso) returns (cnt: nat)
      requires Shape() && WellFormed(Direct()) && dep < |deps|
      ensures cnt == CountUnmarked(mark, Direct()[dep])
    {
      ghost var ds := Direct()[dep];
      var j := 0;
      cnt := 0;
      while j < ndepsDirect[dep]
        invariant 0 <= j <= ndepsDirect[dep] && cnt == CountUnmarked(mark, ds[..j])
      {
        EdgeInRange(Direct(), dep, j);
        CountOne(mark, ds, j);
        if !mark[deps[dep][j]] { cnt := cnt + 1; }
        j := j + 1;
      }
      assert ds[..j] == ds;
    }

    /** Append the unmarked direct dependencies of the member at position `i`. */
    method VisitMember(ghost g: Graph, ghost p: Dso, ghost m0: seq<bool>, list: array<int>, n: nat, ghost l: seq<Dso>,
                       i: nat)
      returns (tmp: array<int>, ndepsAll: nat, ghost l': seq<Dso>)
      requires Shape() && p < |deps| && g == Direct() && WellFormed(g)
      requires Growing(g, p, m0, mark, l, i) && i < |l| == n && Begun(list[..], l)
      modifies this`mark
      ensures fresh(tmp) && |mark| == |deps| && ndepsAll == |l'| >= |l|
      ensures Growing(g, p, m0, mark, l', i + 1) && Terminated(tmp[..], l')
      ensures |UnmarkedSet(mark)| + |l'| <= old(|UnmarkedSet(mark)|) + |l|
    {
      hide Growing, WellFormed, UnmarkedSet, CountUnmarked;
      var dep: Dso := list[i];
      MemberInRange(g, p, m0, mark, l, i, i);
      var cnt := CountNew(dep);
      // realloc keeps what fits of the old contents
      tmp := new int[n + cnt + 1](k requires 0 <= k reads list => if k < list.Length then list[k] else 0);
      ndepsAll, l' := AppendNew(g, p, m0, dep, tmp, n, l, i);
      tmp[ndepsAll] := NULL;
      NextMember(g, p, m0, mark, l', i);
    }

    method AppendNew(ghost g: Graph, ghost p: Dso, ghost m0: seq<bool>, dep: Dso, tmp: array<int>, n: nat,
                     ghost l: seq<Dso>, ghost i: nat)
      returns (ndepsAll: nat, ghost l': seq<Dso>)
      requires Shape() && g == Direct() && WellFormed(g)
      requires Growing(g, p, m0, mark, l, i) && i < |l| == n && l[i] == dep < |deps|
      requires n + CountUnmarked(mark, g[dep]) < tmp.Length && forall k :: 0 <= k < n ==> tmp[k] == l[k]
      modifies this`mark, tmp
      ensures |mark| == |deps| && l <= l' && ndepsAll == |l'| < tmp.Length
      ensures forall k :: 0 <= k < |l'| ==> tmp[k] == l'[k]
      ensures Growing(g, p, m0, mark, l', i) && forall j :: 0 <= j < |g[dep]| ==> g[dep][j] < |mark| && mark[g[dep][j]]
      ensures |UnmarkedSet(mark)| + |l'| <= old(|UnmarkedSet(mark)|) + |l|
    {
      hide Growing, WellFormed, UnmarkedSet, CountUnmarked;
      ghost var ds, m1 := g[dep], mark;
      ndepsAll, l' := n, l;
      var j := 0;
      CountGrows(m1, ds, 0);
      while j < ndepsDirect[dep]
        invariant 0 <= j <= ndepsDirect[dep] && |mark| == |deps|
        invariant l <= l' && |l'| == ndepsAll <= n + CountUnmarked(m1, ds[..j])
        invariant CountUnmarked(m1, ds[..j]) <= CountUnmarked(m1, ds)
        invariant forall k :: 0 <= k < |l'| ==> tmp[k] == l'[k]
        invariant Growing(g, p, m0, mark, l', i)
        invariant forall k :: 0 <= k < j ==> ds[k] < |mark| && mark[ds[k]]
        invariant forall d :: 0 <= d < |deps| && m1[d] ==> mark[d]
        invariant |UnmarkedSet(mark)| + |l'| <= |UnmarkedSet(m1)| + |l|
      {
        EdgeInRange(g, dep, j);
        CountOne(m1, ds, j);
        CountGrows(m1, ds, j + 1);
        var d := deps[dep][j];
        if !mark[d] {
          Append(g, p, m0, mark, l', i, d);
          UnmarkedSetShrinks(mark, d);
          mark := mark[d := true];
          tmp[ndepsAll] := d;
          ndepsAll := ndepsAll + 1;
          l' := l' + [d];
        }
        j := j + 1;
      }
    }

    /** Clear every mark on the chain, and count its members. */
    method ClearAll() returns (cnt: nat)
      requires |mark| == |deps|
      modifies this`mark
      ensures |mark| == |deps| == cnt && forall d :: 0 <= d < |deps| ==> !mark[d]
    {
      cnt := 0;
      while cnt < |deps|
        invariant cnt <= |deps| && |mark| == |deps|
        invariant forall d :: 0 <= d < cnt ==> !mark[d]
      {
        mark := mark[cnt := false];
        cnt := cnt + 1;
      }
    }

    /** The size of the buffer that `queue_ctors` allocates, the terminator included. */
    ghost function Room(root: Dso): nat
      reads this
      requires Shape() && root < |deps|
    {
      if bfsBuilt[root] then |deps[root]| + 2 else |deps| + 1
    }

    /** The marks that are still set when the search begins: those of a list are cleared if
        it has been built, and otherwise all. */
    ghost function Remaining(root: Dso): seq<bool>
      reads this
      requires Shape() && root < |deps|
    {
      Still(mark, bfsBuilt[root], deps[root])
    }

    /** The graph that the search sees. */
    ghost function Seen(root: Dso): Graph
      reads this
      requires Shape() && root < |deps|
    {
      Cut(Direct(), Remaining(root), root)
    }

    /** Size the buffer and clear marks. */
    method ClearMarks(root: Dso) returns (cnt: nat)
      requires Valid() && root < |deps|
      modifies this`mark
      ensures Valid() && cnt == Room(root) && mark == old(Remaining(root))
    {
      cnt := 0;
      if bfsBuilt[root] {
        while cnt < |deps[root]|
          invariant cnt <= |deps[root]| && |mark| == |deps|
          invariant forall d :: 0 <= d < |deps| ==> mark[d] == (old(mark)[d] && d !in deps[root][..cnt])
        {
          EdgeInRange(deps, root, cnt);
          mark := mark[deps[root][cnt] := false];
          cnt := cnt + 1;
        }
        assert deps[root][..cnt] == deps[root];
        cnt := cnt + 1;  // the root itself
      } else {
        cnt := ClearAll();
      }
      cnt := cnt + 1;  // the terminator
      assert mark == old(Remaining(root));
    }

    /** Sort the DSOs reachable from `root` into constructor order. The queue and the stack
        share `queue`, from opposite ends; the queue is null-terminated. `ok` is false if a
        write would leave the buffer or the part that belongs to it, where the source goes
        on: that happens exactly if the DSOs to sort, and the terminator, do not fit. */
    method QueueCtors(root: Dso) returns (ok: bool, queue: array<int>, qpos: nat, ghost q: seq<Dso>)
      requires Valid() && root < |deps|
      modifies this`mark, this`nextDep
      ensures Valid() && fresh(queue) && deps == old(deps) && ndepsDirect == old(ndepsDirect) && bfsBuilt == old(bfsBuilt)
      ensures queue.Length ==
              if root == 0 && Room(root) <= BUILTIN_CTOR_QUEUE_LEN then BUILTIN_CTOR_QUEUE_LEN else Room(root)
      ensures ok <==> |Reachable(old(Seen(root)), root)| <= Room(root) && |Reachable(old(Seen(root)), root)| < queue.Length
      ensures ok ==> qpos == |q| < queue.Length && queue[qpos] == NULL && forall i :: 0 <= i < qpos ==> queue[i] == q[i]
      ensures ok ==> QueueFor(old(Seen(root)), root, q)
      ensures ok ==> (QueueFor(Direct(), root, q) <==> NoneHidden(Direct(), root, old(Remaining(root))))
      ensures ok ==> forall d :: 0 <= d < |deps| ==> (mark[d] ==> old(mark)[d]) && (d in q ==> !mark[d])
      ensures old(Sound()) ==> ok && QueueFor(Direct(), root, q) && Sound()
    {
      hide QueueFor, WellFormed, Reaches, Reachable, DirectOf, Cut, NoneHidden, Closure;
      ghost var c := Seen(root);
      if Sound() { SoundSort(root); }
      var cnt := ClearMarks(root);
      ghost var m0 := mark;
      queue := new int[if root == 0 && cnt <= BUILTIN_CTOR_QUEUE_LEN then BUILTIN_CTOR_QUEUE_LEN else cnt];
      ok, qpos, q := Sort(root, c, queue, cnt);
      if !ok { return; }
      CutQueue(Direct(), m0, root, q);
      QueueSize(c, root, q);
      if qpos >= queue.Length {
        ok := false;
        return;
      }
      queue[qpos] := NULL;
      Unmark(queue, qpos, q);
    }

    /** One call of `dlopen`, as far as lists and queues go. */
    method OpenOne(o: Open) returns (ok: bool, fit: bool, queue: seq<int>)
      requires Shape() && Sound() && Loadable(|Direct()|, o)
      modifies this
      ensures Shape() && Direct() == old(Direct()) + o.more && fit
      ensures ok ==> Sound() && Sorted(Direct(), o.p, queue)
      ensures !ok ==> Short(Direct(), o)
    {
      hide QueueFor, Closure, WellFormed, NoneHidden, Harmless, Extended, Reachable, DirectOf, Cut;
      queue, fit := [], true;
      Load(o.more);
      ghost var m0 := Pre(mark, deps[o.p]);
      ok := ExtendBfsDeps(o.p, o.room);
      if !ok {
        if o.room > 0 { ExtendedFits(Direct(), o.p, m0, deps[o.p]); }
        return;
      }
      var buf, qpos;
      ghost var q;
      fit, buf, qpos, q := QueueCtors(o.p);
      queue := buf[..];
      assert Terminated(queue, q);
    }

    /** In a sound state the buffer is large enough, and nothing is hidden. */
    lemma SoundSort(root: Dso)
      requires Sound() && root < |deps|
      ensures NoneHidden(Direct(), root, Remaining(root)) && |Reachable(Seen(root), root)| < Room(root)
    {
      hide Closure, Reaches;
      var g, m := Direct(), Remaining(root);
      assert ListSound(g, root, deps[root], ndepsDirect[root], bfsBuilt[root]);
      if bfsBuilt[root] { ListBounds(g, root, deps[root]); } else { ChainBounds(g, root); }
      forall d | d in Reachable(Seen(root), root) ensures d in Reachable(g, root) { CutReaches(g, m, root, root, d); }
      SubsetFits(Reachable(Seen(root), root), Reachable(g, root));
    }

    /** The search: every write stays in its part of the buffer unless there are more DSOs
        than it holds. */
    method Sort(root: Dso, ghost c: Graph, queue: array<int>, cnt: nat) returns (ok: bool, qpos: nat, ghost q: seq<Dso>)
      requires Valid() && root < |deps| && 0 < cnt <= queue.Length && c == Cut(Direct(), mark, root)
      modifies this`mark, this`nextDep, queue
      ensures Valid() && |mark| == |old(mark)|
      ensures ok <==> |Reachable(c, root)| <= cnt
      ensures ok ==> qpos == |q| <= cnt && QueueFor(c, root, q) && forall i :: 0 <= i < qpos ==> queue[i] == q[i]
      ensures ok ==> forall i :: 0 <= i < |q| ==> q[i] < |deps|
      ensures ok ==> forall d :: 0 <= d < |deps| && mark[d] ==> old(mark)[d] || d in q
    {
      hide Search, QueueFor, WellFormed, Reaches, Reachable, Unmarked, Holds, MarkedByUs, DirectOf, Cut;
      ghost var m0 := mark;
      ok, qpos, q := true, 0, [];
      var spos: nat := cnt - 1;
      queue[spos] := root;
      nextDep := nextDep[root := 0];
      mark := mark[root := true];
      ghost var path := [root];
      BeginCut(Direct(), m0, root, mark, nextDep);
      HoldsFirst(queue[..], cnt, root);
      MarkRoot(m0, root);
      while spos < cnt
        invariant Valid()
        invariant Search(c, root, mark, nextDep, q, path) && Holds(queue[..], qpos, spos, cnt, q, path)
        invariant MarkedByUs(m0, mark, q, path) && mark[root]
        decreases |Unmarked(c, root, mark)|, cnt - spos
      {
        var p;
        ok, p, spos, path := Scan(root, c, queue, qpos, spos, cnt, m0, q, path);
        if !ok { return; }
        ok := EmitTop(root, c, queue, qpos, spos, cnt, m0, q, path, p);
        if !ok { return; }
        qpos := qpos + 1;
        q, path := q + [p], path[1..];
      }
      SearchEnds(Direct(), m0, c, root, mark, nextDep, queue[..], qpos, spos, cnt, q, path);
    }

    /** Move the DSO in hand to the queue, if there is room before the stack. */
    method EmitTop(ghost root: Dso, ghost c: Graph, queue: array<int>, qpos: nat, spos: nat, ghost cnt: nat,
                   ghost m0: seq<bool>, ghost q: seq<Dso>, ghost path: seq<Dso>, p: Dso)
      returns (ok: bool)
      requires Valid() && path != [] && path[0] == p < |deps| && c == Cut(Direct(), m0, root)
      requires Search(c, root, mark, nextDep, q, path) && nextDep[p] == ndepsDirect[p]
      requires Holds(queue[..], qpos, spos, cnt, q, path[1..]) && MarkedByUs(m0, mark, q, path)
      modifies queue
      ensures ok ==> Search(c, root, mark, nextDep, q + [p], path[1..])
      ensures ok ==> Holds(queue[..], qpos + 1, spos, cnt, q + [p], path[1..]) && MarkedByUs(m0, mark, q + [p], path[1..])
      ensures !ok ==> |Reachable(c, root)| > cnt
    {
      hide Search, WellFormed, Reaches, Reachable, Holds, MarkedByUs, DirectOf, Cut;
      SearchFits(c, root, mark, nextDep, q, path);
      HoldsRoom(queue[..], qpos, spos, cnt, q, path);
      ok := qpos < spos;
      if !ok { return; }
      CutWellFormed(Direct(), m0, root);
      assert |c[p]| == |Direct()[p]|;
      Emit(c, root, mark, nextDep, q, path);
      HoldsEmit(queue[..], qpos, spos, cnt, q, path);
      MarkMove(m0, mark, q, path);
      ghost var b := queue[..];
      queue[qpos] := p;
      assert queue[..] == b[qpos := p];
    }

    /** Pop a DSO and go down from it until one is found whose dependencies are all
        marked; the DSOs on the way are pushed, as long as there is room. */
    method Scan(ghost root: Dso, ghost c: Graph, queue: array<int>, qpos: nat, spos0: nat, cnt: nat,
                ghost m0: seq<bool>, ghost q: seq<Dso>, ghost path0: seq<Dso>)
      returns (ok: bool, p: Dso, spos: nat, ghost path: seq<Dso>)
      requires Valid() && root < |deps| && spos0 < cnt && c == Cut(Direct(), m0, root)
      requires Search(c, root, mark, nextDep, q, path0) && mark[root]
      requires Holds(queue[..], qpos, spos0, cnt, q, path0) && MarkedByUs(m0, mark, q, path0)
      modifies this`mark, this`nextDep, queue
      ensures Valid() && |mark| == |old(mark)| && mark[root] && (!ok ==> |Reachable(c, root)| > cnt)
      ensures ok ==> path != [] && path[0] == p < |deps|
      ensures ok ==> Search(c, root, mark, nextDep, q, path) && nextDep[p] == ndepsDirect[p]
      ensures ok ==> Holds(queue[..], qpos, spos, cnt, q, path[1..]) && MarkedByUs(m0, mark, q, path)
      ensures ok ==> |Unmarked(c, root, mark)| <= |old(Unmarked(c, root, mark))|
      ensures ok && |Unmarked(c, root, mark)| == |old(Unmarked(c, root, mark))| ==> spos == spos0 + 1
    {
      hide Search, WellFormed, Reaches, Reachable, Unmarked, Holds, MarkedByUs, DirectOf, Cut;
      CutWellFormed(Direct(), m0, root);
      ok, path := true, path0;
      SearchFits(c, root, mark, nextDep, q, path);
      HoldsTop(queue[..], qpos, spos0, cnt, q, path);
      p := queue[spos0];
      spos := spos0 + 1;
      ghost var u := |Unmarked(c, root, mark)|;
      assert |c[p]| == |Direct()[p]|;
      while nextDep[p] < ndepsDirect[p]
        invariant |mark| == |deps| == |nextDep| && p < |deps| && nextDep[p] <= ndepsDirect[p] && mark[root]
        invariant path != [] && path[0] == p && Search(c, root, mark, nextDep, q, path)
        invariant Holds(queue[..], qpos, spos, cnt, q, path[1..]) && MarkedByUs(m0, mark, q, path)
        invariant |Unmarked(c, root, mark)| <= u
        invariant |Unmarked(c, root, mark)| == u ==> spos == spos0 + 1
        decreases |Unmarked(c, root, mark)|, ndepsDirect[p] - nextDep[p]
      {
        SearchFits(c, root, mark, nextDep, q, path);
        var d := deps[p][nextDep[p]];
        assert d == Direct()[p][nextDep[p]];
        EdgeInRange(Direct(), p, nextDep[p]);
        CutStep(Direct(), m0, root, mark, nextDep, q, path, nextDep[p]);
        if mark[d] {
          Advance(c, root, mark, nextDep, q, path);
          nextDep := nextDep[p := nextDep[p] + 1];
        } else {
          HoldsRoom(queue[..], qpos, spos, cnt, q, path);
          if spos == qpos {
            ok := false;
            return;
          }
          Descend(c, root, mark, nextDep, q, path);
          UnmarkedShrinks(c, root, mark, d);
          HoldsPush(queue[..], qpos, spos, cnt, q, path);
          MarkOne(m0, mark, q, path, d);
          ghost var b := queue[..];
          spos := spos - 1;
          queue[spos] := p;
          assert queue[..] == b[spos := p];
          p := d;
          nextDep := nextDep[p := 0];
          mark := mark[p := true];
          assert ([p] + path)[1..] == path;
          path := [p] + path;
        }
      }
    }

    method Unmark(queue: array<int>, n: nat, ghost q: seq<Dso>)
      requires Valid() && n == |q| < queue.Length
      requires forall i :: 0 <= i < n ==> queue[i] == q[i] && q[i] < |deps|
      modifies this`mark
      ensures Valid()
      ensures forall d :: 0 <= d < |deps| ==> mark[d] == (old(mark)[d] && d !in q)
    {
      var i := 0;
      while i < n
        modifies this`mark
        invariant 0 <= i <= n && |mark| == |deps|
        invariant forall d :: 0 <= d < |deps| ==> mark[d] == (old(mark)[d] && d !in q[..i])
      {
        mark := mark[queue[i] := false];
        i := i + 1;
      }
      assert q[..n] == q;
    }
  }

  // ----- while no reallocation fails

  /** Libraries are loaded at the end of the chain, one of those there is opened, and the
      reallocations for up to `room` members succeed. */
  datatype Open = Open(more: seq<seq<Dso>>, p: Dso, room: nat)

  /** What a call refers to is there, if `n` DSOs were before it. */
  ghost predicate Loadable(n: nat, o: Open) {
    o.p < n + |o.more| && forall d, j :: 0 <= d < |o.more| && 0 <= j < |o.more[d]| ==> o.more[d][j] < n + |o.more|
  }

  /** The chain before call `k`. */
  ghost function ChainAt(g: Graph, opens: seq<Open>, k: nat): Graph
    requires k <= |opens|
  {
    if k == 0 then g else ChainAt(g, opens, k - 1) + opens[k - 1].more
  }

  /** Call `k` put its queue in order. */
  ghost predicate InOrder(g: Graph, opens: seq<Open>, k: nat, queue: seq<int>) {
    k < |opens| && Sorted(ChainAt(g, opens, k + 1), opens[k].p, queue)
  }

  /** Call `k` may run out of memory. */
  ghost predicate MayFail(g: Graph, opens: seq<Open>, k: nat) { k < |opens| && Short(ChainAt(g, opens, k + 1), opens[k]) }

  /** Any number of calls, up to one whose reallocation fails: in each the constructor queue
      fits its buffer and is the order of everything reachable. */
  method OpenSeveral(direct: seq<seq<Dso>>, opens: seq<Open>) returns (n: nat, fit: bool, queues: seq<seq<int>>)
    requires WellFormed(direct) && forall k: nat :: k < |opens| ==> Loadable(|ChainAt(direct, opens, k)|, opens[k])
    ensures fit && n == |queues| <= |opens| && (n < |opens| ==> MayFail(direct, opens, n))
    ensures forall k: nat :: k < n ==> InOrder(direct, opens, k, queues[k])
  {
    hide WellFormed, Sorted, Linker.Sound, Linker.Shape, DirectOf, Loadable, ChainAt, InOrder;
    var l := new Linker(direct);
    ChainFirst(direct, opens);
    n, fit, queues := 0, true, [];
    var ok := true;
    while ok && fit && n < |opens|
      invariant n == |queues| <= |opens| && fit && fresh(l) && (!ok ==> MayFail(direct, opens, n))
      invariant ok ==> l.Shape() && l.Direct() == ChainAt(direct, opens, n) && l.Sound()
      invariant forall k: nat :: k < n ==> InOrder(direct, opens, k, queues[k])
    {
      assert Loadable(|ChainAt(direct, opens, n)|, opens[n]);
      ghost var g := l.Direct();
      var queue;
      ok, fit, queue := l.OpenOne(opens[n]);
      ChainNext(direct, opens, n, g, l.Direct());
      if ok {
        NowInOrder(direct, opens, n, queue);
        queues, n := queues + [queue], n + 1;
      }
    }
  }

  lemma ChainFirst(g: Graph, opens: seq<Open>)
    ensures ChainAt(g, opens, 0) == g
  {
  }

  lemma ChainNext(g: Graph, opens: seq<Open>, k: nat, a: Graph, b: Graph)
    requires k < |opens| && a == ChainAt(g, opens, k) && b == a + opens[k].more
    ensures b == ChainAt(g, opens, k + 1)
  {
  }

  lemma NowInOrder(g: Graph, opens: seq<Open>, k: nat, queue: seq<int>)
    requires k < |opens| && Sorted(ChainAt(g, opens, k + 1), opens[k].p, queue)
    ensures InOrder(g, opens, k, queue)
  {
  }

  ghost predicate Short(g: Graph, o: Open) { o.p < |g| && o.room < Longest(g, o.p) }

  /** A dependency list is never longer. */
  ghost function Longest(g: Graph, p: Dso): nat
    requires p < |g|
  {
    |g[p]| + |g|
  }

  lemma ExtendedFits(g: Graph, p: Dso, m0: seq<bool>, l: seq<Dso>)
    requires Extended(g, p, m0, l)
    ensures |l| <= Longest(g, p)
  {
    var n := |g[p]|;
    var tail := l[n..];
    forall i, j | 0 <= i < j < |tail| ensures tail[i] != tail[j] {
      assert l[n + j] !in l[..n + j] && l[..n + j][n + i] == l[n + i];
    }
    BelowSize(|g|);
    forall x | x in tail ensures x in Below(|g|) { assert x in l; }
    NoDupFits(tail, Below(|g|));
  }

  /** `queue` starts with the constructor order for `p`, null-terminated. */
  ghost predicate Sorted(g: Graph, p: Dso, queue: seq<int>) {
    exists q: seq<Dso> :: QueueFor(g, p, q) && Terminated(queue, q)
  }

  // ----- after a failed reallocation

  /** A library 1 that needs 2 is opened without memory for its list, and then a library 3
      that needs 4, which needs 2. The mark left on 2 keeps it off the list of 3, so the
      buffer for the constructors of 3 has no room for the terminator. */
  method AfterFailedOpen() returns (fits: bool)
    ensures !fits
  {
    hide ReachesPlus, Reaches, Reachable, Cut, Harmless, Closure, QueueFor, NoneHidden;
    var l := new Linker([[], [2], []]);
    ghost var m0 := l.mark;
    var ok := l.ExtendBfsDeps(1, 0);
    assert l.Direct()[1] == [2];
    assert !ok && l.mark[2];
    l.Load([[4], [2]]);
    ghost var g := l.Direct();
    assert g == [[], [2], [], [4], [2]] && l.mark[2];
    ok := l.ExtendBfsDeps(3, 100);
    ShortList(g, l.deps[3]);
    var queue, n;
    ghost var q;
    assert l.Remaining(3) == seq(5, _ => false);
    FarReachable(g, seq(5, _ => false));
    fits, queue, n, q := l.QueueCtors(3);
  }

  /** With 2 marked, the list of 3 is just its direct dependency. */
  lemma ShortList(g: Graph, l: seq<Dso>)
    requires g == [[], [2], [], [4], [2]] && g[3] <= l && Appended(l, 1)
    requires forall d :: d in l ==> ReachesPlus(g, 3, d) && (d in g[3] || d != 2)
    ensures l == [4]
  {
    if |l| > 1 {
      var d := l[1];
      assert d in l && d !in l[..1] && l[..1] == [4];
      OnlyTwo(g, d);
      assert false;
    }
  }

  lemma MoreListed(g: Graph, more: seq<seq<Dso>>)
    requires WellFormed(g) && forall d, j :: 0 <= d < |more| && 0 <= j < |more[d]| ==> more[d][j] < |g| + |more|
    ensures WellFormed(g + more)
  {
  }

  /** DSOs loaded later are not reached from the earlier ones. */
  lemma SameReach(g: Graph, more: seq<seq<Dso>>, a: Dso, b: Dso)
    requires WellFormed(g) && a < |g|
    ensures Reaches(g + more, a, b) <==> Reaches(g, a, b)
  {
    var h := g + more;
    assert forall d: Dso, e: Dso :: d < |g| ==> (Edge(h, d, e) <==> Edge(g, d, e));
    if Reaches(g, a, b) {
      var w :| Walk(g, w, a, b);
      assert Walk(h, w, a, b);
    }
    if Reaches(h, a, b) {
      var s := Reachable(g, a);
      ReachesSelf(g, a);
      forall c, d | c in s && Edge(h, c, d) ensures d in s { ReachesStep(g, a, c, d); }
      ClosedContainsReachable(h, s, a, b);
    }
  }

  lemma ClosureStays(g: Graph, more: seq<seq<Dso>>, d: Dso, l: seq<Dso>)
    requires WellFormed(g) && d < |g| && Closure(g, d, l)
    ensures Closure(g + more, d, l)
  {
    hide Reaches;
    forall x ensures ReachesPlus(g + more, d, x) <==> ReachesPlus(g, d, x) {
      forall c: Dso | Edge(g, d, c) ensures c < |g| { EdgeEnds(g, d, c); }
      if ReachesPlus(g, d, x) {
        var c :| Edge(g, d, c) && Reaches(g, c, x);
        SameReach(g, more, c, x);
        assert Edge(g + more, d, c);
      }
      if ReachesPlus(g + more, d, x) {
        var c :| Edge(g + more, d, c) && Reaches(g + more, c, x);
        assert Edge(g, d, c);
        SameReach(g, more, c, x);
      }
    }
  }

  lemma OnlyTwo(g: Graph, d: Dso)
    requires g == [[], [2], [], [4], [2]] && ReachesPlus(g, 3, d)
    ensures d == 4 || d == 2
  {
    var c :| Edge(g, 3, c) && Reaches(g, c, d);
    ClosedContainsReachable(g, {4, 2}, c, d);
  }

  lemma FarReachable(g: Graph, m: seq<bool>)
    requires g == [[], [2], [], [4], [2]] && forall d :: 0 <= d < |m| ==> !m[d]
    ensures |Reachable(Cut(g, m, 3), 3)| >= 3
  {
    var c := Cut(g, m, 3);
    CutWellFormed(g, m, 3);
    CutEdge(g, m, 3, 3, 4);
    CutEdge(g, m, 3, 4, 2);
    ReachesSelf(c, 3);
    ReachesStep(c, 3, 3, 4);
    ReachesStep(c, 3, 4, 2);
    SubsetFits({3, 4, 2}, Reachable(c, 3));
  }

  lemma BeginCut(g: Graph, m0: seq<bool>, root: Dso, mark: seq<bool>, next: seq<nat>)
    requires WellFormed(g) && root < |g| == |m0| == |next| && mark == m0[root := true] && next[root] == 0
    ensures Search(Cut(g, m0, root), root, mark, next, [], [root])
  {
    hide Reaches, Cut;
    var c := Cut(g, m0, root);
    forall d | 0 <= d < |c| && Reaches(c, root, d) ensures mark[d] <==> d == root { CutUnmarked(g, m0, root, d); }
    Begin(c, root, mark, next);
  }

  /** The dependency looked at, in the graph that the search sees. */
  lemma CutStep(g: Graph, m0: seq<bool>, root: Dso, mark: seq<bool>, next: seq<nat>, q: seq<Dso>, path: seq<Dso>, j: nat)
    requires WellFormed(g) && root < |g| && Search(Cut(g, m0, root), root, mark, next, q, path) && mark[root]
    requires path != [] && path[0] < |g| && j < |g[path[0]]| && MarkedByUs(m0, mark, q, path)
    ensures var d, e := g[path[0]][j], Cut(g, m0, root)[path[0]][j];
      d < |mark| && e < |mark| && if mark[d] then mark[e] else e == d
  {
    assert path[0] in path;
  }

  lemma SearchEnds(g: Graph, m0: seq<bool>, c: Graph, root: Dso, mark: seq<bool>, next: seq<nat>, buf: seq<int>, qpos: nat,
                   spos: nat, cnt: nat, q: seq<Dso>, path: seq<Dso>)
    requires WellFormed(g) && c == Cut(g, m0, root) && Search(c, root, mark, next, q, path)
    requires Holds(buf, qpos, spos, cnt, q, path) && spos >= cnt && MarkedByUs(m0, mark, q, path)
    ensures qpos == |q| <= cnt <= |buf| && QueueFor(c, root, q) && |Reachable(c, root)| <= cnt
    ensures forall i :: 0 <= i < qpos ==> buf[i] == q[i]
    ensures forall i :: 0 <= i < |q| ==> q[i] < |g|
    ensures forall d :: 0 <= d < |mark| && mark[d] ==> m0[d] || d in q
  {
    assert path == [];
    CutWellFormed(g, m0, root);
    hide Cut;
    Complete(c, root, mark, next, q);
    QueueSize(c, root, q);
  }

  /** With no direct dependency there is nothing to start from. */
  lemma HasStart(g: Graph, p: Dso, m0: seq<bool>, l: seq<Dso>)
    requires Extended(g, p, m0, l) && l != []
    ensures g[p] != []
  {
    var d := l[0];
    assert d in l;
    var c :| Edge(g, p, c) && Reaches(g, c, d);
  }

  lemma StoredOk(deps: seq<seq<Dso>>, g: Graph, p: Dso, m0: seq<bool>, l: seq<Dso>)
    requires WellFormed(deps) && p < |deps| == |g| && Extended(g, p, m0, l)
    ensures WellFormed(deps[p := l])
  {
    forall k | 0 <= k < |l| ensures l[k] < |g| { assert l[k] in l; }
  }

  /** The beginning of a buffer. */
  ghost predicate Begun(buf: seq<int>, l: seq<Dso>) {
    |buf| >= |l| + 1 && forall k :: 0 <= k < |l| ==> buf[k] == l[k]
  }

  /** A null-terminated list that fills its allocation. */
  ghost predicate Terminated(buf: seq<int>, l: seq<Dso>) {
    |buf| >= |l| + 1 && buf[|l|] == NULL && forall k :: 0 <= k < |l| ==> buf[k] == l[k]
  }

  /** Marks differ from those before the search only on what it has entered. */
  ghost predicate MarkedByUs(m0: seq<bool>, mark: seq<bool>, q: seq<Dso>, path: seq<Dso>) {
    |m0| == |mark| && (forall d :: 0 <= d < |mark| && mark[d] ==> m0[d] || d in q || d in path) &&
    forall d :: 0 <= d < |mark| && m0[d] ==> mark[d]
  }

  lemma UnmarkedShrinks(g: Graph, root: Dso, mark: seq<bool>, d: Dso)
    requires |mark| == |g| && d < |g| && !mark[d] && Reaches(g, root, d)
    ensures |Unmarked(g, root, mark[d := true])| < |Unmarked(g, root, mark)|
  {
    assert d in Unmarked(g, root, mark);
    assert Unmarked(g, root, mark[d := true]) <= Unmarked(g, root, mark) - {d};
    SubsetFits(Unmarked(g, root, mark[d := true]), Unmarked(g, root, mark) - {d});
  }

  /** The two ends of the buffer hold the queue and the stack. */
  ghost predicate Holds(buf: seq<int>, qpos: nat, spos: nat, cnt: nat, q: seq<Dso>, stack: seq<Dso>) {
    qpos <= spos <= cnt <= |buf| && |q| == qpos && |stack| == cnt - spos &&
    (forall i :: 0 <= i < qpos ==> buf[i] == q[i]) &&
    (forall k :: 0 <= k < cnt - spos ==> buf[spos + k] == stack[k])
  }

  lemma HoldsFirst(buf: seq<int>, cnt: nat, root: Dso)
    requires 0 < cnt <= |buf| && buf[cnt - 1] == root
    ensures Holds(buf, 0, cnt - 1, cnt, [], [root])
  {
  }

  lemma HoldsTop(buf: seq<int>, qpos: nat, spos: nat, cnt: nat, q: seq<Dso>, path: seq<Dso>)
    requires Holds(buf, qpos, spos, cnt, q, path) && spos < cnt
    ensures cnt <= |buf| && path != [] && buf[spos] == path[0] && Holds(buf, qpos, spos + 1, cnt, q, path[1..])
  {
    assert buf[spos + 0] == path[0];
    forall k | 0 <= k < cnt - spos - 1 ensures buf[spos + 1 + k] == path[1..][k] {
      assert buf[spos + (k + 1)] == path[k + 1];
    }
  }

  /** The two ends meet only when one DSO more is in hand than the buffer holds. */
  lemma HoldsRoom(buf: seq<int>, qpos: nat, spos: nat, cnt: nat, q: seq<Dso>, path: seq<Dso>)
    requires path != [] && Holds(buf, qpos, spos, cnt, q, path[1..])
    ensures qpos <= spos && (qpos == spos ==> |q| + |path| == cnt + 1)
  {
  }

  lemma HoldsPush(buf: seq<int>, qpos: nat, spos: nat, cnt: nat, q: seq<Dso>, path: seq<Dso>)
    requires path != [] && Holds(buf, qpos, spos, cnt, q, path[1..]) && qpos < spos
    ensures qpos < spos <= cnt <= |buf|
    ensures Holds(buf[spos - 1 := path[0]], qpos, spos - 1, cnt, q, path)
  {
    var buf' := buf[spos - 1 := path[0]];
    forall k | 0 <= k < cnt - (spos - 1) ensures buf'[spos - 1 + k] == path[k] {
      if k > 0 { assert buf[spos + (k - 1)] == path[1..][k - 1]; }
    }
  }

  lemma HoldsEmit(buf: seq<int>, qpos: nat, spos: nat, cnt: nat, q: seq<Dso>, path: seq<Dso>)
    requires path != [] && Holds(buf, qpos, spos, cnt, q, path[1..]) && qpos < spos
    ensures qpos < spos <= cnt <= |buf|
    ensures Holds(buf[qpos := path[0]], qpos + 1, spos, cnt, q + [path[0]], path[1..])
  {
  }

  lemma MarkRoot(m0: seq<bool>, root: Dso)
    requires root < |m0|
    ensures MarkedByUs(m0, m0[root := true], [], [root])
  {
  }

  lemma MarkOne(m0: seq<bool>, mark: seq<bool>, q: seq<Dso>, path: seq<Dso>, d: Dso)
    requires MarkedByUs(m0, mark, q, path) && d < |mark|
    ensures MarkedByUs(m0, mark[d := true], q, [d] + path)
  {
  }

  lemma MarkMove(m0: seq<bool>, mark: seq<bool>, q: seq<Dso>, path: seq<Dso>)
    requires MarkedByUs(m0, mark, q, path) && path != []
    ensures MarkedByUs(m0, mark, q + [path[0]], path[1..])
  {
    assert path == [path[0]] + path[1..];
  }

  /** What the search has still to reach. */
  ghost function Unmarked(g: Graph, root: Dso, mark: seq<bool>): set<Dso> {
    set d | d in Reachable(g, root) && d < |mark| && !mark[d]
  }
}
