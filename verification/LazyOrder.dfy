/** The order in which `dlopen` puts DSOs on the lazy list, and when it stays a list. */
module LazyOrder {
  import opened Collections
  import opened ListGrowth
  import opened LoaderState
  import opened Wrappers

  /** Prepending a DSO to the lazy list. */
  function Push(nxt: Links, h: Option<Id>, p: Id): (Links, Option<Id>) { (nxt[p := h], Some(p)) }

  ghost function Pushed(nxt: Links, h: Option<Id>, order: seq<Id>): (Links, Option<Id>) {
    if order == [] then (nxt, h)
    else
      var r := Pushed(nxt, h, order[..|order| - 1]);
      Push(r.0, r.1, order[|order| - 1])
  }

  /** The DSOs of a list that get lazy records. */
  ghost function Chosen(fs: Files, relocated: set<Id>, inode: map<Id, Inode>, l: seq<Id>): seq<Id> {
    if l == [] then []
    else
      var x := l[|l| - 1];
      var r := Chosen(fs, relocated, inode, l[..|l| - 1]);
      if x in relocated || (x in inode && inode[x] in fs.bindNow) then r else r + [x]
  }

  lemma PushedNone(nxt: Links, h: Option<Id>, fs: Files, relocated: set<Id>, inode: map<Id, Inode>, l: seq<Id>)
    ensures Pushed(nxt, h, Chosen(fs, relocated, inode, l[..0])) == (nxt, h)
  {
  }

  lemma PushedNext(nxt: Links, h: Option<Id>, fs: Files, relocated: set<Id>, inode: map<Id, Inode>, l: seq<Id>, k: nat)
    requires k < |l|
    ensures var r := Pushed(nxt, h, Chosen(fs, relocated, inode, l[..k]));
      Pushed(nxt, h, Chosen(fs, relocated, inode, l[..k + 1])) ==
      if l[k] in relocated || (l[k] in inode && inode[l[k]] in fs.bindNow) then r else Push(r.0, r.1, l[k])
  {
    assert l[..k + 1][..k] == l[..k];
    var c := Chosen(fs, relocated, inode, l[..k]);
    assert (c + [l[k]])[..|c|] == c;
  }

  lemma ThreadsPush(nxt: Links, l: seq<Id>, x: Id)
    requires Threads(nxt, l) && x !in l
    ensures Threads(nxt[x := FirstOf(l)], [x] + l)
  {
    var nxt', l' := nxt[x := FirstOf(l)], [x] + l;
    forall i | 0 <= i < |l'| ensures LinkOk(nxt', l', i) {
      if i > 0 { assert LinkOk(nxt, l, i - 1) && l'[i] == l[i - 1]; }
    }
  }

  /** If no DSO is prepared twice, the lazy list is theirs, last first, and then the old. */
  lemma {:induction false} PushedList(nxt: Links, l0: seq<Id>, order: seq<Id>)
    requires Threads(nxt, l0) && NoDup(order) && forall i :: 0 <= i < |order| ==> order[i] !in l0
    ensures var r := Pushed(nxt, FirstOf(l0), order);
      Threads(r.0, Reverse(order) + l0) && r.1 == FirstOf(Reverse(order) + l0)
  {
    hide Threads;
    if order == [] {
      assert Reverse(order) + l0 == l0;
    } else {
      var rest, x := order[..|order| - 1], order[|order| - 1];
      assert x !in rest;
      PushedList(nxt, l0, rest);
      var r, l := Pushed(nxt, FirstOf(l0), rest), Reverse(rest) + l0;
      ReverseMembers(rest, x);
      assert x !in l;
      ThreadsPush(r.0, l, x);
      assert Reverse(order) + l0 == [x] + l;
    }
  }

  ghost predicate Repeats(l: seq<Id>, i: nat)
    requires i < |l|
  {
    exists k :: i < k < |l| && l[k] == l[i]
  }

  /** The link of a DSO is what its last preparation wrote. */
  lemma {:induction false} LastPush(nxt: Links, h: Option<Id>, order: seq<Id>, i: nat)
    requires 0 < i < |order| && !Repeats(order, i)
    ensures var r := Pushed(nxt, h, order); order[i] in r.0 && r.0[order[i]] == Some(order[i - 1])
  {
    var n := |order| - 1;
    if i < n {
      assert order[n] != order[i];
      LastPush(nxt, h, order[..n], i);
    }
  }

  /** Walking the list visits the preparations backwards, as far as they are last ones. */
  lemma {:induction false} WalkBack(nxt: Links, h: Option<Id>, order: seq<Id>, l: seq<Id>, j: nat, t: nat)
    requires LazyList(Pushed(nxt, h, order).0, Pushed(nxt, h, order).1, l)
    requires j < |order| && t < |order| - j && forall i :: j < i < |order| ==> !Repeats(order, i)
    ensures t < |l| && l[t] == order[|order| - 1 - t]
  {
    if t > 0 {
      WalkBack(nxt, h, order, l, j, t - 1);
      LastPush(nxt, h, order, |order| - t);
      assert LinkOk(Pushed(nxt, h, order).0, l, t - 1);
    }
  }

  lemma {:induction false} LastRepeat(order: seq<Id>, n: nat, a: nat) returns (j: nat)
    requires a < n <= |order| && Repeats(order, a) && forall i :: n <= i < |order| ==> !Repeats(order, i)
    ensures j < |order| && Repeats(order, j) && forall i :: j < i < |order| ==> !Repeats(order, i)
  {
    j := n - 1;
    if !Repeats(order, j) { j := LastRepeat(order, n - 1, a); }
  }

  ghost predicate LazyList(nxt: Links, h: Option<Id>, l: seq<Id>) { Threads(nxt, l) && FirstOf(l) == h }

  /** The lazy list is a list again if and only if no DSO was prepared twice: otherwise it
      runs in a circle, and the DSOs before the repetition are lost. */
  lemma LazyListIff(nxt: Links, l0: seq<Id>, order: seq<Id>)
    requires Threads(nxt, l0) && forall i :: 0 <= i < |order| ==> order[i] !in l0
    ensures var r := Pushed(nxt, FirstOf(l0), order); (exists l :: LazyList(r.0, r.1, l)) <==> NoDup(order)
  {
    var r := Pushed(nxt, FirstOf(l0), order);
    if NoDup(order) {
      PushedList(nxt, l0, order);
      assert LazyList(r.0, r.1, Reverse(order) + l0);
    } else {
      var a, b :| 0 <= a < b < |order| && order[a] == order[b];
      var j := LastRepeat(order, |order|, a);
      var j' :| j < j' < |order| && order[j'] == order[j];
      forall l ensures !LazyList(r.0, r.1, l) {
        if LazyList(r.0, r.1, l) {
          WalkBack(nxt, FirstOf(l0), order, l, j, |order| - 1 - j);
          WalkBack(nxt, FirstOf(l0), order, l, j, |order| - 1 - j');
          assert false;
        }
      }
    }
  }

  // ----- when the lazy list stays a list

  ghost predicate NeedsFile(fs: Files, a: Inode, b: Inode) {
    exists i :: 0 <= i < |NeededBy(fs, a)| && NeededBy(fs, a)[i] in fs.names && fs.names[NeededBy(fs, a)[i]] == b
  }

  /** A walk along needed names, through files that are not loaded yet. */
  ghost predicate FileWalk(fs: Files, loaded: set<Inode>, w: seq<Inode>) {
    |w| >= 2 && forall k :: 0 <= k < |w| - 1 ==> FileStep(fs, loaded, w[k], w[k + 1])
  }

  ghost predicate FileStep(fs: Files, loaded: set<Inode>, a: Inode, b: Inode) { NeedsFile(fs, a, b) && b !in loaded }

  /** The file needs itself, directly or through files that are not loaded yet. */
  ghost predicate NeedsItself(fs: Files, loaded: set<Inode>, ino: Inode) {
    exists w :: FileWalk(fs, loaded, w) && w[0] == ino && w[|w| - 1] == ino
  }

  /** What a caller can look up before opening a file that is not loaded: no two of its
      needed names are the same file, unless that is loaded or bound at once; and it does
      not need itself, unless it is bound at once. */
  ghost predicate Unrepeated(fs: Files, loaded: set<Inode>, ino: Inode) {
    (forall i, j :: 0 <= i < j < |NeededBy(fs, ino)| ==> !SameNew(fs, loaded, NeededBy(fs, ino)[i], NeededBy(fs, ino)[j])) &&
    (ino in fs.bindNow || !NeedsItself(fs, loaded, ino))
  }

  predicate SameNew(fs: Files, loaded: set<Inode>, a: Name, b: Name) {
    a in fs.names && b in fs.names && fs.names[a] == fs.names[b] && fs.names[a] !in loaded && fs.names[a] !in fs.bindNow
  }

  /** A DSO of the list that gets records. */
  predicate Picked(fs: Files, relocated: set<Id>, inode: map<Id, Inode>, x: Id) {
    x !in relocated && !(x in inode && inode[x] in fs.bindNow)
  }

  lemma {:induction false} ChosenMembers(fs: Files, relocated: set<Id>, inode: map<Id, Inode>, l: seq<Id>, x: Id)
    ensures x in Chosen(fs, relocated, inode, l) <==> x in l && Picked(fs, relocated, inode, x)
  {
    if l != [] {
      ChosenMembers(fs, relocated, inode, l[..|l| - 1], x);
      assert l == l[..|l| - 1] + [l[|l| - 1]];
    }
  }

  ghost predicate Twice(fs: Files, relocated: set<Id>, inode: map<Id, Inode>, l: seq<Id>, i: nat, j: nat) {
    i < j < |l| && l[i] == l[j] && Picked(fs, relocated, inode, l[i])
  }

  lemma {:induction false} ChosenNoDup(fs: Files, relocated: set<Id>, inode: map<Id, Inode>, l: seq<Id>)
    ensures NoDup(Chosen(fs, relocated, inode, l)) <==> forall i: nat, j: nat :: !Twice(fs, relocated, inode, l, i, j)
  {
    if l != [] {
      var k := |l| - 1;
      var l', x := l[..k], l[k];
      ChosenNoDup(fs, relocated, inode, l');
      ChosenMembers(fs, relocated, inode, l', x);
      var c := Chosen(fs, relocated, inode, l');
      assert forall i: nat, j: nat :: j < k ==>
        (Twice(fs, relocated, inode, l, i, j) <==> Twice(fs, relocated, inode, l', i, j));
      forall i: nat | Twice(fs, relocated, inode, l, i, k) ensures x in l' && Picked(fs, relocated, inode, x) {
        assert l'[i] == x;
      }
      if Picked(fs, relocated, inode, x) && x in l' {
        var i :| 0 <= i < k && l'[i] == x;
        assert Twice(fs, relocated, inode, l, i, k);
        var m :| 0 <= m < |c| && c[m] == x;
        assert (c + [x])[m] == (c + [x])[|c|];
      } else if !NoDup(c) {
        var a, b :| 0 <= a < b < |c| && c[a] == c[b];
        assert (c + [x])[a] == (c + [x])[b];
      }
    }
  }

  /** The direct dependencies of a DSO loaded by this call are the files its file needs. */
  ghost predicate Needs(fs: Files, inode: map<Id, Inode>, dm: map<Id, seq<Id>>, head: Id, q: Id) {
    q in dm && q in inode && head !in dm[q] && Resolved(fs, inode, NeededBy(fs, inode[q]), dm[q])
  }

  /** The state in which lazy records are prepared. */
  ghost predicate AllLoaded(fs: Files, s0: Core, c: Core, head: Id, dm: map<Id, seq<Id>>) {
    Linked(s0, head) && Linked(c, head) && Grew(s0, c) && c.g.relocated == s0.g.relocated && dm.Keys == c.g.next.Keys &&
    (forall q :: q in s0.g.next ==> q in s0.g.relocated) && (forall q :: q in dm ==> ListIn(dm, c.g.next.Keys, q)) &&
    (forall q :: q in s0.g.next && q in dm ==> ListIn(dm, s0.g.next.Keys, q)) &&
    forall q :: q in c.g.next && q !in s0.g.next ==> Needs(fs, c.g.inode, dm, head, q)
  }

  /** Each DSO loaded since has the DSOs of its needed names as direct dependencies, and `l`
      is everything `p` depends on; marks left before the call may have hidden old ones. */
  ghost predicate Complete(fs: Files, older: set<Id>, clear: bool, inode: map<Id, Inode>, dm: map<Id, seq<Id>>, head: Id,
                           p: Id, l: seq<Id>)
  {
    (forall q :: q in inode && q !in older ==> Needs(fs, inode, dm, head, q)) &&
    Everything(dm, p, l, if clear then {} else older)
  }

  lemma NowComplete(fs: Files, s0: Core, c: Core, clear: bool, dm: map<Id, seq<Id>>, head: Id, p: Id, l: seq<Id>)
    requires AllLoaded(fs, s0, c, head, dm) && Everything(dm, p, l, if clear then {} else s0.g.next.Keys)
    ensures Complete(fs, s0.g.next.Keys, clear, c.g.inode, dm, head, p, l)
  {
    hide Everything, Grew, ChainOk, ScopeOk, TlsOk, Needs;
  }

  /** Whatever `load_deps` has loaded is `p` or something it depends on. */
  lemma NothingElse(fs: Files, s0: Core, c: Core, head: Id, d: map<Id, Option<seq<Id>>>, ndirect: map<Id, int>, k0: nat,
                    l: seq<Id>)
    requires Linked(s0, head) && Linked(c, head) && Grew(s0, c) && |s0.chain| <= k0 < |c.chain|
    requires Wanted(c.chain, d, k0, |c.chain|) && AllDirect(fs, c.g.inode, d, ndirect, head, c.chain, k0, |c.chain|)
    requires Everything(Lists(d, ndirect), c.chain[k0], l, s0.g.next.Keys)
    ensures OnlyNeeded(c.chain, k0, c.chain[k0], l)
  {
    hide Linked, Grew, Wanted, AllDirect, Lists;
    forall i | k0 < i < |c.chain| ensures c.chain[i] in l {
      DependsAt(fs, c, head, d, ndirect, k0, i);
      NewAt(s0, c, head, i);
    }
  }

  lemma {:induction false} DependsAt(fs: Files, c: Core, head: Id, d: map<Id, Option<seq<Id>>>, ndirect: map<Id, int>, k0: nat,
                                     i: nat)
    requires k0 < i < |c.chain|
    requires Wanted(c.chain, d, k0, |c.chain|) && AllDirect(fs, c.g.inode, d, ndirect, head, c.chain, k0, |c.chain|)
    ensures Depends(Lists(d, ndirect), c.chain[k0], c.chain[i])
    decreases i
  {
    hide Resolved;
    var dm := Lists(d, ndirect);
    assert WantedAt(c.chain, d, k0, |c.chain|, i);
    var j :| k0 <= j < |c.chain| && j < i && WantedBy(c.chain, d, i, j);
    assert Direct(fs, c.g.inode, d, ndirect, head, c.chain[j]);
    assert DepEdge(dm, c.chain[j], c.chain[i]);
    if j == k0 {
      assert Leads(dm, [c.chain[j], c.chain[i]], c.chain[j], c.chain[i]);
    } else {
      DependsAt(fs, c, head, d, ndirect, k0, j);
      DependsStep(dm, c.chain[k0], c.chain[j], c.chain[i]);
    }
  }

  /** A DSO past the head has its file among those loaded. */
  lemma OldIsLoaded(c: Core, head: Id, x: Id)
    requires Linked(c, head) && x in c.g.next && x != head
    ensures x in c.g.inode && c.g.inode[x] in Loaded(c.chain, c.g.inode)
  {
    hide Linked;
    var j := PositionOf(c, head, x);
  }

  /** What was not there before has been relocated now. */
  lemma NewBound(s0: Core, c: Core, head: Id, r0: set<Id>, bound: map<Id, seq<Id>>, scope: seq<Id>)
    requires Linked(s0, head) && Linked(c, head) && r0 == s0.g.relocated && BoundIn(r0, c.g.relocated, bound, scope)
    requires AllDone(c.chain, c.g.relocated, |c.chain|)
    ensures BoundIn(s0.g.next.Keys, c.g.next.Keys, bound, scope)
  {
    hide ScopeOk, TlsOk, Threads;
    forall q | q in c.g.next && q !in s0.g.next ensures q in bound && bound[q] == scope { assert q in c.chain; }
  }

  ghost function Before(s0: Core): set<Inode> { Loaded(s0.chain, s0.g.inode) }

  lemma PositionOf(c: Core, head: Id, x: Id) returns (j: nat)
    requires Linked(c, head) && x in c.g.next
    ensures j < |c.chain| && c.chain[j] == x && x in c.g.inode && (x != head ==> j > 0)
  {
    hide ScopeOk, TlsOk, Threads;
    assert x in c.chain;
    j :| 0 <= j < |c.chain| && c.chain[j] == x;
  }

  /** A DSO other than the head was loaded before exactly if its file was. */
  lemma OldByFile(s0: Core, c: Core, head: Id, x: Id)
    requires Linked(s0, head) && Linked(c, head) && Grew(s0, c) && x in c.g.next && x != head
    ensures x in c.g.inode && (x in s0.g.next <==> c.g.inode[x] in Before(s0))
  {
    hide Linked;
    var j := PositionOf(c, head, x);
    if x in s0.g.next {
      var i := PositionOf(s0, head, x);
      assert Kept(s0, c, x);
    } else {
      OldFilesDiffer(s0, c, head, j);
    }
  }

  lemma OldFilesDiffer(s0: Core, c: Core, head: Id, j: nat)
    requires Linked(s0, head) && Linked(c, head) && Grew(s0, c) && 0 < j < |c.chain| && c.chain[j] !in s0.g.next
    ensures c.chain[j] in c.g.inode && c.g.inode[c.chain[j]] !in Before(s0) && j >= |s0.chain|
  {
    hide ScopeOk, TlsOk, Threads;
    MembersLive(c.g.next, c.chain);
    MembersLive(s0.g.next, s0.chain);
    assert forall m :: 0 <= m < |s0.chain| ==> c.chain[m] == s0.chain[m];
    forall m | 1 <= m < |s0.chain| && s0.chain[m] in s0.g.inode ensures s0.g.inode[s0.chain[m]] != c.g.inode[c.chain[j]] {
      assert s0.chain[m] == c.chain[m];
      var y := s0.chain[m];
      assert Kept(s0, c, y);
    }
  }

  /** Two DSOs loaded by this call from the same file are the same. */
  lemma SameByFile(s0: Core, c: Core, head: Id, x: Id, y: Id)
    requires Linked(s0, head) && Linked(c, head) && Grew(s0, c) && x in c.g.next && y in c.g.next && x != head && y != head
    requires x !in s0.g.next && y !in s0.g.next && x in c.g.inode && y in c.g.inode && c.g.inode[x] == c.g.inode[y]
    ensures x == y
  {
    hide Linked;
    var i := PositionOf(c, head, x);
    var j := PositionOf(c, head, y);
    OldFilesDiffer(s0, c, head, i);
    OldFilesDiffer(s0, c, head, j);
  }

  /** A name needed by a new DSO: whether its DSO is new, and not the head. */
  lemma NeededDso(fs: Files, s0: Core, c: Core, head: Id, dm: map<Id, seq<Id>>, q: Id, i: nat)
    requires AllLoaded(fs, s0, c, head, dm) && q in c.g.next && q !in s0.g.next && i < |dm[q]|
    ensures var n := NeededBy(fs, c.g.inode[q]); var x := dm[q][i];
      |n| == |dm[q]| && n[i] in fs.names && x in c.g.next && x in c.g.inode && c.g.inode[x] == fs.names[n[i]] &&
      x != head && (x in s0.g.next <==> fs.names[n[i]] in Before(s0))
  {
    hide Linked, Grew;
    assert Needs(fs, c.g.inode, dm, head, q) && ListIn(dm, c.g.next.Keys, q);
    var x := dm[q][i];
    assert x in dm[q];
    OldByFile(s0, c, head, x);
  }

  lemma DirectTwice(fs: Files, s0: Core, c: Core, head: Id, dm: map<Id, seq<Id>>, p: Id, i: nat, j: nat)
    requires AllLoaded(fs, s0, c, head, dm) && p in c.g.next && p !in s0.g.next && i < |dm[p]| && j < |dm[p]|
    ensures p in c.g.inode && |NeededBy(fs, c.g.inode[p])| == |dm[p]|
    ensures var n := NeededBy(fs, c.g.inode[p]);
      (dm[p][i] == dm[p][j] && Picked(fs, c.g.relocated, c.g.inode, dm[p][i])) <==> SameNew(fs, Before(s0), n[i], n[j])
  {
    hide Linked, Grew;
    NeededDso(fs, s0, c, head, dm, p, i);
    NeededDso(fs, s0, c, head, dm, p, j);
    var x, y := dm[p][i], dm[p][j];
    NewUnrelocated(fs, s0, c, head, dm, x);
    if x !in s0.g.next && y !in s0.g.next && c.g.inode[x] == c.g.inode[y] { SameByFile(s0, c, head, x, y); }
  }

  lemma NewUnrelocated(fs: Files, s0: Core, c: Core, head: Id, dm: map<Id, seq<Id>>, x: Id)
    requires AllLoaded(fs, s0, c, head, dm)
    ensures x in c.g.relocated <==> x in s0.g.next
  {
    hide ChainOk, ScopeOk, TlsOk;
  }

  /** A circle of DSOs through a new one is a circle of files. */
  lemma CircleOfFiles(fs: Files, s0: Core, c: Core, head: Id, dm: map<Id, seq<Id>>, p: Id, w: seq<Id>)
    requires AllLoaded(fs, s0, c, head, dm) && p in c.g.next && p !in s0.g.next && Leads(dm, w, p, p)
    ensures p in c.g.inode && NeedsItself(fs, Before(s0), c.g.inode[p])
  {
    hide Linked, Grew;
    forall k | 0 <= k < |w| ensures w[k] !in s0.g.next && w[k] in c.g.next && w[k] in c.g.inode {
      AllNew(fs, s0, c, head, dm, p, w, k);
    }
    var f := seq(|w|, k requires 0 <= k < |w| => c.g.inode[w[k]]);
    forall k | 0 <= k < |f| - 1 ensures FileStep(fs, Before(s0), f[k], f[k + 1]) {
      assert DepEdge(dm, w[k], w[k + 1]);
      var q := w[k];
      var i :| 0 <= i < |dm[q]| && dm[q][i] == w[k + 1];
      NeededDso(fs, s0, c, head, dm, q, i);
    }
    assert FileWalk(fs, Before(s0), f);
  }

  lemma {:induction false} AllNew(fs: Files, s0: Core, c: Core, head: Id, dm: map<Id, seq<Id>>, p: Id, w: seq<Id>, k: nat)
    requires AllLoaded(fs, s0, c, head, dm) && p in c.g.next && p !in s0.g.next && Leads(dm, w, p, p) && k < |w|
    ensures w[k] !in s0.g.next && w[k] in c.g.next && w[k] in c.g.inode
    decreases |w| - k
  {
    hide Linked, Grew;
    if k < |w| - 1 {
      AllNew(fs, s0, c, head, dm, p, w, k + 1);
      var q := w[k];
      assert DepEdge(dm, q, w[k + 1]);
      assert ListIn(dm, c.g.next.Keys, q);
      assert q in s0.g.next ==> ListIn(dm, s0.g.next.Keys, q);
    }
    var x := w[k];
    var j := PositionOf(c, head, x);
  }

  /** A circle of files that were not loaded is a circle of DSOs. */
  lemma {:induction false} CircleOfDsos(fs: Files, s0: Core, c: Core, head: Id, dm: map<Id, seq<Id>>, p: Id, f: seq<Inode>,
                                        k: nat)
    returns (w: seq<Id>)
    requires AllLoaded(fs, s0, c, head, dm) && p in c.g.next && p !in s0.g.next && p in c.g.inode
    requires FileWalk(fs, Before(s0), f) && f[0] == c.g.inode[p] && k < |f|
    ensures |w| == k + 1 && w[0] == p && w[k] in c.g.next && w[k] !in s0.g.next && w[k] in c.g.inode
    ensures c.g.inode[w[k]] == f[k] && forall j :: 0 <= j < k ==> DepEdge(dm, w[j], w[j + 1])
    ensures k > 0 ==> w[k] != head
  {
    hide Linked, Grew;
    if k == 0 {
      w := [p];
    } else {
      var v := CircleOfDsos(fs, s0, c, head, dm, p, f, k - 1);
      var q := v[k - 1];
      assert FileStep(fs, Before(s0), f[k - 1], f[k - 1 + 1]);
      var n := NeededBy(fs, f[k - 1]);
      var i :| 0 <= i < |n| && n[i] in fs.names && fs.names[n[i]] == f[k];
      assert Needs(fs, c.g.inode, dm, head, q);
      NeededDso(fs, s0, c, head, dm, q, i);
      w := v + [dm[q][i]];
      assert DepEdge(dm, q, w[k]);
    }
  }

  lemma ItselfIff(fs: Files, s0: Core, c: Core, head: Id, dm: map<Id, seq<Id>>, p: Id)
    requires AllLoaded(fs, s0, c, head, dm) && p in c.g.next && p !in s0.g.next && p in c.g.inode && p != head
    ensures Depends(dm, p, p) <==> NeedsItself(fs, Before(s0), c.g.inode[p])
  {
    hide Linked, Grew, AllLoaded, NeedsFile;
    if Depends(dm, p, p) {
      var w :| Leads(dm, w, p, p);
      CircleOfFiles(fs, s0, c, head, dm, p, w);
    }
    if NeedsItself(fs, Before(s0), c.g.inode[p]) {
      var f :| FileWalk(fs, Before(s0), f) && f[0] == c.g.inode[p] && f[|f| - 1] == c.g.inode[p];
      var w := CircleOfDsos(fs, s0, c, head, dm, p, f, |f| - 1);
      OpenStates(fs, s0, c, head, dm);
      SameByFile(s0, c, head, w[|f| - 1], p);
      assert Leads(dm, w, p, p);
    }
  }

  lemma OpenStates(fs: Files, s0: Core, c: Core, head: Id, dm: map<Id, seq<Id>>)
    requires AllLoaded(fs, s0, c, head, dm)
    ensures Linked(s0, head) && Linked(c, head) && Grew(s0, c)
  {
  }

  lemma FreshDirect(fs: Files, inode: map<Id, Inode>, deps: map<Id, Option<seq<Id>>>, ndirect: map<Id, int>, head: Id,
                    chain: seq<Id>, k: nat)
    requires AllDirect(fs, inode, deps, ndirect, head, chain, k, |chain|) && k < |chain|
    ensures var p := chain[k]; p in deps && deps[p].Some? && p in ndirect && |deps[p].value| == ndirect[p]
  {
  }

  lemma NowAllLoaded(fs: Files, s0: Core, c: Core, head: Id, d: map<Id, Option<seq<Id>>>, deps: map<Id, Option<seq<Id>>>,
                     ndirect: map<Id, int>)
    requires Linked(s0, head) && Linked(c, head) && Grew(s0, c) && c.g.relocated == s0.g.relocated
    requires OldDone(s0, c.g.relocated) && DepsLive(deps, c.g.next.Keys) && PrefixOk(deps, ndirect) && AllDeps(deps)
    requires OldDeps(s0, deps) && Lists(deps, ndirect) == Lists(d, ndirect)
    requires AllDirect(fs, c.g.inode, d, ndirect, head, c.chain, |s0.chain|, |c.chain|)
    ensures AllLoaded(fs, s0, c, head, Lists(deps, ndirect))
  {
    hide Linked, Grew, Lists, DepsLive, PrefixOk, AllDeps, OldDeps, AllDirect;
    var dm := Lists(deps, ndirect);
    ListsIn(s0, c.g.next.Keys, deps, ndirect);
    forall q | q in c.g.next && q !in s0.g.next ensures Needs(fs, c.g.inode, dm, head, q) {
      NeedsAt(fs, s0, c, head, d, ndirect, q);
    }
  }

  lemma NeedsAt(fs: Files, s0: Core, c: Core, head: Id, d: map<Id, Option<seq<Id>>>, ndirect: map<Id, int>, q: Id)
    requires Linked(s0, head) && Linked(c, head) && Grew(s0, c) && q in c.g.next && q !in s0.g.next
    requires AllDirect(fs, c.g.inode, d, ndirect, head, c.chain, |s0.chain|, |c.chain|)
    ensures Needs(fs, c.g.inode, Lists(d, ndirect), head, q)
  {
    hide Linked, Grew, Resolved;
    var j := PositionOf(c, head, q);
    PastOld(s0, c, head, j);
    assert Direct(fs, c.g.inode, d, ndirect, head, c.chain[j]);
    assert Lists(d, ndirect)[q] == d[q].value;
  }

  lemma PastOld(s0: Core, c: Core, head: Id, j: nat)
    requires Linked(s0, head) && Grew(s0, c) && j < |c.chain| && c.chain[j] !in s0.g.next
    ensures j >= |s0.chain|
  {
    hide ScopeOk, TlsOk, Threads;
    MembersLive(s0.g.next, s0.chain);
    assert forall m :: 0 <= m < |s0.chain| ==> c.chain[m] == s0.chain[m];
  }

  /** The lazy list is a list. */
  ghost predicate IsList(nxt: Links, h: Option<Id>) { exists l :: LazyList(nxt, h, l) }

  /** Opening the file, lazily or not, leaves the lazy list a list. */
  ghost predicate LazySafe(fs: Files, loaded: set<Inode>, ino: Inode, lazy: bool) {
    !lazy || ino in loaded || Unrepeated(fs, loaded, ino)
  }

  ghost predicate LazyAfter(fs: Files, s0: Core, g: Globals, ino: Inode, lazy: bool) {
    IsList(s0.g.lazyNext, s0.g.lazyHead) ==> (IsList(g.lazyNext, g.lazyHead) <==> LazySafe(fs, Before(s0), ino, lazy))
  }

  lemma SameLazy(fs: Files, s0: Core, a: Globals, b: Globals, ino: Inode, lazy: bool)
    requires LazyAfter(fs, s0, a, ino, lazy) && b.lazyNext == a.lazyNext && b.lazyHead == a.lazyHead
    ensures LazyAfter(fs, s0, b, ino, lazy)
  {
  }

  /** The old lazy list is threaded through DSOs that keep their links. */
  lemma OldLazyList(s0: Core, c: Core, head: Id, l: seq<Id>)
    requires Linked(s0, head) && Grew(s0, c) && Threads(s0.g.lazyNext, l)
    ensures Threads(c.g.lazyNext, l) && forall x :: x in l ==> x in s0.g.next
  {
    hide ChainOk, ScopeOk, TlsOk;
    forall i | 0 <= i < |l| ensures LinkOk(c.g.lazyNext, l, i) && l[i] in s0.g.next {
      assert LinkOk(s0.g.lazyNext, l, i);
      var x := l[i];
      assert x in s0.g.next;
      assert Kept(s0, c, x);
    }
  }

  /** Nothing is prepared. */
  lemma NoneLazy(fs: Files, s0: Core, c: Core, head: Id, p: Id, lazy: bool)
    requires Linked(s0, head) && Linked(c, head) && Grew(s0, c) && c.g.lazyHead == s0.g.lazyHead
    requires p in c.g.next && p != head && p in c.g.inode && (!lazy || p in c.g.relocated) && c.g.relocated == s0.g.relocated
    ensures LazyAfter(fs, s0, c.g, c.g.inode[p], lazy)
  {
    hide Grew, Threads, ChainOk, ScopeOk, TlsOk, Unrepeated;
    OldByFile(s0, c, head, p);
    if IsList(s0.g.lazyNext, s0.g.lazyHead) {
      var l :| LazyList(s0.g.lazyNext, s0.g.lazyHead, l);
      OldLazyList(s0, c, head, l);
      assert LazyList(c.g.lazyNext, c.g.lazyHead, l);
    }
  }

  /** A DSO is on the list of `p` twice and gets records: exactly if two needed names of the
      file of `p` are the same, or that file needs itself. */
  lemma TwiceIff(fs: Files, s0: Core, c: Core, head: Id, dm: map<Id, seq<Id>>, p: Id, l: seq<Id>)
    requires AllLoaded(fs, s0, c, head, dm) && Everything(dm, p, l, s0.g.next.Keys)
    requires p in c.g.next && p !in s0.g.next && p != head
    ensures p in c.g.inode
    ensures (forall i: nat, j: nat :: !Twice(fs, c.g.relocated, c.g.inode, [p] + l, i, j)) <==>
            Unrepeated(fs, Before(s0), c.g.inode[p])
  {
    hide AllLoaded, NeedsItself, Picked, SameNew, Depends;
    OpenStates(fs, s0, c, head, dm);
    OldByFile(s0, c, head, p);
    ItselfIff(fs, s0, c, head, dm, p);
    NewPicked(fs, s0, c, head, dm, p);
    var q := [p] + l;
    if !Unrepeated(fs, Before(s0), c.g.inode[p]) {
      var i, j := MakeTwice(fs, s0, c, head, dm, p, l);
    } else {
      forall i: nat, j: nat ensures !Twice(fs, c.g.relocated, c.g.inode, q, i, j) {
        OnceOnly(fs, s0, c, head, dm, p, l, i, j);
      }
    }
  }

  lemma NewPicked(fs: Files, s0: Core, c: Core, head: Id, dm: map<Id, seq<Id>>, x: Id)
    requires AllLoaded(fs, s0, c, head, dm) && x !in s0.g.next && x in c.g.inode
    ensures Picked(fs, c.g.relocated, c.g.inode, x) <==> c.g.inode[x] !in fs.bindNow
  {
    NewUnrelocated(fs, s0, c, head, dm, x);
  }

  lemma MakeTwice(fs: Files, s0: Core, c: Core, head: Id, dm: map<Id, seq<Id>>, p: Id, l: seq<Id>) returns (i: nat, j: nat)
    requires AllLoaded(fs, s0, c, head, dm) && Everything(dm, p, l, s0.g.next.Keys)
    requires p in c.g.next && p !in s0.g.next && p in c.g.inode
    requires p != head && !Unrepeated(fs, Before(s0), c.g.inode[p])
    ensures Twice(fs, c.g.relocated, c.g.inode, [p] + l, i, j)
  {
    hide AllLoaded, NeedsItself, Picked, SameNew, Depends;
    ItselfIff(fs, s0, c, head, dm, p);
    NewPicked(fs, s0, c, head, dm, p);
    if c.g.inode[p] !in fs.bindNow && NeedsItself(fs, Before(s0), c.g.inode[p]) {
      assert p in l;
      var k :| 0 <= k < |l| && l[k] == p;
      i, j := 0, k + 1;
    } else {
      var n := NeededBy(fs, c.g.inode[p]);
      var a, b :| 0 <= a < b < |n| && SameNew(fs, Before(s0), n[a], n[b]);
      NewLength(fs, s0, c, head, dm, p);
      DirectTwice(fs, s0, c, head, dm, p, a, b);
      i, j := a + 1, b + 1;
      assert l[a] == dm[p][a] && l[b] == dm[p][b];
    }
  }

  lemma NewLength(fs: Files, s0: Core, c: Core, head: Id, dm: map<Id, seq<Id>>, p: Id)
    requires AllLoaded(fs, s0, c, head, dm) && p in c.g.next && p !in s0.g.next
    ensures p in dm && p in c.g.inode && |dm[p]| == |NeededBy(fs, c.g.inode[p])|
  {
    assert Needs(fs, c.g.inode, dm, head, p);
  }

  lemma OnceOnly(fs: Files, s0: Core, c: Core, head: Id, dm: map<Id, seq<Id>>, p: Id, l: seq<Id>, i: nat, j: nat)
    requires AllLoaded(fs, s0, c, head, dm) && Everything(dm, p, l, s0.g.next.Keys)
    requires p in c.g.next && p !in s0.g.next && p in c.g.inode
    requires p != head && Unrepeated(fs, Before(s0), c.g.inode[p])
    ensures !Twice(fs, c.g.relocated, c.g.inode, [p] + l, i, j)
  {
    hide AllLoaded, NeedsItself, Picked, SameNew, Depends;
    ItselfIff(fs, s0, c, head, dm, p);
    NewPicked(fs, s0, c, head, dm, p);
    NewLength(fs, s0, c, head, dm, p);
    if 0 < i < j <= |dm[p]| {
      DirectTwice(fs, s0, c, head, dm, p, i - 1, j - 1);
      assert l[i - 1] == dm[p][i - 1] && l[j - 1] == dm[p][j - 1];
    }
    if 0 < i < j <= |l| && j > |dm[p]| {
      assert l[j - 1] !in l[..j - 1];
      assert l[..j - 1][i - 1] == l[i - 1];
    }
  }

  /** `p` and its list have been prepared. */
  lemma PreparedLazy(fs: Files, s0: Core, c: Core, head: Id, deps: map<Id, Option<seq<Id>>>, ndirect: map<Id, int>, p: Id,
                     g: Globals)
    requires AllLoaded(fs, s0, c, head, Lists(deps, ndirect)) && p in deps && deps[p].Some?
    requires Everything(Lists(deps, ndirect), p, deps[p].value, s0.g.next.Keys)
    requires p in c.g.next && p !in s0.g.next && p != head && p in c.g.inode && c.g.lazyHead == s0.g.lazyHead
    requires (g.lazyNext, g.lazyHead) ==
             Pushed(c.g.lazyNext, c.g.lazyHead, Chosen(fs, c.g.relocated, c.g.inode, [p] + deps[p].value))
    ensures LazyAfter(fs, s0, g, c.g.inode[p], true)
  {
    hide AllLoaded, Everything, Grew, Linked, Threads, Unrepeated, Lists, Pushed, Chosen, Picked;
    var dm, l := Lists(deps, ndirect), deps[p].value;
    var order := Chosen(fs, c.g.relocated, c.g.inode, [p] + l);
    OpenStates(fs, s0, c, head, dm);
    OldByFile(s0, c, head, p);
    TwiceIff(fs, s0, c, head, dm, p, l);
    ChosenNoDup(fs, c.g.relocated, c.g.inode, [p] + l);
    if IsList(s0.g.lazyNext, s0.g.lazyHead) {
      var l0 :| LazyList(s0.g.lazyNext, s0.g.lazyHead, l0);
      OldLazyList(s0, c, head, l0);
      forall i | 0 <= i < |order| ensures order[i] !in l0 {
        ChosenMembers(fs, c.g.relocated, c.g.inode, [p] + l, order[i]);
        PickedNew(fs, s0, c, head, dm, order[i]);
      }
      LazyListIff(c.g.lazyNext, l0, order);
    }
  }

  lemma PickedNew(fs: Files, s0: Core, c: Core, head: Id, dm: map<Id, seq<Id>>, x: Id)
    requires AllLoaded(fs, s0, c, head, dm) && Picked(fs, c.g.relocated, c.g.inode, x)
    ensures x !in s0.g.next
  {
    NewUnrelocated(fs, s0, c, head, dm, x);
  }
}
