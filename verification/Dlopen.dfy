/** `dlopen` as a transaction on the linker's global state. A call that may fail for lack
    of memory, or because of a file's contents, fails at the whim of the environment. */
module Dlopen {
  import opened Collections
  import opened LazyOrder
  import opened ListGrowth
  import opened LoaderState
  import opened Wrappers

  class Loader {
    const head: Id
    var g: Globals
    var deps: map<Id, Option<seq<Id>>>
    var ndirect: map<Id, int>
    var bfsBuilt: set<Id>
    var marks: set<Id>
    ghost var chain: seq<Id>
    ghost var scope: seq<Id>
    ghost var tlsList: seq<Id>

    /** After startup with nothing but the program. */
    constructor (ino: Inode)
      ensures Valid() && Settled() && chain == [head] && scope == [head] && tlsList == []
      ensures g.inode == map[head := ino] && IsList(g.lazyNext, g.lazyHead)
    {
      head := 0;
      g := Globals(0, map[0 := None], map[0 := None], map[0 := ino], {0}, map[0 := None], 0,
                   None, None, map[0 := None], 0, 0, 1, None, map[0 := None]);
      deps, ndirect, bfsBuilt, marks := map[0 := Some([])], map[0 := 0], {}, {};
      chain, scope, tlsList := [0], [0], [];
      new;
      assert LazyList(g.lazyNext, g.lazyHead, []);
    }

    ghost function Saved(): Core
      reads this
    {
      Core(g, chain, scope, tlsList)
    }

    ghost predicate Valid()
      reads this
    {
      Linked(Saved(), head) && DepsLive(deps, g.next.Keys) && PrefixOk(deps, ndirect) &&
      bfsBuilt <= g.next.Keys && marks <= g.next.Keys
    }

    /** Between calls, every DSO has been relocated and has its dependencies. */
    ghost predicate Settled()
      reads this
    {
      forall p :: p in g.next ==> p in g.relocated && p in deps && deps[p].Some?
    }

    // ----- loading

    /** `load_library`: a DSO already loaded, or a new one at the end of the chain. */
    method LoadLibrary(ghost s0: Core, fs: Files, name: Name, noload: bool) returns (r: Option<Id>)
      requires Valid() && Grew(s0, Saved())
      modifies this
      ensures Valid() && Grew(s0, Saved()) && Untouched(old(Saved()), Saved())
      ensures SameMarks(old(bfsBuilt), old(marks), bfsBuilt, marks)
      ensures chain == old(chain) || NewDso(old(chain), old(g.inode), chain, g.inode, fs)
      ensures DepsKept(old(deps), deps)
      ensures r.None? ==> Saved() == old(Saved()) && deps == old(deps) && ndirect == old(ndirect)
      ensures r.Some? ==> r.value in g.next && name in fs.names && r.value in g.inode && g.inode[r.value] == fs.names[name]
      ensures fs.reliable && name in fs.names && !noload ==> r.Some?
      ensures name in fs.names && fs.names[name] in Loaded(old(chain), old(g.inode)) ==> r.Some? && r.value in old(g.next)
      ensures noload && r.Some? ==> fs.names[name] in Loaded(old(chain), old(g.inode))
      ensures noload ==> Saved() == old(Saved()) && deps == old(deps)
      ensures (r.Some? ==> r.value != head) && CountsKept(old(ndirect), ndirect, {})
      ensures r.Some? && r.value in old(g.next) ==> Saved() == old(Saved()) && deps == old(deps)
      ensures r.Some? && r.value !in old(g.next) ==> chain == old(chain) + [r.value]
    {
      hide Linked, Grew, DepsLive, PrefixOk;
      if name !in fs.names { return None; }
      var ino := fs.names[name];
      r := FindLoaded(ino);
      if r.Some? || noload { return; }
      if !fs.reliable {
        if * { return None; }   // mapping the file or allocating failed
      }
      var p := AppendDso(s0, ino);
      r := Some(p);
    }

    method AppendDso(ghost s0: Core, ino: Inode) returns (p: Id)
      requires Valid() && Grew(s0, Saved()) && ino !in Loaded(chain, g.inode)
      modifies this
      ensures Valid() && Grew(s0, Saved()) && Untouched(old(Saved()), Saved())
      ensures SameMarks(old(bfsBuilt), old(marks), bfsBuilt, marks)
      ensures p in g.next && p !in old(g.next) && chain == old(chain) + [p] && p in g.inode && g.inode[p] == ino
      ensures DepsKept(old(deps), deps) && p != head && CountsKept(old(ndirect), ndirect, {p})
      ensures p !in old(deps) && p !in old(ndirect)
    {
      hide Linked, Grew, DepsLive, PrefixOk;
      ghost var c := Saved();
      ghost var f := FreshId(g.next.Keys);
      p :| p !in g.next;
      AddDsoLinked(s0, c, head, p, ino);
      NewUnlisted(s0, c, head, p);
      NewDeps(deps, c, head, p, ino);
      NewCount(deps, ndirect, p);
      g := g.(next := g.next[g.tail := Some(p)][p := None], prev := g.prev[p := Some(g.tail)], tail := p,
              inode := g.inode[p := ino], symsNext := g.symsNext[p := None], tlsNext := g.tlsNext[p := None],
              lazyNext := g.lazyNext[p := None]);
      deps, ndirect := deps[p := None], ndirect[p := 0];
      chain := chain + [p];
      assert Saved() == AddDso(c, p, ino);
      if * { LinkTls(s0, p); }
    }

    /** A DSO with TLS becomes the last module, and the layout grows. */
    method LinkTls(ghost s0: Core, p: Id)
      requires Valid() && Grew(s0, Saved()) && p in g.next && p !in s0.g.next && p !in tlsList
      modifies this`g, this`tlsList
      ensures Valid() && Grew(s0, Saved()) && tlsList == old(tlsList) + [p]
      ensures g == old(g).(tlsHead := g.tlsHead, tlsTail := g.tlsTail, tlsNext := g.tlsNext, tlsCnt := g.tlsCnt,
                           tlsOffset := g.tlsOffset, tlsAlign := g.tlsAlign)
    {
      hide Linked, Grew, DepsLive, PrefixOk;
      var offset: int, align: int := *, *;
      AddTlsLinked(s0, Saved(), head, p, offset, align);
      g := g.(tlsCnt := g.tlsCnt + 1, tlsAlign := align, tlsOffset := offset);
      if g.tlsTail.Some? {
        g := g.(tlsNext := g.tlsNext[g.tlsTail.value := Some(p)]);
      } else {
        g := g.(tlsHead := Some(p));
      }
      g := g.(tlsTail := Some(p));
      tlsList := tlsList + [p];
    }

    /** The search for a DSO with the same inode; it does not look at the head. */
    method FindLoaded(ino: Inode) returns (r: Option<Id>)
      requires Valid()
      ensures r.Some? ==> r.value in g.next && r.value in g.inode && g.inode[r.value] == ino
      ensures (r.Some? ==> r.value != head) && |chain| > 0 && (r.Some? <==> ino in Loaded(chain, g.inode))
    {
      hide ScopeOk, TlsOk, DepsLive, PrefixOk;
      ChainEnds(g.next, g.prev, chain, head, g.tail);
      assert LinkOk(g.next, chain, 0);
      var q := g.next[head];
      ghost var j := 1;
      while q.Some?
        invariant 1 <= j <= |chain| && q == if j < |chain| then Some(chain[j]) else None
        invariant forall i :: 1 <= i < j ==> chain[i] in g.inode && g.inode[chain[i]] != ino
        decreases |chain| - j
      {
        assert LinkOk(g.next, chain, j) && chain[0] != chain[j];
        if g.inode[q.value] == ino { return q; }
        q := g.next[q.value];
        j := j + 1;
      }
      return None;
    }

    /** `load_direct_deps` at run time. */
    method LoadDirectDeps(ghost s0: Core, fs: Files, p: Id, noload: bool) returns (ok: bool)
      requires Valid() && Grew(s0, Saved()) && p in g.next && OldDeps(s0, deps) && (p in s0.g.next ==> deps[p].Some?)
      modifies this
      ensures Valid() && Grew(s0, Saved()) && Untouched(old(Saved()), Saved())
      ensures SameMarks(old(bfsBuilt), old(marks), bfsBuilt, marks)
      ensures OldDeps(s0, deps) && DepsKeptBut(old(deps), deps, p) && p in deps && (ok ==> deps[p].Some?)
      ensures NewNone(old(deps), deps)
      ensures Advanced(fs, old(Saved()), Saved()) && CountsKept(old(ndirect), ndirect, {p})
      ensures fs.reliable && NamesExist(fs) && !noload ==> ok
      ensures ok && old(deps)[p].None? ==> Direct(fs, g.inode, deps, ndirect, head, p) && NewIn(old(chain), chain, deps, p)
    {
      hide Linked, Grew, Untouched, Advanced, DepsLive, OldDeps, Resolved, PrefixOk, NamesExist;
      UntouchedSame(Saved());
      AdvancedSame(fs, Saved());
      DepsKeys(deps, g.next.Keys);
      if deps[p].Some? { return true; }
      if !fs.reliable {
        if * { return false; }   // no memory for the list
      }
      LiveKeys(Saved(), head, p);
      SetDeps(s0, deps, g.next.Keys, p, []);
      PrefixSet(deps, ndirect, p, []);
      deps := deps[p := Some([])];
      ok := LoadNeeded(s0, fs, p, noload);
      if !ok { return; }
      PrefixCount(deps, ndirect, p);
      ndirect := ndirect[p := |deps[p].value|];
    }

    /** The loop over the needed names. */
    method LoadNeeded(ghost s0: Core, fs: Files, p: Id, noload: bool) returns (ok: bool)
      requires Valid() && Grew(s0, Saved()) && p in g.next && p in g.inode && p !in s0.g.next
      requires OldDeps(s0, deps) && p in deps && deps[p] == Some([])
      modifies this
      ensures Valid() && Grew(s0, Saved()) && Untouched(old(Saved()), Saved())
      ensures SameMarks(old(bfsBuilt), old(marks), bfsBuilt, marks)
      ensures OldDeps(s0, deps) && DepsKeptBut(old(deps), deps, p) && NewNone(old(deps), deps) && p in deps && deps[p].Some?
      ensures Advanced(fs, old(Saved()), Saved()) && CountsKept(old(ndirect), ndirect, {})
      ensures fs.reliable && NamesExist(fs) && !noload ==> ok
      ensures ok ==> p in g.inode && Resolved(fs, g.inode, NeededBy(fs, g.inode[p]), deps[p].value) && head !in deps[p].value
      ensures ok ==> NewIn(old(chain), chain, deps, p)
    {
      hide Linked, Grew, Untouched, Advanced, DepsLive, OldDeps, Resolved, PrefixOk, NewDso;
      UntouchedSame(Saved());
      AdvancedSame(fs, Saved());
      assert NewIn(chain, chain, deps, p);
      hide NewIn;
      var needed := NeededBy(fs, g.inode[p]);
      ghost var ino := g.inode[p];
      var i := 0;
      NoneResolved(fs, g.inode, needed);
      while i < |needed|
        invariant 0 <= i <= |needed| && Valid() && Grew(s0, Saved()) && Untouched(old(Saved()), Saved())
        invariant SameMarks(old(bfsBuilt), old(marks), bfsBuilt, marks)
        invariant OldDeps(s0, deps) && DepsKeptBut(old(deps), deps, p)
        invariant p in g.next && p in deps && deps[p].Some? && Advanced(fs, old(Saved()), Saved())
        invariant p in g.inode && g.inode[p] == ino && Resolved(fs, g.inode, needed[..i], deps[p].value)
        invariant head !in deps[p].value && CountsKept(old(ndirect), ndirect, {}) && NewNone(old(deps), deps)
        invariant NewIn(old(chain), chain, deps, p)
      {
        ghost var c, d := Saved(), deps;
        var dep := LoadLibrary(s0, fs, needed[i], noload);
        StillResolved(fs, c, Saved(), needed[..i], d[p].value, p);
        LoadingAdvances(fs, c, Saved());
        AdvancedTrans(fs, old(Saved()), c, Saved());
        UntouchedTrans(old(Saved()), c, Saved());
        KeepsOld(s0, d, deps);
        if dep.None? { return false; }
        DepsKeys(deps, g.next.Keys);
        AppendDep(s0, deps, g.next.Keys, p, dep.value);
        OneResolved(fs, g.inode, needed, deps[p].value, dep.value);
        PrefixSet(deps, ndirect, p, deps[p].value + [dep.value]);
        deps := deps[p := Some(deps[p].value + [dep.value])];
        NewInNext(old(chain), c.chain, chain, d, deps, p, dep.value);
        i := i + 1;
      }
      assert needed[..i] == needed;
      ok := true;
    }

    /** `load_deps`: from `p` on along the chain, which grows meanwhile. */
    method LoadDeps(ghost s0: Core, fs: Files, p: Id, noload: bool, ghost k0: nat) returns (ok: bool)
      requires Valid() && Linked(s0, head) && Grew(s0, Saved()) && OldDeps(s0, deps)
      requires k0 < |chain| && chain[k0] == p && p in deps
      requires if deps[p].Some? then HaveDeps(chain, deps, |chain|)
               else k0 == |s0.chain| && |chain| == k0 + 1 && HaveDeps(chain, deps, k0) && Unlisted(chain, deps, k0)
      modifies this
      ensures Valid() && Grew(s0, Saved()) && Untouched(old(Saved()), Saved())
      ensures SameMarks(old(bfsBuilt), old(marks), bfsBuilt, marks)
      ensures OldDeps(s0, deps) && (ok ==> HaveDeps(chain, deps, |chain|))
      ensures SameDirect(s0, old(deps), old(ndirect), deps, ndirect)
      ensures ok && old(deps)[p].None? ==> AllDirect(fs, g.inode, deps, ndirect, head, chain, k0, |chain|)
      ensures ok && old(deps)[p].None? ==> Wanted(chain, deps, k0, |chain|)
      ensures old(deps)[p].Some? ==> ok && Saved() == old(Saved()) && deps == old(deps) && ndirect == old(ndirect)
      ensures fs.reliable && NamesExist(fs) && !noload ==> ok
    {
      hide Linked, Grew, Untouched, DepsLive, PrefixOk, OldDeps, HaveDeps, SameDirect, NamesExist, AllDirect, Unlisted, Wanted;
      UntouchedSame(Saved());
      EqualLists(s0, deps, ndirect, deps, ndirect);
      if deps[p].Some? { return true; }
      ghost var c, d, n := Saved(), deps, ndirect;
      NoneDirect(fs, c, deps, ndirect, head, k0);
      NoneWanted(chain, deps, k0);
      ok := LoadFrom(s0, c, d, n, fs, p, noload, k0);
    }

    method LoadFrom(ghost s0: Core, ghost c0: Core, ghost d0: map<Id, Option<seq<Id>>>, ghost n0: map<Id, int>, fs: Files,
                    p: Id, noload: bool, ghost k0: nat)
      returns (ok: bool)
      requires Valid() && Linked(s0, head) && LoadedTo(fs, s0, c0, d0, n0, Saved(), deps, ndirect, head, k0, k0)
      requires k0 < |chain| && chain[k0] == p && |s0.chain| <= k0
      modifies this
      ensures Valid() && SameMarks(old(bfsBuilt), old(marks), bfsBuilt, marks)
      ensures Grew(s0, Saved()) && Untouched(c0, Saved()) && OldDeps(s0, deps) && SameDirect(s0, d0, n0, deps, ndirect)
      ensures ok ==> LoadedTo(fs, s0, c0, d0, n0, Saved(), deps, ndirect, head, k0, |chain|)
      ensures fs.reliable && NamesExist(fs) && !noload ==> ok
    {
      hide Linked, Grew, Untouched, DepsLive, PrefixOk, OldDeps, SameDirect, NamesExist, LoadedTo, Pending;
      var q := Some(p);
      ghost var k := k0;
      while q.Some?
        invariant k0 <= k <= |chain| && q == if k < |chain| then Some(chain[k]) else None
        invariant Valid() && SameMarks(old(bfsBuilt), old(marks), bfsBuilt, marks)
        invariant LoadedTo(fs, s0, c0, d0, n0, Saved(), deps, ndirect, head, k0, k)
        decreases |Pending(fs, Saved())|, |chain| - k
      {
        ok := LoadNext(s0, c0, d0, n0, fs, q.value, noload, k0, k);
        if !ok { return; }
        q := g.next[q.value];
        k := k + 1;
      }
      LoadedSo(fs, s0, c0, d0, n0, Saved(), deps, ndirect, head, k0, k);
      ok := true;
    }

    /** The DSO at position `k` gets its direct dependencies. */
    method LoadNext(ghost s0: Core, ghost c0: Core, ghost d0: map<Id, Option<seq<Id>>>, ghost n0: map<Id, int>, fs: Files,
                    q: Id, noload: bool, ghost k0: nat, ghost k: nat)
      returns (ok: bool)
      requires Valid() && Linked(s0, head) && LoadedTo(fs, s0, c0, d0, n0, Saved(), deps, ndirect, head, k0, k)
      requires k < |chain| && chain[k] == q && |s0.chain| <= k0
      modifies this
      ensures Valid() && SameMarks(old(bfsBuilt), old(marks), bfsBuilt, marks)
      ensures Grew(s0, Saved()) && Untouched(c0, Saved()) && OldDeps(s0, deps) && SameDirect(s0, d0, n0, deps, ndirect)
      ensures ok ==> LoadedTo(fs, s0, c0, d0, n0, Saved(), deps, ndirect, head, k0, k + 1)
      ensures ok ==> k < |chain| && q in g.next && g.next[q] == LinkAt(chain, k)
      ensures ok ==> |Pending(fs, Saved())| < old(|Pending(fs, Saved())|) ||
                     (|Pending(fs, Saved())| == old(|Pending(fs, Saved())|) && |chain| == old(|chain|))
      ensures fs.reliable && NamesExist(fs) && !noload ==> ok
    {
      hide Linked, Grew, Untouched, Advanced, Pending, DepsLive, PrefixOk, OldDeps, HaveDeps, SameDirect, DepsKeptBut,
        Resolved, NamesExist, Direct, AllDirect, Unlisted, NewNone, CountsKept, Wanted, NewIn;
      ghost var c, d, n := Saved(), deps, ndirect;
      NewAt(s0, c, head, k);
      NextUnlisted(chain, deps, k);
      ok := LoadDirectDeps(s0, fs, q, noload);
      UntouchedTrans(c0, c, Saved());
      SameLists(s0, d, n, deps, ndirect, q);
      SameTrans(s0, d0, n0, d, n, deps, ndirect);
      if !ok { return; }
      MoreDeps(c, Saved(), head, fs, d, deps, k);
      MoreDirect(fs, c, Saved(), head, d, deps, n, ndirect, k0, k);
      PrefixKept(c, Saved());
      MoreWanted(c.chain, chain, d, deps, k0, k);
    }

    /** `extend_bfs_deps`: what is on the list is marked too, and then it is rebuilt from its
        direct part. A failure leaves the marks. If the list had no other part, the result
        is everything `p` depends on, each DSO past the direct ones once; with marks left
        from before, that holds of the DSOs loaded since. */
    method ExtendBfsDeps(ghost s0: Core, fs: Files, p: Id) returns (ok: bool)
      requires Valid() && OldDeps(s0, deps) && p in deps && AllDeps(deps)
      modifies this`deps, this`bfsBuilt, this`marks
      ensures Valid() && OldDeps(s0, deps) && AllDeps(deps) && DepsKeptBut(old(deps), deps, p)
      ensures p in deps && (fs.reliable ==> ok) && Lists(deps, ndirect) == old(Lists(deps, ndirect))
      ensures p in old(bfsBuilt) ==> ok && deps == old(deps) && SameMarks(old(bfsBuilt), old(marks), bfsBuilt, marks)
      ensures ok && p !in old(bfsBuilt) ==> marks == {} && bfsBuilt == old(bfsBuilt) + {p}
      ensures ok && p !in old(bfsBuilt) && p in Lists(deps, ndirect) ==>
        (Everything(Lists(deps, ndirect), p, deps[p].value, {}) <==>
         NoHarm(Lists(deps, ndirect), p, old(marks) + (set x | x in old(deps)[p].value), {}))
      ensures ok && p !in old(bfsBuilt) && |old(deps)[p].value| == ndirect[p] ==>
        (old(marks) == {} ==> Everything(Lists(deps, ndirect), p, deps[p].value, {})) &&
        (old(marks) <= s0.g.next.Keys ==> Everything(Lists(deps, ndirect), p, deps[p].value, s0.g.next.Keys))
    {
      hide Linked, DepsLive, PrefixOk, OldDeps, Lists, Everything, Grown, Closed;
      if p in bfsBuilt { return true; }
      DepsKeys(deps, g.next.Keys);
      ghost var live, dm := g.next.Keys, Lists(deps, ndirect);
      OldClosed(s0, live, deps, ndirect);
      ListsAt(deps, ndirect, p);
      ListLive(s0, deps, live, p);
      var list := deps[p].value[..ndirect[p]];
      marks := marks + (set x | x in deps[p].value);
      ghost var pre := marks;
      BeginGrown(dm, p, pre);
      var n;
      ok, list, n := GrowList(s0, fs, p, list, pre);
      GrownStarts(dm, p, pre, marks, list, n);
      if ok {
        GrownAll(dm, p, pre, marks, list, s0.g.next.Keys);
        GrownAll(dm, p, pre, marks, list, {});
      }
      if ok || n > 0 { Relist(s0, live, p, list); }
      if !ok { return; }
      bfsBuilt, marks := bfsBuilt + {p}, {};
    }

    /** The loop: `n` members have been visited when it ends, or a reallocation fails. */
    method GrowList(ghost s0: Core, fs: Files, ghost p: Id, l: seq<Id>, ghost pre: set<Id>)
      returns (ok: bool, list: seq<Id>, n: nat)
      requires Valid() && OldDeps(s0, deps) && AllDeps(deps)
      requires Grown(Lists(deps, ndirect), p, pre, marks, l, 0) && LiveList(s0, g.next.Keys, p, l)
      modifies this`marks
      ensures Valid() && (ok ==> n == |list|) && (fs.reliable ==> ok)
      ensures Grown(Lists(deps, ndirect), p, pre, marks, list, n) && LiveList(s0, g.next.Keys, p, list)
    {
      hide Linked, DepsLive, PrefixOk, OldDeps, Lists, Grown;
      ghost var live, dm := g.next.Keys, Lists(deps, ndirect);
      list, n := l, 0;
      while n < |list|
        invariant Valid() && n <= |list| && Grown(dm, p, pre, marks, list, n) && LiveList(s0, live, p, list)
        decreases Lacking(live, list), |list| - n
      {
        if !fs.reliable {
          if * { return false, list, n; }   // no memory for the longer list
        }
        ghost var l0 := list;
        list := VisitMember(s0, p, list, pre, n);
        GrownLonger(live, l0, list);
        n := n + 1;
      }
      ok := true;
    }

    /** Append the unmarked direct dependencies of the member at position `i`. */
    method VisitMember(ghost s0: Core, ghost p: Id, l: seq<Id>, ghost pre: set<Id>, i: nat) returns (list: seq<Id>)
      requires Valid() && OldDeps(s0, deps) && AllDeps(deps) && i < |l|
      requires Grown(Lists(deps, ndirect), p, pre, marks, l, i) && LiveList(s0, g.next.Keys, p, l)
      modifies this`marks
      ensures Valid() && l <= list && Appended(list, |l|)
      ensures Grown(Lists(deps, ndirect), p, pre, marks, list, i + 1) && LiveList(s0, g.next.Keys, p, list)
    {
      hide Linked, DepsLive, PrefixOk, OldDeps, Lists, Grown;
      ghost var dm, live := Lists(deps, ndirect), g.next.Keys;
      DepsKeys(deps, live);
      var dep := l[i];
      ListsAt(deps, ndirect, dep);
      ListLive(s0, deps, live, dep);
      var ds := deps[dep].value[..ndirect[dep]];
      list := l;
      var j := 0;
      while j < |ds|
        invariant 0 <= j <= |ds| && l <= list && Grown(dm, p, pre, marks, list, i) && LiveList(s0, live, p, list)
        invariant (forall k :: 0 <= k < j ==> ds[k] in marks) && Appended(list, |l|) && marks <= live
      {
        if ds[j] !in marks {
          GrowOne(dm, p, pre, marks, list, i, ds[j], |l|);
          list, marks := list + [ds[j]], marks + {ds[j]};
        }
        j := j + 1;
      }
      GrownNext(dm, p, pre, marks, list, i);
    }

    /** Store a list of `p` that starts with its direct dependencies. */
    method Relist(ghost s0: Core, ghost live: set<Id>, p: Id, list: seq<Id>)
      requires Valid() && OldDeps(s0, deps) && AllDeps(deps) && p in deps && live == g.next.Keys
      requires p in Lists(deps, ndirect) && Lists(deps, ndirect)[p] <= list && LiveList(s0, live, p, list)
      modifies this`deps
      ensures Valid() && OldDeps(s0, deps) && AllDeps(deps) && deps == old(deps)[p := Some(list)]
      ensures Lists(deps, ndirect) == old(Lists(deps, ndirect))
    {
      hide Linked, DepsLive, PrefixOk, OldDeps, Lists;
      DepsKeys(deps, live);
      SetDeps(s0, deps, live, p, list);
      Relisted(deps, ndirect, p, list);
      deps := deps[p := Some(list)];
    }

    // ----- the global scope

    method AddSyms(p: Id)
      requires Valid() && p in g.next
      modifies this`g, this`scope
      ensures Valid() && scope == if p in old(scope) then old(scope) else old(scope) + [p]
      ensures g == old(g).(symsNext := g.symsNext, symsTail := g.symsTail)
    {
      hide ScopeOk, ChainOk, TlsOk, DepsLive, PrefixOk;
      ScopeAppend(g.symsNext, scope, head, g.symsTail, p);
      if g.symsNext[p].None? && g.symsTail != p {
        g := g.(symsNext := g.symsNext[g.symsTail := Some(p)], symsTail := p);
        scope := scope + [p];
      }
    }

    /** `p` and all its dependencies. */
    method AddAllSyms(ghost s0: Core, p: Id)
      requires Valid() && Grew(s0, Saved()) && p in g.next && p in deps && deps[p].Some?
      modifies this`g, this`scope
      ensures Valid() && Grew(s0, Saved()) && old(scope) <= scope && Global(scope, deps, p)
      ensures scope == WithSyms(old(scope), [p] + deps[p].value)
      ensures g == old(g).(symsNext := g.symsNext, symsTail := g.symsTail)
    {
      hide Linked, DepsLive, PrefixOk, Grew, WithSyms;
      ghost var c := Saved();
      AddSyms(p);
      var l := deps[p].value;
      var i := 0;
      ghost var order := [p] + l;
      NoSyms(c.scope, order);
      while i < |l|
        invariant 0 <= i <= |l| && Valid() && scope == WithSyms(c.scope, order[..i + 1])
        invariant g == c.g.(symsNext := g.symsNext, symsTail := g.symsTail)
      {
        InList(deps, g.next.Keys, p, i);
        WithSymsNext(c.scope, order, i + 1);
        AddSyms(l[i]);
        i := i + 1;
      }
      assert order[..i + 1] == order;
      AllGlobal(c.scope, deps, p);
      GrewScope(s0, c, Saved());
    }

    // ----- relocation

    /** `prepare_lazy`. */
    method PrepareLazy(ghost s0: Core, fs: Files, p: Id) returns (ok: bool)
      requires Valid() && Grew(s0, Saved()) && p in g.next && p in g.inode && p !in s0.g.next
      modifies this`g
      ensures Valid() && Grew(s0, Saved()) && g == old(g).(lazyNext := g.lazyNext, lazyHead := g.lazyHead)
      ensures ok ==> (g.lazyNext, g.lazyHead) ==
                     if g.inode[p] in fs.bindNow then (old(g.lazyNext), old(g.lazyHead))
                     else Push(old(g.lazyNext), old(g.lazyHead), p)
      ensures fs.reliable ==> ok
    {
      hide ChainOk, ScopeOk, TlsOk, DepsLive, PrefixOk, Grew;
      if g.inode[p] in fs.bindNow { return true; }
      if !fs.reliable {
        if * { return false; }   // no memory for the records
      }
      LazyGrew(s0, Saved(), p, g.lazyHead);
      g := g.(lazyNext := g.lazyNext[p := g.lazyHead], lazyHead := Some(p));
      ok := true;
    }

    /** Prepare `p` and each member of its list that is not yet relocated. */
    method PrepareAll(ghost s0: Core, fs: Files, p: Id) returns (ok: bool)
      requires Valid() && Grew(s0, Saved()) && p in g.next && p !in s0.g.next && p !in g.relocated
      requires p in deps && deps[p].Some? && forall q :: q in s0.g.next ==> q in g.relocated
      modifies this`g
      ensures Valid() && Grew(s0, Saved()) && g == old(g).(lazyNext := g.lazyNext, lazyHead := g.lazyHead)
      ensures ok ==> (g.lazyNext, g.lazyHead) ==
                     Pushed(old(g.lazyNext), old(g.lazyHead), Chosen(fs, g.relocated, g.inode, [p] + deps[p].value))
      ensures fs.reliable ==> ok
    {
      hide Linked, DepsLive, PrefixOk, Grew, Chosen, Pushed, Push;
      var l := deps[p].value;
      ghost var order := [p] + l;
      LiveKeys(Saved(), head, p);
      PushedNone(g.lazyNext, g.lazyHead, fs, g.relocated, g.inode, order);
      PushedNext(g.lazyNext, g.lazyHead, fs, g.relocated, g.inode, order, 0);
      ok := PrepareLazy(s0, fs, p);
      if !ok { return; }
      var i := 0;
      while i < |l|
        invariant 0 <= i <= |l| && Valid() && Grew(s0, Saved())
        invariant g == old(g).(lazyNext := g.lazyNext, lazyHead := g.lazyHead)
        invariant (g.lazyNext, g.lazyHead) ==
                  Pushed(old(g.lazyNext), old(g.lazyHead), Chosen(fs, g.relocated, g.inode, order[..i + 1]))
      {
        InList(deps, g.next.Keys, p, i);
        LiveKeys(Saved(), head, l[i]);
        assert order[i + 1] == l[i];
        PushedNext(old(g.lazyNext), old(g.lazyHead), fs, g.relocated, g.inode, order, i + 1);
        if l[i] !in g.relocated {
          ok := PrepareLazy(s0, fs, l[i]);
          if !ok { return; }
        }
        i := i + 1;
      }
      assert order[..i + 1] == order;
      ok := true;
    }

    /** `reloc_all` from `p` on: each DSO not yet relocated is, unless that fails. `bound` has
        the scope in which each was. */
    method RelocAll(ghost s0: Core, fs: Files, p: Id, ghost k0: nat) returns (ok: bool, ghost bound: map<Id, seq<Id>>)
      requires Valid() && Linked(s0, head) && Grew(s0, Saved()) && |s0.chain| <= k0 < |chain| && chain[k0] == p
      modifies this`g
      ensures Valid() && Grew(s0, Saved()) && g == old(g).(relocated := g.relocated)
      ensures fs.reliable ==> ok
      ensures old(g.relocated) <= g.relocated && (ok ==> forall i :: k0 <= i < |chain| ==> chain[i] in g.relocated)
      ensures BoundIn(old(g.relocated), g.relocated, bound, scope)
    {
      hide ChainOk, ScopeOk, TlsOk, DepsLive, PrefixOk, Grew;
      bound := map[];
      var q := Some(p);
      ghost var k := k0;
      while q.Some?
        invariant k0 <= k <= |chain| && q == if k < |chain| then Some(chain[k]) else None
        invariant BoundIn(old(g.relocated), g.relocated, bound, scope)
        invariant Valid() && Grew(s0, Saved()) && g == old(g).(relocated := g.relocated)
        invariant old(g.relocated) <= g.relocated && forall i :: k0 <= i < k ==> chain[i] in g.relocated
        decreases |chain| - k
      {
        NewAt(s0, Saved(), head, k);
        NextAt(g.next, g.prev, chain, head, g.tail, k);
        if q.value !in g.relocated {
          if !fs.reliable {
            if * { return false, bound; }   // a symbol is missing, or the type is not supported
          }
          RelocGrew(s0, Saved(), q.value);
          g := g.(relocated := g.relocated + {q.value});
          bound := bound[q.value := scope];
        }
        q := g.next[q.value];
        k := k + 1;
      }
      ok := true;
    }

    // ----- the transaction

    /** `dlopen` of a name, up to where deferred relocations are replayed and the new TLS
        is installed. It fails at any point, or not at all. `constructed` has the DSOs whose
        constructors have run, `queued` tells whether there are constructors to run, and
        `bound` has the scope in which each DSO was relocated. */
    method Dlopen(fs: Files, file: Name, lazy: bool, global: bool, noload: bool, constructed: set<Id>)
      returns (r: Option<Id>, queued: bool, ghost bound: map<Id, seq<Id>>)
      requires Valid() && Settled()
      modifies this
      ensures Valid() && Settled()
      ensures r.None? ==> Saved() == old(Saved()) && Lists(deps, ndirect) == old(Lists(deps, ndirect))
      ensures fs.reliable && NamesExist(fs) && file in fs.names && !noload ==> r.Some?
      ensures fs.reliable && file in fs.names && fs.names[file] in Loaded(old(chain), old(g.inode)) ==> r.Some?
      ensures r.Some? ==> file in fs.names && r.value in g.inode && g.inode[r.value] == fs.names[file]
      ensures r.Some? ==> r.value in chain && old(chain) <= chain && old(tlsList) <= tlsList
      ensures r.Some? ==> (r.value in old(g.next) <==> fs.names[file] in Loaded(old(chain), old(g.inode)))
      ensures r.Some? && r.value in old(g.next) ==> chain == old(chain)
      ensures noload && r.Some? ==> fs.names[file] in Loaded(old(chain), old(g.inode))
      ensures queued <==> r.Some? && r.value !in constructed
      ensures r.Some? ==>
        r.value in deps && deps[r.value].Some? &&
        MarksLeft(old(bfsBuilt), old(marks), constructed, r.value, deps[r.value].value, marks)
      ensures r.Some? && !global ==> scope == old(scope)
      ensures r.Some? && global ==> Global(scope, deps, r.value) && scope == WithSyms(old(scope), [r.value] + deps[r.value].value)
      ensures r.Some? ==> SameDirect(old(Saved()), old(deps), old(ndirect), deps, ndirect)
      ensures r.Some? && r.value !in old(g.next) ==>
        r.value in deps && deps[r.value].Some? && OnlyNeeded(chain, |old(chain)|, r.value, deps[r.value].value) &&
        BoundIn(old(g.next).Keys, g.next.Keys, bound, WithSyms(old(scope), [r.value] + deps[r.value].value)) &&
        Complete(fs, old(g.next).Keys, old(marks) == {}, g.inode, Lists(deps, ndirect), head, r.value, deps[r.value].value)
      ensures r.Some? && IsList(old(g.lazyNext), old(g.lazyHead)) ==>
        (IsList(g.lazyNext, g.lazyHead) <==> LazySafe(fs, Loaded(old(chain), old(g.inode)), fs.names[file], lazy))
    {
      hide Linked, Grew, DepsLive, PrefixOk, OldDeps, OldDone, Lists, SameDirect, AllDeps, Global, NamesExist, Opened, IsList,
        LazySafe, Loaded, Settled, Complete, OnlyNeeded, BoundIn, WithSyms, MarksLeft;
      ghost var s0, d0, n0 := Saved(), deps, ndirect;
      queued, bound := false, map[];
      var orig := Orig(g.tail, g.symsTail, g.lazyHead, g.tlsTail, g.tlsCnt, g.tlsOffset, g.tlsAlign);
      ghost var k0: nat;
      r, k0 := Open(fs, file, noload);
      if r.None? { return; }
      var ok;
      ok, queued, bound := Proceed(s0, d0, n0, orig, fs, r.value, k0, lazy, global, noload, constructed);
      if !ok { r := None; }
    }

    /** `load_library` of the file itself. */
    method Open(fs: Files, file: Name, noload: bool) returns (r: Option<Id>, ghost k: nat)
      requires Valid() && Settled()
      modifies this
      ensures Valid() && Grew(old(Saved()), Saved()) && OldDone(old(Saved()), old(g.relocated)) && AllDeps(old(deps))
      ensures r.None? ==> Settled() && Saved() == old(Saved()) && deps == old(deps) && ndirect == old(ndirect)
      ensures r.Some? ==> Opened(old(Saved()), Saved(), deps, r.value, k) && bfsBuilt + marks <= old(g.next).Keys
      ensures r.Some? ==> bfsBuilt == old(bfsBuilt)
      ensures r.Some? ==> SameDirect(old(Saved()), old(deps), old(ndirect), deps, ndirect) && marks == old(marks)
      ensures r.Some? ==> file in fs.names && r.value in g.inode && g.inode[r.value] == fs.names[file] && r.value != head
      ensures r.Some? && noload ==> r.value in old(g.next)
      ensures r.Some? && r.value in old(g.next) ==> chain == old(chain)
      ensures fs.reliable && file in fs.names && !noload ==> r.Some?
      ensures file in fs.names && fs.names[file] in Loaded(old(chain), old(g.inode)) ==> r.Some? && r.value in old(g.next)
      ensures noload && r.Some? ==> fs.names[file] in Loaded(old(chain), old(g.inode))
      ensures r.Some? && r.value in old(g.next) ==> fs.names[file] in Loaded(old(chain), old(g.inode))
    {
      ghost var s0, d0, n0 := Saved(), deps, ndirect;
      AtRest(s0, head, d0);
      hide Linked, Grew, DepsLive, PrefixOk, OldDeps, OldDone, HaveDeps, AllDone, Untouched, DepsKept, Lists, SameDirect,
        AllDeps, NewDso, NamesExist;
      k := 0;
      r := LoadLibrary(s0, fs, file, noload);
      if r.None? { return; }
      k := OpenedAt(s0, d0, Saved(), head, deps, r.value);
      if r.value in s0.g.next { OldIsLoaded(s0, head, r.value); }
      KeptLists(s0, d0, n0, deps, ndirect);
    }

    method Proceed(ghost s0: Core, ghost d0: map<Id, Option<seq<Id>>>, ghost n0: map<Id, int>, orig: Orig, fs: Files, p: Id,
                   ghost k0: nat, lazy: bool, global: bool, noload: bool, constructed: set<Id>)
      returns (ok: bool, queued: bool, ghost bound: map<Id, seq<Id>>)
      requires Valid() && Linked(s0, head) && Grew(s0, Saved()) && Opened(s0, Saved(), deps, p, k0) && IsOrig(orig, s0)
      requires DepsLive(d0, s0.g.next.Keys) && AllDeps(d0) && PrefixOk(d0, n0) && OldDone(s0, s0.g.relocated)
      requires SameDirect(s0, d0, n0, deps, ndirect) && p != head && bfsBuilt + marks <= s0.g.next.Keys
      modifies this
      ensures Valid() && Settled()
      ensures !ok ==> Saved() == s0 && Lists(deps, ndirect) == Lists(d0, n0)
      ensures queued <==> ok && p !in constructed
      ensures ok ==> p in deps && deps[p].Some? && MarksLeft(old(bfsBuilt), old(marks), constructed, p, deps[p].value, marks)
      ensures ok ==> p in chain && s0.chain <= chain && s0.tlsList <= tlsList && s0.scope <= scope
      ensures ok ==> if global then Global(scope, deps, p) && scope == WithSyms(s0.scope, [p] + deps[p].value)
                     else scope == s0.scope
      ensures fs.reliable && NamesExist(fs) && !noload ==> ok
      ensures fs.reliable && p in s0.g.next ==> ok
      ensures ok && p in old(g.inode) ==>
        p in g.inode && g.inode[p] == old(g.inode)[p] && LazyAfter(fs, s0, g, g.inode[p], lazy)
      ensures ok && p in s0.g.next ==> chain == old(chain)
      ensures ok ==> p in deps && deps[p].Some? && SameDirect(s0, d0, n0, deps, ndirect)
      ensures ok && p !in s0.g.next ==>
        OnlyNeeded(chain, |s0.chain|, p, deps[p].value) &&
        BoundIn(s0.g.next.Keys, g.next.Keys, bound, WithSyms(s0.scope, [p] + deps[p].value)) &&
        Complete(fs, s0.g.next.Keys, old(marks) == {}, g.inode, Lists(deps, ndirect), head, p, deps[p].value)
    {
      hide Linked, Grew, DepsLive, PrefixOk, OldDeps, OldDone, HaveDeps, AllDone, Opened, DepsKept, Lists, SameDirect,
        AllDeps, Global, NamesExist, LazyAfter, Complete, OnlyNeeded, BoundIn, WithSyms, MarksLeft;
      ghost var d1, n1 := deps, ndirect;
      ok, queued, bound := Steps(s0, fs, p, k0, lazy, global, noload, constructed);
      ghost var d2, n2, c2 := deps, ndirect, Saved();
      SameTrans(s0, d0, n0, d1, n1, d2, n2);
      Finish(s0, orig, ok, global);
      if !ok { queued := false; }
      if ok && p in g.inode { SameLazy(fs, s0, c2.g, g, g.inode[p], lazy); }
      if ok {
        NowAtRest(Saved(), head, deps);
      } else {
        SameTrans(s0, d0, n0, d2, n2, deps, ndirect);
        FailedAtRest(s0, d0, n0, deps, ndirect);
      }
    }

    /** Commit or roll back. */
    method Finish(ghost s0: Core, orig: Orig, ok: bool, global: bool)
      requires Valid() && Linked(s0, head) && Grew(s0, Saved()) && OldDeps(s0, deps) && IsOrig(orig, s0)
      modifies this
      ensures Valid() && (!ok ==> Saved() == s0 && SameDirect(s0, old(deps), old(ndirect), deps, ndirect))
      ensures ok ==> deps == old(deps) && ndirect == old(ndirect) && chain == old(chain)
      ensures ok ==> g.relocated == old(g.relocated) && g.inode == old(g.inode) && g.next == old(g.next)
      ensures ok ==> s0.chain <= chain && s0.tlsList <= tlsList && s0.scope <= scope
      ensures ok ==> scope == (if global then old(scope) else s0.scope)
      ensures ok ==> SameMarks(old(bfsBuilt), old(marks), bfsBuilt, marks)
      ensures ok ==> g.lazyNext == old(g.lazyNext) && g.lazyHead == old(g.lazyHead)
    {
      hide Linked, Grew, DepsLive, PrefixOk, OldDeps, SameDirect;
      if !ok {
        Rollback(s0, orig);
        return;
      }
      OldTails(s0, Saved(), head);
      if !global { RevertSyms(orig.symsTail, |s0.scope| - 1); }
    }

    /** Everything after `load_library`. */
    method Steps(ghost s0: Core, fs: Files, p: Id, ghost k0: nat, lazy: bool, global: bool, noload: bool,
                 constructed: set<Id>)
      returns (ok: bool, queued: bool, ghost bound: map<Id, seq<Id>>)
      requires Valid() && Linked(s0, head) && Grew(s0, Saved()) && Opened(s0, Saved(), deps, p, k0)
      requires p != head && bfsBuilt + marks <= s0.g.next.Keys
      modifies this
      ensures Valid() && Grew(s0, Saved()) && OldDeps(s0, deps) && SameDirect(s0, old(deps), old(ndirect), deps, ndirect)
      ensures ok ==> AllDeps(deps) && AllDone(chain, g.relocated, |chain|) && p in chain && p in deps && deps[p].Some?
      ensures ok ==> MarksLeft(old(bfsBuilt), old(marks), constructed, p, deps[p].value, marks) && (queued <==> p !in constructed)
      ensures ok && global ==> Global(scope, deps, p) && scope == WithSyms(s0.scope, [p] + deps[p].value)
      ensures fs.reliable && NamesExist(fs) && !noload ==> ok
      ensures fs.reliable && p in s0.g.next ==> ok
      ensures p in old(g.inode) ==> p in g.inode && g.inode[p] == old(g.inode)[p]
      ensures ok ==> p in g.inode && LazyAfter(fs, s0, g, g.inode[p], lazy)
      ensures p in s0.g.next ==> chain == old(chain)
      ensures ok && p !in s0.g.next ==>
        OnlyNeeded(chain, |s0.chain|, p, deps[p].value) &&
        BoundIn(s0.g.next.Keys, g.next.Keys, bound, WithSyms(s0.scope, [p] + deps[p].value)) &&
        Complete(fs, s0.g.next.Keys, old(marks) == {}, g.inode, Lists(deps, ndirect), head, p, deps[p].value)
    {
      hide Linked, Grew, DepsLive, PrefixOk, OldDeps, Untouched, HaveDeps, AllDone, OldDone, AllDeps, SameDirect, Lists,
        Chosen, Pushed, Global, NamesExist, AllLoaded, Everything, Opened, LazyAfter, Complete, OnlyNeeded, BoundIn, WithSyms;
      queued, bound := false, map[];
      ok := Gather(s0, fs, p, k0, noload);
      if !ok { return; }
      ok, queued := QueueCtors(fs, p, constructed);
      if !ok { return; }
      ghost var c := Saved();
      if p !in g.relocated && lazy {
        NotOld(s0, g.relocated, p);
        ok := PrepareAll(s0, fs, p);
        if !ok { return; }
        PreparedLazy(fs, s0, c, head, deps, ndirect, p, g);
      } else {
        NoneLazy(fs, s0, c, head, p, lazy);
      }
      ghost var g1 := g;
      if p !in g.relocated || global { AddAllSyms(s0, p); }
      if p !in g.relocated {
        NotOld(s0, g.relocated, p);
        ghost var r0 := g.relocated;
        ok, bound := RelocAll(s0, fs, p, k0);
        if ok {
          DoneMore(chain, r0, g.relocated, k0);
          NewBound(s0, Saved(), head, r0, bound, scope);
        }
      }
      SameLazy(fs, s0, g1, g, g.inode[p], lazy);
    }

    /** What `queue_ctors` does to the marks, if `p` has not been constructed: those on the
        list are cleared first, and in the end those in the queue. */
    method QueueCtors(fs: Files, p: Id, constructed: set<Id>) returns (ok: bool, queued: bool)
      requires Valid() && p in deps && deps[p].Some?
      modifies this`marks
      ensures Valid() && (fs.reliable ==> ok) && (queued <==> ok && p !in constructed)
      ensures p in constructed ==> ok && marks == old(marks)
      ensures p !in constructed ==>
        marks == old(marks) - (set x | x in deps[p].value) - if ok then {p} else {}
    {
      hide Linked, DepsLive, PrefixOk;
      if p in constructed { return true, false; }
      marks := marks - (set x | x in deps[p].value);
      if !fs.reliable {
        if * { return false, false; }   // no memory for the queue
      }
      marks := marks - {p};
      ok, queued := true, true;
    }

    /** Load and list everything `p` depends on. */
    method Gather(ghost s0: Core, fs: Files, p: Id, ghost k0: nat, noload: bool) returns (ok: bool)
      requires Valid() && Linked(s0, head) && Grew(s0, Saved()) && Opened(s0, Saved(), deps, p, k0)
      requires bfsBuilt + marks <= s0.g.next.Keys
      modifies this
      ensures Valid() && Grew(s0, Saved()) && OldDeps(s0, deps) && SameDirect(s0, old(deps), old(ndirect), deps, ndirect)
      ensures p in old(g.inode) ==> p in g.inode && g.inode[p] == old(g.inode)[p]
      ensures p in s0.g.next ==> chain == old(chain)
      ensures ok ==> AllDeps(deps) && k0 < |chain| && chain[k0] == p && p in chain && p in deps && deps[p].Some?
      ensures ok ==> p in g.next && p in g.inode && OldDone(s0, g.relocated) && scope == s0.scope
      ensures ok ==> marks == if p in old(bfsBuilt) then old(marks) else {}
      ensures ok ==> g.relocated == s0.g.relocated && g.lazyHead == s0.g.lazyHead
      ensures ok ==> if p in s0.g.next then p in g.relocated && AllDone(chain, g.relocated, |chain|)
                     else k0 == |s0.chain| && p !in g.relocated && AllDone(chain, g.relocated, k0)
      ensures ok && p !in s0.g.next ==>
        AllLoaded(fs, s0, Saved(), head, Lists(deps, ndirect)) &&
        Everything(Lists(deps, ndirect), p, deps[p].value, s0.g.next.Keys) &&
        OnlyNeeded(chain, |s0.chain|, p, deps[p].value) &&
        Complete(fs, s0.g.next.Keys, old(marks) == {}, g.inode, Lists(deps, ndirect), head, p, deps[p].value)
      ensures fs.reliable && NamesExist(fs) && !noload ==> ok
      ensures fs.reliable && p in s0.g.next ==> ok
    {
      hide Linked, Grew, DepsLive, PrefixOk, OldDeps, Untouched, HaveDeps, AllDone, OldDone, AllDeps, SameDirect, Lists,
        DepsKeptBut, NamesExist, AllLoaded, Everything, AllDirect, Complete, Wanted, OnlyNeeded;
      ghost var d0, n0, c0 := deps, ndirect, Saved();
      if p in s0.g.next { OldHasDeps(s0, c0, deps, k0); }
      ok := LoadDeps(s0, fs, p, noload, k0);
      SameFile(c0, Saved(), p);
      if !ok { return; }
      StillAt(s0, c0, Saved(), head, k0);
      EveryDeps(Saved(), head, deps, p);
      LiveKeys(Saved(), head, p);
      ghost var d1, n1 := deps, ndirect;
      if p !in s0.g.next { FreshDirect(fs, g.inode, d1, n1, head, chain, k0); }
      ok := ExtendBfsDeps(s0, fs, p);
      SomeDeps(deps, p);
      EqualLists(s0, d1, n1, deps, ndirect);
      SameTrans(s0, d0, n0, d1, n1, deps, ndirect);
      if ok && p !in s0.g.next {
        NowAllLoaded(fs, s0, Saved(), head, d1, deps, ndirect);
        NowComplete(fs, s0, Saved(), old(marks) == {}, Lists(deps, ndirect), head, p, deps[p].value);
        NothingElse(fs, s0, Saved(), head, d1, ndirect, k0, deps[p].value);
      }
    }

    /** The branch taken when the jump buffer is used. */
    method Rollback(ghost s0: Core, orig: Orig)
      requires Valid() && Linked(s0, head) && Grew(s0, Saved()) && OldDeps(s0, deps) && IsOrig(orig, s0)
      modifies this
      ensures Valid() && Saved() == s0 && SameDirect(s0, old(deps), old(ndirect), deps, ndirect)
    {
      hide Linked, Grew, DepsLive, PrefixOk, OldDeps;
      OldTails(s0, Saved(), head);
      RevertSyms(orig.symsTail, |s0.scope| - 1);
      ghost var c, deps0, ndirect0 := Saved(), deps, ndirect;
      GrewCut(s0, old(Saved()), c);
      FreeAdded(s0, orig.tail);
      ghost var gone := Added(s0, c);
      ChainBack(s0, c, head, gone);
      ScopeBack(s0, c, head, gone);
      TlsBack(s0, c, head, gone);
      RestBack(s0, c, head, gone);
      DepsBack(s0, c, head, deps0, ndirect0, gone);
      CountsBack(deps0, ndirect0, gone);
      if orig.tlsTail.None? { g := g.(tlsHead := None); }
      g := g.(tlsTail := orig.tlsTail);
      if g.tlsTail.Some? { g := g.(tlsNext := g.tlsNext[g.tlsTail.value := None]); }
      g := g.(tlsCnt := orig.tlsCnt, tlsOffset := orig.tlsOffset, tlsAlign := orig.tlsAlign, lazyHead := orig.lazyHead,
              tail := orig.tail);
      g := g.(next := g.next[g.tail := None]);
      chain, tlsList := s0.chain, s0.tlsList;
    }

    /** Free the DSOs past the old end of the chain. */
    method FreeAdded(ghost s0: Core, origTail: Id)
      requires Valid() && Linked(s0, head) && Grew(s0, Saved()) && origTail == s0.g.tail
      modifies this`g, this`deps, this`bfsBuilt, this`marks, this`ndirect
      ensures g == Without(old(g), Added(s0, Saved())) && deps == old(deps) - Added(s0, Saved())
      ensures ndirect == old(ndirect) - Added(s0, Saved()) && bfsBuilt == old(bfsBuilt) - Added(s0, Saved())
      ensures marks == old(marks) - Added(s0, Saved())
    {
      hide Linked, Grew, DepsLive, PrefixOk, Without, Between;
      ghost var c, n := Saved(), |s0.chain|;
      ghost var gone: set<Id> := {};
      OldTails(s0, c, head);
      LinkPast(s0, c, head, n - 1);
      WithoutNone(g);
      NoneBetween(chain, n);
      var p := g.next[origTail];
      ghost var j := n;
      while p.Some?
        invariant n <= j <= |chain| && p == if j < |chain| then Some(chain[j]) else None
        invariant gone == Between(chain, n, j)
        invariant g == Without(c.g, gone) && deps == old(deps) - gone && ndirect == old(ndirect) - gone
        invariant bfsBuilt == old(bfsBuilt) - gone && marks == old(marks) - gone
        decreases |chain| - j
      {
        LinkPast(s0, c, head, j);
        BetweenNext(chain, n, j);
        WithoutMore(c.g, gone, p.value);
        MinusMore(old(deps), gone, p.value);
        MinusMore(old(ndirect), gone, p.value);
        var q := g.next[p.value];
        gone := gone + {p.value};
        g := Without(g, {p.value});
        deps, ndirect := deps - {p.value}, ndirect - {p.value};
        bfsBuilt, marks := bfsBuilt - {p.value}, marks - {p.value};
        p := q;
        j := j + 1;
      }
    }

    /** Cut the scope back to one of its members. */
    method RevertSyms(oldTail: Id, ghost k: nat)
      requires Valid() && k < |scope| && scope[k] == oldTail
      modifies this`g, this`scope
      ensures Valid() && scope == old(scope)[..k + 1]
      ensures g == old(g).(symsNext := g.symsNext, symsTail := oldTail)
    {
      hide ScopeOk, ChainOk, TlsOk, DepsLive, PrefixOk, CutAt;
      BeginCut(g.symsNext, scope, head, g.symsTail, k);
      var p := Some(oldTail);
      ghost var j := k;
      while p.Some?
        invariant k <= j <= |scope| && scope == old(scope) && g == old(g).(symsNext := g.symsNext)
        invariant p == if j < |scope| then Some(scope[j]) else None
        invariant g.symsNext.Keys == old(g.symsNext).Keys && CutAt(g.symsNext, scope, head, k, j)
        decreases |scope| - j
      {
        CutNext(g.symsNext, scope, head, k, j);
        var q := g.symsNext[p.value];
        g := g.(symsNext := g.symsNext[p.value := None]);
        p := q;
        j := j + 1;
      }
      EndCut(g.symsNext, scope, head, k);
      g := g.(symsTail := oldTail);
      scope := scope[..k + 1];
    }
  }

  /** File 10 needs file 20 under two names. */
  const TWO_NAMES := Files(map[1 := 10, 2 := 20, 3 := 20], map[10 := [2, 3]], {}, true)

  /** Files 10 and 20 need each other. */
  const CIRCLE := Files(map[1 := 10, 2 := 20], map[10 := [2], 20 := [1]], {}, true)

  lemma TwoNamesUnsafe()
    ensures NamesExist(TWO_NAMES) && !LazySafe(TWO_NAMES, {}, 10, true)
  {
    assert SameNew(TWO_NAMES, {}, NeededBy(TWO_NAMES, 10)[0], NeededBy(TWO_NAMES, 10)[1]);
  }

  lemma CircleUnsafe()
    ensures NamesExist(CIRCLE) && !LazySafe(CIRCLE, {}, 10, true)
  {
    assert NeededBy(CIRCLE, 10)[0] == 2 && NeededBy(CIRCLE, 20)[0] == 1;
    assert FileStep(CIRCLE, {}, 10, 20) && FileStep(CIRCLE, {}, 20, 10);
    assert FileWalk(CIRCLE, {}, [10, 20, 10]);
  }

  /** The lazy list ends up a circle. */
  method OpenTwoNames() returns (l: Loader, r: Option<Id>)
    ensures r.Some? && !IsList(l.g.lazyNext, l.g.lazyHead)
  {
    hide Linked, DepsLive, PrefixOk, Lists, Global, IsList, LazySafe, NamesExist;
    l := new Loader(0);
    assert Loaded(l.chain, l.g.inode) == {};
    TwoNamesUnsafe();
    var queued;
    ghost var bound;
    r, queued, bound := l.Dlopen(TWO_NAMES, 1, true, false, false, {});
  }

  /** Here too. */
  method OpenCircle() returns (l: Loader, r: Option<Id>)
    ensures r.Some? && !IsList(l.g.lazyNext, l.g.lazyHead)
  {
    hide Linked, DepsLive, PrefixOk, Lists, Global, IsList, LazySafe, NamesExist;
    l := new Loader(0);
    assert Loaded(l.chain, l.g.inode) == {};
    CircleUnsafe();
    var queued;
    ghost var bound;
    r, queued, bound := l.Dlopen(CIRCLE, 1, true, false, false, {});
  }
}
