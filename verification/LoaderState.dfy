/** The linker's global state while it loads, and what every step of `dlopen` does to it.
    DSOs are named by their addresses; each pointer field is a map whose domain is the set
    of live DSOs, so that reading through a freed DSO is an error. */
module LoaderState {
  import opened Collections
  import opened ListGrowth
  import opened Wrappers

  type Id = int
  type Name = int
  type Inode = int
  type Links = map<Id, Option<Id>>

  /** What a name resolves to, what each file lists as needed, and which files ask to be
      bound at once; `reliable` if memory suffices, files can be mapped and symbols found. */
  datatype Files = Files(names: map<Name, Inode>, needed: map<Inode, seq<Name>>, bindNow: set<Inode>, reliable: bool)

  function NeededBy(fs: Files, ino: Inode): seq<Name> { if ino in fs.needed then fs.needed[ino] else [] }

  /** Whatever a file needs exists. */
  ghost predicate NamesExist(fs: Files) {
    forall ino, i :: ino in fs.needed && 0 <= i < |fs.needed[ino]| ==> fs.needed[ino][i] in fs.names
  }

  /** The DSOs of `l` are those of the names in `needed`. */
  ghost predicate Resolved(fs: Files, inode: map<Id, Inode>, needed: seq<Name>, l: seq<Id>) {
    |l| == |needed| &&
    forall i :: 0 <= i < |l| ==> needed[i] in fs.names && l[i] in inode && inode[l[i]] == fs.names[needed[i]]
  }

  // ----- linked lists

  /** `l` is the list threaded through `nxt` from its first element to its end. */
  ghost predicate Threads(nxt: Links, l: seq<Id>) {
    NoDup(l) && forall i :: 0 <= i < |l| ==> LinkOk(nxt, l, i)
  }

  ghost predicate LinkOk(nxt: Links, l: seq<Id>, i: int)
    requires 0 <= i < |l|
  {
    l[i] in nxt && nxt[l[i]] == LinkAt(l, i)
  }

  ghost function LinkAt(l: seq<Id>, i: int): Option<Id>
    requires 0 <= i < |l|
  {
    if i == |l| - 1 then None else Some(l[i + 1])
  }

  ghost predicate OthersNull(nxt: Links, l: seq<Id>) {
    forall p :: p in nxt && p !in l ==> nxt[p].None?
  }

  ghost function FirstOf(l: seq<Id>): Option<Id> { if l == [] then None else Some(l[0]) }

  ghost function LastOf(l: seq<Id>): Option<Id> { if l == [] then None else Some(l[|l| - 1]) }

  lemma ThreadsAppend(nxt: Links, l: seq<Id>, p: Id)
    requires Threads(nxt, l) && OthersNull(nxt, l) && l != [] && p in nxt && p !in l
    ensures var nxt' := nxt[l[|l| - 1] := Some(p)]; Threads(nxt', l + [p]) && OthersNull(nxt', l + [p])
  {
    var nxt', l' := nxt[l[|l| - 1] := Some(p)], l + [p];
    forall i | 0 <= i < |l'| ensures LinkOk(nxt', l', i) {
      if i < |l| - 1 { assert LinkOk(nxt, l, i) && l[i] != l[|l| - 1]; }
      if i == |l| { assert p !in l; }
    }
  }

  lemma ThreadsFirst(nxt: Links, p: Id)
    requires p in nxt && OthersNull(nxt, [])
    ensures Threads(nxt, [p]) && OthersNull(nxt, [p])
  {
  }

  /** A new DSO's fields are null. */
  lemma ThreadsNew(nxt: Links, l: seq<Id>, p: Id)
    requires Threads(nxt, l) && OthersNull(nxt, l) && p !in nxt
    ensures Threads(nxt[p := None], l) && OthersNull(nxt[p := None], l)
  {
    var nxt' := nxt[p := None];
    forall i | 0 <= i < |l| ensures LinkOk(nxt', l, i) { assert LinkOk(nxt, l, i); }
  }

  /** The links are determined by the list and the DSOs. */
  lemma LinksDetermined(a: Links, b: Links, l: seq<Id>)
    requires a.Keys == b.Keys && Threads(a, l) && OthersNull(a, l) && Threads(b, l) && OthersNull(b, l)
    ensures a == b
  {
    forall p | p in a ensures a[p] == b[p] {
      if p in l {
        var i :| 0 <= i < |l| && l[i] == p;
        assert LinkOk(a, l, i) && LinkOk(b, l, i);
      }
    }
  }

  // ----- the state

  /** Everything a failed `dlopen` has to put back. */
  datatype Globals = Globals(
    tail: Id, next: Links, prev: Links, inode: map<Id, Inode>, relocated: set<Id>,
    symsNext: Links, symsTail: Id,
    tlsHead: Option<Id>, tlsTail: Option<Id>, tlsNext: Links, tlsCnt: int, tlsOffset: int, tlsAlign: int,
    lazyHead: Option<Id>, lazyNext: Links)

  /** The state with the lists it stands for. */
  datatype Core = Core(g: Globals, chain: seq<Id>, scope: seq<Id>, tlsList: seq<Id>)

  ghost predicate Linked(c: Core, head: Id) {
    SameKeys(c) && c.g.tlsCnt == |c.tlsList| && ChainOk(c.g.next, c.g.prev, c.chain, head, c.g.tail) &&
    ScopeOk(c.g.symsNext, c.scope, head, c.g.symsTail) && TlsOk(c.g.tlsNext, c.tlsList, c.g.tlsHead, c.g.tlsTail)
  }

  ghost predicate SameKeys(c: Core) {
    var live := c.g.next.Keys;
    c.g.prev.Keys == live && c.g.inode.Keys == live && c.g.symsNext.Keys == live && c.g.tlsNext.Keys == live &&
    c.g.lazyNext.Keys == live && c.g.relocated <= live
  }

  /** The chain is exactly the live DSOs. */
  ghost predicate ChainOk(next: Links, prev: Links, l: seq<Id>, head: Id, tail: Id) {
    Threads(next, l) && FirstOf(l) == Some(head) && LastOf(l) == Some(tail) && (forall p :: p in next <==> p in l) &&
    forall i :: 0 <= i < |l| ==> BackOk(prev, l, i)
  }

  /** The global scope is a list from the head to `syms_tail`. */
  ghost predicate ScopeOk(nxt: Links, l: seq<Id>, head: Id, tail: Id) {
    Threads(nxt, l) && OthersNull(nxt, l) && FirstOf(l) == Some(head) && LastOf(l) == Some(tail)
  }

  ghost predicate TlsOk(nxt: Links, l: seq<Id>, head: Option<Id>, tail: Option<Id>) {
    Threads(nxt, l) && OthersNull(nxt, l) && FirstOf(l) == head && LastOf(l) == tail
  }

  ghost predicate BackOk(prev: Links, l: seq<Id>, i: int)
    requires 0 <= i < |l|
  {
    l[i] in prev && prev[l[i]] == if i == 0 then None else Some(l[i - 1])
  }

  /** `b` is reached from `a` by loading: every list of `a` is a prefix, and what `a` holds
      of its own DSOs besides list ends is unchanged. */
  ghost predicate Grew(a: Core, b: Core) {
    a.chain <= b.chain && a.scope <= b.scope && a.tlsList <= b.tlsList &&
    (forall i :: |a.tlsList| <= i < |b.tlsList| ==> b.tlsList[i] !in a.g.next) &&
    (forall p :: p in a.g.next ==> Kept(a, b, p)) && OwnFiles(|a.chain|, b.chain, b.g.inode)
  }

  /** From position `n` on, each DSO has a file that none before it has; the head does not
      count. */
  ghost predicate OwnFiles(n: nat, chain: seq<Id>, inode: map<Id, Inode>) {
    forall i, j :: n <= i < |chain| && 1 <= j < i && chain[i] in inode && chain[j] in inode ==>
      inode[chain[i]] != inode[chain[j]]
  }

  ghost predicate Kept(a: Core, b: Core, p: Id) {
    p in a.g.inode && p in b.g.inode && a.g.inode[p] == b.g.inode[p] && p in a.g.lazyNext && p in b.g.lazyNext &&
    a.g.lazyNext[p] == b.g.lazyNext[p] && (p in a.g.relocated <==> p in b.g.relocated)
  }

  // ----- loading

  /** The chain and all fields after a new DSO has been appended. */
  ghost function AddDso(c: Core, p: Id, ino: Inode): Core {
    var g := c.g;
    Core(g.(next := g.next[g.tail := Some(p)][p := None], prev := g.prev[p := Some(g.tail)], inode := g.inode[p := ino],
            symsNext := g.symsNext[p := None], tlsNext := g.tlsNext[p := None], lazyNext := g.lazyNext[p := None],
            tail := p),
         c.chain + [p], c.scope, c.tlsList)
  }

  lemma ChainAppend(next: Links, prev: Links, l: seq<Id>, head: Id, tail: Id, p: Id)
    requires ChainOk(next, prev, l, head, tail) && p !in next
    ensures ChainOk(next[tail := Some(p)][p := None], prev[p := Some(tail)], l + [p], head, p)
  {
    assert OthersNull(next, l);
    ThreadsNew(next, l, p);
    ThreadsAppend(next[p := None], l, p);
    assert next[p := None][tail := Some(p)] == next[tail := Some(p)][p := None];
    var l', prev' := l + [p], prev[p := Some(tail)];
    forall i | 0 <= i < |l'| ensures BackOk(prev', l', i) {
      if i < |l| { assert BackOk(prev, l, i) && LinkOk(next, l, i); }
    }
  }

  lemma ChainEnds(next: Links, prev: Links, l: seq<Id>, head: Id, tail: Id)
    requires ChainOk(next, prev, l, head, tail)
    ensures head in next && tail in next
  {
    assert LinkOk(next, l, 0) && LinkOk(next, l, |l| - 1);
  }

  lemma NewUnlinked(c: Core, head: Id, p: Id)
    requires ScopeOk(c.g.symsNext, c.scope, head, c.g.symsTail) && TlsOk(c.g.tlsNext, c.tlsList, c.g.tlsHead, c.g.tlsTail)
    requires p !in c.g.symsNext && p !in c.g.tlsNext
    ensures ScopeOk(c.g.symsNext[p := None], c.scope, head, c.g.symsTail)
    ensures TlsOk(c.g.tlsNext[p := None], c.tlsList, c.g.tlsHead, c.g.tlsTail)
  {
    hide Threads, OthersNull;
    ThreadsNew(c.g.symsNext, c.scope, p);
    ThreadsNew(c.g.tlsNext, c.tlsList, p);
  }

  lemma AddDsoKeys(c: Core, p: Id, ino: Inode)
    requires SameKeys(c) && c.g.tail in c.g.next
    ensures SameKeys(AddDso(c, p, ino)) && AddDso(c, p, ino).g.next.Keys == c.g.next.Keys + {p}
  {
    var keys := c.g.next.Keys + {p};
    assert c.g.next[c.g.tail := Some(p)][p := None].Keys == keys;
    assert c.g.prev[p := Some(c.g.tail)].Keys == keys;
  }

  lemma AddDsoGrew(s0: Core, c: Core, head: Id, p: Id, ino: Inode)
    requires Linked(c, head) && Grew(s0, c) && p !in c.g.inode && ino !in Loaded(c.chain, c.g.inode)
    ensures Grew(s0, AddDso(c, p, ino))
  {
    hide Threads, ScopeOk, TlsOk;
    var d := AddDso(c, p, ino);
    forall q | q in s0.g.next ensures Kept(s0, d, q) { assert Kept(s0, c, q); }
    MembersLive(c.g.next, c.chain);
    forall i, j | |s0.chain| <= i < |d.chain| && 1 <= j < i && d.chain[i] in d.g.inode && d.chain[j] in d.g.inode
      ensures d.g.inode[d.chain[i]] != d.g.inode[d.chain[j]]
    {
      assert d.chain[j] == c.chain[j] && c.chain[j] in c.g.next && c.chain[j] != p;
      if i < |c.chain| { assert d.chain[i] == c.chain[i] && c.chain[i] in c.g.next && c.chain[i] != p; }
    }
  }

  lemma AddDsoLinked(s0: Core, c: Core, head: Id, p: Id, ino: Inode)
    requires Linked(c, head) && Grew(s0, c) && p !in c.g.next && ino !in Loaded(c.chain, c.g.inode)
    ensures Linked(AddDso(c, p, ino), head) && Grew(s0, AddDso(c, p, ino))
  {
    hide ChainOk, ScopeOk, TlsOk, Grew;
    AddDsoGrew(s0, c, head, p, ino);
    ChainAppend(c.g.next, c.g.prev, c.chain, head, c.g.tail, p);
    ChainEnds(c.g.next, c.g.prev, c.chain, head, c.g.tail);
    NewUnlinked(c, head, p);
    AddDsoKeys(c, p, ino);
  }

  /** A new TLS module, with new counters. */
  ghost function AddTls(c: Core, p: Id, offset: int, align: int): Core {
    var g := c.g;
    Core(g.(tlsCnt := g.tlsCnt + 1, tlsOffset := offset, tlsAlign := align, tlsTail := Some(p),
            tlsHead := if g.tlsTail.Some? then g.tlsHead else Some(p),
            tlsNext := if g.tlsTail.Some? then g.tlsNext[g.tlsTail.value := Some(p)] else g.tlsNext),
         c.chain, c.scope, c.tlsList + [p])
  }

  lemma TlsAppend(nxt: Links, l: seq<Id>, head: Option<Id>, tail: Option<Id>, p: Id)
    requires TlsOk(nxt, l, head, tail) && p in nxt && p !in l
    ensures tail.Some? ==> tail.value in nxt && TlsOk(nxt[tail.value := Some(p)], l + [p], head, Some(p))
    ensures tail.None? ==> TlsOk(nxt, l + [p], Some(p), Some(p))
  {
    if tail.Some? {
      assert LinkOk(nxt, l, |l| - 1);
      ThreadsAppend(nxt, l, p);
    } else {
      ThreadsFirst(nxt, p);
      assert l + [p] == [p];
    }
  }

  /** A DSO that was not there before is on no list. */
  lemma NewUnlisted(s0: Core, c: Core, head: Id, p: Id)
    requires Linked(c, head) && Grew(s0, c) && p !in c.g.next
    ensures p !in s0.g.next && p !in c.tlsList && c.g.tlsTail != Some(p) && p !in c.g.inode
  {
    forall q | q in s0.g.next ensures q in c.g.inode { assert Kept(s0, c, q); }
    forall i | 0 <= i < |c.tlsList| ensures c.tlsList[i] in c.g.tlsNext { assert LinkOk(c.g.tlsNext, c.tlsList, i); }
  }

  lemma AddTlsLinked(s0: Core, c: Core, head: Id, p: Id, offset: int, align: int)
    requires Linked(c, head) && Grew(s0, c) && p in c.g.next && p !in s0.g.next && p !in c.tlsList
    ensures Linked(AddTls(c, p, offset, align), head) && Grew(s0, AddTls(c, p, offset, align))
  {
    hide ChainOk, ScopeOk, TlsOk;
    var d := AddTls(c, p, offset, align);
    TlsAppend(c.g.tlsNext, c.tlsList, c.g.tlsHead, c.g.tlsTail, p);
    assert SameKeys(d);
    forall q | q in s0.g.next ensures Kept(s0, d, q) { assert Kept(s0, c, q); }
  }

  lemma {:induction false} FreshId(s: set<Id>) returns (p: Id)
    ensures p !in s && forall q :: q in s ==> q < p
  {
    p := 0;
    if m :| m in s {
      var k := FreshId(s - {m});
      p := if m < k then k else m + 1;
      forall q | q in s ensures q < p { if q != m { assert q in s - {m}; } }
    }
  }

  /** Dependency lists name live DSOs. */
  ghost predicate DepsLive(deps: map<Id, Option<seq<Id>>>, live: set<Id>) {
    deps.Keys == live &&
    forall p :: p in deps && deps[p].Some? ==> forall i :: 0 <= i < |deps[p].value| ==> deps[p].value[i] in live
  }

  /** The direct dependencies are a prefix of each list. */
  ghost predicate PrefixOk(deps: map<Id, Option<seq<Id>>>, ndirect: map<Id, int>) {
    ndirect.Keys == deps.Keys &&
    forall p :: p in deps ==> 0 <= ndirect[p] <= if deps[p].Some? then |deps[p].value| else 0
  }

  /** What was known of the direct dependencies still is, except of `but`. */
  ghost predicate CountsKept(a: map<Id, int>, b: map<Id, int>, but: set<Id>) {
    forall p :: p in a && p !in but ==> p in b && b[p] == a[p]
  }

  /** `q` has exactly the DSOs of the names its file needs, and not the head. */
  ghost predicate Direct(fs: Files, inode: map<Id, Inode>, deps: map<Id, Option<seq<Id>>>, ndirect: map<Id, int>,
                         head: Id, q: Id)
  {
    q in deps && deps[q].Some? && q in inode && q in ndirect && ndirect[q] == |deps[q].value| && head !in deps[q].value &&
    Resolved(fs, inode, NeededBy(fs, inode[q]), deps[q].value)
  }

  // ----- dependency lists and rollback

  lemma PrefixSet(deps: map<Id, Option<seq<Id>>>, ndirect: map<Id, int>, p: Id, l: seq<Id>)
    requires PrefixOk(deps, ndirect) && p in deps && (deps[p].Some? ==> |deps[p].value| <= |l|)
    ensures PrefixOk(deps[p := Some(l)], ndirect)
  {
  }

  lemma PrefixCount(deps: map<Id, Option<seq<Id>>>, ndirect: map<Id, int>, p: Id)
    requires PrefixOk(deps, ndirect) && p in deps && deps[p].Some?
    ensures PrefixOk(deps, ndirect[p := |deps[p].value|])
  {
  }

  lemma NewCount(deps: map<Id, Option<seq<Id>>>, ndirect: map<Id, int>, p: Id)
    requires PrefixOk(deps, ndirect) && p !in deps
    ensures PrefixOk(deps[p := None], ndirect[p := 0]) && p !in ndirect
  {
  }

  lemma NewDeps(deps: map<Id, Option<seq<Id>>>, c: Core, head: Id, p: Id, ino: Inode)
    requires Linked(c, head) && DepsLive(deps, c.g.next.Keys) && p !in c.g.next
    ensures p !in deps && p != head && DepsLive(deps[p := None], AddDso(c, p, ino).g.next.Keys)
  {
    hide ScopeOk, TlsOk, ChainOk;
    ChainEnds(c.g.next, c.g.prev, c.chain, head, c.g.tail);
    AddDsoKeys(c, p, ino);
  }

  // ----- rolling back

  /** The fields of a DSO disappear with it. */
  function Without(g: Globals, gone: set<Id>): Globals {
    g.(next := g.next - gone, prev := g.prev - gone, inode := g.inode - gone, relocated := g.relocated - gone,
       symsNext := g.symsNext - gone, tlsNext := g.tlsNext - gone, lazyNext := g.lazyNext - gone)
  }

  lemma WithoutNone(g: Globals)
    ensures Without(g, {}) == g
  {
  }

  lemma WithoutMore(g: Globals, gone: set<Id>, p: Id)
    ensures Without(Without(g, gone), {p}) == Without(g, gone + {p})
    ensures p in g.next && p !in gone ==> p in Without(g, gone).next && Without(g, gone).next[p] == g.next[p]
  {
  }

  ghost function Added(s0: Core, c: Core): set<Id>
    requires |s0.chain| <= |c.chain|
  {
    Between(c.chain, |s0.chain|, |c.chain|)
  }

  ghost function Between(chain: seq<Id>, a: nat, b: nat): set<Id> { set i | a <= i < b && i < |chain| :: chain[i] }

  lemma NoneBetween(chain: seq<Id>, a: nat)
    ensures Between(chain, a, a) == {}
  {
  }

  lemma BetweenNext(chain: seq<Id>, a: nat, b: nat)
    requires a <= b < |chain|
    ensures Between(chain, a, b + 1) == Between(chain, a, b) + {chain[b]}
    ensures (forall i :: 0 <= i < |chain| && i != b ==> chain[i] != chain[b]) ==> chain[b] !in Between(chain, a, b)
  {
  }

  lemma MinusMore<V>(m: map<Id, V>, gone: set<Id>, p: Id)
    ensures m - gone - {p} == m - (gone + {p})
  {
  }

  lemma AddedIs(s0: Core, c: Core, head: Id)
    requires Linked(s0, head) && Linked(c, head) && Grew(s0, c)
    ensures c.g.next.Keys - Added(s0, c) == s0.g.next.Keys
    ensures Added(s0, c) !! s0.g.next.Keys
  {
    hide ScopeOk, TlsOk, Threads;
    forall i | |s0.chain| <= i < |c.chain| ensures c.chain[i] !in s0.g.next { NewAt(s0, c, head, i); }
    forall p ensures p in c.g.next.Keys - Added(s0, c) <==> p in s0.g.next {
      if p in c.chain {
        var i :| 0 <= i < |c.chain| && c.chain[i] == p;
        if i < |s0.chain| { assert s0.chain[i] == p; }
      }
      if p in s0.chain {
        var i :| 0 <= i < |s0.chain| && s0.chain[i] == p;
        assert c.chain[i] == p;
      }
    }
  }

  lemma ChainBack(s0: Core, c: Core, head: Id, gone: set<Id>)
    requires Linked(s0, head) && Linked(c, head) && Grew(s0, c) && gone == Added(s0, c)
    ensures (c.g.next - gone)[s0.g.tail := None] == s0.g.next && c.g.prev - gone == s0.g.prev
  {
    hide ScopeOk, TlsOk, Threads, Grew, BackOk, Added;
    AddedIs(s0, c, head);
    ChainEnds(s0.g.next, s0.g.prev, s0.chain, head, s0.g.tail);
    var next := (c.g.next - gone)[s0.g.tail := None];
    assert next.Keys == s0.g.next.Keys;
    assert (c.g.prev - gone).Keys == s0.g.prev.Keys;
    forall p | p in s0.g.next ensures next[p] == s0.g.next[p] && c.g.prev[p] == s0.g.prev[p] {
      var i :| 0 <= i < |s0.chain| && s0.chain[i] == p;
      LinksBack(s0, c, head, i);
    }
  }

  lemma LinksBack(s0: Core, c: Core, head: Id, i: nat)
    requires Linked(s0, head) && Linked(c, head) && Grew(s0, c) && i < |s0.chain|
    ensures var p := s0.chain[i];
      p in c.g.next && p in s0.g.next && p in c.g.prev && p in s0.g.prev && c.g.prev[p] == s0.g.prev[p] &&
      if p == s0.g.tail then s0.g.next[p].None? else c.g.next[p] == s0.g.next[p]
  {
    hide ScopeOk, TlsOk, OwnFiles, Kept;
    assert c.chain[i] == s0.chain[i] && LinkOk(s0.g.next, s0.chain, i) && LinkOk(c.g.next, c.chain, i);
    assert BackOk(s0.g.prev, s0.chain, i) && BackOk(c.g.prev, c.chain, i);
    if i > 0 { assert s0.chain[i - 1] == c.chain[i - 1]; }
    if i < |s0.chain| - 1 { assert s0.chain[i + 1] == c.chain[i + 1] && s0.chain[i] != s0.chain[|s0.chain| - 1]; }
  }

  /** A list of surviving DSOs is still threaded when the others are gone. */
  lemma ThreadsWithout(nxt: Links, l: seq<Id>, gone: set<Id>)
    requires Threads(nxt, l) && OthersNull(nxt, l) && forall i :: 0 <= i < |l| ==> l[i] !in gone
    ensures Threads(nxt - gone, l) && OthersNull(nxt - gone, l)
  {
    forall i | 0 <= i < |l| ensures LinkOk(nxt - gone, l, i) { assert LinkOk(nxt, l, i); }
  }

  lemma MembersLive(nxt: Links, l: seq<Id>)
    requires Threads(nxt, l)
    ensures forall i :: 0 <= i < |l| ==> l[i] in nxt
  {
    forall i | 0 <= i < |l| ensures l[i] in nxt { assert LinkOk(nxt, l, i); }
  }

  lemma ScopeBack(s0: Core, c: Core, head: Id, gone: set<Id>)
    requires Linked(s0, head) && Linked(c, head) && Grew(s0, c) && gone == Added(s0, c) && c.scope == s0.scope
    ensures c.g.symsNext - gone == s0.g.symsNext && c.g.symsTail == s0.g.symsTail
  {
    hide ChainOk, TlsOk, Threads;
    AddedIs(s0, c, head);
    MembersLive(s0.g.symsNext, s0.scope);
    ThreadsWithout(c.g.symsNext, c.scope, gone);
    assert (c.g.symsNext - gone).Keys == s0.g.symsNext.Keys;
    LinksDetermined(c.g.symsNext - gone, s0.g.symsNext, s0.scope);
  }

  lemma TlsBack(s0: Core, c: Core, head: Id, gone: set<Id>)
    requires Linked(s0, head) && Linked(c, head) && Grew(s0, c) && gone == Added(s0, c)
    ensures s0.g.tlsTail.Some? ==>
      c.g.tlsHead == s0.g.tlsHead && (c.g.tlsNext - gone)[s0.g.tlsTail.value := None] == s0.g.tlsNext
    ensures s0.g.tlsTail.None? ==> c.g.tlsNext - gone == s0.g.tlsNext && s0.g.tlsHead.None?
  {
    hide ChainOk, ScopeOk;
    AddedIs(s0, c, head);
    MembersLive(s0.g.tlsNext, s0.tlsList);
    var nxt := if s0.g.tlsTail.Some? then (c.g.tlsNext - gone)[s0.g.tlsTail.value := None] else c.g.tlsNext - gone;
    assert nxt.Keys == s0.g.tlsNext.Keys;
    forall p | p in s0.g.next ensures nxt[p] == s0.g.tlsNext[p] {
      if p in s0.tlsList {
        var i :| 0 <= i < |s0.tlsList| && s0.tlsList[i] == p;
        assert c.tlsList[i] == p && LinkOk(s0.g.tlsNext, s0.tlsList, i) && LinkOk(c.g.tlsNext, c.tlsList, i);
        if i < |s0.tlsList| - 1 { assert s0.tlsList[i + 1] == c.tlsList[i + 1]; }
      } else {
        assert p !in c.tlsList;
      }
    }
  }

  lemma RestBack(s0: Core, c: Core, head: Id, gone: set<Id>)
    requires Linked(s0, head) && Linked(c, head) && Grew(s0, c) && gone == Added(s0, c)
    ensures c.g.inode - gone == s0.g.inode && c.g.lazyNext - gone == s0.g.lazyNext
    ensures c.g.relocated - gone == s0.g.relocated
  {
    hide ChainOk, ScopeOk, TlsOk;
    AddedIs(s0, c, head);
    assert (c.g.inode - gone).Keys == s0.g.inode.Keys && (c.g.lazyNext - gone).Keys == s0.g.lazyNext.Keys;
    forall p | p in s0.g.next
      ensures c.g.inode[p] == s0.g.inode[p] && c.g.lazyNext[p] == s0.g.lazyNext[p]
      ensures p in c.g.relocated <==> p in s0.g.relocated
    {
      assert Kept(s0, c, p);
    }
  }

  /** What `dlopen` remembers at its start. */
  datatype Orig = Orig(tail: Id, symsTail: Id, lazyHead: Option<Id>, tlsTail: Option<Id>, tlsCnt: int, tlsOffset: int,
                       tlsAlign: int)

  ghost predicate IsOrig(o: Orig, s0: Core) {
    o == Orig(s0.g.tail, s0.g.symsTail, s0.g.lazyHead, s0.g.tlsTail, s0.g.tlsCnt, s0.g.tlsOffset, s0.g.tlsAlign)
  }

  ghost predicate AllDone(chain: seq<Id>, relocated: set<Id>, n: nat)
    requires n <= |chain|
  {
    forall i :: 0 <= i < n ==> chain[i] in relocated
  }

  ghost predicate OldDone(s0: Core, relocated: set<Id>) { forall q :: q in s0.g.next ==> q in relocated }

  lemma NotOld(s0: Core, relocated: set<Id>, p: Id)
    requires OldDone(s0, relocated) && p !in relocated
    ensures p !in s0.g.next && forall q :: q in s0.g.next ==> q in relocated
  {
  }

  lemma DoneMore(chain: seq<Id>, a: set<Id>, b: set<Id>, k: nat)
    requires k <= |chain| && AllDone(chain, a, k) && a <= b && forall i :: k <= i < |chain| ==> chain[i] in b
    ensures AllDone(chain, b, |chain|)
  {
  }

  lemma SomeDeps(deps: map<Id, Option<seq<Id>>>, p: Id)
    requires AllDeps(deps) && p in deps
    ensures deps[p].Some?
  {
  }

  lemma OldHasDeps(s0: Core, c: Core, deps: map<Id, Option<seq<Id>>>, k: nat)
    requires k < |c.chain| && HaveDeps(c.chain, deps, |c.chain|) && OldDone(s0, c.g.relocated) && c.chain[k] in s0.g.next
    ensures c.chain[k] in deps && deps[c.chain[k]].Some? && c.chain[k] in c.g.relocated
  {
    var p := c.chain[k];
    assert p in s0.g.next;
  }

  lemma EveryDeps(c: Core, head: Id, deps: map<Id, Option<seq<Id>>>, p: Id)
    requires Linked(c, head) && DepsLive(deps, c.g.next.Keys) && HaveDeps(c.chain, deps, |c.chain|) && p in c.chain
    ensures AllDeps(deps) && p in deps && deps[p].Some? && p in c.g.next
  {
    hide ScopeOk, TlsOk, Threads;
    forall q | q in deps ensures deps[q].Some? {
      assert q in c.chain;
    }
  }

  /** Positions and finished relocations survive loading. */
  lemma StillAt(s0: Core, c: Core, c': Core, head: Id, k: nat)
    requires Untouched(c, c') && k < |c.chain| && OldDone(s0, c.g.relocated)
    ensures k < |c'.chain| && c'.chain[k] == c.chain[k] && c'.chain[k] in c'.chain && OldDone(s0, c'.g.relocated)
    ensures c'.g.relocated == c.g.relocated && c'.g.lazyHead == c.g.lazyHead && c'.scope == c.scope
    ensures AllDone(c.chain, c.g.relocated, k) ==> AllDone(c'.chain, c'.g.relocated, k)
  {
    if AllDone(c.chain, c.g.relocated, k) {
      forall i | 0 <= i < k ensures c'.chain[i] in c'.g.relocated { assert c'.chain[i] == c.chain[i]; }
    }
  }

  /** Before the call. */
  lemma AtRest(s0: Core, head: Id, deps: map<Id, Option<seq<Id>>>)
    requires Linked(s0, head) && DepsLive(deps, s0.g.next.Keys)
    requires forall p :: p in s0.g.next ==> p in s0.g.relocated && p in deps && deps[p].Some?
    ensures Grew(s0, s0) && OldDeps(s0, deps) && OldDone(s0, s0.g.relocated) && AllDeps(deps)
    ensures HaveDeps(s0.chain, deps, |s0.chain|) && AllDone(s0.chain, s0.g.relocated, |s0.chain|)
  {
    hide ScopeOk, TlsOk, Threads;
    forall p | p in s0.g.next ensures Kept(s0, s0, p) { }
    MembersLive(s0.g.next, s0.chain);
    forall i | 0 <= i < |s0.chain|
      ensures s0.chain[i] in s0.g.relocated && s0.chain[i] in deps && deps[s0.chain[i]].Some?
    {
      var p := s0.chain[i];
      assert p in s0.g.next;
    }
  }

  /** `p` has been loaded, or found, at position `k` of the chain. */
  ghost predicate Opened(s0: Core, c: Core, deps: map<Id, Option<seq<Id>>>, p: Id, k: nat) {
    k < |c.chain| && c.chain[k] == p && p in deps && OldDeps(s0, deps) && OldDone(s0, c.g.relocated) &&
    c.g.relocated == s0.g.relocated && c.g.lazyHead == s0.g.lazyHead && c.scope == s0.scope &&
    if p in s0.g.next then HaveDeps(c.chain, deps, |c.chain|) && AllDone(c.chain, c.g.relocated, |c.chain|)
    else k == |s0.chain| && |c.chain| == k + 1 && deps[p].None? && HaveDeps(c.chain, deps, k) && AllDone(c.chain, c.g.relocated, k) &&
         p !in c.g.relocated && Unlisted(c.chain, deps, k)
  }

  /** After `load_library`: an old DSO somewhere on the chain, or a new one at its end. */
  lemma OpenedAt(s0: Core, d0: map<Id, Option<seq<Id>>>, c: Core, head: Id, deps: map<Id, Option<seq<Id>>>, p: Id)
    returns (k: nat)
    requires Linked(s0, head) && Linked(c, head) && DepsLive(d0, s0.g.next.Keys) && DepsLive(deps, c.g.next.Keys)
    requires HaveDeps(s0.chain, d0, |s0.chain|) && AllDone(s0.chain, s0.g.relocated, |s0.chain|)
    requires OldDeps(s0, d0) && OldDone(s0, s0.g.relocated)
    requires p in c.g.next && Untouched(s0, c) && DepsKept(d0, deps)
    requires if p in s0.g.next then c == s0 && deps == d0 else c.chain == s0.chain + [p]
    ensures Opened(s0, c, deps, p, k)
  {
    hide ScopeOk, TlsOk, Threads;
    assert p in c.chain;
    if p in s0.g.next {
      k :| 0 <= k < |c.chain| && c.chain[k] == p;
    } else {
      k := |s0.chain|;
      KeepsOld(s0, d0, deps);
      forall i | 0 <= i < k ensures c.chain[i] in c.g.relocated && c.chain[i] in deps && deps[c.chain[i]].Some? {
        assert c.chain[i] == s0.chain[i];
      }
    }
  }

  lemma FailedAtRest(s0: Core, d0: map<Id, Option<seq<Id>>>, n0: map<Id, int>, d1: map<Id, Option<seq<Id>>>,
                     n1: map<Id, int>)
    requires DepsLive(d0, s0.g.next.Keys) && DepsLive(d1, s0.g.next.Keys) && AllDeps(d0) && OldDone(s0, s0.g.relocated)
    requires PrefixOk(d0, n0) && PrefixOk(d1, n1) && SameDirect(s0, d0, n0, d1, n1)
    ensures Lists(d1, n1) == Lists(d0, n0)
    ensures forall p :: p in s0.g.next ==> p in s0.g.relocated && p in d1 && d1[p].Some?
  {
    hide Lists, PrefixOk;
    var a, b := Lists(d0, n0), Lists(d1, n1);
    ListsKnown(d0, n0);
    ListsKnown(d1, n1);
    forall p | p in s0.g.next ensures p in a && p in b && b[p] == a[p] && d1[p].Some? {
      ListsAt(d0, n0, p);
      ListKnown(d1, n1, p);
    }
    assert a.Keys == b.Keys;
  }

  lemma NowAtRest(c: Core, head: Id, deps: map<Id, Option<seq<Id>>>)
    requires Linked(c, head) && DepsLive(deps, c.g.next.Keys) && AllDeps(deps) && AllDone(c.chain, c.g.relocated, |c.chain|)
    ensures forall p :: p in c.g.next ==> p in c.g.relocated && p in deps && deps[p].Some?
  {
    hide ScopeOk, TlsOk, Threads;
    forall p | p in c.g.next ensures p in c.g.relocated { assert p in c.chain; }
  }

  lemma OldTails(s0: Core, c: Core, head: Id)
    requires Linked(s0, head) && Grew(s0, c)
    ensures |s0.scope| > 0 && |s0.scope| <= |c.scope| && c.scope[|s0.scope| - 1] == s0.g.symsTail
    ensures 0 < |s0.chain| <= |c.chain| && c.scope[..|s0.scope|] == s0.scope && s0.scope <= c.scope
    ensures s0.chain <= c.chain && s0.tlsList <= c.tlsList
  {
  }

  lemma GrewCut(s0: Core, b: Core, c: Core)
    requires Grew(s0, b) && c.scope == s0.scope && c.chain == b.chain && c.tlsList == b.tlsList
    requires c.g == b.g.(symsNext := c.g.symsNext, symsTail := c.g.symsTail)
    ensures Grew(s0, c)
  {
    forall p | p in s0.g.next ensures Kept(s0, c, p) { assert Kept(s0, b, p); }
  }

  /** Links from the old end of the chain on, and no two positions alike. */
  lemma LinkPast(s0: Core, c: Core, head: Id, j: int)
    requires Linked(s0, head) && Linked(c, head) && Grew(s0, c) && |s0.chain| - 1 <= j < |c.chain|
    ensures 0 < |s0.chain| <= |c.chain| && c.chain[|s0.chain| - 1] == s0.g.tail
    ensures c.chain[j] in c.g.next && c.g.next[c.chain[j]] == LinkAt(c.chain, j)
    ensures forall i :: 0 <= i < |c.chain| && i != j ==> c.chain[i] != c.chain[j]
  {
    assert LinkOk(c.g.next, c.chain, j);
    assert s0.chain[|s0.chain| - 1] == c.chain[|s0.chain| - 1];
  }

  lemma CountsBack(deps: map<Id, Option<seq<Id>>>, ndirect: map<Id, int>, gone: set<Id>)
    requires PrefixOk(deps, ndirect)
    ensures PrefixOk(deps - gone, ndirect - gone)
  {
    assert (ndirect - gone).Keys == (deps - gone).Keys;
  }

  lemma DepsBack(s0: Core, c: Core, head: Id, deps: map<Id, Option<seq<Id>>>, ndirect: map<Id, int>, gone: set<Id>)
    requires Linked(s0, head) && Linked(c, head) && Grew(s0, c) && gone == Added(s0, c)
    requires DepsLive(deps, c.g.next.Keys) && OldDeps(s0, deps)
    ensures DepsLive(deps - gone, s0.g.next.Keys) && SameDirect(s0, deps, ndirect, deps - gone, ndirect - gone)
  {
    hide ChainOk, ScopeOk, TlsOk;
    AddedIs(s0, c, head);
  }

  /** The files loaded after the head. */
  ghost function Loaded(chain: seq<Id>, inode: map<Id, Inode>): set<Inode> {
    set i | 1 <= i < |chain| && chain[i] in inode :: inode[chain[i]]
  }

  /** Loading leaves the scope, the lazy list and the relocation marks alone. */
  ghost predicate Untouched(a: Core, b: Core) {
    a.scope == b.scope && a.g.symsTail == b.g.symsTail && a.g.lazyHead == b.g.lazyHead &&
    a.g.relocated == b.g.relocated && a.chain <= b.chain &&
    forall p :: p in a.g.inode ==> p in b.g.inode && a.g.inode[p] == b.g.inode[p]
  }

  ghost predicate DepsKept(a: map<Id, Option<seq<Id>>>, b: map<Id, Option<seq<Id>>>) {
    (forall p :: p in a ==> p in b && b[p] == a[p]) && forall p :: p in b && p !in a ==> b[p].None?
  }

  /** Files that can still be loaded. */
  ghost function Pending(fs: Files, c: Core): set<Inode> { fs.names.Values - Loaded(c.chain, c.g.inode) }

  /** A longer chain leaves fewer files to load. */
  ghost predicate Advanced(fs: Files, a: Core, b: Core) {
    |Pending(fs, b)| <= |Pending(fs, a)| && (a.chain != b.chain ==> |Pending(fs, b)| < |Pending(fs, a)|)
  }

  lemma LoadingAdvances(fs: Files, a: Core, b: Core)
    requires a.chain == b.chain || NewDso(a.chain, a.g.inode, b.chain, b.g.inode, fs)
    requires Untouched(a, b)
    ensures Advanced(fs, a, b)
  {
    LoadedGrows(a, b);
    var la, lb := Loaded(a.chain, a.g.inode), Loaded(b.chain, b.g.inode);
    var pa, pb := Pending(fs, a), Pending(fs, b);
    SubsetFits(pb, pa);
    if a.chain != b.chain {
      var ino := b.g.inode[b.chain[|a.chain|]];
      assert ino in lb;
      hide Loaded;
      SubsetFits(pb, pa - {ino});
    }
  }

  lemma LoadedGrows(a: Core, b: Core)
    requires Untouched(a, b)
    ensures Loaded(a.chain, a.g.inode) <= Loaded(b.chain, b.g.inode)
  {
    forall i | 1 <= i < |a.chain| && a.chain[i] in a.g.inode ensures a.g.inode[a.chain[i]] in Loaded(b.chain, b.g.inode) {
      assert b.chain[i] == a.chain[i];
    }
  }

  /** One DSO more, for a file that had none. */
  ghost predicate NewDso(chain0: seq<Id>, inode0: map<Id, Inode>, chain: seq<Id>, inode: map<Id, Inode>, fs: Files) {
    |chain0| > 0 && |chain| == |chain0| + 1 && chain0 <= chain && chain[|chain0|] in inode &&
    inode[chain[|chain0|]] in fs.names.Values && inode[chain[|chain0|]] !in Loaded(chain0, inode0)
  }

  /** The DSOs that were there before depend only on each other. */
  ghost predicate OldDeps(s0: Core, deps: map<Id, Option<seq<Id>>>) {
    forall p :: p in s0.g.next && p in deps && deps[p].Some? ==>
      forall i :: 0 <= i < |deps[p].value| ==> deps[p].value[i] in s0.g.next
  }

  ghost predicate DepsKeptBut(a: map<Id, Option<seq<Id>>>, b: map<Id, Option<seq<Id>>>, p: Id) {
    forall q :: q in a && q != p ==> q in b && b[q] == a[q]
  }

  ghost predicate NewNone(a: map<Id, Option<seq<Id>>>, b: map<Id, Option<seq<Id>>>) {
    forall q :: q in b && q !in a ==> b[q].None?
  }

  lemma DepsKeys(deps: map<Id, Option<seq<Id>>>, live: set<Id>)
    requires DepsLive(deps, live)
    ensures deps.Keys == live
  {
  }

  lemma SetDeps(s0: Core, deps: map<Id, Option<seq<Id>>>, live: set<Id>, p: Id, l: seq<Id>)
    requires DepsLive(deps, live) && p in live && OldDeps(s0, deps) && forall i :: 0 <= i < |l| ==> l[i] in live
    requires p in s0.g.next ==> forall i :: 0 <= i < |l| ==> l[i] in s0.g.next
    ensures DepsLive(deps[p := Some(l)], live) && OldDeps(s0, deps[p := Some(l)])
  {
  }

  lemma AppendDep(s0: Core, deps: map<Id, Option<seq<Id>>>, live: set<Id>, p: Id, x: Id)
    requires DepsLive(deps, live) && p in live && OldDeps(s0, deps) && p in deps && deps[p].Some? && x in live
    requires p in s0.g.next ==> x in s0.g.next
    ensures DepsLive(deps[p := Some(deps[p].value + [x])], live) && OldDeps(s0, deps[p := Some(deps[p].value + [x])])
  {
    hide DepsLive, PrefixOk, OldDeps;
    ListLive(s0, deps, live, p);
    SetDeps(s0, deps, live, p, deps[p].value + [x]);
  }

  lemma ListLive(s0: Core, deps: map<Id, Option<seq<Id>>>, live: set<Id>, p: Id)
    requires DepsLive(deps, live) && OldDeps(s0, deps) && p in deps && deps[p].Some?
    ensures forall i :: 0 <= i < |deps[p].value| ==> deps[p].value[i] in live
    ensures p in s0.g.next ==> forall i :: 0 <= i < |deps[p].value| ==> deps[p].value[i] in s0.g.next
  {
  }

  lemma LiveKeys(c: Core, head: Id, p: Id)
    requires Linked(c, head) && p in c.g.next
    ensures p in c.g.prev && p in c.g.inode && p in c.g.symsNext && p in c.g.tlsNext && p in c.g.lazyNext && p in c.chain
  {
  }

  lemma KeepsOld(s0: Core, a: map<Id, Option<seq<Id>>>, b: map<Id, Option<seq<Id>>>)
    requires OldDeps(s0, a) && DepsKept(a, b)
    ensures OldDeps(s0, b)
  {
  }

  lemma NoneResolved(fs: Files, inode: map<Id, Inode>, needed: seq<Name>)
    ensures Resolved(fs, inode, needed[..0], [])
  {
  }

  lemma OneResolved(fs: Files, inode: map<Id, Inode>, needed: seq<Name>, l: seq<Id>, x: Id)
    requires |l| < |needed| && Resolved(fs, inode, needed[..|l|], l)
    requires needed[|l|] in fs.names && x in inode && inode[x] == fs.names[needed[|l|]]
    ensures Resolved(fs, inode, needed[..|l| + 1], l + [x])
  {
    forall i | 0 <= i < |l| ensures needed[..|l|][i] == needed[i] { }
  }

  lemma StillResolved(fs: Files, c: Core, c': Core, needed: seq<Name>, l: seq<Id>, p: Id)
    requires Untouched(c, c') && Resolved(fs, c.g.inode, needed, l) && p in c.g.inode
    ensures Resolved(fs, c'.g.inode, needed, l) && p in c'.g.inode && c'.g.inode[p] == c.g.inode[p] && |l| == |needed|
  {
    forall i | 0 <= i < |l| ensures l[i] in c'.g.inode && c'.g.inode[l[i]] == c.g.inode[l[i]] {
      var x := l[i];
      assert x in c.g.inode;
    }
  }

  lemma SameFile(c: Core, c': Core, p: Id)
    requires Untouched(c, c')
    ensures p in c.g.inode ==> p in c'.g.inode && c'.g.inode[p] == c.g.inode[p]
  {
  }

  lemma UntouchedSame(c: Core)
    ensures Untouched(c, c)
  {
  }

  lemma UntouchedTrans(a: Core, b: Core, c: Core)
    requires Untouched(a, b) && Untouched(b, c)
    ensures Untouched(a, c)
  {
  }

  lemma AdvancedSame(fs: Files, c: Core)
    ensures Advanced(fs, c, c)
  {
  }

  lemma AdvancedTrans(fs: Files, a: Core, b: Core, c: Core)
    requires Advanced(fs, a, b) && Advanced(fs, b, c)
    ensures Advanced(fs, a, c)
  {
  }

  /** From position `n` on there are no lists yet. */
  ghost predicate Unlisted(chain: seq<Id>, deps: map<Id, Option<seq<Id>>>, n: nat) {
    forall i :: n <= i < |chain| ==> chain[i] in deps && deps[chain[i]].None?
  }

  ghost predicate AllDirect(fs: Files, inode: map<Id, Inode>, deps: map<Id, Option<seq<Id>>>, ndirect: map<Id, int>,
                            head: Id, chain: seq<Id>, a: nat, b: nat)
  {
    forall i :: a <= i < b && i < |chain| ==> Direct(fs, inode, deps, ndirect, head, chain[i])
  }

  /** `load_deps`, begun in `a` at position `k0`, has reached position `k` in `c`. */
  ghost predicate LoadedTo(fs: Files, s0: Core, a: Core, da: map<Id, Option<seq<Id>>>, na: map<Id, int>, c: Core,
                           deps: map<Id, Option<seq<Id>>>, ndirect: map<Id, int>, head: Id, k0: nat, k: nat)
  {
    k0 <= k <= |c.chain| && Grew(s0, c) && Untouched(a, c) && OldDeps(s0, deps) && SameDirect(s0, da, na, deps, ndirect) &&
    HaveDeps(c.chain, deps, k) && AllDirect(fs, c.g.inode, deps, ndirect, head, c.chain, k0, k) && Unlisted(c.chain, deps, k) &&
    Wanted(c.chain, deps, k0, k)
  }

  /** Every DSO past position `k0` is a direct dependency of an earlier one, itself before `k`. */
  ghost predicate Wanted(chain: seq<Id>, deps: map<Id, Option<seq<Id>>>, k0: nat, k: nat) {
    forall i :: k0 < i < |chain| ==> WantedAt(chain, deps, k0, k, i)
  }

  ghost predicate WantedAt(chain: seq<Id>, deps: map<Id, Option<seq<Id>>>, k0: nat, k: nat, i: int)
    requires 0 <= i < |chain|
  {
    exists j :: k0 <= j < k && j < i && WantedBy(chain, deps, i, j)
  }

  ghost predicate WantedBy(chain: seq<Id>, deps: map<Id, Option<seq<Id>>>, i: int, j: int)
    requires 0 <= j < i < |chain|
  {
    chain[j] in deps && deps[chain[j]].Some? && chain[i] in deps[chain[j]].value
  }

  /** What has been loaded since `chain0` is on the list of `p`. */
  ghost predicate NewIn(chain0: seq<Id>, chain: seq<Id>, deps: map<Id, Option<seq<Id>>>, p: Id) {
    p in deps && deps[p].Some? && forall i :: |chain0| <= i < |chain| ==> chain[i] in deps[p].value
  }

  lemma NewInNext(chain0: seq<Id>, a: seq<Id>, b: seq<Id>, d: map<Id, Option<seq<Id>>>, d': map<Id, Option<seq<Id>>>, p: Id,
                  x: Id)
    requires NewIn(chain0, a, d, p) && (b == a || b == a + [x])
    requires p in d' && d'[p] == Some(d[p].value + [x])
    ensures NewIn(chain0, b, d', p)
  {
  }

  lemma MoreWanted(a: seq<Id>, b: seq<Id>, d: map<Id, Option<seq<Id>>>, d': map<Id, Option<seq<Id>>>, k0: nat, k: nat)
    requires Wanted(a, d, k0, k) && a <= b && k0 <= k < |a| && DepsKeptBut(d, d', a[k]) && Unlisted(a, d, k)
    requires NewIn(a, b, d', a[k])
    ensures Wanted(b, d', k0, k + 1)
  {
    var n := k + 1;
    forall i | k0 < i < |b| ensures WantedAt(b, d', k0, n, i) {
      if i < |a| {
        assert WantedAt(a, d, k0, k, i);
        var j :| k0 <= j < k && j < i && WantedBy(a, d, i, j);
        assert a[j] != a[k] && b[j] == a[j] && b[i] == a[i];
        assert WantedBy(b, d', i, j);
      } else {
        assert b[k] == a[k];
        assert WantedBy(b, d', i, k);
      }
    }
  }

  lemma NoneWanted(chain: seq<Id>, deps: map<Id, Option<seq<Id>>>, k0: nat)
    requires |chain| == k0 + 1
    ensures Wanted(chain, deps, k0, k0)
  {
  }

  lemma LoadedSo(fs: Files, s0: Core, a: Core, da: map<Id, Option<seq<Id>>>, na: map<Id, int>, c: Core,
                 deps: map<Id, Option<seq<Id>>>, ndirect: map<Id, int>, head: Id, k0: nat, k: nat)
    requires LoadedTo(fs, s0, a, da, na, c, deps, ndirect, head, k0, k)
    ensures Grew(s0, c) && Untouched(a, c) && OldDeps(s0, deps) && SameDirect(s0, da, na, deps, ndirect)
  {
    hide Wanted, AllDirect, Unlisted, HaveDeps;
  }

  lemma NoneDirect(fs: Files, c: Core, deps: map<Id, Option<seq<Id>>>, ndirect: map<Id, int>, head: Id, k: nat)
    ensures AllDirect(fs, c.g.inode, deps, ndirect, head, c.chain, k, k)
  {
  }

  lemma NextUnlisted(chain: seq<Id>, deps: map<Id, Option<seq<Id>>>, k: nat)
    requires Unlisted(chain, deps, k) && k < |chain|
    ensures chain[k] in deps && deps[chain[k]].None?
  {
  }

  lemma DirectKept(fs: Files, c: Core, c': Core, head: Id, d: map<Id, Option<seq<Id>>>, d': map<Id, Option<seq<Id>>>,
                   n: map<Id, int>, n': map<Id, int>, q: Id, x: Id)
    requires Direct(fs, c.g.inode, d, n, head, q) && Untouched(c, c') && DepsKeptBut(d, d', x) && CountsKept(n, n', {x})
    requires q != x
    ensures Direct(fs, c'.g.inode, d', n', head, q)
  {
    hide Resolved;
    StillResolved(fs, c, c', NeededBy(fs, c.g.inode[q]), d[q].value, q);
  }

  lemma MoreDirect(fs: Files, c: Core, c': Core, head: Id, d: map<Id, Option<seq<Id>>>, d': map<Id, Option<seq<Id>>>,
                   n: map<Id, int>, n': map<Id, int>, a: nat, k: nat)
    requires Linked(c, head) && Linked(c', head) && Untouched(c, c') && a <= k < |c.chain|
    requires DepsKeptBut(d, d', c.chain[k]) && CountsKept(n, n', {c.chain[k]}) && NewNone(d, d')
    requires DepsLive(d, c.g.next.Keys) && DepsLive(d', c'.g.next.Keys)
    requires AllDirect(fs, c.g.inode, d, n, head, c.chain, a, k) && Unlisted(c.chain, d, k)
    requires Direct(fs, c'.g.inode, d', n', head, c.chain[k])
    ensures AllDirect(fs, c'.g.inode, d', n', head, c'.chain, a, k + 1) && Unlisted(c'.chain, d', k + 1)
  {
    hide Direct, ScopeOk, TlsOk, Untouched, CountsKept;
    assert c.chain <= c'.chain by { PrefixKept(c, c'); }
    forall i | a <= i < k + 1 ensures Direct(fs, c'.g.inode, d', n', head, c'.chain[i]) {
      assert c'.chain[i] == c.chain[i];
      if i < k { DirectKept(fs, c, c', head, d, d', n, n', c.chain[i], c.chain[k]); }
    }
    forall i | k + 1 <= i < |c'.chain| ensures c'.chain[i] in d' && d'[c'.chain[i]].None? {
      assert LinkOk(c'.g.next, c'.chain, i);
      var q := c'.chain[i];
      if i < |c.chain| { assert q == c.chain[i] && q != c.chain[k]; } else { NotBefore(c, c', head, i); }
    }
  }

  lemma PrefixKept(c: Core, c': Core)
    requires Untouched(c, c')
    ensures c.chain <= c'.chain
  {
  }

  lemma NotBefore(c: Core, c': Core, head: Id, i: nat)
    requires Linked(c, head) && Linked(c', head) && c.chain <= c'.chain && |c.chain| <= i < |c'.chain|
    ensures c'.chain[i] !in c.g.next
  {
    forall j | 0 <= j < |c.chain| ensures c.chain[j] != c'.chain[i] { assert c.chain[j] == c'.chain[j]; }
  }

  /** The direct dependencies, where they are known. */
  ghost function Lists(deps: map<Id, Option<seq<Id>>>, ndirect: map<Id, int>): map<Id, seq<Id>> {
    map p | p in deps && Counted(deps, ndirect, p) :: deps[p].value[..ndirect[p]]
  }

  ghost predicate Counted(deps: map<Id, Option<seq<Id>>>, ndirect: map<Id, int>, p: Id) {
    p in deps && deps[p].Some? && p in ndirect && 0 <= ndirect[p] <= |deps[p].value|
  }

  /** The DSOs that were there before have the direct dependencies they had. */
  ghost predicate SameDirect(s0: Core, a: map<Id, Option<seq<Id>>>, na: map<Id, int>, b: map<Id, Option<seq<Id>>>,
                             nb: map<Id, int>)
  {
    forall p :: p in s0.g.next && p in Lists(a, na) ==> p in Lists(b, nb) && Lists(b, nb)[p] == Lists(a, na)[p]
  }

  lemma ListsAt(deps: map<Id, Option<seq<Id>>>, ndirect: map<Id, int>, p: Id)
    requires PrefixOk(deps, ndirect) && p in deps && deps[p].Some?
    ensures p in ndirect && 0 <= ndirect[p] <= |deps[p].value|
    ensures p in Lists(deps, ndirect) && Lists(deps, ndirect)[p] == deps[p].value[..ndirect[p]]
  {
  }

  lemma ListsKnown(deps: map<Id, Option<seq<Id>>>, ndirect: map<Id, int>)
    ensures Lists(deps, ndirect).Keys <= deps.Keys
  {
  }

  lemma ListKnown(deps: map<Id, Option<seq<Id>>>, ndirect: map<Id, int>, p: Id)
    requires p in Lists(deps, ndirect)
    ensures p in deps && deps[p].Some?
  {
  }

  ghost predicate ListIn(dm: map<Id, seq<Id>>, s: set<Id>, q: Id) {
    q in dm && forall i :: 0 <= i < |dm[q]| ==> dm[q][i] in s
  }

  lemma ListsIn(s0: Core, live: set<Id>, deps: map<Id, Option<seq<Id>>>, ndirect: map<Id, int>)
    requires DepsLive(deps, live) && PrefixOk(deps, ndirect) && AllDeps(deps) && OldDeps(s0, deps)
    ensures var dm := Lists(deps, ndirect);
      dm.Keys == live && (forall q :: q in dm ==> ListIn(dm, live, q)) &&
      forall q :: q in s0.g.next && q in dm ==> ListIn(dm, s0.g.next.Keys, q)
  {
    hide Lists;
    forall q | q in deps ensures q in Lists(deps, ndirect) && Lists(deps, ndirect)[q] == deps[q].value[..ndirect[q]] {
      ListsAt(deps, ndirect, q);
    }
    ListsKnown(deps, ndirect);
  }

  lemma Relisted(deps: map<Id, Option<seq<Id>>>, ndirect: map<Id, int>, p: Id, l: seq<Id>)
    requires PrefixOk(deps, ndirect) && p in deps && deps[p].Some? && Lists(deps, ndirect)[p] <= l
    ensures PrefixOk(deps[p := Some(l)], ndirect) && Lists(deps[p := Some(l)], ndirect) == Lists(deps, ndirect)
  {
    assert l[..ndirect[p]] == Lists(deps, ndirect)[p];
    var d := deps[p := Some(l)];
    assert Lists(d, ndirect).Keys == Lists(deps, ndirect).Keys;
  }

  // ----- what a DSO depends on

  /** Live DSOs, and old ones if the owner is old. */
  ghost predicate LiveList(s0: Core, live: set<Id>, p: Id, l: seq<Id>) {
    forall i :: 0 <= i < |l| ==> l[i] in live && (p in s0.g.next ==> l[i] in s0.g.next)
  }

  lemma OldClosed(s0: Core, live: set<Id>, deps: map<Id, Option<seq<Id>>>, ndirect: map<Id, int>)
    requires DepsLive(deps, live) && PrefixOk(deps, ndirect) && AllDeps(deps) && OldDeps(s0, deps)
    ensures Closed(Lists(deps, ndirect), s0.g.next.Keys) && Closed(Lists(deps, ndirect), {})
  {
    ListsIn(s0, live, deps, ndirect);
    hide Lists, DepsLive, PrefixOk, OldDeps, AllDeps;
    var dm := Lists(deps, ndirect);
    forall x, y | x in s0.g.next && DepEdge(dm, x, y) ensures y in s0.g.next { assert ListIn(dm, s0.g.next.Keys, x); }
  }

  lemma GrownLonger(live: set<Id>, a: seq<Id>, b: seq<Id>)
    requires a <= b && Appended(b, |a|) && forall i :: 0 <= i < |b| ==> b[i] in live
    ensures a == b || Lacking(live, b) < Lacking(live, a)
    decreases |b| - |a|
  {
    if |a| < |b| {
      var x, b' := b[|b| - 1], b[..|b| - 1];
      assert b == b' + [x];
      forall k | |a| <= k < |b'| ensures b'[k] !in b'[..k] { assert b'[..k] == b[..k]; }
      forall i | 0 <= i < |b'| ensures b'[i] in live { assert b'[i] == b[i]; }
      LacksLess(live, b', x);
      GrownLonger(live, a, b');
    } else {
      assert a == b;
    }
  }

  lemma SameLists(s0: Core, a: map<Id, Option<seq<Id>>>, na: map<Id, int>, b: map<Id, Option<seq<Id>>>, nb: map<Id, int>,
                  x: Id)
    requires DepsKeptBut(a, b, x) && CountsKept(na, nb, {x}) && x !in s0.g.next
    ensures SameDirect(s0, a, na, b, nb)
  {
  }

  lemma KeptLists(s0: Core, a: map<Id, Option<seq<Id>>>, na: map<Id, int>, b: map<Id, Option<seq<Id>>>, nb: map<Id, int>)
    requires DepsKept(a, b) && CountsKept(na, nb, {})
    ensures SameDirect(s0, a, na, b, nb)
  {
  }

  lemma SameTrans(s0: Core, a: map<Id, Option<seq<Id>>>, na: map<Id, int>, b: map<Id, Option<seq<Id>>>, nb: map<Id, int>,
                  d: map<Id, Option<seq<Id>>>, nd: map<Id, int>)
    requires SameDirect(s0, a, na, b, nb) && SameDirect(s0, b, nb, d, nd)
    ensures SameDirect(s0, a, na, d, nd)
  {
  }

  lemma EqualLists(s0: Core, a: map<Id, Option<seq<Id>>>, na: map<Id, int>, b: map<Id, Option<seq<Id>>>, nb: map<Id, int>)
    requires Lists(a, na) == Lists(b, nb)
    ensures SameDirect(s0, a, na, b, nb)
  {
  }

  /** The marks after the list of `p` has been built, unless it was, and its constructors have
      been queued, unless they have run. */
  ghost predicate MarksLeft(built: set<Id>, marks: set<Id>, constructed: set<Id>, p: Id, l: seq<Id>, marks': set<Id>) {
    marks' == if p !in built then {} else if p in constructed then marks else marks - {p} - set x | x in l
  }

  predicate SameMarks(built: set<Id>, marks: set<Id>, built': set<Id>, marks': set<Id>) {
    built' == built && marks' == marks
  }

  ghost predicate HaveDeps(chain: seq<Id>, deps: map<Id, Option<seq<Id>>>, n: nat)
    requires n <= |chain|
  {
    forall i :: 0 <= i < n ==> chain[i] in deps && deps[chain[i]].Some?
  }

  predicate AllDeps(deps: map<Id, Option<seq<Id>>>) { forall p :: p in deps ==> deps[p].Some? }

  lemma NewAt(s0: Core, c: Core, head: Id, k: nat)
    requires Linked(s0, head) && Linked(c, head) && Grew(s0, c) && |s0.chain| <= k < |c.chain|
    ensures c.chain[k] !in s0.g.next && c.chain[k] in c.g.next
  {
    assert LinkOk(c.g.next, c.chain, k);
    forall i | 0 <= i < |s0.chain| ensures s0.chain[i] != c.chain[k] { assert s0.chain[i] == c.chain[i]; }
  }

  lemma MoreDeps(c: Core, c': Core, head: Id, fs: Files, d: map<Id, Option<seq<Id>>>, d': map<Id, Option<seq<Id>>>, k: nat)
    requires k < |c.chain| && HaveDeps(c.chain, d, k) && Untouched(c, c') && DepsKeptBut(d, d', c.chain[k])
    requires Linked(c', head) && c.chain[k] in d' && d'[c.chain[k]].Some? && Advanced(fs, c, c')
    ensures k < |c'.chain| && HaveDeps(c'.chain, d', k + 1)
    ensures c.chain[k] in c'.g.next && c'.g.next[c.chain[k]] == LinkAt(c'.chain, k)
    ensures |Pending(fs, c')| < |Pending(fs, c)| || (|Pending(fs, c')| == |Pending(fs, c)| && |c.chain| == |c'.chain|)
  {
    hide ScopeOk, TlsOk, Pending;
    assert c'.chain[k] == c.chain[k] && LinkOk(c'.g.next, c'.chain, k);
    forall i | 0 <= i < k + 1 ensures c'.chain[i] in d' && d'[c'.chain[i]].Some? {
      assert c'.chain[i] == c.chain[i];
    }
  }

  /** How many DSOs are not in `l`. */
  ghost function Lacking(live: set<Id>, l: seq<Id>): nat { |set x | x in live && x !in l| }

  lemma LacksLess(live: set<Id>, l: seq<Id>, x: Id)
    requires x in live && x !in l
    ensures Lacking(live, l + [x]) < Lacking(live, l)
  {
    var a, b := set y | y in live && y !in l, set y | y in live && y !in l + [x];
    SubsetFits(b, a - {x});
  }

  /** `p` and everything on its list is in the global scope. */
  ghost predicate Global(scope: seq<Id>, deps: map<Id, Option<seq<Id>>>, p: Id) {
    p in scope && p in deps && deps[p].Some? && forall i :: 0 <= i < |deps[p].value| ==> deps[p].value[i] in scope
  }

  /** The scope after `add_syms` for each of `l` in turn. */
  ghost function WithSyms(scope: seq<Id>, l: seq<Id>): seq<Id> {
    if l == [] then scope
    else
      var x, r := l[|l| - 1], WithSyms(scope, l[..|l| - 1]);
      if x in r then r else r + [x]
  }

  lemma WithSymsNext(scope: seq<Id>, l: seq<Id>, i: nat)
    requires i < |l|
    ensures var r := WithSyms(scope, l[..i]); WithSyms(scope, l[..i + 1]) == if l[i] in r then r else r + [l[i]]
  {
    assert l[..i + 1][..i] == l[..i];
  }

  lemma NoSyms(scope: seq<Id>, l: seq<Id>)
    requires l != []
    ensures WithSyms(scope, l[..1]) == if l[0] in scope then scope else scope + [l[0]]
  {
    WithSymsNext(scope, l, 0);
  }

  /** It has the old scope and then, in order, the members of `l` that were not in it. */
  lemma {:induction false} WithSymsHas(scope: seq<Id>, l: seq<Id>, x: Id)
    ensures scope <= WithSyms(scope, l) && Appended(WithSyms(scope, l), |scope|)
    ensures x in WithSyms(scope, l) <==> x in scope || x in l
  {
    if l != [] {
      var k := |l| - 1;
      WithSymsHas(scope, l[..k], x);
      assert l == l[..k] + [l[k]];
      var r := WithSyms(scope, l[..k]);
      assert forall j :: 0 <= j <= |r| ==> (r + [l[k]])[..j] == r[..j];
    }
  }

  lemma AllGlobal(scope: seq<Id>, deps: map<Id, Option<seq<Id>>>, p: Id)
    requires p in deps && deps[p].Some?
    ensures var r := WithSyms(scope, [p] + deps[p].value); scope <= r && Global(r, deps, p)
  {
    hide WithSyms, Appended;
    var l := [p] + deps[p].value;
    forall x | x in l ensures x in WithSyms(scope, l) { WithSymsHas(scope, l, x); }
    WithSymsHas(scope, l, p);
    assert l[0] == p && forall i :: 0 <= i < |deps[p].value| ==> l[i + 1] == deps[p].value[i];
  }

  /** `scope` is the one in which the DSOs that are not among the `older` were relocated. */
  ghost predicate BoundIn(older: set<Id>, live: set<Id>, bound: map<Id, seq<Id>>, scope: seq<Id>) {
    forall q :: q in live && q !in older ==> q in bound && bound[q] == scope
  }

  /** From position `n` on there is only `p` and what is on its list. */
  ghost predicate OnlyNeeded(chain: seq<Id>, n: nat, p: Id, l: seq<Id>) {
    forall i :: n <= i < |chain| ==> chain[i] == p || chain[i] in l
  }

  lemma InList(deps: map<Id, Option<seq<Id>>>, live: set<Id>, p: Id, i: nat)
    requires DepsLive(deps, live) && p in deps && deps[p].Some? && i < |deps[p].value|
    ensures deps[p].value[i] in live
  {
  }

  lemma GrewScope(s0: Core, c: Core, d: Core)
    requires Grew(s0, c) && c.scope <= d.scope && d.chain == c.chain && d.tlsList == c.tlsList
    requires d.g == c.g.(symsNext := d.g.symsNext, symsTail := d.g.symsTail)
    ensures Grew(s0, d)
  {
    forall p | p in s0.g.next ensures Kept(s0, d, p) { assert Kept(s0, c, p); }
  }

  lemma LazyGrew(s0: Core, c: Core, p: Id, h: Option<Id>)
    requires Grew(s0, c) && p !in s0.g.next
    ensures Grew(s0, c.(g := c.g.(lazyNext := c.g.lazyNext[p := h], lazyHead := Some(p))))
  {
    var d := c.(g := c.g.(lazyNext := c.g.lazyNext[p := h], lazyHead := Some(p)));
    forall q | q in s0.g.next ensures Kept(s0, d, q) { assert Kept(s0, c, q); }
  }

  lemma RelocGrew(s0: Core, c: Core, p: Id)
    requires Grew(s0, c) && p !in s0.g.next
    ensures Grew(s0, c.(g := c.g.(relocated := c.g.relocated + {p})))
  {
    var d := c.(g := c.g.(relocated := c.g.relocated + {p}));
    forall q | q in s0.g.next ensures Kept(s0, d, q) { assert Kept(s0, c, q); }
  }

  lemma NextAt(next: Links, prev: Links, l: seq<Id>, head: Id, tail: Id, k: nat)
    requires ChainOk(next, prev, l, head, tail) && k < |l|
    ensures l[k] in next && next[l[k]] == LinkAt(l, k)
  {
    assert LinkOk(next, l, k);
  }

  // ----- cutting the scope

  lemma ScopeAppend(nxt: Links, l: seq<Id>, head: Id, tail: Id, p: Id)
    requires ScopeOk(nxt, l, head, tail) && p in nxt
    ensures tail in nxt && (p in l <==> !(nxt[p].None? && tail != p))
    ensures p !in l ==> ScopeOk(nxt[tail := Some(p)], l + [p], head, p)
  {
    assert LinkOk(nxt, l, |l| - 1);
    InScope(nxt, l, p);
    if p !in l { ThreadsAppend(nxt, l, p); }
  }

  /** The members from `k` to before `j` have been unlinked. */
  ghost predicate CutAt(nxt: Links, l: seq<Id>, head: Id, k: nat, j: nat) {
    NoDup(l) && k < |l| && l[0] == head && OthersNull(nxt, l) && forall i :: 0 <= i < |l| ==> CutOk(nxt, l, i, k, j)
  }

  ghost predicate CutOk(nxt: Links, l: seq<Id>, i: int, k: nat, j: nat)
    requires 0 <= i < |l|
  {
    l[i] in nxt && nxt[l[i]] == if k <= i < j then None else LinkAt(l, i)
  }

  lemma BeginCut(nxt: Links, l: seq<Id>, head: Id, tail: Id, k: nat)
    requires ScopeOk(nxt, l, head, tail) && k < |l|
    ensures CutAt(nxt, l, head, k, k)
  {
    forall i | 0 <= i < |l| ensures CutOk(nxt, l, i, k, k) { assert LinkOk(nxt, l, i); }
  }

  lemma CutNext(nxt: Links, l: seq<Id>, head: Id, k: nat, j: nat)
    requires CutAt(nxt, l, head, k, j) && k <= j < |l|
    ensures l[j] in nxt && nxt[l[j]] == LinkAt(l, j) && CutAt(nxt[l[j] := None], l, head, k, j + 1)
  {
    assert CutOk(nxt, l, j, k, j);
    var nxt', j' := nxt[l[j] := None], j + 1;
    forall i | 0 <= i < |l| ensures CutOk(nxt', l, i, k, j') {
      assert CutOk(nxt, l, i, k, j);
    }
  }

  lemma EndCut(nxt: Links, l: seq<Id>, head: Id, k: nat)
    requires CutAt(nxt, l, head, k, |l|)
    ensures ScopeOk(nxt, l[..k + 1], head, l[k])
  {
    var c := l[..k + 1];
    forall i | 0 <= i <= k ensures l[i] in c { assert c[i] == l[i]; }
    forall p | p in nxt && p !in c ensures nxt[p].None? {
      if p in l {
        var i :| 0 <= i < |l| && l[i] == p;
        assert CutOk(nxt, l, i, k, |l|);
      }
    }
    forall i | 0 <= i < |c| ensures LinkOk(nxt, c, i) { assert CutOk(nxt, l, i, k, |l|); }
  }

  lemma InScope(nxt: Links, l: seq<Id>, p: Id)
    requires Threads(nxt, l) && OthersNull(nxt, l) && l != [] && p in nxt
    ensures p in l <==> nxt[p].Some? || p == l[|l| - 1]
  {
    if p in l {
      var i :| 0 <= i < |l| && l[i] == p;
      assert LinkOk(nxt, l, i);
    }
  }
}
