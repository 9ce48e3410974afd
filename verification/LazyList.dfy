/** `redo_lazy_relocs`: every DSO with deferred records is replayed, and stays on the lazy
    list if records remain. */
module LazyList {
  import opened LazyRelocs
  import opened RelocAbi
  import opened Relocs

  class Module {
    const cf: Conf
    const mem: array<nat>
    var lazy: array?<nat>
    var lazyCnt: nat
    var lazyNext: Module?

    constructor (cf: Conf, mem: array<nat>)
      ensures this.cf == cf && this.mem == mem && lazy == null && lazyCnt == 0 && lazyNext == null
    {
      this.cf, this.mem, lazy, lazyCnt, lazyNext := cf, mem, null, 0, null;
    }
  }

  /** The records of a module and the memory they apply to. */
  datatype Work = Work(recs: seq<Rec>, mem: seq<nat>)

  ghost predicate WorkOk(cf: Conf, w: Work) {
    cf.modulus > 0 && AllInside(w.recs, |w.mem|) &&
    forall i :: 0 <= i < |w.recs| ==> Deferrable(cf.kind(w.recs[i].info))
  }

  /** `m` holds the records of `w`. */
  ghost predicate Waiting(m: Module, w: Work)
    reads m, m.lazy, m.mem
  {
    m.lazy != null && m.lazy != m.mem && 3 * m.lazyCnt <= m.lazy.Length && m.mem[..] == w.mem &&
    Entries(m.lazy[..], 3, m.lazyCnt) == w.recs && WorkOk(m.cf, w)
  }

  ghost function After(cf: Conf, sc: Scope, w: Work): Work
    requires WorkOk(cf, w)
  {
    var r := All(cf, sc, true, 3, w.recs, w.mem);
    Work(Unresolved(cf, sc, w.recs), r.mem)
  }

  /** `m` has been replayed: its memory is relocated, and it has records iff some symbol is
      still missing. */
  ghost predicate Replayed(m: Module, sc: Scope, w: Work)
    reads m, m.lazy, m.mem
  {
    WorkOk(m.cf, w) && var a := After(m.cf, sc, w);
    m.mem[..] == a.mem &&
    if a.recs == [] then m.lazy == null && m.lazyCnt == 0 && m.lazyNext == null
    else m.lazy != null && m.lazyCnt == |a.recs| && 3 * m.lazyCnt <= m.lazy.Length &&
         Entries(m.lazy[..], 3, m.lazyCnt) == a.recs
  }

  /** One module of the loop. */
  method Replay(m: Module, sc: Scope, ghost w: Work, lazyHead: Module?) returns (head: Module?)
    requires Waiting(m, w)
    modifies m, m.lazy, m.mem
    ensures Replayed(m, sc, w) && (m.lazy == null || m.lazy == old(m.lazy))
    ensures After(m.cf, sc, w).recs == [] ==> head == lazyHead
    ensures After(m.cf, sc, w).recs != [] ==> head == m && m.lazyNext == lazyHead
  {
    hide All, Entries, Unresolved, TableApplied, SomeHopeless, Apart;
    ReplayKeeps(m.cf, sc, w.recs, w.mem);
    NoEntries(m.lazy[..]);
    var cnt := m.lazyCnt;
    m.lazyCnt := 0;
    var left, failed := DoRelocs(m.cf, sc, m.lazy, cnt, 3, m.mem, true, m.lazy, 0, true);
    EntriesLen(m.lazy[..], 3, left);
    m.lazyCnt := left;
    if m.lazyCnt != 0 {
      m.lazyNext := lazyHead;
      head := m;
    } else {
      m.lazy := null;
      m.lazyNext := null;
      head := lazyHead;
    }
  }

  /** `l` is the list from `head` through `lazy_next`. */
  ghost predicate Threaded(head: Module?, l: seq<Module>)
    reads l
  {
    head == Link(l, 0) && forall i :: 0 <= i < |l| ==> LinkOk(l, i)
  }

  ghost function Link(l: seq<Module>, i: nat): Module? { if i < |l| then l[i] else null }

  ghost predicate LinkOk(l: seq<Module>, i: nat)
    requires i < |l|
    reads l[i]
  {
    l[i].lazyNext == Link(l, i + 1)
  }

  /** No two modules share anything. */
  ghost predicate Separate(list: seq<Module>, lzs: seq<array<nat>>) {
    |lzs| == |list| && forall i, j :: 0 <= i < j < |list| ==>
      list[i] != list[j] && list[i].mem != list[j].mem && lzs[i] != lzs[j] && list[i].mem != lzs[j] &&
      lzs[i] != list[j].mem
  }

  /** The modules with records left, last first. */
  ghost function Remaining(sc: Scope, list: seq<Module>, ws: seq<Work>, k: nat): seq<Module>
    requires k <= |list| == |ws| && forall i :: 0 <= i < |list| ==> WorkOk(list[i].cf, ws[i])
  {
    if k == 0 then []
    else
      var r := Remaining(sc, list, ws, k - 1);
      if After(list[k - 1].cf, sc, ws[k - 1]).recs != [] then [list[k - 1]] + r else r
  }

  lemma {:induction false} RemainingFrom(sc: Scope, list: seq<Module>, ws: seq<Work>, k: nat, m: Module)
    requires k <= |list| == |ws| && forall i :: 0 <= i < |list| ==> WorkOk(list[i].cf, ws[i])
    requires m in Remaining(sc, list, ws, k)
    ensures exists i :: 0 <= i < k && list[i] == m && After(m.cf, sc, ws[i]).recs != []
  {
    if m in Remaining(sc, list, ws, k - 1) { RemainingFrom(sc, list, ws, k - 1, m); }
  }

  lemma RemainingNext(sc: Scope, list: seq<Module>, ws: seq<Work>, k: nat)
    requires k < |list| == |ws| && forall i :: 0 <= i < |list| ==> WorkOk(list[i].cf, ws[i])
    ensures var r := Remaining(sc, list, ws, k);
      Remaining(sc, list, ws, k + 1) == if After(list[k].cf, sc, ws[k]).recs != [] then [list[k]] + r else r
  {
  }

  lemma NotAgain(sc: Scope, list: seq<Module>, lzs: seq<array<nat>>, ws: seq<Work>, k: nat)
    requires k < |list| == |ws| && Separate(list, lzs) && forall i :: 0 <= i < |list| ==> WorkOk(list[i].cf, ws[i])
    ensures var r := Remaining(sc, list, ws, k); forall i :: 0 <= i < |r| ==> r[i] != list[k]
  {
    var r := Remaining(sc, list, ws, k);
    forall i | 0 <= i < |r| ensures r[i] != list[k] { RemainingFrom(sc, list, ws, k, r[i]); }
  }

  ghost predicate Foreign(list: seq<Module>, lzs: seq<array<nat>>, i: nat, k: nat)
    requires i < |list| == |lzs| && k < |list|
  {
    list[i] != list[k] && list[i].mem != list[k].mem && list[i].mem != lzs[k] && lzs[i] != list[k].mem && lzs[i] != lzs[k]
  }

  lemma OthersForeign(list: seq<Module>, lzs: seq<array<nat>>, i: nat, k: nat)
    requires Separate(list, lzs) && k < |list| && i < |list| && i != k
    ensures Foreign(list, lzs, i, k)
  {
  }

  lemma PushFront(p: Module, l: seq<Module>, head: Module?)
    requires (forall i :: 0 <= i < |l| ==> LinkOk(l, i)) && p.lazyNext == Link(l, 0) && head == p
    ensures Threaded(head, [p] + l)
  {
    var l' := [p] + l;
    forall i | 0 <= i < |l'| ensures LinkOk(l', i) {
      if i > 0 { assert LinkOk(l, i - 1) && l'[i] == l[i - 1]; }
    }
  }

  /** Replay a module that is not on the new lazy list, and put it back if it has to be. */
  method Requeue(p: Module, sc: Scope, ghost w: Work, lazyHead0: Module?, ghost kept: seq<Module>) returns (lazyHead: Module?)
    requires Waiting(p, w) && Threaded(lazyHead0, kept) && forall i :: 0 <= i < |kept| ==> kept[i] != p
    modifies p, p.lazy, p.mem
    ensures Replayed(p, sc, w) && (p.lazy == null || p.lazy == old(p.lazy))
    ensures Threaded(lazyHead, if After(p.cf, sc, w).recs != [] then [p] + kept else kept)
  {
    hide After, WorkOk, Waiting;
    lazyHead := Replay(p, sc, w, lazyHead0);
    forall i | 0 <= i < |kept| ensures LinkOk(kept, i) { assert old(LinkOk(kept, i)); }
    if After(p.cf, sc, w).recs != [] { PushFront(p, kept, lazyHead); }
  }

  ghost function Memories(list: seq<Module>): set<array<nat>> { set i | 0 <= i < |list| :: list[i].mem }

  ghost predicate Todo(list: seq<Module>, lzs: seq<array<nat>>, ws: seq<Work>, k: nat)
    requires |list| == |lzs| == |ws|
    reads list, lzs, Memories(list)
  {
    forall i: nat :: k <= i < |list| ==> list[i].lazy == lzs[i] && Waiting(list[i], ws[i]) && LinkOk(list, i)
  }

  ghost predicate Done(sc: Scope, list: seq<Module>, lzs: seq<array<nat>>, ws: seq<Work>, k: nat)
    requires k <= |list| == |lzs| == |ws|
    reads list, lzs, Memories(list)
  {
    forall i: nat :: i < k ==> (list[i].lazy == null || list[i].lazy == lzs[i]) && Replayed(list[i], sc, ws[i])
  }

  /** The body of the loop. */
  method ReplayNext(sc: Scope, p: Module, lazyHead0: Module?, ghost list: seq<Module>, ghost lzs: seq<array<nat>>,
                    ghost ws: seq<Work>, ghost k: nat)
    returns (next: Module?, lazyHead: Module?)
    requires |list| == |lzs| == |ws| && k < |list| && p == list[k] && Separate(list, lzs)
    requires forall i :: 0 <= i < |list| ==> WorkOk(list[i].cf, ws[i])
    requires Todo(list, lzs, ws, k) && Done(sc, list, lzs, ws, k)
    requires Threaded(lazyHead0, Remaining(sc, list, ws, k))
    modifies p, lzs[k], p.mem
    ensures next == Link(list, k + 1) && Todo(list, lzs, ws, k + 1) && Done(sc, list, lzs, ws, k + 1)
    ensures Threaded(lazyHead, Remaining(sc, list, ws, k + 1))
  {
    hide After, WorkOk, Remaining, Separate, Replayed, Waiting, Threaded, Foreign;
    ghost var kept := Remaining(sc, list, ws, k);
    NotAgain(sc, list, lzs, ws, k);
    RemainingNext(sc, list, ws, k);
    assert LinkOk(list, k) && Waiting(list[k], ws[k]);
    next := p.lazyNext;
    lazyHead := Requeue(p, sc, ws[k], lazyHead0, kept);
    forall i: nat | k < i < |list| ensures list[i].lazy == lzs[i] && Waiting(list[i], ws[i]) && LinkOk(list, i) {
      OthersForeign(list, lzs, i, k);
      assert old(Waiting(list[i], ws[i]) && LinkOk(list, i));
    }
    forall i: nat | i < k ensures (list[i].lazy == null || list[i].lazy == lzs[i]) && Replayed(list[i], sc, ws[i]) {
      OthersForeign(list, lzs, i, k);
      assert old(Replayed(list[i], sc, ws[i]));
    }
  }

  /** `redo_lazy_relocs`. */
  method RedoLazyRelocs(sc: Scope, lazyHead0: Module?, ghost list: seq<Module>, ghost lzs: seq<array<nat>>,
                        ghost ws: seq<Work>)
    returns (lazyHead: Module?)
    requires |list| == |lzs| == |ws| && Separate(list, lzs) && Threaded(lazyHead0, list) && Todo(list, lzs, ws, 0)
    requires forall i :: 0 <= i < |list| ==> WorkOk(list[i].cf, ws[i])
    modifies list, lzs, Memories(list)
    ensures forall i :: 0 <= i < |list| ==> Replayed(list[i], sc, ws[i])
    ensures Threaded(lazyHead, Remaining(sc, list, ws, |list|))
  {
    hide WorkOk, Separate, Todo;
    var p := lazyHead0;
    lazyHead := null;
    ghost var k := 0;
    while p != null
      invariant 0 <= k <= |list| && p == Link(list, k)
      invariant Todo(list, lzs, ws, k) && Done(sc, list, lzs, ws, k)
      invariant Threaded(lazyHead, Remaining(sc, list, ws, k))
      decreases |list| - k
    {
      hide Done, Remaining;
      p, lazyHead := ReplayNext(sc, p, lazyHead, list, lzs, ws, k);
      k := k + 1;
    }
  }
}
