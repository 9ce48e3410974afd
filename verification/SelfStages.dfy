/** All stages of the linker's relocation of itself: the relative entries in `_dlstart_c`,
    and the others in stage 2 and again in stage 3. Together they are one relocation of the
    pristine image. */
module SelfStages {
  import opened Bits
  import opened LazyRelocs
  import opened RelocAbi
  import opened Relocs
  import opened SelfRelocs
  import opened Wrappers
  import Relr

  // ----- stage 1

  /** A relative entry: in a table without addends the base is added in place. */
  function BootOne(cf: Conf, stride: nat, e: Rec, m: seq<nat>): (r: seq<nat>)
    requires cf.modulus > 0 && Inside(e, |m|)
    ensures |r| == |m|
  {
    if Relative(cf, e.info) then m[e.off := (cf.base + if stride > 2 then e.addend else m[e.off]) % cf.modulus] else m
  }

  function BootAll(cf: Conf, stride: nat, es: seq<Rec>, m: seq<nat>): (r: seq<nat>)
    requires cf.modulus > 0 && AllInside(es, |m|)
    ensures |r| == |m|
  {
    if es == [] then m
    else
      var k := |es| - 1;
      assert Inside(es[k], |m|) && forall i :: 0 <= i < k ==> es[..k][i] == es[i];
      BootOne(cf, stride, es[k], BootAll(cf, stride, es[..k], m))
  }

  lemma BootNext(cf: Conf, stride: nat, es: seq<Rec>, m: seq<nat>, k: nat)
    requires cf.modulus > 0 && AllInside(es, |m|) && k < |es|
    ensures AllInside(es[..k], |m|) && AllInside(es[..k + 1], |m|) && Inside(es[k], |m|)
    ensures BootAll(cf, stride, es[..k + 1], m) == BootOne(cf, stride, es[k], BootAll(cf, stride, es[..k], m))
  {
    assert es[..k + 1][..k] == es[..k];
    assert forall i :: 0 <= i <= k ==> es[..k + 1][i] == es[i];
    assert forall i :: 0 <= i < k ==> es[..k][i] == es[i];
  }

  /** The loops of `_dlstart_c` over REL, with a stride of 2, and over RELA. */
  method BootRelocs(cf: Conf, rel: seq<nat>, n: nat, stride: nat, mem: array<nat>)
    requires cf.modulus > 0 && 2 <= stride <= 3 && stride * n <= |rel| && AllInside(Entries(rel, stride, n), mem.Length)
    modifies mem
    ensures mem[..] == BootAll(cf, stride, Entries(rel, stride, n), old(mem[..]))
  {
    hide BootAll, Entries;
    ghost var es, m0 := Entries(rel, stride, n), mem[..];
    EntriesLen(rel, stride, n);
    BootNone(cf, stride, es, m0);
    var k := 0;
    while k < n
      invariant 0 <= k <= n && AllInside(es[..k], |m0|) && mem[..] == BootAll(cf, stride, es[..k], m0)
    {
      BootNext(cf, stride, es, m0, k);
      EntriesAt(rel, stride, n, k);
      var off, info := rel[stride * k], rel[stride * k + 1];
      if Relative(cf, info) {
        if stride > 2 {
          mem[off] := (cf.base + rel[stride * k + 2]) % cf.modulus;
        } else {
          mem[off] := (cf.base + mem[off]) % cf.modulus;
        }
      }
      k := k + 1;
    }
    assert es[..n] == es;
  }

  lemma BootNone(cf: Conf, stride: nat, es: seq<Rec>, m: seq<nat>)
    requires cf.modulus > 0
    ensures AllInside(es[..0], |m|) && BootAll(cf, stride, es[..0], m) == m
  {
  }

  predicate RelativeAt(cf: Conf, es: seq<Rec>, i: int, x: nat) {
    0 <= i < |es| && Relative(cf, es[i].info) && es[i].off == x
  }

  /** Each relative entry is applied once, and no other word changes. */
  lemma {:induction false} Booted(cf: Conf, stride: nat, es: seq<Rec>, m: seq<nat>, x: nat)
    requires cf.modulus > 0 && AllInside(es, |m|) && Apart(cf, es) && x < |m|
    ensures var r := BootAll(cf, stride, es, m);
      (forall i :: RelativeAt(cf, es, i, x) ==> r[x] == (cf.base + if stride > 2 then es[i].addend else m[x]) % cf.modulus) &&
      ((forall i :: !RelativeAt(cf, es, i, x)) ==> r[x] == m[x])
  {
    if es != [] {
      var k := |es| - 1;
      assert forall i :: 0 <= i < k ==> es[..k][i] == es[i];
      Booted(cf, stride, es[..k], m, x);
      if RelativeAt(cf, es, k, x) {
        assert forall i :: !RelativeAt(cf, es[..k], i, x);
      } else {
        assert forall i :: RelativeAt(cf, es[..k], i, x) <==> RelativeAt(cf, es, i, x);
      }
    }
  }

  /** An entry that moves with the image, whatever the symbols are. */
  predicate Moves(cf: Conf, e: Rec) {
    cf.kind(e.info) == KRelative || (cf.kind(e.info) == KSymOrRel && cf.sym(e.info) == 0)
  }

  /** Stage 1 leaves the word the ABI asks for in the place of exactly those entries. */
  lemma BootedIsAbi(cf: Conf, stride: nat, es: seq<Rec>, m: seq<nat>)
    requires cf.modulus > 0 && 2 <= stride <= 3 && AllInside(es, |m|) && Apart(cf, es)
    ensures var r := BootAll(cf, stride, es, m);
      (forall i :: 0 <= i < |es| && Moves(cf, es[i]) ==>
        Inside(es[i], |m|) && exists A :: IsAddend(cf, stride, es[i], m[es[i].off], A) && IsWord(cf, es[i], 0, A, r[es[i].off])) &&
      (forall x :: 0 <= x < |m| && (forall i :: 0 <= i < |es| && Moves(cf, es[i]) ==> es[i].off != x) ==> r[x] == m[x])
  {
    hide BootAll, Apart;
    var r := BootAll(cf, stride, es, m);
    forall i | 0 <= i < |es| && Moves(cf, es[i])
      ensures Inside(es[i], |m|)
      ensures exists A :: IsAddend(cf, stride, es[i], m[es[i].off], A) && IsWord(cf, es[i], 0, A, r[es[i].off])
    {
      var e := es[i];
      assert Inside(e, |m|);
      var A := if stride > 2 then e.addend else m[e.off];
      Booted(cf, stride, es, m, e.off);
      assert RelativeAt(cf, es, i, e.off);
      ModTwice(cf.base + A, cf.modulus);
      assert IsAddend(cf, stride, e, m[e.off], A) && IsWord(cf, e, 0, A, r[e.off]);
    }
    forall x | 0 <= x < |m| && (forall i :: 0 <= i < |es| && Moves(cf, es[i]) ==> es[i].off != x) ensures r[x] == m[x] {
      Booted(cf, stride, es, m, x);
    }
  }

  // ----- the tables other than REL

  /** A pass over a table whose relative entries are skipped: what it does to one word. */
  lemma LivePass(cf: Conf, sc: Scope, stride: nat, es: seq<Rec>, m: seq<nat>, x: nat)
    requires cf.modulus > 0 && AllInside(es, |m|) && Apart(cf, es) && x < |m|
    ensures AllInside(LiveOnly(cf, es), |m|)
    ensures var r := All(cf, sc, false, stride, LiveOnly(cf, es), m);
      (forall i :: 0 <= i < |es| && Live(cf, es[i]) && es[i].off == x && Writes(cf, sc, es[i]) ==>
         r.mem[x] == Written(cf, sc, stride, es[i], m[x])) &&
      (!LiveAt(cf, es, x) ==> r.mem[x] == m[x])
  {
    hide All, Written, Resolve, LiveOnly;
    var d := LiveOnly(cf, es);
    LiveOnlyOk(cf, es, |m|);
    Relocated(cf, sc, false, stride, d, m, x);
    forall i | 0 <= i < |es| && Live(cf, es[i]) && es[i].off == x && Writes(cf, sc, es[i])
      ensures exists j :: 0 <= j < |d| && d[j] == es[i]
    {
      LiveOnlyMembers(cf, es, es[i]);
    }
    forall j | 0 <= j < |d| && d[j].off == x ensures LiveAt(cf, es, x) {
      LiveOnlyMembers(cf, es, d[j]);
      var i :| 0 <= i < |es| && es[i] == d[j];
    }
  }

  /** `do_relocs` on the linker's own PLT and RELA tables. */
  method DoOtherRelocs(cf: Conf, sc: Scope, rel: seq<nat>, n: nat, stride: nat, mem: array<nat>) returns (failed: bool)
    requires cf.modulus > 0 && 2 <= stride <= 3 && stride * n <= |rel| && AllInside(Entries(rel, stride, n), mem.Length)
    requires Apart(cf, Entries(rel, stride, n))
    modifies mem
    ensures var es := LiveOnly(cf, Entries(rel, stride, n));
      AllInside(es, mem.Length) &&
      var r := All(cf, sc, false, stride, es, old(mem[..])); mem[..] == r.mem && failed == r.failed
  {
    hide All, Entries, Word, Resolve, LiveOnly, Apart, Addend;
    ghost var es, m0 := Entries(rel, stride, n), mem[..];
    EntriesLen(rel, stride, n);
    LiveNone(cf, sc, stride, es, m0);
    failed := false;
    var k := 0;
    while k < n
      invariant 0 <= k <= n && AllInside(LiveOnly(cf, es[..k]), |m0|)
      invariant var r := All(cf, sc, false, stride, LiveOnly(cf, es[..k]), m0); mem[..] == r.mem && failed == r.failed
    {
      LiveNext(cf, sc, stride, es, m0, k);
      EntriesAt(rel, stride, n, k);
      var e := Rec(rel[stride * k], rel[stride * k + 1], if stride > 2 then rel[stride * k + 2] else 0);
      assert e == es[k];
      k := k + 1;
      if Relative(cf, e.info) { continue; }
      if cf.kind(e.info).KNone? { continue; }
      var addend := Addend(cf, stride, e, mem[e.off]);
      var v := Resolve(cf, sc, e.info);
      if v.None? {
        failed := true;
        continue;
      }
      mem[e.off] := Word(cf, e.info, e.off, v.value, addend);
    }
    assert es[..n] == es;
  }

  lemma LiveNone(cf: Conf, sc: Scope, stride: nat, es: seq<Rec>, m: seq<nat>)
    requires cf.modulus > 0
    ensures AllInside(LiveOnly(cf, es[..0]), |m|)
    ensures All(cf, sc, false, stride, LiveOnly(cf, es[..0]), m) == Image(m, [], false)
  {
  }

  lemma LiveNext(cf: Conf, sc: Scope, stride: nat, es: seq<Rec>, m: seq<nat>, k: nat)
    requires cf.modulus > 0 && AllInside(es, |m|) && k < |es| && AllInside(LiveOnly(cf, es[..k]), |m|)
    ensures Inside(es[k], |m|) && AllInside(LiveOnly(cf, es[..k + 1]), |m|)
    ensures var r := All(cf, sc, false, stride, LiveOnly(cf, es[..k]), m);
      All(cf, sc, false, stride, LiveOnly(cf, es[..k + 1]), m) ==
      if Live(cf, es[k]) then One(cf, sc, false, stride, es[k], r) else r
  {
    assert Inside(es[k], |m|) && es[..k + 1][..k] == es[..k];
    var d := LiveOnly(cf, es[..k]);
    assert (d + [es[k]])[..|d|] == d;
  }

  // ----- all stages

  /** The linker's tables. */
  datatype Tables = Tables(plt: Part, rel: seq<Rec>, rela: seq<Rec>)

  ghost function PartsOf(t: Tables): seq<Part> { [t.plt, Part(2, t.rel), Part(3, t.rela)] }

  /** Entries are in memory and write different words, and the PLT table has only jump slots
      and the like. */
  ghost predicate TablesOk(cf: Conf, t: Tables, n: nat) {
    cf.modulus > 0 && PartsOk(PartsOf(t), n) && PartsApart(cf, PartsOf(t)) && 2 <= t.plt.stride <= 3 &&
    forall i :: 0 <= i < |t.plt.es| ==> cf.kind(t.plt.es[i].info).KNone? || Deferrable(cf.kind(t.plt.es[i].info))
  }

  lemma TableFacts(cf: Conf, t: Tables, n: nat)
    requires TablesOk(cf, t, n)
    ensures cf.modulus > 0 && AllInside(t.plt.es, n) && AllInside(t.rel, n) && AllInside(t.rela, n)
    ensures Apart(cf, t.plt.es) && Apart(cf, t.rel) && Apart(cf, t.rela)
    ensures LiveApart(cf, t.plt.es) && LiveApart(cf, t.rel) && LiveApart(cf, t.rela)
  {
    var ps := PartsOf(t);
    assert AllInside(ps[0].es, n) && AllInside(ps[1].es, n) && AllInside(ps[2].es, n);
    assert Apart(cf, ps[0].es) && Apart(cf, ps[1].es) && Apart(cf, ps[2].es);
  }

  ghost function Boot(cf: Conf, t: Tables, m: seq<nat>): (r: seq<nat>)
    requires TablesOk(cf, t, |m|)
    ensures |r| == |m|
  {
    TableFacts(cf, t, |m|);
    BootAll(cf, 3, t.rela, BootAll(cf, 2, t.rel, m))
  }

  /** One of the two later stages: the three tables in the order of `reloc_all`. */
  ghost function Stage(cf: Conf, sc: Scope, first: bool, t: Tables, m: seq<nat>, saved: seq<nat>): (r: Pass)
    requires TablesOk(cf, t, |m|) && Slots(cf, t.rel) <= |saved|
    ensures |r.mem| == |m| && |r.saved| == |saved|
  {
    TableFacts(cf, t, |m|);
    LiveOnlyOk(cf, t.plt.es, |m|);
    LiveOnlyOk(cf, t.rela, |m|);
    var a := All(cf, sc, false, t.plt.stride, LiveOnly(cf, t.plt.es), m);
    var p := SelfAll(cf, sc, first, t.rel, a.mem, saved);
    var b := All(cf, sc, false, 3, LiveOnly(cf, t.rela), p.mem);
    Pass(b.mem, p.saved, a.failed || p.failed || b.failed)
  }

  /** Entry `i` of table `p` is at `x`, and does something. */
  ghost predicate EntryAt(cf: Conf, t: Tables, p: int, i: int, x: nat) {
    0 <= p < 3 && 0 <= i < |PartsOf(t)[p].es| && PartsOf(t)[p].es[i].off == x && !cf.kind(PartsOf(t)[p].es[i].info).KNone?
  }

  /** There is one entry at most at each word. */
  lemma OnlyEntry(cf: Conf, t: Tables, n: nat, p: int, i: int, q: int, j: int, x: nat)
    requires TablesOk(cf, t, n)
    ensures EntryAt(cf, t, p, i, x) && EntryAt(cf, t, q, j, x) ==> p == q && i == j
  {
    hide PartsApart;
    if EntryAt(cf, t, p, i, x) && EntryAt(cf, t, q, j, x) {
      var ps := PartsOf(t);
      if p == q { SamePart(cf, ps, p); }
      if p < q { PartsDiffer(cf, ps, p, i, q, j); }
      if q < p { PartsDiffer(cf, ps, q, j, p, i); }
    }
  }

  lemma SamePart(cf: Conf, ps: seq<Part>, p: int)
    requires PartsApart(cf, ps) && 0 <= p < |ps|
    ensures Apart(cf, ps[p].es)
  {
  }

  lemma PartsDiffer(cf: Conf, ps: seq<Part>, p: int, i: int, q: int, j: int)
    requires PartsApart(cf, ps) && 0 <= p < q < |ps| && 0 <= i < |ps[p].es| && 0 <= j < |ps[q].es|
    requires !cf.kind(ps[p].es[i].info).KNone? && !cf.kind(ps[q].es[j].info).KNone?
    ensures ps[p].es[i].off != ps[q].es[j].off
  {
  }

  /** A stage leaves a word alone that no live entry is at. */
  lemma StageSpares(cf: Conf, sc: Scope, first: bool, t: Tables, m: seq<nat>, saved: seq<nat>, x: nat)
    requires TablesOk(cf, t, |m|) && Slots(cf, t.rel) <= |saved| && x < |m|
    requires !LiveAt(cf, t.plt.es, x) && !LiveAt(cf, t.rel, x) && !LiveAt(cf, t.rela, x)
    ensures Stage(cf, sc, first, t, m, saved).mem[x] == m[x]
  {
    hide All, SelfAll, LiveAt, LiveOnly, Slots, TablesOk, Apart, AllInside, LiveApart;
    TableFacts(cf, t, |m|);
    LivePass(cf, sc, t.plt.stride, t.plt.es, m, x);
    var a := All(cf, sc, false, t.plt.stride, LiveOnly(cf, t.plt.es), m);
    OtherWords(cf, sc, first, t.rel, a.mem, saved, x);
    var p := SelfAll(cf, sc, first, t.rel, a.mem, saved);
    LivePass(cf, sc, 3, t.rela, p.mem, x);
  }

  lemma NotLive(cf: Conf, t: Tables, n: nat, p: int, i: int, q: int, x: nat)
    requires TablesOk(cf, t, n) && EntryAt(cf, t, p, i, x) && 0 <= q < 3 && q != p
    ensures !LiveAt(cf, PartsOf(t)[q].es, x)
  {
    hide TablesOk;
    var es := PartsOf(t)[q].es;
    forall j | 0 <= j < |es| && Live(cf, es[j]) ensures es[j].off != x {
      OnlyEntry(cf, t, n, p, i, q, j, x);
      assert es[j].off == x ==> EntryAt(cf, t, q, j, x);
    }
  }

  /** Stage 2 saves the addends of the REL table as they were. */
  lemma StageSaves(cf: Conf, sc: Scope, t: Tables, m: seq<nat>, saved: seq<nat>, i: nat)
    requires TablesOk(cf, t, |m|) && Slots(cf, t.rel) <= |saved| && i < |t.rel| && UsesSlot(cf, t.rel[i])
    ensures t.rel[i].off < |m| && Slots(cf, t.rel[..i]) < |saved|
    ensures Stage(cf, sc, true, t, m, saved).saved[Slots(cf, t.rel[..i])] == m[t.rel[i].off]
  {
    hide All, SelfAll, LiveAt, LiveOnly, Slots, TablesOk, Apart, AllInside, LiveApart;
    TableFacts(cf, t, |m|);
    var x := t.rel[i].off;
    assert x < |m| by { InsideAt(t.rel, |m|, i); }
    assert EntryAt(cf, t, 1, i, x);
    NotLive(cf, t, |m|, 1, i, 0, x);
    LivePass(cf, sc, t.plt.stride, t.plt.es, m, x);
    var a := All(cf, sc, false, t.plt.stride, LiveOnly(cf, t.plt.es), m);
    SavedAddend(cf, sc, t.rel, a.mem, saved, i);
  }

  lemma InsideAt(es: seq<Rec>, n: nat, i: nat)
    requires AllInside(es, n) && i < |es|
    ensures es[i].off < n
  {
    assert Inside(es[i], n);
  }

  /** Stage 3 gives the word of a live entry its value, with the addend saved for it. */
  lemma StageWrites(cf: Conf, sc: Scope, t: Tables, m: seq<nat>, saved: seq<nat>, p: int, i: int, x: nat)
    requires TablesOk(cf, t, |m|) && Slots(cf, t.rel) <= |saved| && x < |m| && EntryAt(cf, t, p, i, x)
    requires Live(cf, PartsOf(t)[p].es[i]) && Resolve(cf, sc, PartsOf(t)[p].es[i].info).Some?
    ensures p == 1 && UsesSlot(cf, t.rel[i]) ==> Slots(cf, t.rel[..i]) < |saved|
    ensures Stage(cf, sc, false, t, m, saved).mem[x] ==
            SelfWord(cf, sc, PartsOf(t)[p].es[i],
                     if p == 1 then if UsesSlot(cf, t.rel[i]) then saved[Slots(cf, t.rel[..i])] else 0
                     else if PartsOf(t)[p].stride > 2 then PartsOf(t)[p].es[i].addend else 0)
  {
    hide All, SelfAll, LiveAt, LiveOnly, Slots, TablesOk, Apart, AllInside, LiveApart, Resolve, Word;
    TableFacts(cf, t, |m|);
    LivePass(cf, sc, t.plt.stride, t.plt.es, m, x);
    var a := All(cf, sc, false, t.plt.stride, LiveOnly(cf, t.plt.es), m);
    var b := SelfAll(cf, sc, false, t.rel, a.mem, saved);
    LivePass(cf, sc, 3, t.rela, b.mem, x);
    if p != 2 { NotLive(cf, t, |m|, p, i, 2, x); }
    if p == 1 {
      SecondPass(cf, sc, t.rel, a.mem, saved, i);
    } else {
      NotLive(cf, t, |m|, p, i, 1, x);
      OtherWords(cf, sc, false, t.rel, a.mem, saved, x);
      if p == 0 { JumpSlot(cf, t, |m|, i); }
    }
  }

  lemma JumpSlot(cf: Conf, t: Tables, n: nat, i: nat)
    requires TablesOk(cf, t, n) && i < |t.plt.es| && Live(cf, t.plt.es[i])
    ensures Deferrable(cf.kind(t.plt.es[i].info))
  {
  }

  /** What stage 1 does to one word. */
  lemma BootAt(cf: Conf, t: Tables, m: seq<nat>, x: nat)
    requires TablesOk(cf, t, |m|) && x < |m|
    ensures forall p, i :: EntryAt(cf, t, p, i, x) ==>
      Boot(cf, t, m)[x] ==
      var e := PartsOf(t)[p].es[i];
      if Relative(cf, e.info) then (cf.base + if PartsOf(t)[p].stride > 2 then e.addend else m[x]) % cf.modulus else m[x]
    ensures (forall p, i :: !EntryAt(cf, t, p, i, x)) ==> Boot(cf, t, m)[x] == m[x]
  {
    hide BootAll, TablesOk, Apart, AllInside, LiveApart;
    TableFacts(cf, t, |m|);
    var b := BootAll(cf, 2, t.rel, m);
    Booted(cf, 2, t.rel, m, x);
    Booted(cf, 3, t.rela, b, x);
    forall i | RelativeAt(cf, t.rel, i, x) ensures EntryAt(cf, t, 1, i, x) { }
    forall i | RelativeAt(cf, t.rela, i, x) ensures EntryAt(cf, t, 2, i, x) { }
    forall p, i | EntryAt(cf, t, p, i, x)
      ensures Boot(cf, t, m)[x] ==
        var e := PartsOf(t)[p].es[i];
        if Relative(cf, e.info) then (cf.base + if PartsOf(t)[p].stride > 2 then e.addend else m[x]) % cf.modulus else m[x]
    {
      BootEntry(cf, t, m, p, i, x);
    }
  }

  lemma BootEntry(cf: Conf, t: Tables, m: seq<nat>, p: int, i: int, x: nat)
    requires TablesOk(cf, t, |m|) && x < |m| && EntryAt(cf, t, p, i, x)
    ensures Boot(cf, t, m)[x] ==
      var e := PartsOf(t)[p].es[i];
      if Relative(cf, e.info) then (cf.base + if PartsOf(t)[p].stride > 2 then e.addend else m[x]) % cf.modulus else m[x]
  {
    hide BootAll, TablesOk, Apart, AllInside, LiveApart, PartsOk;
    TableFacts(cf, t, |m|);
    var b := BootAll(cf, 2, t.rel, m);
    Booted(cf, 2, t.rel, m, x);
    Booted(cf, 3, t.rela, b, x);
    forall j | RelativeAt(cf, t.rel, j, x) ensures p == 1 && i == j {
      assert EntryAt(cf, t, 1, j, x);
      OnlyEntry(cf, t, |m|, p, i, 1, j, x);
    }
    forall j | RelativeAt(cf, t.rela, j, x) ensures p == 2 && i == j {
      assert EntryAt(cf, t, 2, j, x);
      OnlyEntry(cf, t, |m|, p, i, 2, j, x);
    }
    if p == 0 {
      NoRelative(cf, t, |m|, i);
    } else if p == 1 {
      assert Relative(cf, t.rel[i].info) ==> RelativeAt(cf, t.rel, i, x);
    } else {
      assert Relative(cf, t.rela[i].info) ==> RelativeAt(cf, t.rela, i, x);
    }
  }

  lemma NoRelative(cf: Conf, t: Tables, n: nat, i: nat)
    requires TablesOk(cf, t, n) && i < |t.plt.es| && !cf.kind(t.plt.es[i].info).KNone?
    ensures !Relative(cf, t.plt.es[i].info)
  {
  }

  /** The final scope has every symbol. */
  ghost predicate Resolvable(cf: Conf, sc: Scope, t: Tables) {
    forall p, i, x :: EntryAt(cf, t, p, i, x) ==> Resolve(cf, sc, PartsOf(t)[p].es[i].info).Some?
  }

  /** The words named by the RELR stream are not those of entries. */
  ghost predicate RelrApart(cf: Conf, t: Tables, sh: Relr.Shape, relr: seq<nat>)
    requires sh.word > 0
  {
    forall p, i, x :: EntryAt(cf, t, p, i, x) ==> !Relr.Named(sh, relr, |relr|, x)
  }

  ghost function Once(cf: Conf, sc: Scope, t: Tables, m: seq<nat>): (r: seq<nat>)
    requires TablesOk(cf, t, |m|)
    ensures |r| == |m|
  {
    Through(cf, sc, false, PartsOf(t), m)
  }

  lemma OnceAt(cf: Conf, sc: Scope, t: Tables, m: seq<nat>, x: nat)
    requires TablesOk(cf, t, |m|) && x < |m| && Resolvable(cf, sc, t)
    ensures forall p, i :: EntryAt(cf, t, p, i, x) ==>
      Writes(cf, sc, PartsOf(t)[p].es[i]) &&
      Once(cf, sc, t, m)[x] == Written(cf, sc, PartsOf(t)[p].stride, PartsOf(t)[p].es[i], m[x])
    ensures (forall p, i :: !EntryAt(cf, t, p, i, x)) ==> Once(cf, sc, t, m)[x] == m[x]
  {
    hide Through, Written, Resolve;
    var ps := PartsOf(t);
    TablesRelocated(cf, sc, false, ps, m, x, 3);
    assert ps[..3] == ps;
    forall p, i | EntryAt(cf, t, p, i, x) ensures WritesAt(cf, sc, ps, p, i, x) { }
    forall p, i | WritesAt(cf, sc, ps, p, i, x) ensures EntryAt(cf, t, p, i, x) { }
  }

  /** Both later stages, from what stage 1 left. */
  ghost function Later(cf: Conf, sc1: Scope, sc2: Scope, t: Tables, m: seq<nat>, saved: seq<nat>): (r: Pass)
    requires TablesOk(cf, t, |m|) && Slots(cf, t.rel) <= |saved|
    ensures |r.mem| == |m|
  {
    var p := Stage(cf, sc1, true, t, m, saved);
    Stage(cf, sc2, false, t, p.mem, p.saved)
  }

  lemma LaterSpares(cf: Conf, sc1: Scope, sc2: Scope, t: Tables, m: seq<nat>, saved: seq<nat>, x: nat)
    requires TablesOk(cf, t, |m|) && Slots(cf, t.rel) <= |saved| && x < |m|
    requires forall q :: 0 <= q < 3 ==> !LiveAt(cf, PartsOf(t)[q].es, x)
    ensures Later(cf, sc1, sc2, t, m, saved).mem[x] == m[x]
  {
    hide Stage, TablesOk, Slots, LiveAt;
    var ps := PartsOf(t);
    assert !LiveAt(cf, ps[0].es, x) && !LiveAt(cf, ps[1].es, x) && !LiveAt(cf, ps[2].es, x);
    var p := Stage(cf, sc1, true, t, m, saved);
    StageSpares(cf, sc1, true, t, m, saved, x);
    StageSpares(cf, sc2, false, t, p.mem, p.saved, x);
  }

  /** The word of a live entry: written in stage 3, with the addend that stage 2 found. */
  lemma LaterWrites(cf: Conf, sc1: Scope, sc2: Scope, t: Tables, m: seq<nat>, saved: seq<nat>, p: int, i: int, x: nat)
    requires TablesOk(cf, t, |m|) && Slots(cf, t.rel) <= |saved| && x < |m| && EntryAt(cf, t, p, i, x)
    requires Live(cf, PartsOf(t)[p].es[i]) && Resolvable(cf, sc2, t)
    ensures Writes(cf, sc2, PartsOf(t)[p].es[i])
    ensures Later(cf, sc1, sc2, t, m, saved).mem[x] == Written(cf, sc2, PartsOf(t)[p].stride, PartsOf(t)[p].es[i], m[x])
  {
    hide Stage, TablesOk, Slots, Resolve, Word;
    var q := Stage(cf, sc1, true, t, m, saved);
    if p == 1 && UsesSlot(cf, t.rel[i]) { StageSaves(cf, sc1, t, m, saved, i); }
    StageWrites(cf, sc2, t, q.mem, q.saved, p, i, x);
    if p == 0 { JumpSlot(cf, t, |m|, i); }
  }

  lemma StagesAt(cf: Conf, sc1: Scope, sc2: Scope, t: Tables, m: seq<nat>, m1: seq<nat>, saved: seq<nat>, x: nat)
    requires TablesOk(cf, t, |m|) && |m1| == |m| && Slots(cf, t.rel) <= |saved| && x < |m| && Resolvable(cf, sc2, t)
    requires forall p, i :: EntryAt(cf, t, p, i, x) ==> m1[x] == Boot(cf, t, m)[x]
    ensures var r := Later(cf, sc1, sc2, t, m1, saved);
      (forall p, i :: EntryAt(cf, t, p, i, x) ==> r.mem[x] == Once(cf, sc2, t, m)[x]) &&
      ((forall p, i :: !EntryAt(cf, t, p, i, x)) ==>
         r.mem[x] == m1[x] && Boot(cf, t, m)[x] == m[x] && Once(cf, sc2, t, m)[x] == m[x])
  {
    hide Later, Once, Boot, TablesOk, Slots, Resolve, Resolvable, Word, LiveAt;
    BootAt(cf, t, m, x);
    OnceAt(cf, sc2, t, m, x);
    if p, i :| EntryAt(cf, t, p, i, x) {
      EntryStages(cf, sc1, sc2, t, m, m1, saved, p, i, x);
    } else {
      forall q | 0 <= q < 3 ensures !LiveAt(cf, PartsOf(t)[q].es, x) { NoneLiveAt(cf, t, q, x); }
      LaterSpares(cf, sc1, sc2, t, m1, saved, x);
    }
  }

  lemma NoneLiveAt(cf: Conf, t: Tables, q: int, x: nat)
    requires 0 <= q < 3 && forall p, i :: !EntryAt(cf, t, p, i, x)
    ensures !LiveAt(cf, PartsOf(t)[q].es, x)
  {
    var es := PartsOf(t)[q].es;
    forall j | 0 <= j < |es| && Live(cf, es[j]) ensures es[j].off != x { assert !EntryAt(cf, t, q, j, x); }
  }

  lemma EntryStages(cf: Conf, sc1: Scope, sc2: Scope, t: Tables, m: seq<nat>, m1: seq<nat>, saved: seq<nat>, p: int, i: int,
                    x: nat)
    requires TablesOk(cf, t, |m|) && |m1| == |m| && Slots(cf, t.rel) <= |saved| && x < |m| && Resolvable(cf, sc2, t)
    requires EntryAt(cf, t, p, i, x) && m1[x] == Boot(cf, t, m)[x]
    ensures Later(cf, sc1, sc2, t, m1, saved).mem[x] == Once(cf, sc2, t, m)[x]
  {
    hide Later, Once, Boot, TablesOk, Slots, Resolve, Resolvable, LiveAt;
    BootEntry(cf, t, m, p, i, x);
    OnceAt(cf, sc2, t, m, x);
    var e := PartsOf(t)[p].es[i];
    if Live(cf, e) {
      LaterWrites(cf, sc1, sc2, t, m1, saved, p, i, x);
    } else {
      forall q | 0 <= q < 3 ensures !LiveAt(cf, PartsOf(t)[q].es, x) {
        if q == p { DeadHere(cf, t, |m|, p, i, x); } else { NotLive(cf, t, |m|, p, i, q, x); }
      }
      LaterSpares(cf, sc1, sc2, t, m1, saved, x);
    }
  }

  lemma DeadHere(cf: Conf, t: Tables, n: nat, p: int, i: int, x: nat)
    requires TablesOk(cf, t, n) && EntryAt(cf, t, p, i, x) && !Live(cf, PartsOf(t)[p].es[i])
    ensures !LiveAt(cf, PartsOf(t)[p].es, x)
  {
    hide TablesOk;
    var es := PartsOf(t)[p].es;
    forall j | 0 <= j < |es| && Live(cf, es[j]) ensures es[j].off != x {
      OnlyEntry(cf, t, n, p, i, p, j, x);
      assert es[j].off == x ==> EntryAt(cf, t, p, j, x);
    }
  }

  /** All stages together: every entry of every table is applied once, to the pristine image
      and with the final scope, and so is the RELR stream. */
  lemma AllStages(cf: Conf, sc1: Scope, sc2: Scope, t: Tables, m: seq<nat>, m1: seq<nat>, saved: seq<nat>, sh: Relr.Shape,
                  relr: seq<nat>)
    requires TablesOk(cf, t, |m|) && |m1| == |m| && Slots(cf, t.rel) <= |saved| && Resolvable(cf, sc2, t)
    requires sh.word > 0 && RelrApart(cf, t, sh, relr)
    requires Relr.Applied(sh, relr, |relr|, cf.base, Boot(cf, t, m), m1)
    ensures Relr.Applied(sh, relr, |relr|, cf.base, Once(cf, sc2, t, m), Later(cf, sc1, sc2, t, m1, saved).mem)
  {
    hide Later, Once, Boot, TablesOk, Slots, Resolvable, Relr.Named, Relr.Plus;
    forall x: nat | x < |m|
      ensures Later(cf, sc1, sc2, t, m1, saved).mem[x] ==
        if Relr.Named(sh, relr, |relr|, x) then Relr.Plus(Once(cf, sc2, t, m)[x], cf.base, Pow2(Relr.WordBits(sh)))
        else Once(cf, sc2, t, m)[x]
    {
      StagesAt(cf, sc1, sc2, t, m, m1, saved, x);
    }
  }

  // ----- the whole of it

  const ADDEND_LIMIT := 4096

  /** A table in memory words. */
  datatype Raw = Raw(words: seq<nat>, n: nat, stride: nat)

  ghost predicate RawOk(r: Raw) { 2 <= r.stride <= 3 && r.stride * r.n <= |r.words| }

  ghost function EntriesOf(r: Raw): seq<Rec>
    requires RawOk(r)
  {
    Entries(r.words, r.stride, r.n)
  }

  ghost function TablesOf(plt: Raw, rel: Raw, rela: Raw): Tables
    requires RawOk(plt) && RawOk(rel) && RawOk(rela)
  {
    Tables(Part(plt.stride, EntriesOf(plt)), EntriesOf(rel), EntriesOf(rela))
  }

  /** One of the later stages. */
  method RunStage(cf: Conf, sc: Scope, first: bool, plt: Raw, rel: Raw, rela: Raw, mem: array<nat>, saved: array<nat>)
    returns (failed: bool)
    requires RawOk(plt) && RawOk(rel) && RawOk(rela) && rel.stride == 2 && rela.stride == 3 && mem != saved
    requires TablesOk(cf, TablesOf(plt, rel, rela), mem.Length) && Slots(cf, EntriesOf(rel)) <= saved.Length
    modifies mem, saved
    ensures var r := Stage(cf, sc, first, TablesOf(plt, rel, rela), old(mem[..]), old(saved[..]));
      mem[..] == r.mem && saved[..] == r.saved && failed == r.failed
  {
    hide All, SelfAll, Slots, LiveOnly, TablesOk, Apart, AllInside, LiveApart, Entries;
    TableFacts(cf, TablesOf(plt, rel, rela), mem.Length);
    failed := DoOtherRelocs(cf, sc, plt.words, plt.n, plt.stride, mem);
    var f := DoSelfRelocs(cf, sc, first, rel.words, rel.n, mem, saved);
    failed := failed || f;
    f := DoOtherRelocs(cf, sc, rela.words, rela.n, rela.stride, mem);
    failed := failed || f;
  }

  /** From the pristine image to the running linker: `_dlstart_c`, stage 2 with the linker's
      own symbols, and stage 3. It gives up if there are too many addends to save. */
  method RelocSelf(cf: Conf, sc1: Scope, sc2: Scope, plt: Raw, rel: Raw, rela: Raw, sh: Relr.Shape, relr: seq<nat>,
                   mem: array<nat>)
    returns (ok: bool, failed: bool)
    requires RawOk(plt) && RawOk(rel) && RawOk(rela) && rel.stride == 2 && rela.stride == 3
    requires TablesOk(cf, TablesOf(plt, rel, rela), mem.Length) && Resolvable(cf, sc2, TablesOf(plt, rel, rela))
    requires Relr.StreamOk(sh, relr) && mem.Length == sh.words && RelrApart(cf, TablesOf(plt, rel, rela), sh, relr)
    modifies mem
    ensures ok <==> Symbolic(cf, EntriesOf(rel)) < ADDEND_LIMIT
    ensures !failed
    ensures ok ==>
      Relr.Applied(sh, relr, |relr|, cf.base, Once(cf, sc2, TablesOf(plt, rel, rela), old(mem[..])), mem[..])
  {
    hide BootAll, Slots, TablesOk, Apart, AllInside, LiveApart, Entries, Stage, Once, Resolvable, RelrApart, Relr.Applied,
      Relr.StreamOk, Symbolic;
    ghost var t, m := TablesOf(plt, rel, rela), mem[..];
    TableFacts(cf, t, mem.Length);
    Relr.WordPositive(sh, relr);
    BootRelocs(cf, rel.words, rel.n, rel.stride, mem);
    BootRelocs(cf, rela.words, rela.n, rela.stride, mem);
    assert mem[..] == Boot(cf, t, m);
    Relr.BootstrapRelr(sh, relr, cf.base, mem);
    ghost var m1 := mem[..];
    failed := false;
    var cnt := CountSymbolic(cf, rel.words, rel.n);
    if cnt >= ADDEND_LIMIT { return false, false; }
    var saved := new nat[cnt + 1];
    ghost var s0 := saved[..];
    var _ := RunStage(cf, sc1, true, plt, rel, rela, mem, saved);
    ghost var m2, s2 := mem[..], saved[..];
    failed := RunStage(cf, sc2, false, plt, rel, rela, mem, saved);
    AllStages(cf, sc1, sc2, t, m, m1, s0, sh, relr);
    NoneFails(cf, sc2, t, m2, s2);
    ok := true;
  }

  /** With every symbol there, a stage does not fail. */
  lemma NoneFails(cf: Conf, sc: Scope, t: Tables, m: seq<nat>, saved: seq<nat>)
    requires TablesOk(cf, t, |m|) && Slots(cf, t.rel) <= |saved| && Resolvable(cf, sc, t)
    ensures !Stage(cf, sc, false, t, m, saved).failed
  {
    hide All, SelfAll, Slots, TablesOk, Apart, AllInside, LiveApart, Resolve;
    TableFacts(cf, t, |m|);
    LiveOnlyOk(cf, t.plt.es, |m|);
    LiveOnlyOk(cf, t.rela, |m|);
    LiveFound(cf, sc, t, 0, |m|);
    LiveFound(cf, sc, t, 1, |m|);
    LiveFound(cf, sc, t, 2, |m|);
    var a := All(cf, sc, false, t.plt.stride, LiveOnly(cf, t.plt.es), m);
    FailsIff(cf, sc, false, t.plt.stride, LiveOnly(cf, t.plt.es), m);
    SelfSucceeds(cf, sc, false, t.rel, a.mem, saved);
    var p := SelfAll(cf, sc, false, t.rel, a.mem, saved);
    FailsIff(cf, sc, false, 3, LiveOnly(cf, t.rela), p.mem);
  }

  lemma LiveFound(cf: Conf, sc: Scope, t: Tables, p: nat, n: nat)
    requires p < 3 && Resolvable(cf, sc, t)
    ensures var es := PartsOf(t)[p].es;
      (forall i :: 0 <= i < |es| && Live(cf, es[i]) ==> Resolve(cf, sc, es[i].info).Some?) &&
      forall e :: e in LiveOnly(cf, es) ==> !Missing(cf, sc, e)
  {
    hide Resolve, LiveOnly;
    var es := PartsOf(t)[p].es;
    forall i | 0 <= i < |es| && Live(cf, es[i]) ensures Resolve(cf, sc, es[i].info).Some? {
      assert EntryAt(cf, t, p, i, es[i].off);
    }
    forall e | e in LiveOnly(cf, es) ensures !Missing(cf, sc, e) {
      LiveOnlyMembers(cf, es, e);
      var i :| 0 <= i < |es| && es[i] == e;
    }
  }

  lemma {:induction false} SelfSucceeds(cf: Conf, sc: Scope, first: bool, es: seq<Rec>, m: seq<nat>, saved: seq<nat>)
    requires cf.modulus > 0 && AllInside(es, |m|) && Slots(cf, es) <= |saved|
    requires forall i :: 0 <= i < |es| && Live(cf, es[i]) ==> Resolve(cf, sc, es[i].info).Some?
    ensures !SelfAll(cf, sc, first, es, m, saved).failed
  {
    if es != [] {
      var k := |es| - 1;
      assert es[..k + 1] == es;
      SelfNext(cf, sc, first, es, m, saved, k);
      assert forall i :: 0 <= i < k ==> es[..k][i] == es[i];
      SelfSucceeds(cf, sc, first, es[..k], m, saved);
    }
  }
}
