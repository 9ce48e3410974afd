/** The linker relocates itself twice: in stage 2, when only its own symbols are known, and
    in stage 3 with the final scope. Its REL table keeps addends in the words it relocates,
    so stage 2 saves them for stage 3. */
module SelfRelocs {
  import opened Relocs
  import opened Wrappers

  predicate Relative(cf: Conf, info: nat) {
    cf.kind(info).KRelative? || (cf.kind(info).KSymOrRel? && cf.sym(info) == 0)
  }

  /** Entries that these two passes process; the others are done, or empty. */
  predicate Live(cf: Conf, e: Rec) { !Relative(cf, e.info) && !cf.kind(e.info).KNone? }

  predicate UsesSlot(cf: Conf, e: Rec) { Live(cf, e) && !Deferrable(cf.kind(e.info)) }

  function Slots(cf: Conf, es: seq<Rec>): nat {
    if es == [] then 0 else Slots(cf, es[..|es| - 1]) + if UsesSlot(cf, es[|es| - 1]) then 1 else 0
  }

  lemma {:induction false} SlotsGrow(cf: Conf, es: seq<Rec>, k: nat)
    requires k <= |es|
    ensures Slots(cf, es[..k]) <= Slots(cf, es)
    ensures k < |es| ==> Slots(cf, es[..k + 1]) == Slots(cf, es[..k]) + if UsesSlot(cf, es[k]) then 1 else 0
    ensures k < |es| && UsesSlot(cf, es[k]) ==> Slots(cf, es[..k]) < Slots(cf, es)
    decreases |es| - k
  {
    if k == |es| {
      assert es[..k] == es;
    } else {
      assert es[..k + 1][..k] == es[..k];
      SlotsGrow(cf, es, k + 1);
    }
  }

  // ----- counting

  function Symbolic(cf: Conf, es: seq<Rec>): nat {
    if es == [] then 0 else Symbolic(cf, es[..|es| - 1]) + if Relative(cf, es[|es| - 1].info) then 0 else 1
  }

  lemma {:induction false} SlotsCounted(cf: Conf, es: seq<Rec>)
    ensures Slots(cf, es) <= Symbolic(cf, es)
  {
    if es != [] { SlotsCounted(cf, es[..|es| - 1]); }
  }

  /** The loop of `__dls2` that sizes the array: it has a slot for every entry that will
      use one. */
  method CountSymbolic(cf: Conf, rel: seq<nat>, n: nat) returns (cnt: nat)
    requires 2 * n <= |rel|
    ensures cnt == Symbolic(cf, Entries(rel, 2, n)) && Slots(cf, Entries(rel, 2, n)) <= cnt <= n
  {
    ghost var es := Entries(rel, 2, n);
    EntriesLen(rel, 2, n);
    cnt := 0;
    var k := 0;
    while k < n
      invariant 0 <= k <= n && cnt == Symbolic(cf, es[..k]) && cnt <= k
    {
      EntriesAt(rel, 2, n, k);
      assert es[..k + 1][..k] == es[..k];
      if !Relative(cf, rel[2 * k + 1]) { cnt := cnt + 1; }
      k := k + 1;
    }
    assert es[..n] == es;
    SlotsCounted(cf, es);
  }

  // ----- one pass

  datatype Pass = Pass(mem: seq<nat>, saved: seq<nat>, failed: bool)

  /** One entry, with the next free slot; `first` in stage 2. */
  function SelfOne(cf: Conf, sc: Scope, first: bool, e: Rec, slot: nat, p: Pass): (r: Pass)
    requires cf.modulus > 0 && Inside(e, |p.mem|) && (UsesSlot(cf, e) ==> slot < |p.saved|)
    ensures |r.mem| == |p.mem| && |r.saved| == |p.saved|
  {
    if !Live(cf, e) then p
    else
      var saved := if first && UsesSlot(cf, e) then p.saved[slot := p.mem[e.off]] else p.saved;
      var addend := if UsesSlot(cf, e) then saved[slot] else 0;
      match Resolve(cf, sc, e.info)
      case Some(v) => Pass(p.mem[e.off := Word(cf, e.info, e.off, v, addend)], saved, p.failed)
      case None => Pass(p.mem, saved, true)
  }

  function SelfAll(cf: Conf, sc: Scope, first: bool, es: seq<Rec>, m: seq<nat>, saved: seq<nat>): (r: Pass)
    requires cf.modulus > 0 && AllInside(es, |m|) && Slots(cf, es) <= |saved|
    ensures |r.mem| == |m| && |r.saved| == |saved|
  {
    if es == [] then Pass(m, saved, false)
    else
      var k := |es| - 1;
      assert Inside(es[k], |m|) && forall i :: 0 <= i < k ==> es[..k][i] == es[i];
      SelfOne(cf, sc, first, es[k], Slots(cf, es[..k]), SelfAll(cf, sc, first, es[..k], m, saved))
  }

  lemma SelfNext(cf: Conf, sc: Scope, first: bool, es: seq<Rec>, m: seq<nat>, saved: seq<nat>, k: nat)
    requires cf.modulus > 0 && AllInside(es, |m|) && Slots(cf, es) <= |saved| && k < |es|
    ensures Slots(cf, es[..k]) <= Slots(cf, es[..k + 1]) <= |saved|
    ensures AllInside(es[..k], |m|) && AllInside(es[..k + 1], |m|) && Inside(es[k], |m|)
    ensures UsesSlot(cf, es[k]) ==> Slots(cf, es[..k]) < |saved|
    ensures SelfAll(cf, sc, first, es[..k + 1], m, saved) ==
            SelfOne(cf, sc, first, es[k], Slots(cf, es[..k]), SelfAll(cf, sc, first, es[..k], m, saved))
  {
    SlotsGrow(cf, es, k);
    SlotsGrow(cf, es, k + 1);
    assert es[..k + 1][..k] == es[..k];
    assert forall i :: 0 <= i <= k ==> es[..k + 1][i] == es[i];
    assert forall i :: 0 <= i < k ==> es[..k][i] == es[i];
  }

  /** `do_relocs` on the linker's own REL table. */
  method DoSelfRelocs(cf: Conf, sc: Scope, first: bool, rel: seq<nat>, n: nat, mem: array<nat>, saved: array<nat>)
    returns (failed: bool)
    requires cf.modulus > 0 && 2 * n <= |rel| && AllInside(Entries(rel, 2, n), mem.Length)
    requires mem != saved && Slots(cf, Entries(rel, 2, n)) <= saved.Length
    modifies mem, saved
    ensures var r := SelfAll(cf, sc, first, Entries(rel, 2, n), old(mem[..]), old(saved[..]));
      mem[..] == r.mem && saved[..] == r.saved && failed == r.failed
  {
    hide SelfAll, Entries, Slots, Word, Resolve;
    ghost var es, m0, s0 := Entries(rel, 2, n), mem[..], saved[..];
    EntriesLen(rel, 2, n);
    SelfNone(cf, sc, first, es, m0, s0);
    failed := false;
    var k, slot := 0, 0;
    while k < n
      invariant 0 <= k <= n && AllInside(es[..k], |m0|) && slot == Slots(cf, es[..k]) <= saved.Length
      invariant SelfAll(cf, sc, first, es[..k], m0, s0) == Pass(mem[..], saved[..], failed)
    {
      SelfNext(cf, sc, first, es, m0, s0, k);
      SlotsGrow(cf, es, k);
      EntriesAt(rel, 2, n, k);
      var off, info := rel[2 * k], rel[2 * k + 1];
      k := k + 1;
      if Relative(cf, info) { continue; }
      if cf.kind(info).KNone? { continue; }
      var addend := 0;
      if !Deferrable(cf.kind(info)) {
        if first { saved[slot] := mem[off]; }
        addend := saved[slot];
        slot := slot + 1;
      }
      var v := Resolve(cf, sc, info);
      if v.None? {
        failed := true;
        continue;
      }
      mem[off] := Word(cf, info, off, v.value, addend);
    }
    assert es[..n] == es;
  }

  lemma SelfNone(cf: Conf, sc: Scope, first: bool, es: seq<Rec>, m: seq<nat>, saved: seq<nat>)
    requires cf.modulus > 0
    ensures Slots(cf, es[..0]) == 0 && AllInside(es[..0], |m|)
    ensures SelfAll(cf, sc, first, es[..0], m, saved) == Pass(m, saved, false)
  {
  }

  // ----- both passes

  /** Live entries have different words. */
  predicate LiveApart(cf: Conf, es: seq<Rec>) {
    forall i, j :: 0 <= i < j < |es| && Live(cf, es[i]) && Live(cf, es[j]) ==> es[i].off != es[j].off
  }

  predicate LiveAt(cf: Conf, es: seq<Rec>, x: nat) { exists i :: 0 <= i < |es| && Live(cf, es[i]) && es[i].off == x }

  lemma {:induction false} OtherWords(cf: Conf, sc: Scope, first: bool, es: seq<Rec>, m: seq<nat>, saved: seq<nat>, x: nat)
    requires cf.modulus > 0 && AllInside(es, |m|) && Slots(cf, es) <= |saved| && x < |m| && !LiveAt(cf, es, x)
    ensures SelfAll(cf, sc, first, es, m, saved).mem[x] == m[x]
  {
    if es != [] {
      var k := |es| - 1;
      assert es[..k + 1] == es;
      SelfNext(cf, sc, first, es, m, saved, k);
      assert forall i :: 0 <= i < k ==> es[..k][i] == es[i];
      OtherWords(cf, sc, first, es[..k], m, saved, x);
    }
  }

  /** Stage 2 saves the addend of every entry before anything overwrites it. */
  lemma {:induction false} SavedAddend(cf: Conf, sc: Scope, es: seq<Rec>, m: seq<nat>, saved: seq<nat>, i: nat)
    requires cf.modulus > 0 && AllInside(es, |m|) && Slots(cf, es) <= |saved| && LiveApart(cf, es)
    requires i < |es| && UsesSlot(cf, es[i])
    ensures es[i].off < |m| && Slots(cf, es[..i]) < |saved|
    ensures SelfAll(cf, sc, true, es, m, saved).saved[Slots(cf, es[..i])] == m[es[i].off]
  {
    var k := |es| - 1;
    assert es[..k + 1] == es && Inside(es[i], |m|);
    SelfNext(cf, sc, true, es, m, saved, k);
    assert forall j :: 0 <= j < k ==> es[..k][j] == es[j];
    SlotsGrow(cf, es, i);
    if i == k {
      OtherWords(cf, sc, true, es[..k], m, saved, es[k].off);
    } else {
      assert es[..k][..i] == es[..i];
      SlotsGrow(cf, es[..k], i);
      SavedAddend(cf, sc, es[..k], m, saved, i);
    }
  }

  function SelfWord(cf: Conf, sc: Scope, e: Rec, addend: nat): nat
    requires cf.modulus > 0 && Resolve(cf, sc, e.info).Some?
  {
    Word(cf, e.info, e.off, Resolve(cf, sc, e.info).value, addend)
  }

  /** Stage 3 takes each addend from the slot that stage 2 used for the same entry. */
  lemma {:induction false} SecondPass(cf: Conf, sc: Scope, es: seq<Rec>, m: seq<nat>, saved: seq<nat>, i: nat)
    requires cf.modulus > 0 && AllInside(es, |m|) && Slots(cf, es) <= |saved| && LiveApart(cf, es)
    requires i < |es| && Live(cf, es[i]) && Resolve(cf, sc, es[i].info).Some?
    ensures es[i].off < |m| && (UsesSlot(cf, es[i]) ==> Slots(cf, es[..i]) < |saved|)
    ensures SelfAll(cf, sc, false, es, m, saved).saved == saved
    ensures SelfAll(cf, sc, false, es, m, saved).mem[es[i].off] ==
            SelfWord(cf, sc, es[i], if UsesSlot(cf, es[i]) then saved[Slots(cf, es[..i])] else 0)
  {
    var k := |es| - 1;
    assert es[..k + 1] == es && Inside(es[i], |m|);
    SelfNext(cf, sc, false, es, m, saved, k);
    SavedKept(cf, sc, es, m, saved);
    SavedKept(cf, sc, es[..k], m, saved);
    assert forall j :: 0 <= j < k ==> es[..k][j] == es[j];
    SlotsGrow(cf, es, i);
    if i < k {
      assert es[..k][..i] == es[..i];
      SecondPass(cf, sc, es[..k], m, saved, i);
    }
  }

  lemma {:induction false} SavedKept(cf: Conf, sc: Scope, es: seq<Rec>, m: seq<nat>, saved: seq<nat>)
    requires cf.modulus > 0 && AllInside(es, |m|) && Slots(cf, es) <= |saved|
    ensures SelfAll(cf, sc, false, es, m, saved).saved == saved
  {
    if es != [] {
      var k := |es| - 1;
      assert forall j :: 0 <= j < k ==> es[..k][j] == es[j];
      SavedKept(cf, sc, es[..k], m, saved);
    }
  }

  /** The live entries alone. */
  function LiveOnly(cf: Conf, es: seq<Rec>): seq<Rec> {
    if es == [] then []
    else
      var r := LiveOnly(cf, es[..|es| - 1]);
      if Live(cf, es[|es| - 1]) then r + [es[|es| - 1]] else r
  }

  lemma {:induction false} LiveOnlyMembers(cf: Conf, es: seq<Rec>, e: Rec)
    ensures e in LiveOnly(cf, es) <==> e in es && Live(cf, e)
  {
    if es != [] {
      LiveOnlyMembers(cf, es[..|es| - 1], e);
      assert es == es[..|es| - 1] + [es[|es| - 1]];
    }
  }

  lemma {:induction false} LiveOnlyOk(cf: Conf, es: seq<Rec>, n: nat)
    requires LiveApart(cf, es) && AllInside(es, n)
    ensures Apart(cf, LiveOnly(cf, es)) && AllInside(LiveOnly(cf, es), n)
  {
    if es != [] {
      var k := |es| - 1;
      assert forall i :: 0 <= i < k ==> es[..k][i] == es[i];
      LiveOnlyOk(cf, es[..k], n);
      var r := LiveOnly(cf, es[..k]);
      forall i | 0 <= i < |r| && Live(cf, es[k]) ensures r[i].off != es[k].off {
        LiveOnlyMembers(cf, es[..k], r[i]);
        var j :| 0 <= j < k && es[..k][j] == r[i];
      }
    }
  }

  /** Relocating in stage 2 with any scope, and again in stage 3 with a scope that has all
      symbols, gives every word the value of relocating the original image once with the
      final scope. */
  lemma RelocatedTwice(cf: Conf, sc1: Scope, sc2: Scope, es: seq<Rec>, m: seq<nat>, saved: seq<nat>, x: nat)
    requires cf.modulus > 0 && AllInside(es, |m|) && Slots(cf, es) <= |saved| && LiveApart(cf, es) && x < |m|
    requires forall i :: 0 <= i < |es| && Live(cf, es[i]) ==> Resolve(cf, sc2, es[i].info).Some?
    ensures AllInside(LiveOnly(cf, es), |m|)
    ensures var p := SelfAll(cf, sc1, true, es, m, saved);
      SelfAll(cf, sc2, false, es, p.mem, p.saved).mem[x] == All(cf, sc2, false, 2, LiveOnly(cf, es), m).mem[x]
  {
    hide SelfAll, All, Word, Resolve, Slots;
    var p := SelfAll(cf, sc1, true, es, m, saved);
    var d := LiveOnly(cf, es);
    LiveOnlyOk(cf, es, |m|);
    Relocated(cf, sc2, false, 2, d, m, x);
    if LiveAt(cf, es, x) {
      var i :| 0 <= i < |es| && Live(cf, es[i]) && es[i].off == x;
      SecondPass(cf, sc2, es, p.mem, p.saved, i);
      if UsesSlot(cf, es[i]) { SavedAddend(cf, sc1, es, m, saved, i); }
      LiveOnlyMembers(cf, es, es[i]);
      var j :| 0 <= j < |d| && d[j] == es[i];
      assert Writes(cf, sc2, d[j]);
    } else {
      OtherWords(cf, sc1, true, es, m, saved, x);
      OtherWords(cf, sc2, false, es, p.mem, p.saved, x);
      forall j | 0 <= j < |d| ensures d[j].off != x {
        LiveOnlyMembers(cf, es, d[j]);
        var i :| 0 <= i < |es| && es[i] == d[j];
      }
      assert !Touched(cf, sc2, d, x);
    }
  }
}
