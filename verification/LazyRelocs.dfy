/** Applying a relocation table, putting off what cannot be resolved yet, and replaying the
    deferred records in place. */
module LazyRelocs {
  import opened Arith
  import opened RelocAbi
  import opened Relocs
  import opened Wrappers

  // ----- one table

  /** Reading `k` entries of a table never depends on what was written before them. */
  ghost predicate TailIntact(now: seq<nat>, was: seq<nat>, from: nat) {
    |now| == |was| && forall i :: from <= i < |was| ==> now[i] == was[i]
  }

  /** `do_relocs` on a DSO other than the linker itself. `rel` may be the array of deferred
      records itself, which is then rewritten as it is read. */
  method DoRelocs(cf: Conf, sc: Scope, rel: array<nat>, n: nat, stride: nat, mem: array<nat>, lazyOn: bool,
                  lazy: array<nat>, cnt0: nat, runtime: bool)
    returns (cnt: nat, failed: bool)
    requires cf.modulus > 0 && 2 <= stride <= 3 && stride * n <= rel.Length
    requires rel != mem && lazy != mem && (rel == lazy ==> stride == 3 && cnt0 == 0)
    requires 3 * cnt0 <= lazy.Length && (lazyOn ==> 3 * (cnt0 + n) <= lazy.Length)
    requires AllInside(Entries(rel[..], stride, n), mem.Length)
    modifies mem, lazy
    ensures cnt0 <= cnt <= cnt0 + n && 3 * cnt <= lazy.Length
    ensures var r := All(cf, sc, lazyOn, stride, Entries(old(rel[..]), stride, n), old(mem[..]));
      failed == r.failed &&
      (!failed || !runtime ==> mem[..] == r.mem && Entries(lazy[..], 3, cnt) == Entries(old(lazy[..]), 3, cnt0) + r.deferred)
    ensures var es := Entries(old(rel[..]), stride, n);
      (failed <==> SomeHopeless(cf, sc, lazyOn, es)) &&
      ((!failed || !runtime) && Apart(cf, es) ==> TableApplied(cf, sc, stride, es, old(mem[..]), mem[..]))
  {
    hide Word, Resolve, Addend, All, Entries, SomeHopeless, Apart, TableApplied, AllInside, Deferrable;
    ghost var rel0, lazy0, m0 := rel[..], lazy[..], mem[..];
    ghost var es := Entries(rel0, stride, n);
    EntriesLen(rel0, stride, n);
    AllNone(cf, sc, lazyOn, stride, es, m0);
    FailsAbi(cf, sc, lazyOn, stride, es, m0);
    if Apart(cf, es) { PassIsAbi(cf, sc, lazyOn, stride, es, m0); }
    cnt, failed := cnt0, false;
    var k := 0;
    while k < n
      invariant 0 <= k <= n && cnt0 <= cnt <= cnt0 + k && 3 * cnt <= lazy.Length
      invariant (rel != lazy ==> rel[..] == rel0) && TailIntact(rel[..], rel0, stride * k) && AllInside(es[..k], |m0|)
      invariant ghost var r := All(cf, sc, lazyOn, stride, es[..k], m0);
        failed == r.failed && mem[..] == r.mem && Entries(lazy[..], 3, cnt) == Entries(lazy0, 3, cnt0) + r.deferred
    {
      AllNext(cf, sc, lazyOn, stride, es, m0, k);
      EntriesAt(rel0, stride, n, k);
      var off, info := rel[stride * k], rel[stride * k + 1];
      var third := if stride > 2 then rel[stride * k + 2] else 0;
      assert es[k] == Rec(off, info, third);
      k := k + 1;
      if cf.kind(info).KNone? { continue; }
      var addend := Addend(cf, stride, Rec(off, info, third), mem[off]);
      var v := Resolve(cf, sc, info);
      if v.None? {
        if lazyOn && Deferrable(cf.kind(info)) {
          Defer(lazy, cnt, off, info, addend);
          cnt := cnt + 1;
          continue;
        }
        failed := true;
        FailedStays(cf, sc, lazyOn, stride, es, m0, k);
        if runtime { return; }
        continue;
      }
      mem[off] := Word(cf, info, off, v.value, addend);
    }
    assert es[..n] == es;
  }

  /** Adds a record to the deferred ones. */
  method Defer(lazy: array<nat>, cnt: nat, off: nat, info: nat, addend: nat)
    requires 3 * cnt + 3 <= lazy.Length
    modifies lazy
    ensures Entries(lazy[..], 3, cnt + 1) == Entries(old(lazy[..]), 3, cnt) + [Rec(off, info, addend)]
    ensures TailIntact(lazy[..], old(lazy[..]), 3 * cnt + 3)
  {
    lazy[3 * cnt], lazy[3 * cnt + 1], lazy[3 * cnt + 2] := off, info, addend;
    EntriesPush(old(lazy[..]), lazy[..], cnt, Rec(off, info, addend));
  }

  lemma AllNone(cf: Conf, sc: Scope, lazy: bool, stride: nat, es: seq<Rec>, m: seq<nat>)
    requires cf.modulus > 0
    ensures AllInside(es[..0], |m|) && All(cf, sc, lazy, stride, es[..0], m) == Image(m, [], false)
  {
  }

  // ----- deferring and replaying

  /** Replaying drops exactly the records whose symbols are found now; it cannot fail. */
  lemma ReplayKeeps(cf: Conf, sc: Scope, es: seq<Rec>, m: seq<nat>)
    requires cf.modulus > 0 && AllInside(es, |m|) && forall i :: 0 <= i < |es| ==> Deferrable(cf.kind(es[i].info))
    ensures var r := All(cf, sc, true, 3, es, m); !r.failed && r.deferred == Unresolved(cf, sc, es)
  {
    DeferredAre(cf, sc, 3, es, m);
  }

  lemma {:induction false} DeferredInside(cf: Conf, sc: Scope, lazy: bool, stride: nat, es: seq<Rec>, m: seq<nat>)
    requires cf.modulus > 0 && AllInside(es, |m|)
    ensures AllInside(All(cf, sc, lazy, stride, es, m).deferred, |m|)
  {
    if es != [] {
      var k := |es| - 1;
      assert forall i :: 0 <= i < k ==> es[..k][i] == es[i];
      DeferredInside(cf, sc, lazy, stride, es[..k], m);
    }
  }

  /** A table relocated in the first scope, and what was deferred replayed in each of the
      others. */
  ghost function Passes(cf: Conf, scs: seq<Scope>, stride: nat, es: seq<Rec>, m: seq<nat>): (r: Image)
    requires cf.modulus > 0 && AllInside(es, |m|) && scs != []
    ensures |r.mem| == |m| && AllInside(r.deferred, |m|)
  {
    var k := |scs| - 1;
    if k == 0 then
      DeferredInside(cf, scs[0], true, stride, es, m);
      All(cf, scs[0], true, stride, es, m)
    else
      var r := Passes(cf, scs[..k], stride, es, m);
      DeferredInside(cf, scs[k], true, 3, r.deferred, r.mem);
      All(cf, scs[k], true, 3, r.deferred, r.mem)
  }

  ghost predicate MissingAll(cf: Conf, scs: seq<Scope>, e: Rec) {
    forall j :: 0 <= j < |scs| ==> Missing(cf, scs[j], e)
  }

  /** The entries that none of the scopes has a symbol for, in order. */
  ghost function NeverFound(cf: Conf, scs: seq<Scope>, es: seq<Rec>): seq<Rec> {
    if es == [] then []
    else
      var e, r := es[|es| - 1], NeverFound(cf, scs, es[..|es| - 1]);
      if MissingAll(cf, scs, e) then r + [e] else r
  }

  /** Scope `k` is the first that has the symbol of `e`. */
  ghost predicate FirstFound(cf: Conf, scs: seq<Scope>, e: Rec, k: int) {
    0 <= k < |scs| && Writes(cf, scs[k], e) && MissingAll(cf, scs[..k], e)
  }

  lemma {:induction false} NeverFoundMembers(cf: Conf, scs: seq<Scope>, es: seq<Rec>, e: Rec)
    ensures e in NeverFound(cf, scs, es) <==> e in es && MissingAll(cf, scs, e)
  {
    if es != [] {
      NeverFoundMembers(cf, scs, es[..|es| - 1], e);
      assert es == es[..|es| - 1] + [es[|es| - 1]];
    }
  }

  lemma {:induction false} NeverFoundOne(cf: Conf, sc: Scope, es: seq<Rec>)
    ensures NeverFound(cf, [sc], es) == Unresolved(cf, sc, es)
  {
    if es != [] {
      NeverFoundOne(cf, sc, es[..|es| - 1]);
      assert MissingAll(cf, [sc], es[|es| - 1]) <==> Missing(cf, [sc][0], es[|es| - 1]);
    }
  }

  lemma {:induction false} NeverFoundNext(cf: Conf, scs: seq<Scope>, es: seq<Rec>, k: nat)
    requires k < |scs|
    ensures Unresolved(cf, scs[k], NeverFound(cf, scs[..k], es)) == NeverFound(cf, scs[..k + 1], es)
  {
    if es != [] {
      var e, rest := es[|es| - 1], es[..|es| - 1];
      NeverFoundNext(cf, scs, rest, k);
      MissingNext(cf, scs, e, k);
      var r := NeverFound(cf, scs[..k], rest);
      assert (r + [e])[..|r|] == r;
    }
  }

  lemma MissingNext(cf: Conf, scs: seq<Scope>, e: Rec, k: nat)
    requires k < |scs|
    ensures MissingAll(cf, scs[..k + 1], e) <==> MissingAll(cf, scs[..k], e) && Missing(cf, scs[k], e)
  {
    var a, b := scs[..k], scs[..k + 1];
    assert b[k] == scs[k] && forall j :: 0 <= j < k ==> b[j] == a[j];
  }

  lemma {:induction false} NeverFoundApart(cf: Conf, scs: seq<Scope>, es: seq<Rec>, n: nat)
    requires Apart(cf, es) && AllInside(es, n)
    ensures Apart(cf, NeverFound(cf, scs, es)) && AllInside(NeverFound(cf, scs, es), n)
  {
    if es != [] {
      var k := |es| - 1;
      assert forall i :: 0 <= i < k ==> es[..k][i] == es[i];
      NeverFoundApart(cf, scs, es[..k], n);
      var r := NeverFound(cf, scs, es[..k]);
      forall i | 0 <= i < |r| && !cf.kind(r[i].info).KNone? && !cf.kind(es[k].info).KNone? ensures r[i].off != es[k].off {
        NeverFoundMembers(cf, scs, es[..k], r[i]);
        var j :| 0 <= j < k && es[..k][j] == r[i];
      }
    }
  }

  ghost predicate Input(cf: Conf, scs: seq<Scope>, stride: nat, es: seq<Rec>, m: seq<nat>) {
    cf.modulus > 0 && AllInside(es, |m|) && Apart(cf, es) && 2 <= stride <= 3 && scs != [] &&
    (stride == 2 ==> forall i :: 0 <= i < |es| ==> es[i].addend == 0) &&
    forall i :: 0 <= i < |es| && Missing(cf, scs[0], es[i]) ==> Deferrable(cf.kind(es[i].info))
  }

  /** No pass fails, and what is left is what was never found. */
  lemma {:induction false} PassesLeave(cf: Conf, scs: seq<Scope>, stride: nat, es: seq<Rec>, m: seq<nat>)
    requires Input(cf, scs, stride, es, m)
    ensures var r := Passes(cf, scs, stride, es, m); !r.failed && r.deferred == NeverFound(cf, scs, es)
  {
    hide All, NeverFound, Unresolved;
    var k := |scs| - 1;
    if k == 0 {
      DeferredAre(cf, scs[0], stride, es, m);
      NeverFoundOne(cf, scs[0], es);
      assert scs == [scs[0]];
    } else {
      PassesLeave(cf, scs[..k], stride, es, m);
      var r := Passes(cf, scs[..k], stride, es, m);
      DeferrableLeft(cf, scs[..k], stride, es, m);
      ReplayKeeps(cf, scs[k], r.deferred, r.mem);
      NeverFoundNext(cf, scs, es, k);
      assert scs[..k + 1] == scs;
    }
  }

  lemma DeferrableLeft(cf: Conf, scs: seq<Scope>, stride: nat, es: seq<Rec>, m: seq<nat>)
    requires Input(cf, scs, stride, es, m)
    ensures forall i :: 0 <= i < |NeverFound(cf, scs, es)| ==> Deferrable(cf.kind(NeverFound(cf, scs, es)[i].info))
  {
    hide NeverFound;
    var d := NeverFound(cf, scs, es);
    forall i | 0 <= i < |d| ensures Deferrable(cf.kind(d[i].info)) {
      NeverFoundMembers(cf, scs, es, d[i]);
      var j :| 0 <= j < |es| && es[j] == d[i];
    }
  }

  /** A table relocated in one scope, with the rest replayed in any number of later ones:
      every entry is applied once, in the first scope that has its symbol and to its
      original addend; those with a symbol in none remain, in order, and no other word
      changes. */
  lemma {:induction false} DeferThenReplay(cf: Conf, scs: seq<Scope>, stride: nat, es: seq<Rec>, m: seq<nat>, x: nat)
    requires Input(cf, scs, stride, es, m) && x < |m|
    ensures var r := Passes(cf, scs, stride, es, m);
      !r.failed && r.deferred == NeverFound(cf, scs, es) &&
      (forall i, k :: 0 <= i < |es| && es[i].off == x && FirstFound(cf, scs, es[i], k) ==>
         r.mem[x] == Written(cf, scs[k], stride, es[i], m[x])) &&
      ((forall i, k :: 0 <= i < |es| && es[i].off == x ==> !FirstFound(cf, scs, es[i], k)) ==> r.mem[x] == m[x])
  {
    hide All, NeverFound, Unresolved, Written, Writes, Missing;
    PassesLeave(cf, scs, stride, es, m);
    var k := |scs| - 1;
    if k == 0 {
      FoundOnce(cf, scs, stride, es, m, x);
    } else {
      DeferThenReplay(cf, scs[..k], stride, es, m, x);
      FoundLater(cf, scs, stride, es, m, x);
    }
  }

  lemma FoundOnce(cf: Conf, scs: seq<Scope>, stride: nat, es: seq<Rec>, m: seq<nat>, x: nat)
    requires Input(cf, scs, stride, es, m) && x < |m| && |scs| == 1
    ensures var r := All(cf, scs[0], true, stride, es, m);
      (forall i, k :: 0 <= i < |es| && es[i].off == x && FirstFound(cf, scs, es[i], k) ==>
         r.mem[x] == Written(cf, scs[k], stride, es[i], m[x])) &&
      ((forall i, k :: 0 <= i < |es| && es[i].off == x ==> !FirstFound(cf, scs, es[i], k)) ==> r.mem[x] == m[x])
  {
    hide All, Written;
    Relocated(cf, scs[0], true, stride, es, m, x);
    assert forall e :: Writes(cf, scs[0], e) ==> FirstFound(cf, scs, e, 0);
  }

  /** The last of several passes. */
  lemma FoundLater(cf: Conf, scs: seq<Scope>, stride: nat, es: seq<Rec>, m: seq<nat>, x: nat)
    requires Input(cf, scs, stride, es, m) && x < |m| && |scs| > 1
    requires var q := scs[..|scs| - 1]; var r := Passes(cf, q, stride, es, m);
      r.deferred == NeverFound(cf, q, es) &&
      (forall i, k :: 0 <= i < |es| && es[i].off == x && FirstFound(cf, q, es[i], k) ==>
         r.mem[x] == Written(cf, q[k], stride, es[i], m[x])) &&
      ((forall i, k :: 0 <= i < |es| && es[i].off == x ==> !FirstFound(cf, q, es[i], k)) ==> r.mem[x] == m[x])
    ensures var r := Passes(cf, scs, stride, es, m);
      (forall i, k :: 0 <= i < |es| && es[i].off == x && FirstFound(cf, scs, es[i], k) ==>
         r.mem[x] == Written(cf, scs[k], stride, es[i], m[x])) &&
      ((forall i, k :: 0 <= i < |es| && es[i].off == x ==> !FirstFound(cf, scs, es[i], k)) ==> r.mem[x] == m[x])
  {
    hide All, NeverFound, Written, Writes, Missing;
    var n := |scs| - 1;
    var q, sc := scs[..n], scs[n];
    var r, d := Passes(cf, q, stride, es, m), NeverFound(cf, q, es);
    NeverFoundApart(cf, q, es, |m|);
    Relocated(cf, sc, true, 3, d, r.mem, x);
    forall i, k | 0 <= i < |es| && es[i].off == x && FirstFound(cf, scs, es[i], k)
      ensures All(cf, sc, true, 3, d, r.mem).mem[x] == Written(cf, scs[k], stride, es[i], m[x])
    {
      FoundAt(cf, scs, stride, es, m, x, i, k);
    }
    if forall i, k :: 0 <= i < |es| && es[i].off == x ==> !FirstFound(cf, scs, es[i], k) {
      NeverTouched(cf, scs, es, x);
      forall i, k | 0 <= i < |es| && es[i].off == x ensures !FirstFound(cf, q, es[i], k) {
        FoundPrefix(cf, scs, es[i], n, k);
      }
    }
  }

  lemma FoundPrefix(cf: Conf, scs: seq<Scope>, e: Rec, n: nat, k: int)
    requires n <= |scs|
    ensures 0 <= k < n ==> (FirstFound(cf, scs[..n], e, k) <==> FirstFound(cf, scs, e, k))
  {
    if 0 <= k < n { assert scs[..n][..k] == scs[..k]; }
  }

  lemma NeverTouched(cf: Conf, scs: seq<Scope>, es: seq<Rec>, x: nat)
    requires |scs| > 1 && forall i, k :: 0 <= i < |es| && es[i].off == x ==> !FirstFound(cf, scs, es[i], k)
    ensures !Touched(cf, scs[|scs| - 1], NeverFound(cf, scs[..|scs| - 1], es), x)
  {
    hide NeverFound, Writes, Missing;
    var n := |scs| - 1;
    var d := NeverFound(cf, scs[..n], es);
    forall j | 0 <= j < |d| && d[j].off == x ensures !Writes(cf, scs[n], d[j]) {
      NeverFoundMembers(cf, scs[..n], es, d[j]);
      var i :| 0 <= i < |es| && es[i] == d[j];
      assert !FirstFound(cf, scs, es[i], n);
    }
  }

  lemma FoundAt(cf: Conf, scs: seq<Scope>, stride: nat, es: seq<Rec>, m: seq<nat>, x: nat, i: nat, k: nat)
    requires Input(cf, scs, stride, es, m) && x < |m| && |scs| > 1 && i < |es| && es[i].off == x
    requires FirstFound(cf, scs, es[i], k)
    requires var q := scs[..|scs| - 1]; var r := Passes(cf, q, stride, es, m);
      r.deferred == NeverFound(cf, q, es) &&
      (forall i, k :: 0 <= i < |es| && es[i].off == x && FirstFound(cf, q, es[i], k) ==>
         r.mem[x] == Written(cf, q[k], stride, es[i], m[x]))
    ensures Passes(cf, scs, stride, es, m).mem[x] == Written(cf, scs[k], stride, es[i], m[x])
  {
    hide All, NeverFound, Written, Apart;
    var n, e := |scs| - 1, es[i];
    var q, sc := scs[..n], scs[n];
    var r, d := Passes(cf, q, stride, es, m), NeverFound(cf, q, es);
    NeverFoundApart(cf, q, es, |m|);
    Relocated(cf, sc, true, 3, d, r.mem, x);
    if k == n {
      NeverFoundMembers(cf, q, es, e);
      var j :| 0 <= j < |d| && d[j] == e;
      assert q[0] == scs[0];
      SameAddend(cf, sc, stride, e, r.mem[x], m[x]);
    } else {
      FoundPrefix(cf, scs, e, n, k);
      FoundBefore(cf, q, sc, es, i, k);
    }
  }

  lemma SameAddend(cf: Conf, sc: Scope, stride: nat, e: Rec, a: nat, b: nat)
    requires cf.modulus > 0 && Writes(cf, sc, e) && Deferrable(cf.kind(e.info)) && (stride == 2 ==> e.addend == 0)
    requires 2 <= stride <= 3
    ensures Written(cf, sc, 3, e, a) == Written(cf, sc, stride, e, b)
  {
  }

  /** What was written at once is not written again. */
  lemma FoundBefore(cf: Conf, scs: seq<Scope>, sc: Scope, es: seq<Rec>, i: nat, k: nat)
    requires Apart(cf, es) && i < |es| && FirstFound(cf, scs, es[i], k)
    ensures !Touched(cf, sc, NeverFound(cf, scs, es), es[i].off)
  {
    hide NeverFound;
    var d := NeverFound(cf, scs, es);
    forall j | 0 <= j < |d| && Writes(cf, sc, d[j]) ensures d[j].off != es[i].off {
      NeverFoundMembers(cf, scs, es, d[j]);
      assert Missing(cf, scs[k], d[j]);
      var h :| 0 <= h < |es| && es[h] == d[j];
      assert h != i;
    }
  }

  ghost predicate FoundFirst(cf: Conf, scs: seq<Scope>, e: Rec, k: int) {
    0 <= k < |scs| && HasSymbol(cf, scs[k], e) && forall j :: 0 <= j < k ==> NoSymbol(cf, scs[j], e)
  }

  lemma FoundFirstIff(cf: Conf, scs: seq<Scope>, e: Rec, k: int)
    ensures FoundFirst(cf, scs, e, k) <==> FirstFound(cf, scs, e, k)
  {
    hide HasSymbol, NoSymbol, Writes, Missing;
    if 0 <= k < |scs| {
      SymbolIff(cf, scs[k], e);
      var q := scs[..k];
      forall j | 0 <= j < k ensures q[j] == scs[j] && (NoSymbol(cf, scs[j], e) <==> Missing(cf, q[j], e)) {
        SymbolIff(cf, scs[j], e);
      }
    }
  }

  /** Deferring and replaying in the terms of the processor supplement: every entry is applied
      in the first scope that has its symbol, to its own addend or the word that was in place
      at first, and no other word changes. */
  lemma ReplayIsAbi(cf: Conf, scs: seq<Scope>, stride: nat, es: seq<Rec>, m: seq<nat>)
    requires Input(cf, scs, stride, es, m)
    ensures var r := Passes(cf, scs, stride, es, m).mem;
      (forall i, k :: 0 <= i < |es| && FoundFirst(cf, scs, es[i], k) ==>
        Inside(es[i], |m|) && Applied(cf, scs[k], stride, es[i], m[es[i].off], r[es[i].off])) &&
      (forall x :: 0 <= x < |m| && (forall i, k :: 0 <= i < |es| && FoundFirst(cf, scs, es[i], k) ==> es[i].off != x) ==>
        r[x] == m[x])
  {
    hide Passes, NeverFound, Apart, Written, Applied, HasSymbol, NoSymbol, Missing;
    var r := Passes(cf, scs, stride, es, m).mem;
    forall i, k | 0 <= i < |es| && FoundFirst(cf, scs, es[i], k)
      ensures Inside(es[i], |m|) && Applied(cf, scs[k], stride, es[i], m[es[i].off], r[es[i].off])
    {
      var e := es[i];
      assert Inside(e, |m|);
      FoundFirstIff(cf, scs, e, k);
      DeferThenReplay(cf, scs, stride, es, m, e.off);
      assert Writes(cf, scs[k], e);
      WrittenIsAbi(cf, scs[k], stride, e, m[e.off]);
    }
    forall x | 0 <= x < |m| && (forall i, k :: 0 <= i < |es| && FoundFirst(cf, scs, es[i], k) ==> es[i].off != x)
      ensures r[x] == m[x]
    {
      DeferThenReplay(cf, scs, stride, es, m, x);
      forall i, k | 0 <= i < |es| && es[i].off == x ensures !FirstFound(cf, scs, es[i], k) {
        FoundFirstIff(cf, scs, es[i], k);
      }
    }
  }

  // ----- capacity

  /** The number of records for which `prepare_lazy` makes room; sizes are in bytes. */
  function Capacity(relSize: nat, relaSize: nat, pltRelSize: nat): nat {
    relSize / 2 + relaSize / 3 + pltRelSize / 2 + 1
  }

  lemma CapacitySuffices(wordSize: nat, nRel: nat, nRela: nat, nPlt: nat, pltStride: nat)
    requires wordSize > 0 && 2 <= pltStride <= 3
    ensures nRel + nRela + nPlt < Capacity(nRel * (2 * wordSize), nRela * (3 * wordSize), nPlt * (pltStride * wordSize))
  {
    AtLeast(nRel, 2 * wordSize, 2);
    AtLeast(nRela, 3 * wordSize, 3);
    AtLeast(nPlt, pltStride * wordSize, 2);
  }

  lemma AtLeast(n: nat, s: nat, d: nat)
    requires s >= d > 0
    ensures n * s / d >= n
  {
    var q := n * s / d;
    DivMod(n * s, d);
    MulAdd(n, d, s - d);
    Product(n, s - d);
    if q < n {
      MulAdd(d, q, n - q);
      MulFar(d, n - q);
    }
  }

  datatype Table = Table(rel: array<nat>, n: nat, stride: nat)

  ghost predicate TableOk(t: Table, limit: nat)
    reads t.rel
  {
    2 <= t.stride <= 3 && t.stride * t.n <= t.rel.Length && AllInside(Entries(t.rel[..], t.stride, t.n), limit)
  }

  ghost function Left(cf: Conf, sc: Scope, t: Table): seq<Rec>
    requires 2 <= t.stride <= 3 && t.stride * t.n <= t.rel.Length
    reads t.rel
  {
    Unresolved(cf, sc, Entries(t.rel[..], t.stride, t.n))
  }

  /** Entries of one stride. */
  datatype Part = Part(stride: nat, es: seq<Rec>)

  /** Some entry has a missing symbol that cannot be put off. */
  predicate PartFails(cf: Conf, sc: Scope, lazy: bool, p: Part) {
    exists i :: 0 <= i < |p.es| && Fatal(cf, sc, lazy, p.es[i])
  }

  ghost predicate PartsOk(ps: seq<Part>, n: nat) { forall p :: 0 <= p < |ps| ==> AllInside(ps[p].es, n) }

  /** Memory after the tables have been applied one after the other. */
  ghost function Through(cf: Conf, sc: Scope, lazy: bool, ps: seq<Part>, m: seq<nat>): (r: seq<nat>)
    requires cf.modulus > 0 && PartsOk(ps, |m|)
    ensures |r| == |m|
  {
    if ps == [] then m
    else
      var k := |ps| - 1;
      assert AllInside(ps[k].es, |m|) && forall p :: 0 <= p < k ==> ps[..k][p] == ps[p];
      All(cf, sc, lazy, ps[k].stride, ps[k].es, Through(cf, sc, lazy, ps[..k], m)).mem
  }

  lemma ThroughNext(cf: Conf, sc: Scope, lazy: bool, ps: seq<Part>, m: seq<nat>, k: nat)
    requires cf.modulus > 0 && PartsOk(ps, |m|) && k < |ps|
    ensures PartsOk(ps[..k], |m|) && PartsOk(ps[..k + 1], |m|) && AllInside(ps[k].es, |m|)
    ensures Through(cf, sc, lazy, ps[..k + 1], m) ==
            All(cf, sc, lazy, ps[k].stride, ps[k].es, Through(cf, sc, lazy, ps[..k], m)).mem
  {
    hide All;
    assert ps[..k + 1][..k] == ps[..k];
    assert AllInside(ps[k].es, |m|);
    assert forall p :: 0 <= p <= k ==> ps[..k + 1][p] == ps[p];
    assert forall p :: 0 <= p < k ==> ps[..k][p] == ps[p];
  }

  /** Entry `i` of part `p` writes to `x`. */
  ghost predicate WritesAt(cf: Conf, sc: Scope, ps: seq<Part>, p: int, i: int, x: nat) {
    0 <= p < |ps| && 0 <= i < |ps[p].es| && Writes(cf, sc, ps[p].es[i]) && ps[p].es[i].off == x
  }

  /** Entries that do something write to different words, in whichever tables they are. */
  ghost predicate PartsApart(cf: Conf, ps: seq<Part>) {
    (forall p :: 0 <= p < |ps| ==> Apart(cf, ps[p].es)) &&
    forall p, q, i, j :: 0 <= p < q < |ps| && 0 <= i < |ps[p].es| && 0 <= j < |ps[q].es| ==>
      cf.kind(ps[p].es[i].info).KNone? || cf.kind(ps[q].es[j].info).KNone? || ps[p].es[i].off != ps[q].es[j].off
  }

  /** The tables together: each entry with a symbol is applied once, to the addend the
      image started with, and no other word changes. */
  lemma {:induction false} TablesRelocated(cf: Conf, sc: Scope, lazy: bool, ps: seq<Part>, m: seq<nat>, x: nat, k: nat)
    requires cf.modulus > 0 && PartsOk(ps, |m|) && PartsApart(cf, ps) && x < |m| && k <= |ps|
    ensures PartsOk(ps[..k], |m|)
    ensures var r := Through(cf, sc, lazy, ps[..k], m);
      (forall p, i :: p < k && WritesAt(cf, sc, ps, p, i, x) ==> r[x] == Written(cf, sc, ps[p].stride, ps[p].es[i], m[x])) &&
      ((forall p, i :: p < k ==> !WritesAt(cf, sc, ps, p, i, x)) ==> r[x] == m[x])
  {
    hide All, Written, Writes;
    if k > 0 {
      var n := k - 1;
      TablesRelocated(cf, sc, lazy, ps, m, x, n);
      ThroughNext(cf, sc, lazy, ps, m, n);
      var before := Through(cf, sc, lazy, ps[..n], m);
      Relocated(cf, sc, lazy, ps[n].stride, ps[n].es, before, x);
      forall i | WritesAt(cf, sc, ps, n, i, x) ensures before[x] == m[x] { NotBeforePart(cf, sc, ps, n, i, x); }
      assert forall i :: 0 <= i < |ps[n].es| && Writes(cf, sc, ps[n].es[i]) && ps[n].es[i].off == x ==>
        WritesAt(cf, sc, ps, n, i, x);
      forall p, i | p < n && WritesAt(cf, sc, ps, p, i, x) ensures !Touched(cf, sc, ps[n].es, x) {
        NotAfterPart(cf, sc, ps, p, i, n, x);
      }
    }
  }

  ghost predicate HasSymbolAt(cf: Conf, sc: Scope, ps: seq<Part>, p: int, i: int) {
    0 <= p < |ps| && 0 <= i < |ps[p].es| && HasSymbol(cf, sc, ps[p].es[i])
  }

  /** The tables together in the terms of the processor supplement. */
  lemma TablesAreAbi(cf: Conf, sc: Scope, lazy: bool, ps: seq<Part>, m: seq<nat>)
    requires cf.modulus > 0 && PartsOk(ps, |m|) && PartsApart(cf, ps)
    requires forall p :: 0 <= p < |ps| ==> 2 <= ps[p].stride <= 3
    ensures var r := Through(cf, sc, lazy, ps, m);
      (forall p, i :: HasSymbolAt(cf, sc, ps, p, i) ==>
        var e := ps[p].es[i]; Inside(e, |m|) && Applied(cf, sc, ps[p].stride, e, m[e.off], r[e.off])) &&
      (forall x :: 0 <= x < |m| && (forall p, i :: HasSymbolAt(cf, sc, ps, p, i) ==> ps[p].es[i].off != x) ==> r[x] == m[x])
  {
    hide Through, Written, Applied, HasSymbol, Writes, NoSymbol, Missing;
    var r, n := Through(cf, sc, lazy, ps, m), |ps|;
    assert ps[..n] == ps;
    forall p, i | HasSymbolAt(cf, sc, ps, p, i)
      ensures var e := ps[p].es[i]; Inside(e, |m|) && Applied(cf, sc, ps[p].stride, e, m[e.off], r[e.off])
    {
      var e := ps[p].es[i];
      assert AllInside(ps[p].es, |m|) && Inside(e, |m|);
      SymbolIff(cf, sc, e);
      TablesRelocated(cf, sc, lazy, ps, m, e.off, n);
      assert WritesAt(cf, sc, ps, p, i, e.off);
      WrittenIsAbi(cf, sc, ps[p].stride, e, m[e.off]);
    }
    forall x | 0 <= x < |m| && (forall p, i :: HasSymbolAt(cf, sc, ps, p, i) ==> ps[p].es[i].off != x)
      ensures r[x] == m[x]
    {
      TablesRelocated(cf, sc, lazy, ps, m, x, n);
      forall p, i ensures !WritesAt(cf, sc, ps, p, i, x) {
        if 0 <= p < |ps| && 0 <= i < |ps[p].es| {
          SymbolIff(cf, sc, ps[p].es[i]);
          assert HasSymbolAt(cf, sc, ps, p, i) ==> ps[p].es[i].off != x;
        }
      }
    }
  }

  lemma NotBeforePart(cf: Conf, sc: Scope, ps: seq<Part>, n: nat, i: int, x: nat)
    requires PartsApart(cf, ps) && WritesAt(cf, sc, ps, n, i, x)
    ensures forall p, j :: p < n ==> !WritesAt(cf, sc, ps, p, j, x)
  {
  }

  lemma NotAfterPart(cf: Conf, sc: Scope, ps: seq<Part>, p: nat, i: int, n: nat, x: nat)
    requires PartsApart(cf, ps) && WritesAt(cf, sc, ps, p, i, x) && p < n < |ps|
    ensures !Touched(cf, sc, ps[n].es, x)
  {
  }

  /** The tables of a DSO in the order in which they are applied. */
  ghost function Parts(plt: Table, rel: Table, rela: Table, n: nat): (ps: seq<Part>)
    requires TableOk(plt, n) && TableOk(rel, n) && TableOk(rela, n)
    reads plt.rel, rel.rel, rela.rel
    ensures PartsOk(ps, n)
  {
    [Part(plt.stride, Entries(plt.rel[..], plt.stride, plt.n)), Part(rel.stride, Entries(rel.rel[..], rel.stride, rel.n)),
     Part(rela.stride, Entries(rela.rel[..], rela.stride, rela.n))]
  }

  function RoomFor(plt: Table, rel: Table, rela: Table, wordSize: nat): nat {
    Capacity(rel.n * (2 * wordSize), rela.n * (3 * wordSize), plt.n * (plt.stride * wordSize))
  }

  method RelocTable(cf: Conf, sc: Scope, t: Table, mem: array<nat>, lazyOn: bool, lazy: array<nat>, cnt0: nat)
    returns (cnt: nat, failed: bool)
    requires cf.modulus > 0 && lazy != mem && t.rel != mem && t.rel != lazy && TableOk(t, mem.Length)
    requires 3 * cnt0 <= lazy.Length && (lazyOn ==> 3 * (cnt0 + t.n) <= lazy.Length)
    modifies mem, lazy
    ensures cnt <= cnt0 + t.n && 3 * cnt <= lazy.Length && TableOk(t, mem.Length)
    ensures var r := All(cf, sc, lazyOn, t.stride, Entries(t.rel[..], t.stride, t.n), old(mem[..]));
      failed == r.failed && (!failed ==> mem[..] == r.mem)
    ensures failed <==> PartFails(cf, sc, lazyOn, Part(t.stride, Entries(t.rel[..], t.stride, t.n)))
    ensures !failed && !lazyOn ==> cnt == cnt0
    ensures !failed && lazyOn ==> Entries(lazy[..], 3, cnt) == Entries(old(lazy[..]), 3, cnt0) + Left(cf, sc, t)
  {
    hide All, Entries, Unresolved;
    if lazyOn { WhatIsDeferred(cf, sc, t.rel[..], t.stride, t.n, mem[..]); }
    FailsIff(cf, sc, lazyOn, t.stride, Entries(t.rel[..], t.stride, t.n), mem[..]);
    EntriesLen(lazy[..], 3, cnt0);
    cnt, failed := DoRelocs(cf, sc, t.rel, t.n, t.stride, mem, lazyOn, lazy, cnt0, true);
    EntriesLen(lazy[..], 3, cnt);
  }

  /** The three tables of a DSO, as `reloc_all` takes them, into an array of the capacity
      that `prepare_lazy` computed: it is never exceeded. */
  method RelocTables(cf: Conf, sc: Scope, plt: Table, rel: Table, rela: Table, wordSize: nat, mem: array<nat>,
                     lazyOn: bool, lazy: array<nat>)
    returns (cnt: nat, failed: bool)
    requires cf.modulus > 0 && wordSize > 0 && lazy != mem && rel.stride == 2 && rela.stride == 3
    requires {plt.rel, rel.rel, rela.rel} !! {mem, lazy}
    requires TableOk(plt, mem.Length) && TableOk(rel, mem.Length) && TableOk(rela, mem.Length)
    requires lazyOn ==> lazy.Length == 3 * RoomFor(plt, rel, rela, wordSize)
    modifies mem, lazy
    ensures cnt <= plt.n + rel.n + rela.n && 3 * cnt <= lazy.Length
    ensures TableOk(plt, mem.Length) && TableOk(rel, mem.Length) && TableOk(rela, mem.Length)
    ensures !failed && lazyOn ==>
      Entries(lazy[..], 3, cnt) == Left(cf, sc, plt) + Left(cf, sc, rel) + Left(cf, sc, rela)
    ensures !failed ==> mem[..] == Through(cf, sc, lazyOn, Parts(plt, rel, rela, mem.Length), old(mem[..]))
    ensures !failed && !lazyOn ==> cnt == 0
    ensures failed <==> exists p :: 0 <= p < 3 && PartFails(cf, sc, lazyOn, Parts(plt, rel, rela, mem.Length)[p])
  {
    hide All, Entries, Unresolved, RoomFor, AllInside, Through, PartsOk, PartFails;
    ghost var ps, m0 := Parts(plt, rel, rela, mem.Length), mem[..];
    ThroughThree(cf, sc, lazyOn, ps, m0);
    HasRoom(plt, rel, rela, mem.Length, wordSize);
    NoEntries(lazy[..]);
    cnt, failed := RelocTable(cf, sc, plt, mem, lazyOn, lazy, 0);
    assert Parts(plt, rel, rela, mem.Length) == ps && (failed <==> PartFails(cf, sc, lazyOn, ps[0]));
    if failed { return; }
    cnt, failed := RelocTable(cf, sc, rel, mem, lazyOn, lazy, cnt);
    assert Parts(plt, rel, rela, mem.Length) == ps && (failed <==> PartFails(cf, sc, lazyOn, ps[1]));
    if failed { return; }
    cnt, failed := RelocTable(cf, sc, rela, mem, lazyOn, lazy, cnt);
    assert Parts(plt, rel, rela, mem.Length) == ps && (failed <==> PartFails(cf, sc, lazyOn, ps[2]));
  }

  lemma ThroughThree(cf: Conf, sc: Scope, lazy: bool, ps: seq<Part>, m: seq<nat>)
    requires cf.modulus > 0 && PartsOk(ps, |m|) && |ps| == 3
    ensures AllInside(ps[0].es, |m|) && AllInside(ps[1].es, |m|) && AllInside(ps[2].es, |m|)
    ensures var a := All(cf, sc, lazy, ps[0].stride, ps[0].es, m).mem;
      var b := All(cf, sc, lazy, ps[1].stride, ps[1].es, a).mem;
      Through(cf, sc, lazy, ps, m) == All(cf, sc, lazy, ps[2].stride, ps[2].es, b).mem
  {
    hide All;
    ThroughNext(cf, sc, lazy, ps, m, 0);
    ThroughNext(cf, sc, lazy, ps, m, 1);
    ThroughNext(cf, sc, lazy, ps, m, 2);
    assert ps[..3] == ps && ps[..0] == [];
  }

  lemma HasRoom(plt: Table, rel: Table, rela: Table, limit: nat, wordSize: nat)
    requires TableOk(plt, limit) && wordSize > 0
    ensures plt.n + rel.n + rela.n < RoomFor(plt, rel, rela, wordSize)
  {
    CapacitySuffices(wordSize, rel.n, rela.n, plt.n, plt.stride);
  }

  lemma NoEntries(t: seq<nat>)
    ensures Entries(t, 3, 0) == []
  {
  }

  lemma WhatIsDeferred(cf: Conf, sc: Scope, t: seq<nat>, stride: nat, n: nat, m: seq<nat>)
    requires cf.modulus > 0 && 2 <= stride <= 3 && stride * n <= |t| && AllInside(Entries(t, stride, n), |m|)
    ensures var r := All(cf, sc, true, stride, Entries(t, stride, n), m);
      !r.failed ==> r.deferred == Unresolved(cf, sc, Entries(t, stride, n))
  {
    hide All;
    var es := Entries(t, stride, n);
    EntriesLen(t, stride, n);
    forall i | stride == 2 && 0 <= i < n ensures es[i].addend == 0 { EntriesAt(t, stride, n, i); }
    DeferredAre(cf, sc, stride, es, m);
  }
}
