/** Relocation of a DSO's image: what one entry writes, the table as a whole, and the
    deferral of entries whose symbols are missing. */
module Relocs {
  import opened Wrappers

  /** The relocation types modelled. */
  datatype Kind = KNone | KOffset | KSymbolic | KGot | KPlt | KRelative | KSymOrRel

  /** How an architecture packs type and symbol, the size of its words, and the address at
      which the DSO is loaded. */
  datatype Conf = Conf(kind: nat -> Kind, sym: nat -> nat, modulus: nat, base: nat)

  /** What looking a symbol up finds: its address, wanting a definition or not; and which
      undefined references are weak. */
  datatype Scope = Scope(value: (nat, bool) -> Option<nat>, weak: nat -> bool)

  /** A table entry, or a deferred one; a table without addends has zeros. */
  datatype Rec = Rec(off: nat, info: nat, addend: nat)

  predicate Deferrable(k: Kind) { k.KPlt? || k.KGot? }

  /** The value of an entry's symbol; none if it is missing. */
  function Resolve(cf: Conf, sc: Scope, info: nat): Option<nat> {
    var s := cf.sym(info);
    if s == 0 then Some(0)
    else
      var v := sc.value(s, cf.kind(info).KPlt?);
      if v.None? && sc.weak(s) then Some(0) else v
  }

  /** The word an entry writes. */
  function Word(cf: Conf, info: nat, off: nat, v: nat, addend: nat): nat
    requires cf.modulus > 0
  {
    match cf.kind(info)
    case KRelative => (cf.base + addend) % cf.modulus
    case KSymOrRel => (if cf.sym(info) != 0 then v + addend else cf.base + addend) % cf.modulus
    case KOffset => (v + addend - (cf.base + off)) % cf.modulus
    case _ => (v + addend) % cf.modulus
  }

  /** The addend of an entry: from a table that has them, zero, or the word in place. */
  function Addend(cf: Conf, stride: nat, e: Rec, inline: nat): nat {
    if stride > 2 then e.addend else if Deferrable(cf.kind(e.info)) then 0 else inline
  }

  /** The first `n` entries of a table. */
  function Entries(t: seq<nat>, stride: nat, n: nat): seq<Rec>
    requires 2 <= stride <= 3 && stride * n <= |t|
  {
    if n == 0 then []
    else Entries(t, stride, n - 1) +
         [Rec(t[stride * (n - 1)], t[stride * (n - 1) + 1], if stride == 3 then t[stride * (n - 1) + 2] else 0)]
  }

  /** Memory, the entries put off, and whether some entry could not be handled. */
  datatype Image = Image(mem: seq<nat>, deferred: seq<Rec>, failed: bool)

  predicate Inside(e: Rec, n: nat) { e.off < n }

  predicate AllInside(es: seq<Rec>, n: nat) { forall i :: 0 <= i < |es| ==> Inside(es[i], n) }

  function One(cf: Conf, sc: Scope, lazy: bool, stride: nat, e: Rec, st: Image): (r: Image)
    requires cf.modulus > 0 && Inside(e, |st.mem|)
    ensures |r.mem| == |st.mem|
  {
    if cf.kind(e.info).KNone? then st
    else
      var addend := Addend(cf, stride, e, st.mem[e.off]);
      match Resolve(cf, sc, e.info)
      case Some(v) => st.(mem := st.mem[e.off := Word(cf, e.info, e.off, v, addend)])
      case None =>
        if lazy && Deferrable(cf.kind(e.info)) then st.(deferred := st.deferred + [Rec(e.off, e.info, addend)])
        else st.(failed := true)
  }

  function All(cf: Conf, sc: Scope, lazy: bool, stride: nat, es: seq<Rec>, m: seq<nat>): (r: Image)
    requires cf.modulus > 0 && AllInside(es, |m|)
    ensures |r.mem| == |m|
  {
    if es == [] then Image(m, [], false)
    else
      var k := |es| - 1;
      assert Inside(es[k], |m|) && forall i :: 0 <= i < k ==> es[..k][i] == es[i];
      One(cf, sc, lazy, stride, es[k], All(cf, sc, lazy, stride, es[..k], m))
  }

  lemma {:induction false} EntriesAt(t: seq<nat>, stride: nat, n: nat, k: nat)
    requires 2 <= stride <= 3 && stride * n <= |t| && k < n
    ensures |Entries(t, stride, n)| == n
    ensures stride * k + stride <= |t|
    ensures Entries(t, stride, n)[k] ==
            Rec(t[stride * k], t[stride * k + 1], if stride == 3 then t[stride * k + 2] else 0)
  {
    if k < n - 1 { EntriesAt(t, stride, n - 1, k); } else if n > 1 { EntriesAt(t, stride, n - 1, 0); }
  }

  lemma {:induction false} EntriesLen(t: seq<nat>, stride: nat, n: nat)
    requires 2 <= stride <= 3 && stride * n <= |t|
    ensures |Entries(t, stride, n)| == n
  {
    if n > 0 { EntriesLen(t, stride, n - 1); }
  }

  lemma AllNext(cf: Conf, sc: Scope, lazy: bool, stride: nat, es: seq<Rec>, m: seq<nat>, k: nat)
    requires cf.modulus > 0 && AllInside(es, |m|) && k < |es|
    ensures AllInside(es[..k], |m|) && AllInside(es[..k + 1], |m|) && Inside(es[k], |m|)
    ensures All(cf, sc, lazy, stride, es[..k + 1], m) ==
            One(cf, sc, lazy, stride, es[k], All(cf, sc, lazy, stride, es[..k], m))
  {
    assert es[..k + 1][..k] == es[..k];
    assert forall i :: 0 <= i <= k ==> es[..k + 1][i] == es[i];
    assert forall i :: 0 <= i < k ==> es[..k][i] == es[i];
  }

  lemma {:induction false} FailedStays(cf: Conf, sc: Scope, lazy: bool, stride: nat, es: seq<Rec>, m: seq<nat>, k: nat)
    requires cf.modulus > 0 && AllInside(es, |m|) && k <= |es|
    ensures AllInside(es[..k], |m|)
    ensures All(cf, sc, lazy, stride, es[..k], m).failed ==> All(cf, sc, lazy, stride, es, m).failed
    decreases |es| - k
  {
    if k < |es| {
      AllNext(cf, sc, lazy, stride, es, m, k);
      FailedStays(cf, sc, lazy, stride, es, m, k + 1);
    } else {
      assert es[..k] == es;
    }
  }

  /** Writing one more record after `n` of them. */
  lemma EntriesPush(t: seq<nat>, t': seq<nat>, n: nat, e: Rec)
    requires 3 * n + 3 <= |t| && |t'| == |t| && t'[..3 * n] == t[..3 * n]
    requires t'[3 * n] == e.off && t'[3 * n + 1] == e.info && t'[3 * n + 2] == e.addend
    ensures Entries(t', 3, n + 1) == Entries(t, 3, n) + [e]
  {
    EntriesPrefix(t, t', n);
  }

  lemma {:induction false} EntriesPrefix(t: seq<nat>, t': seq<nat>, n: nat)
    requires 3 * n <= |t| && 3 * n <= |t'| && t'[..3 * n] == t[..3 * n]
    ensures Entries(t', 3, n) == Entries(t, 3, n)
  {
    if n > 0 {
      var k := 3 * (n - 1);
      assert t'[..k] == t'[..3 * n][..k] == t[..3 * n][..k] == t[..k];
      EntriesPrefix(t, t', n - 1);
      assert t'[k] == t'[..3 * n][k] && t'[k + 1] == t'[..3 * n][k + 1] && t'[k + 2] == t'[..3 * n][k + 2];
    }
  }

  // ----- what a pass leaves behind

  predicate Missing(cf: Conf, sc: Scope, e: Rec) { !cf.kind(e.info).KNone? && Resolve(cf, sc, e.info).None? }

  /** The entries with missing symbols, in order. */
  function Unresolved(cf: Conf, sc: Scope, es: seq<Rec>): seq<Rec> {
    if es == [] then []
    else
      var e, r := es[|es| - 1], Unresolved(cf, sc, es[..|es| - 1]);
      if Missing(cf, sc, e) then r + [e] else r
  }

  /** A missing symbol that cannot be put off. */
  predicate Fatal(cf: Conf, sc: Scope, lazy: bool, e: Rec) {
    Missing(cf, sc, e) && !(lazy && Deferrable(cf.kind(e.info)))
  }

  /** When a pass fails; and without the lazy list nothing is deferred. */
  lemma {:induction false} FailsIff(cf: Conf, sc: Scope, lazy: bool, stride: nat, es: seq<Rec>, m: seq<nat>)
    requires cf.modulus > 0 && AllInside(es, |m|)
    ensures var r := All(cf, sc, lazy, stride, es, m);
      (r.failed <==> exists i :: 0 <= i < |es| && Fatal(cf, sc, lazy, es[i])) && (!lazy ==> r.deferred == [])
  {
    if es != [] {
      var k := |es| - 1;
      assert forall i :: 0 <= i < k ==> es[..k][i] == es[i];
      FailsIff(cf, sc, lazy, stride, es[..k], m);
    }
  }

  /** Deferred entries are exactly those with missing symbols, in order, with their
      addends; a pass fails only on one that cannot be deferred. */
  lemma {:induction false} DeferredAre(cf: Conf, sc: Scope, stride: nat, es: seq<Rec>, m: seq<nat>)
    requires cf.modulus > 0 && AllInside(es, |m|) && 2 <= stride <= 3
    requires stride == 2 ==> forall i :: 0 <= i < |es| ==> es[i].addend == 0
    ensures var r := All(cf, sc, true, stride, es, m);
      (r.failed <==> exists i :: 0 <= i < |es| && Missing(cf, sc, es[i]) && !Deferrable(cf.kind(es[i].info))) &&
      (!r.failed ==> r.deferred == Unresolved(cf, sc, es))
  {
    if es != [] {
      var k := |es| - 1;
      assert forall i :: 0 <= i < k ==> es[..k][i] == es[i];
      DeferredAre(cf, sc, stride, es[..k], m);
    }
  }

  /** Entries that do something write to different words. */
  predicate Apart(cf: Conf, es: seq<Rec>) {
    forall i, j :: 0 <= i < j < |es| && !cf.kind(es[i].info).KNone? && !cf.kind(es[j].info).KNone? ==>
      es[i].off != es[j].off
  }

  predicate Writes(cf: Conf, sc: Scope, e: Rec) {
    !cf.kind(e.info).KNone? && Resolve(cf, sc, e.info).Some?
  }

  function Written(cf: Conf, sc: Scope, stride: nat, e: Rec, inline: nat): nat
    requires cf.modulus > 0 && Writes(cf, sc, e)
  {
    Word(cf, e.info, e.off, Resolve(cf, sc, e.info).value, Addend(cf, stride, e, inline))
  }

  predicate Touched(cf: Conf, sc: Scope, es: seq<Rec>, x: nat) {
    exists i :: 0 <= i < |es| && Writes(cf, sc, es[i]) && es[i].off == x
  }

  /** Each entry with a symbol is applied once, to the addend the image started with, and
      no other word changes. */
  lemma {:induction false} Relocated(cf: Conf, sc: Scope, lazy: bool, stride: nat, es: seq<Rec>, m: seq<nat>, x: nat)
    requires cf.modulus > 0 && AllInside(es, |m|) && Apart(cf, es) && x < |m|
    ensures var r := All(cf, sc, lazy, stride, es, m);
      (forall i :: 0 <= i < |es| && Writes(cf, sc, es[i]) && es[i].off == x ==>
         r.mem[x] == Written(cf, sc, stride, es[i], m[x])) &&
      (!Touched(cf, sc, es, x) ==> r.mem[x] == m[x])
  {
    if es != [] {
      var k := |es| - 1;
      assert forall i :: 0 <= i < k ==> es[..k][i] == es[i];
      Relocated(cf, sc, lazy, stride, es[..k], m, x);
      var e, q := es[k], All(cf, sc, lazy, stride, es[..k], m);
      if Writes(cf, sc, e) && e.off == x {
        assert !Touched(cf, sc, es[..k], x);
      }
      if !Touched(cf, sc, es, x) {
        assert !Touched(cf, sc, es[..k], x);
      }
    }
  }
}
