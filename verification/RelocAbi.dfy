/** What relocation leaves in memory, in the terms of the processor supplements: S is the
    value of the symbol, A the addend, P the place, B the base address, and every word is
    taken modulo the word size. */
module RelocAbi {
  import opened Arith
  import opened Relocs
  import opened Wrappers

  /** S: the scope's value, of a definition exactly for a PLT slot; zero without a symbol, and
      for a weak one that is missing. */
  predicate IsSymbol(cf: Conf, sc: Scope, e: Rec, S: nat) {
    var i := cf.sym(e.info);
    if i == 0 then S == 0
    else if sc.value(i, cf.kind(e.info) == KPlt) != None then sc.value(i, cf.kind(e.info) == KPlt) == Some(S)
    else sc.weak(i) && S == 0
  }

  /** A: the table's, in a table that has them; else zero for GOT and PLT slots, and the word
      that was in place for the others. */
  predicate IsAddend(cf: Conf, stride: nat, e: Rec, was: nat, A: nat) {
    (stride == 3 ==> A == e.addend) &&
    (stride == 2 && (cf.kind(e.info) == KGot || cf.kind(e.info) == KPlt) ==> A == 0) &&
    (stride == 2 && cf.kind(e.info) != KGot && cf.kind(e.info) != KPlt ==> A == was)
  }

  predicate Same(cf: Conf, x: int, y: int)
    requires cf.modulus > 0
  {
    x % cf.modulus == y % cf.modulus
  }

  /** The word at the place of an entry. */
  predicate IsWord(cf: Conf, e: Rec, S: nat, A: nat, now: nat)
    requires cf.modulus > 0
  {
    var B, P := cf.base, cf.base + e.off;
    now < cf.modulus &&
    match cf.kind(e.info)
    case KNone => false
    case KSymbolic => Same(cf, now, S + A)
    case KGot => Same(cf, now, S + A)
    case KPlt => Same(cf, now, S + A)
    case KOffset => Same(cf, now + P, S + A)
    case KRelative => Same(cf, now, B + A)
    case KSymOrRel => Same(cf, now, if cf.sym(e.info) == 0 then B + A else S + A)
  }

  /** An entry has been applied. */
  ghost predicate Applied(cf: Conf, sc: Scope, stride: nat, e: Rec, was: nat, now: nat)
    requires cf.modulus > 0
  {
    exists S, A :: IsSymbol(cf, sc, e, S) && IsAddend(cf, stride, e, was, A) && IsWord(cf, e, S, A, now)
  }

  /** An entry that does something has a symbol in the scope, or needs none. */
  ghost predicate HasSymbol(cf: Conf, sc: Scope, e: Rec) {
    cf.kind(e.info) != KNone && exists S :: IsSymbol(cf, sc, e, S)
  }

  ghost predicate NoSymbol(cf: Conf, sc: Scope, e: Rec) {
    cf.kind(e.info) != KNone && forall S :: !IsSymbol(cf, sc, e, S)
  }

  lemma SymbolIff(cf: Conf, sc: Scope, e: Rec)
    ensures HasSymbol(cf, sc, e) <==> Writes(cf, sc, e)
    ensures NoSymbol(cf, sc, e) <==> Missing(cf, sc, e)
  {
    match Resolve(cf, sc, e.info)
    case Some(v) => assert IsSymbol(cf, sc, e, v);
    case None =>
  }

  /** The word `do_relocs` writes is the one the processor supplement asks for. */
  lemma WrittenIsAbi(cf: Conf, sc: Scope, stride: nat, e: Rec, was: nat)
    requires cf.modulus > 0 && 2 <= stride <= 3 && Writes(cf, sc, e)
    ensures Applied(cf, sc, stride, e, was, Written(cf, sc, stride, e, was))
  {
    var S, A, m := Resolve(cf, sc, e.info).value, Addend(cf, stride, e, was), cf.modulus;
    var P, B := cf.base + e.off, cf.base;
    assert IsSymbol(cf, sc, e, S);
    assert IsAddend(cf, stride, e, was, A);
    ModTwice(S + A, m);
    ModTwice(B + A, m);
    ModTwice(S + A - P, m);
    ModShift((S + A - P) % m, S + A - P, P, m);
    assert IsWord(cf, e, S, A, Written(cf, sc, stride, e, was));
  }

  lemma ModTwice(x: int, m: int)
    requires m > 0
    ensures 0 <= x % m < m && x % m % m == x % m
  {
    DivMod(x, m);
    ModSmall(x % m, m);
  }

  /** A table has been applied: every entry that has a symbol or needs none, to the word that
      was in its place, and no other word has changed. */
  ghost predicate TableApplied(cf: Conf, sc: Scope, stride: nat, es: seq<Rec>, was: seq<nat>, now: seq<nat>)
    requires cf.modulus > 0 && AllInside(es, |was|)
  {
    |now| == |was| &&
    (forall i :: 0 <= i < |es| && HasSymbol(cf, sc, es[i]) ==>
      Inside(es[i], |was|) && Applied(cf, sc, stride, es[i], was[es[i].off], now[es[i].off])) &&
    (forall x :: 0 <= x < |was| && (forall i :: 0 <= i < |es| && HasSymbol(cf, sc, es[i]) ==> es[i].off != x) ==>
      now[x] == was[x])
  }

  /** A missing symbol of an entry that is no GOT or PLT slot, or that there is no list for. */
  ghost predicate Hopeless(cf: Conf, sc: Scope, lazy: bool, e: Rec) {
    NoSymbol(cf, sc, e) && !(lazy && (cf.kind(e.info) == KPlt || cf.kind(e.info) == KGot))
  }

  ghost predicate SomeHopeless(cf: Conf, sc: Scope, lazy: bool, es: seq<Rec>) {
    exists i :: 0 <= i < |es| && Hopeless(cf, sc, lazy, es[i])
  }

  /** A pass over a table whose entries have targets of their own. */
  lemma PassIsAbi(cf: Conf, sc: Scope, lazy: bool, stride: nat, es: seq<Rec>, m: seq<nat>)
    requires cf.modulus > 0 && 2 <= stride <= 3 && AllInside(es, |m|) && Apart(cf, es)
    ensures TableApplied(cf, sc, stride, es, m, All(cf, sc, lazy, stride, es, m).mem)
  {
    hide All, Written, Applied, HasSymbol, Writes, Apart, NoSymbol, Missing;
    var r := All(cf, sc, lazy, stride, es, m);
    forall i ensures 0 <= i < |es| ==> (HasSymbol(cf, sc, es[i]) <==> Writes(cf, sc, es[i])) {
      if 0 <= i < |es| { SymbolIff(cf, sc, es[i]); }
    }
    forall i | 0 <= i < |es| && HasSymbol(cf, sc, es[i])
      ensures Inside(es[i], |m|) && Applied(cf, sc, stride, es[i], m[es[i].off], r.mem[es[i].off])
    {
      assert Inside(es[i], |m|);
      Relocated(cf, sc, lazy, stride, es, m, es[i].off);
      WrittenIsAbi(cf, sc, stride, es[i], m[es[i].off]);
    }
    forall x | 0 <= x < |m| && (forall i :: 0 <= i < |es| && HasSymbol(cf, sc, es[i]) ==> es[i].off != x)
      ensures r.mem[x] == m[x]
    {
      Relocated(cf, sc, lazy, stride, es, m, x);
    }
  }

  /** A pass fails exactly on a missing symbol that cannot be put off. */
  lemma FailsAbi(cf: Conf, sc: Scope, lazy: bool, stride: nat, es: seq<Rec>, m: seq<nat>)
    requires cf.modulus > 0 && AllInside(es, |m|)
    ensures All(cf, sc, lazy, stride, es, m).failed <==> SomeHopeless(cf, sc, lazy, es)
  {
    hide All, NoSymbol, Missing, HasSymbol, Writes;
    FailsIff(cf, sc, lazy, stride, es, m);
    forall i ensures 0 <= i < |es| ==> (Hopeless(cf, sc, lazy, es[i]) <==> Fatal(cf, sc, lazy, es[i])) {
      if 0 <= i < |es| { SymbolIff(cf, sc, es[i]); }
    }
  }
}
