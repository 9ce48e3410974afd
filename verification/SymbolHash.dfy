/** The two hash functions on symbol names. */
module SymbolHash {
  import opened Arith
  import opened Bits

  type Name = seq<bv8>

  const U32 := 0x1_0000_0000

  // ----- the hash functions

  /** The GNU hash without a bound on the accumulator. */
  function Djb(s: Name): nat {
    if s == [] then 5381 else 33 * Djb(s[..|s| - 1]) + (s[|s| - 1] as nat)
  }

  function Hash(s: Name): nat { Djb(s) % U32 }

  function Pow33(n: nat): nat { if n == 0 then 1 else 33 * Pow33(n - 1) }

  /** The bytes of a name, each with the weight of its distance from the end. */
  function Weighted(s: Name): nat {
    if s == [] then 0 else (s[0] as nat) * Pow33(|s| - 1) + Weighted(s[1..])
  }

  lemma {:induction false} WeightedPush(s: Name, c: bv8)
    ensures Weighted(s + [c]) == 33 * Weighted(s) + (c as nat)
  {
    var t := s + [c];
    if s == [] {
      assert t[1..] == [];
    } else {
      assert t[1..] == s[1..] + [c];
      WeightedPush(s[1..], c);
      MulAssoc(33, s[0] as nat, Pow33(|s| - 1));
      MulAssoc(s[0] as nat, 33, Pow33(|s| - 1));
    }
  }

  /** The hash is the weighted sum of the bytes over a seed. */
  lemma {:induction false} DjbIsSum(s: Name)
    ensures Djb(s) == 5381 * Pow33(|s|) + Weighted(s)
  {
    if s != [] {
      var k := |s| - 1;
      DjbIsSum(s[..k]);
      WeightedPush(s[..k], s[k]);
      assert s == s[..k] + [s[k]];
    }
  }

  function HashStep(h: nat, c: nat, m: nat): nat
    requires m > 0
  {
    (h + h * 32 + c) % m
  }

  lemma HashStepMod(x: nat, m: nat, c: nat)
    requires m > 0
    ensures HashStep(x % m, c, m) == (33 * x + c) % m
  {
    DivMod(x, m);
    var r := x % m;
    MulAssoc(m, x / m, 33);
    ModAddMultiple(33 * r + c, m, x / m * 33);
  }

  /** `gnu_hash`, with an accumulator of `bits` bits: any width of `uint_fast32_t` gives
      the same 32-bit result. */
  method GnuHash(s: Name, bits: nat) returns (r: nat)
    requires bits >= 32
    ensures r == Hash(s)
    ensures r == (5381 * Pow33(|s|) + Weighted(s)) % U32
  {
    U32Divides(bits);
    DjbIsSum(s);
    hide Pow2, HashStep, Pow33, Weighted;
    var m := Pow2(bits);
    ModSmall(5381, m);
    var h := 5381;
    var i := 0;
    while i < |s|
      invariant 0 <= i <= |s| && h == Djb(s[..i]) % m
    {
      DjbNext(s, i);
      HashStepMod(Djb(s[..i]), m, s[i] as nat);
      h := HashStep(h, s[i] as nat, m);
      i := i + 1;
    }
    assert s[..i] == s;
    ModMod(Djb(s), m, U32);
    r := h % U32;
  }

  lemma DjbNext(s: Name, i: nat)
    requires i < |s|
    ensures Djb(s[..i + 1]) == 33 * Djb(s[..i]) + (s[i] as nat)
  {
    assert s[..i + 1][..i] == s[..i];
  }

  lemma {:induction false} Pow2Sum(a: nat, b: nat)
    ensures Pow2(a + b) == Pow2(a) * Pow2(b)
  {
    if b > 0 {
      Pow2Sum(a, b - 1);
      MulAssoc(Pow2(a), Pow2(b - 1), 2);
    }
  }

  lemma Pow2Of32()
    ensures Pow2(32) == U32
  {
    assert Pow2(2) == 4;
    Pow2Sum(2, 2);
    Pow2Sum(4, 4);
    Pow2Sum(8, 8);
    Pow2Sum(16, 16);
  }

  lemma U32Divides(bits: nat)
    requires bits >= 32
    ensures Pow2(32) == U32 && Pow2(bits) % U32 == 0 && Pow2(bits) >= U32
  {
    Pow2Of32();
    Pow2Monotone(32, bits);
    Pow2Sum(32, bits - 32);
    ModIs(Pow2(bits), U32, Pow2(bits - 32), 0);
  }

  /** The hash function of the System V gABI, on 32-bit words. */
  function ElfHash(s: Name): bv32 {
    if s == [] then 0 else ElfFold(ElfMix(ElfHash(s[..|s| - 1]), s[|s| - 1] as bv32))
  }

  function Top(h: bv32): bv32 { h & 0xf000_0000 }

  function ElfMix(h: bv32, c: bv32): bv32 { Plus(Shift4(h), c) }

  function Plus(h: bv32, c: bv32): bv32 { h + c }

  /** The one step that the loop shares with the gABI's function is the sum of two words. */
  lemma PlusIs(h: bv32, c: bv32)
    ensures h + c == Plus(h, c)
  {
  }

  function Shift4(h: bv32): bv32 { h << 4 }

  function ElfFold(h: bv32): bv32 {
    var g := Top(h);
    (if g != 0 then h ^ (g >> 24) else h) & !g
  }

  function Times16(h: bv32): bv32 { 16 * h }

  function Mix(h: bv32, c: bv32): bv32 { Plus(Times16(h), c) }

  lemma ShiftLow(h: bv32)
    ensures Times16(h) == Shift4(Low(h))
  {
  }

  lemma MixLow(h: bv32, c: bv32)
    ensures Mix(h, c) == ElfMix(Low(h), c)
  {
    hide Times16, Shift4, Low, Plus;
    ShiftLow(h);
  }

  function Folded(h: bv32): bv32 { (h >> 24) & 0xf0 }

  function Fold(h: bv32): bv32 { h ^ Folded(h) }

  function Low(h: bv32): bv32 { h & 0x0fff_ffff }

  lemma TopFolds(h: bv32)
    ensures Top(h) >> 24 == Folded(h)
  {
  }

  lemma TopKept(h: bv32)
    ensures Top(h ^ Folded(h)) == Top(h)
  {
    assert Top(Folded(h)) == 0;
  }

  lemma ClearTop(v: bv32)
    ensures v & !Top(v) == Low(v)
  {
  }

  lemma NoTop(h: bv32)
    requires Top(h) == 0
    ensures Fold(h) == h
  {
    assert Folded(h) == 0;
  }

  /** Folding in the top bits, and then dropping them, is the gABI's step. */
  lemma FoldIsElf(h: bv32)
    ensures Low(Fold(h)) == ElfFold(h)
  {
    TopFolds(h);
    TopKept(h);
    ClearTop(Fold(h));
    if Top(h) == 0 { NoTop(h); }
  }

  /** `sysv_hash` leaves the high bits in place until the end, with the gABI's result. */
  method SysvHash(s: Name) returns (r: bv32)
    ensures r == ElfHash(s)
  {
    hide Low, Fold, ElfFold, Mix, ElfMix;
    var h: bv32 := 0;
    LowZero();
    var i := 0;
    while i < |s|
      invariant 0 <= i <= |s| && Low(h) == ElfHash(s[..i])
    {
      assert s[..i + 1][..i] == s[..i];
      MixLow(h, s[i] as bv32);
      h := Mix(h, s[i] as bv32);
      FoldIsElf(h);
      h := Fold(h);
      i := i + 1;
    }
    assert s[..i] == s;
    r := Low(h);
  }

  lemma LowZero()
    ensures Low(0) == 0
  {
  }
}
