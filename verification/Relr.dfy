/** Packed relative relocations (RELR): an even word is the offset of a word to relocate;
    an odd word is a bitmap of which of the following words to relocate. */
module Relr {
  import opened Arith
  import opened Bits

  /** The layout: bytes in a word, so `8 * word` bits; `words` words of memory. */
  datatype Shape = Shape(word: nat, words: nat)

  function WordBits(sh: Shape): nat { 8 * sh.word }

  predicate IsAddress(e: nat) { e % 2 == 0 }

  /** The word after those named so far, counted from the load address: where a bitmap
      would start. */
  function Cursor(sh: Shape, relr: seq<nat>, k: nat): nat
    requires k <= |relr| && sh.word > 0
  {
    if k == 0 then 0
    else if IsAddress(relr[k - 1]) then relr[k - 1] / sh.word + 1
    else Cursor(sh, relr, k - 1) + WordBits(sh) - 1
  }

  /** Entry `k` names word `x`. */
  predicate NamedBy(sh: Shape, relr: seq<nat>, k: nat, x: nat)
    requires k < |relr| && sh.word > 0
  {
    var e, c := relr[k], Cursor(sh, relr, k);
    if IsAddress(e) then x == e / sh.word else c <= x < c + WordBits(sh) - 1 && Bit(e, x - c + 1)
  }

  predicate Named(sh: Shape, relr: seq<nat>, n: nat, x: nat)
    requires n <= |relr| && sh.word > 0
  {
    exists k: nat :: k < n && NamedBy(sh, relr, k, x)
  }

  /** A stream that starts with an address, and whose addresses are aligned and do not go
      back; everything it names is in memory. */
  ghost predicate StreamOk(sh: Shape, relr: seq<nat>) {
    sh.word > 0 && (relr != [] ==> IsAddress(relr[0])) &&
    forall k: nat :: k < |relr| ==> EntryOk(sh, relr, k)
  }

  ghost predicate EntryOk(sh: Shape, relr: seq<nat>, k: nat)
    requires k < |relr| && sh.word > 0
  {
    relr[k] < Pow2(WordBits(sh)) &&
    (IsAddress(relr[k]) ==> relr[k] % sh.word == 0 && Cursor(sh, relr, k) <= relr[k] / sh.word) &&
    forall x: nat :: NamedBy(sh, relr, k, x) ==> x < sh.words
  }

  // ----- bits

  lemma HalfOf(x: nat, k: nat)
    ensures x / Pow2(k) / 2 == x / Pow2(k + 1)
  {
    var m := Pow2(k);
    DivMod(x, m);
    var q, r := x / m, x % m;
    DivMod(q, 2);
    MulAdd(m, 2 * (q / 2), q % 2);
    MulAssoc(m, 2, q / 2);
    ModIs(x, 2 * m, q / 2, m * (q % 2) + r);
  }

  lemma NoBitsPast(x: nat, k: nat, j: nat)
    requires x / Pow2(k) == 0 && k <= j
    ensures !Bit(x, j)
  {
    DivMod(x, Pow2(k));
    Pow2Monotone(k, j);
    ModIs(x, Pow2(j), 0, x);
  }

  lemma SmallShift(x: nat, k: nat)
    requires x < Pow2(k)
    ensures x / Pow2(k) == 0
  {
    ModIs(x, Pow2(k), 0, x);
  }

  lemma Halved(x: nat)
    ensures x / 2 == x / Pow2(1)
  {
  }

  // ----- the loops

  function Plus(v: nat, base: nat, modulus: nat): nat
    requires modulus > 0
  {
    (v + base) % modulus
  }

  /** Memory in which the words named by the first `n` entries have been relocated. */
  ghost predicate Applied(sh: Shape, relr: seq<nat>, n: nat, base: nat, was: seq<nat>, now: seq<nat>)
    requires n <= |relr| && sh.word > 0
  {
    |was| == |now| &&
    forall x: nat :: x < |was| ==> now[x] == if Named(sh, relr, n, x) then Plus(was[x], base, Pow2(WordBits(sh))) else was[x]
  }

  /** The inner loop, which stops at the last bit set. */
  method ApplyBitmap(mem: array<nat>, at: nat, e: nat, bits: nat, base: nat)
    requires 0 < bits && e < Pow2(bits) && forall j: nat :: 1 <= j < bits && Bit(e, j) ==> at + j - 1 < mem.Length
    modifies mem
    ensures forall x: nat :: x < mem.Length ==>
      mem[x] == if at <= x < at + bits - 1 && Bit(e, x - at + 1) then Plus(old(mem[x]), base, Pow2(bits)) else old(mem[x])
  {
    hide Bit, Pow2;
    var i := 0;
    var bitmap := e / 2;
    Halved(e);
    while bitmap != 0
      invariant 0 <= i <= bits - 1 && bitmap == e / Pow2(i + 1)
      invariant forall x: nat :: x < mem.Length ==>
        mem[x] == if at <= x < at + i && Bit(e, x - at + 1) then Plus(old(mem[x]), base, Pow2(bits)) else old(mem[x])
      decreases bits - i
    {
      if i == bits - 1 { SmallShift(e, bits); }
      BitIs(e, i + 1);
      HalfOf(e, i + 1);
      if bitmap % 2 == 1 { mem[at + i] := (mem[at + i] + base) % Pow2(bits); }
      bitmap := bitmap / 2;
      i := i + 1;
    }
    forall j: nat | i + 1 <= j ensures !Bit(e, j) { NoBitsPast(e, i + 1, j); }
  }

  lemma {:induction false} CursorGrows(sh: Shape, relr: seq<nat>, k: nat, n: nat)
    requires StreamOk(sh, relr) && k <= n <= |relr|
    ensures Cursor(sh, relr, k) <= Cursor(sh, relr, n)
  {
    if k < n {
      CursorGrows(sh, relr, k, n - 1);
      assert EntryOk(sh, relr, n - 1);
    }
  }

  /** No word is named twice: entries name words before the next cursor and not before
      their own. */
  lemma NamedInOrder(sh: Shape, relr: seq<nat>, k: nat, x: nat)
    requires StreamOk(sh, relr) && k < |relr| && NamedBy(sh, relr, k, x)
    ensures Cursor(sh, relr, k) <= x < Cursor(sh, relr, k + 1)
  {
    assert EntryOk(sh, relr, k);
  }

  lemma NamedOnce(sh: Shape, relr: seq<nat>, j: nat, k: nat, x: nat)
    requires StreamOk(sh, relr) && j < |relr| && k < |relr| && NamedBy(sh, relr, j, x) && NamedBy(sh, relr, k, x)
    ensures j == k
  {
    NamedInOrder(sh, relr, j, x);
    NamedInOrder(sh, relr, k, x);
    if j < k { CursorGrows(sh, relr, j + 1, k); }
    if k < j { CursorGrows(sh, relr, k + 1, j); }
  }

  /** One more entry: exactly the words it names change, for the first time. */
  lemma AppliedNext(sh: Shape, relr: seq<nat>, n: nat, base: nat, was: seq<nat>, now: seq<nat>, next: seq<nat>)
    requires StreamOk(sh, relr) && n < |relr| && Applied(sh, relr, n, base, was, now) && |next| == |now|
    requires forall x: nat :: x < |now| ==>
      next[x] == if NamedBy(sh, relr, n, x) then Plus(now[x], base, Pow2(WordBits(sh))) else now[x]
    ensures Applied(sh, relr, n + 1, base, was, next)
  {
    hide Plus, NamedBy;
    forall x: nat | x < |was|
      ensures next[x] == if Named(sh, relr, n + 1, x) then Plus(was[x], base, Pow2(WordBits(sh))) else was[x]
    {
      if NamedBy(sh, relr, n, x) {
        if Named(sh, relr, n, x) {
          var j: nat :| j < n && NamedBy(sh, relr, j, x);
          NamedOnce(sh, relr, j, n, x);
          assert false;
        }
      } else if Named(sh, relr, n, x) {
        var j: nat :| j < n && NamedBy(sh, relr, j, x);
        assert j < n + 1;
      }
    }
  }

  /** `do_relr_relocs`: the base is added exactly once to the words the stream names, and
      to no other; the linker itself has already been done. */
  method DoRelrRelocs(sh: Shape, relr: seq<nat>, base: nat, mem: array<nat>, isLdso: bool)
    requires StreamOk(sh, relr) && mem.Length == sh.words
    modifies mem
    ensures if isLdso then mem[..] == old(mem[..]) else Applied(sh, relr, |relr|, base, old(mem[..]), mem[..])
  {
    if isLdso { return; }
    hide StreamOk, Applied, NamedBy, Pow2;
    ghost var was := mem[..];
    WordPositive(sh, relr);
    AppliedNone(sh, relr, base, was);
    var at := 0;
    var k := 0;
    while k < |relr|
      invariant 0 <= k <= |relr| && at == Cursor(sh, relr, k) && Applied(sh, relr, k, base, was, mem[..])
    {
      ghost var now := mem[..];
      EntryFits(sh, relr, k);
      NamedWords(sh, relr, k);
      if relr[k] % 2 == 0 {
        at := relr[k] / sh.word;
        mem[at] := (mem[at] + base) % Pow2(8 * sh.word);
        at := at + 1;
      } else {
        ApplyBitmap(mem, at, relr[k], 8 * sh.word, base);
        at := at + 8 * sh.word - 1;
      }
      AppliedNext(sh, relr, k, base, was, now, mem[..]);
      k := k + 1;
    }
  }

  /** The loop of `_dlstart_c`, whose cursor is an address, null at first: it computes the
      same memory. */
  method BootstrapRelr(sh: Shape, relr: seq<nat>, base: nat, mem: array<nat>)
    requires StreamOk(sh, relr) && mem.Length == sh.words
    modifies mem
    ensures Applied(sh, relr, |relr|, base, old(mem[..]), mem[..])
  {
    hide StreamOk, Plus, Applied, NamedBy;
    ghost var was := mem[..];
    WordPositive(sh, relr);
    AppliedNone(sh, relr, base, was);
    var addr := 0;
    var k := 0;
    while k < |relr|
      invariant 0 <= k <= |relr| && (k > 0 ==> addr == AddressOf(sh.word, base, Cursor(sh, relr, k)))
      invariant Applied(sh, relr, k, base, was, mem[..])
    {
      addr := BootstrapEntry(sh, relr, base, mem, addr, k, was);
      k := k + 1;
    }
  }

  /** The word at an address, and the address of a word. */
  function WordOf(word: nat, base: nat, addr: int): int
    requires word > 0
  {
    (addr - base) / word
  }

  function AddressOf(word: nat, base: int, at: int): int { base + word * at }

  /** Where an entry starts, and where the cursor is after it. */
  lemma CursorNext(sh: Shape, relr: seq<nat>, k: nat, base: nat, addr: int)
    requires StreamOk(sh, relr) && sh.word > 0 && k < |relr|
    requires k > 0 ==> addr == AddressOf(sh.word, base, Cursor(sh, relr, k))
    ensures WordBits(sh) > 0 && relr[k] < Pow2(WordBits(sh))
    ensures var c, c' := Cursor(sh, relr, k), Cursor(sh, relr, k + 1);
      if IsAddress(relr[k]) then
        var at := WordOf(sh.word, base, base + relr[k]);
        0 <= at < sh.words && base + relr[k] + sh.word == AddressOf(sh.word, base, c') &&
        forall x: nat :: NamedBy(sh, relr, k, x) <==> x == at
      else
        WordOf(sh.word, base, addr) == c && AddressOf(sh.word, addr, WordBits(sh) - 1) == AddressOf(sh.word, base, c') &&
        (forall j: nat :: 1 <= j < WordBits(sh) && Bit(relr[k], j) ==> c + j - 1 < sh.words) &&
        forall x: nat :: NamedBy(sh, relr, k, x) <==> c <= x < c + WordBits(sh) - 1 && Bit(relr[k], x - c + 1)
  {
    hide StreamOk, NamedBy, Bit, Pow2;
    EntryFits(sh, relr, k);
    NamedWords(sh, relr, k);
    if IsAddress(relr[k]) {
      AddressIs(sh.word, relr[k]);
    } else {
      ScaledIs(sh.word, Cursor(sh, relr, k), WordBits(sh) - 1);
    }
  }

  /** One entry. */
  method BootstrapEntry(sh: Shape, relr: seq<nat>, base: nat, mem: array<nat>, addr0: int, k: nat, ghost was: seq<nat>)
    returns (addr: int)
    requires StreamOk(sh, relr) && mem.Length == sh.words && k < |relr| && sh.word > 0
    requires k > 0 ==> addr0 == AddressOf(sh.word, base, Cursor(sh, relr, k))
    requires Applied(sh, relr, k, base, was, mem[..])
    modifies mem
    ensures addr == AddressOf(sh.word, base, Cursor(sh, relr, k + 1))
    ensures Applied(sh, relr, k + 1, base, was, mem[..])
  {
    hide StreamOk, Applied, NamedBy, Bit, Pow2, WordOf, AddressOf, Cursor, IsAddress;
    ghost var now := mem[..];
    CursorNext(sh, relr, k, base, addr0);
    if IsAddress(relr[k]) {
      addr := base + relr[k];
      var at := WordOf(sh.word, base, addr);
      mem[at] := (mem[at] + base) % Pow2(8 * sh.word);
      addr := addr + sh.word;
    } else {
      ApplyBitmap(mem, WordOf(sh.word, base, addr0), relr[k], 8 * sh.word, base);
      addr := AddressOf(sh.word, addr0, 8 * sh.word - 1);
    }
    AppliedNext(sh, relr, k, base, was, now, mem[..]);
  }

  /** What the stream says determines the memory, so both loops agree. */
  lemma OneResult(sh: Shape, relr: seq<nat>, base: nat, was: seq<nat>, a: seq<nat>, b: seq<nat>)
    requires sh.word > 0 && Applied(sh, relr, |relr|, base, was, a) && Applied(sh, relr, |relr|, base, was, b)
    ensures a == b
  {
    forall x | 0 <= x < |a| ensures a[x] == b[x] { }
  }

  lemma WordPositive(sh: Shape, relr: seq<nat>)
    requires StreamOk(sh, relr)
    ensures sh.word > 0
  {
  }

  lemma AppliedNone(sh: Shape, relr: seq<nat>, base: nat, m: seq<nat>)
    requires sh.word > 0
    ensures Applied(sh, relr, 0, base, m, m)
  {
  }

  lemma EntryFits(sh: Shape, relr: seq<nat>, k: nat)
    requires StreamOk(sh, relr) && k < |relr|
    ensures relr[k] < Pow2(WordBits(sh)) && (k == 0 ==> IsAddress(relr[0]))
    ensures IsAddress(relr[k]) ==> relr[k] % sh.word == 0 && relr[k] / sh.word < sh.words
    ensures !IsAddress(relr[k]) ==>
      forall j: nat :: 1 <= j < WordBits(sh) && Bit(relr[k], j) ==> Cursor(sh, relr, k) + j - 1 < sh.words
  {
    assert EntryOk(sh, relr, k);
    if IsAddress(relr[k]) {
      assert NamedBy(sh, relr, k, relr[k] / sh.word);
    } else {
      forall j: nat | 1 <= j < WordBits(sh) && Bit(relr[k], j) ensures Cursor(sh, relr, k) + j - 1 < sh.words {
        assert NamedBy(sh, relr, k, Cursor(sh, relr, k) + j - 1);
      }
    }
  }

  lemma NamedWords(sh: Shape, relr: seq<nat>, k: nat)
    requires sh.word > 0 && k < |relr|
    ensures IsAddress(relr[k]) ==> forall x: nat :: NamedBy(sh, relr, k, x) <==> x == relr[k] / sh.word
    ensures !IsAddress(relr[k]) ==>
      var c := Cursor(sh, relr, k);
      forall x: nat :: NamedBy(sh, relr, k, x) <==> c <= x < c + WordBits(sh) - 1 && Bit(relr[k], x - c + 1)
  {
  }

  lemma AddressIs(word: nat, e: nat)
    requires word > 0 && e % word == 0
    ensures word * (e / word + 1) == e + word
  {
    DivMod(e, word);
    MulAdd(word, e / word, 1);
  }

  lemma ScaledIs(word: nat, c: nat, d: nat)
    requires word > 0
    ensures word * c / word == c && word * (c + d) == word * c + word * d
  {
    ModIs(word * c, word, c, 0);
    MulAdd(word, c, d);
  }
}
