/** Symbol lookup: the GNU hash table with its Bloom filter, the System V table, and the
    search along a scope. */
module SymbolLookup {
  import opened Arith
  import opened Bits
  import opened SymbolHash
  import opened Wrappers

  /** A symbol table entry, with the string that `st_name` designates. */
  datatype Sym = Sym(name: Name, info: nat, shndx: nat, value: nat)

  /** A DSO's symbol table. Hash tables are sequences of 32-bit words, and `versym` is one of
      16-bit words. */
  datatype Dso = Dso(syms: seq<Sym>, versym: Option<seq<nat>>, ghashtab: Option<seq<nat>>, hashtab: seq<nat>)

  /** The top bit of a version marks it as hidden. */
  predicate Visible(d: Dso, i: nat) {
    d.versym.None? || (i < |d.versym.value| && d.versym.value[i] / 0x8000 == 0)
  }

  predicate VersymOk(d: Dso) {
    d.versym.Some? ==> |d.versym.value| == |d.syms| && forall i :: 0 <= i < |d.syms| ==> d.versym.value[i] < 0x1_0000
  }

  /** A 16-bit word as `int16_t`. */
  function Signed16(x: nat): int { if x < 0x8000 then x else x - 0x1_0000 }

  lemma SignIsTopBit(d: Dso, i: nat)
    requires VersymOk(d) && i < |d.syms|
    ensures Visible(d, i) <==> d.versym.None? || Signed16(d.versym.value[i]) >= 0
  {
  }

  predicate Match(d: Dso, i: nat, s: Name) {
    i < |d.syms| && Visible(d, i) && d.syms[i].name == s
  }

  /** `r` is what a linear scan of the symbols from `lo` on finds. */
  ghost predicate FirstFrom(d: Dso, lo: nat, s: Name, r: Option<nat>) {
    match r
    case None => forall i: nat :: lo <= i < |d.syms| ==> !Match(d, i, s)
    case Some(k) => lo <= k && Match(d, k, s) && forall i: nat :: lo <= i < k ==> !Match(d, i, s)
  }

  // ----- the GNU table

  /** Layout of the table in words: four header words, the filter, whose words are of
      `ws` times 32 bits, the buckets, and a hash value for each hashed symbol. */
  function BucketBase(t: seq<nat>, ws: nat): nat
    requires |t| >= 4
  {
    4 + t[2] * ws
  }

  function ChainBase(t: seq<nat>, ws: nat): nat
    requires |t| >= 4
  {
    BucketBase(t, ws) + t[0]
  }

  /** The first symbol of a bucket, or zero. */
  function First(t: seq<nat>, ws: nat, b: nat): nat
    requires |t| >= 4 && b < t[0] && ChainBase(t, ws) <= |t|
  {
    t[BucketBase(t, ws) + b]
  }

  /** A word of the filter, low half first. */
  function BloomWord(t: seq<nat>, ws: nat, k: nat): nat
    requires 4 + k * ws + ws <= |t| && 1 <= ws <= 2
  {
    if ws == 1 then t[4 + k] else t[4 + 2 * k] + U32 * t[4 + 2 * k + 1]
  }

  function SymHash(d: Dso, i: nat): nat
    requires i < |d.syms|
  {
    Hash(d.syms[i].name)
  }

  function Bucket(d: Dso, t: seq<nat>, i: nat): nat
    requires i < |d.syms| && |t| >= 4 && t[0] > 0
  {
    SymHash(d, i) % t[0]
  }

  /** The sizes, and every index of a lookup in range. */
  ghost predicate ShapeOk(d: Dso, t: seq<nat>, ws: nat) {
    |t| >= 4 && 1 <= ws <= 2 && t[0] > 0 && 1 <= t[1] <= |d.syms| && IsPow2(t[2]) && t[3] < 32 &&
    |t| == ChainBase(t, ws) + (|d.syms| - t[1]) && VersymOk(d)
  }

  /** The table a link editor builds: symbols of one bucket are adjacent, each bucket
      names its first symbol, the chain carries the hash values with the low bit marking
      the last symbol of a bucket, and the filter has both bits of every hashed symbol. */
  ghost predicate TableOk(d: Dso, t: seq<nat>, ws: nat) {
    ShapeOk(d, t, ws) &&
    (forall i: nat :: t[1] <= i < |d.syms| ==> ChainWordOk(d, t, ws, i) && Filtered(t, ws, SymHash(d, i))) &&
    (forall b: nat :: b < t[0] ==> BucketOk(d, t, ws, b)) &&
    (forall i: nat, k: nat, j: nat :: t[1] <= i < k < j < |d.syms| && Bucket(d, t, i) == Bucket(d, t, j) ==>
       Bucket(d, t, k) == Bucket(d, t, i))
  }

  ghost predicate ChainWordOk(d: Dso, t: seq<nat>, ws: nat, i: nat)
    requires ShapeOk(d, t, ws) && t[1] <= i < |d.syms|
  {
    var c := t[ChainBase(t, ws) + (i - t[1])];
    c / 2 == SymHash(d, i) / 2 &&
    (Last(c) <==> i + 1 == |d.syms| || Bucket(d, t, i + 1) != Bucket(d, t, i))
  }

  ghost predicate BucketOk(d: Dso, t: seq<nat>, ws: nat, b: nat)
    requires ShapeOk(d, t, ws) && b < t[0]
  {
    var v := First(t, ws, b);
    if v == 0 then forall i: nat :: t[1] <= i < |d.syms| ==> Bucket(d, t, i) != b
    else t[1] <= v < |d.syms| && Bucket(d, t, v) == b && forall i: nat :: t[1] <= i < v ==> Bucket(d, t, i) != b
  }

  lemma BloomInside(t: seq<nat>, ws: nat, k: nat)
    requires |t| >= 4 && |t| >= BucketBase(t, ws) && k < t[2]
    ensures 4 + k * ws + ws <= |t|
  {
    MulAdd(ws, k, 1);
    MulAdd(ws, k + 1, t[2] - k - 1);
    assert ws * (t[2] - k - 1) >= 0;
  }

  predicate Filtered(t: seq<nat>, ws: nat, h: nat)
    requires |t| >= 4 && 1 <= ws <= 2 && t[2] > 0 && |t| >= BucketBase(t, ws)
  {
    var k := h / (32 * ws) % t[2];
    BloomInside(t, ws, k);
    var f := BloomWord(t, ws, k);
    Bit(f, h % (32 * ws)) && Bit(f, h / Pow2(t[3]) % (32 * ws))
  }

  /** The low bit of a chain word. */
  predicate Last(x: nat) { x % 2 == 1 }

  function OrOne(x: nat): nat { if x % 2 == 0 then x + 1 else x }

  /** A match is in the bucket of the name's hash, and its chain word agrees. */
  lemma MatchInBucket(d: Dso, t: seq<nat>, ws: nat, s: Name, i: nat)
    requires TableOk(d, t, ws) && t[1] <= i < |d.syms| && Match(d, i, s)
    ensures Bucket(d, t, i) == Hash(s) % t[0]
    ensures OrOne(t[ChainBase(t, ws) + (i - t[1])]) == OrOne(Hash(s))
    ensures Filtered(t, ws, Hash(s))
  {
    hide BucketBase, Filtered;
    assert ChainWordOk(d, t, ws, i);
  }

  lemma LastInBucket(d: Dso, t: seq<nat>, ws: nat, i: nat, j: nat)
    requires TableOk(d, t, ws) && t[1] <= i < j < |d.syms| && Last(t[ChainBase(t, ws) + (i - t[1])])
    ensures Bucket(d, t, j) != Bucket(d, t, i)
  {
    hide BucketBase, ChainBase, Filtered, Bucket, BucketOk;
    assert ChainWordOk(d, t, ws, i);
    var next := Bucket(d, t, i + 1);
  }

  /** Past the last symbol of its bucket there is no match. */
  lemma NonePast(d: Dso, t: seq<nat>, ws: nat, s: Name, i: nat)
    requires TableOk(d, t, ws) && t[1] <= i < |d.syms| && Bucket(d, t, i) == Hash(s) % t[0]
    requires Last(t[ChainBase(t, ws) + (i - t[1])])
    ensures forall j: nat :: i < j < |d.syms| ==> !Match(d, j, s)
  {
    hide BucketBase, ChainBase, TableOk, Bucket;
    TableShape(d, t, ws);
    forall j: nat | i < j < |d.syms| ensures !Match(d, j, s) {
      LastInBucket(d, t, ws, i, j);
      if Match(d, j, s) { MatchInBucket(d, t, ws, s, j); }
    }
  }

  /** The bucket's first symbol has no match before it. */
  lemma NoneBefore(d: Dso, t: seq<nat>, ws: nat, s: Name)
    requires TableOk(d, t, ws)
    ensures var b := Hash(s) % t[0]; var v := First(t, ws, b);
      (forall j: nat :: t[1] <= j < |d.syms| && (v == 0 || j < v) ==> !Match(d, j, s)) &&
      (v != 0 ==> t[1] <= v < |d.syms| && Bucket(d, t, v) == b)
  {
    hide BucketBase, ChainBase, Bucket;
    var b := Hash(s) % t[0];
    assert BucketOk(d, t, ws, b);
    forall j: nat | t[1] <= j < |d.syms| && Match(d, j, s) ensures Bucket(d, t, j) == b {
      MatchInBucket(d, t, ws, s, j);
    }
  }

  /** `gnu_lookup`. */
  method GnuLookup(h0: nat, t: seq<nat>, ws: nat, d: Dso, s: Name) returns (r: Option<nat>)
    requires TableOk(d, t, ws) && h0 == Hash(s)
    ensures FirstFrom(d, t[1], s, r)
  {
    hide TableOk, Bucket, Hash;
    TableShape(d, t, ws);
    NoneBefore(d, t, ws, s);
    var nbuckets := t[0];
    var buckets := 4 + t[2] * ws;
    var i := t[buckets + h0 % nbuckets];
    assert i == First(t, ws, h0 % nbuckets);
    if i == 0 { return None; }
    hide BucketBase, Visible, Signed16;
    var hashval := buckets + nbuckets + (i - t[1]);
    var h1 := if h0 % 2 == 1 then h0 else h0 + 1;
    assert h1 == OrOne(Hash(s));
    hide OrOne;
    while true
      invariant t[1] <= i < |d.syms| && Bucket(d, t, i) == Hash(s) % t[0]
      invariant hashval == ChainBase(t, ws) + (i - t[1])
      invariant forall j: nat :: t[1] <= j < i ==> !Match(d, j, s)
      decreases |d.syms| - i
    {
      var h2 := t[hashval];
      hashval := hashval + 1;
      SignIsTopBit(d, i);
      if h1 == (if h2 % 2 == 1 then h2 else h2 + 1) && (d.versym.None? || Signed16(d.versym.value[i]) >= 0) &&
         s == d.syms[i].name
      {
        return Some(i);
      }
      if Match(d, i, s) { ChainMatches(d, t, ws, s, i); }
      if h2 % 2 == 1 {
        NonePast(d, t, ws, s, i);
        return None;
      }
      MoreInBucket(d, t, ws, i);
      i := i + 1;
    }
  }

  /** A match passes the comparison of hash values. */
  lemma ChainMatches(d: Dso, t: seq<nat>, ws: nat, s: Name, i: nat)
    requires TableOk(d, t, ws) && t[1] <= i < |d.syms| && Match(d, i, s)
    ensures var h2 := t[ChainBase(t, ws) + (i - t[1])]; OrOne(Hash(s)) == if h2 % 2 == 1 then h2 else h2 + 1
  {
    MatchInBucket(d, t, ws, s, i);
  }

  lemma MoreInBucket(d: Dso, t: seq<nat>, ws: nat, i: nat)
    requires TableOk(d, t, ws) && t[1] <= i < |d.syms| && !Last(t[ChainBase(t, ws) + (i - t[1])])
    ensures i + 1 < |d.syms| && Bucket(d, t, i + 1) == Bucket(d, t, i)
  {
    hide BucketBase, Filtered;
    assert ChainWordOk(d, t, ws, i);
  }

  /** `gnu_lookup_filtered`, with the word offset and bit mask that `find_sym2` prepares:
      the filter rejects no name that the table has. */
  method GnuLookupFiltered(h1: nat, t: seq<nat>, ws: nat, d: Dso, s: Name, fofs: nat, fmask: nat)
    returns (r: Option<nat>)
    requires TableOk(d, t, ws) && h1 == Hash(s)
    requires fofs == h1 / (32 * ws) && fmask == Pow2(h1 % (32 * ws))
    ensures FirstFrom(d, t[1], s, r)
  {
    hide And, TableOk, Bit, Pow2;
    TableShape(d, t, ws);
    AndAlign(fofs, t[2]);
    var k := And(fofs, t[2] - 1);
    BloomInside(t, ws, k);
    var f := if ws == 1 then t[4 + k] else t[4 + 2 * k] + U32 * t[4 + 2 * k + 1];
    assert f == BloomWord(t, ws, k);
    AndBit(f, h1 % (32 * ws));
    if !Filtered(t, ws, Hash(s)) { NotFiltered(d, t, ws, s); }
    if And(f, fmask) == 0 { return None; }
    var shift := h1 / Pow2(t[3]) % (32 * ws);
    f := f / Pow2(shift);
    assert f % 2 == 1 <==> Bit(BloomWord(t, ws, k), shift) by { BitIs(BloomWord(t, ws, k), shift); }
    if f % 2 == 0 { return None; }
    r := GnuLookup(h1, t, ws, d, s);
  }

  lemma TableShape(d: Dso, t: seq<nat>, ws: nat)
    requires TableOk(d, t, ws)
    ensures ShapeOk(d, t, ws)
  {
  }

  lemma NotFiltered(d: Dso, t: seq<nat>, ws: nat, s: Name)
    requires TableOk(d, t, ws) && !Filtered(t, ws, Hash(s))
    ensures FirstFrom(d, t[1], s, None)
  {
    forall i: nat | t[1] <= i < |d.syms| ensures !Match(d, i, s) {
      if Match(d, i, s) { MatchInBucket(d, t, ws, s, i); }
    }
  }

  // ----- the System V table

  /** Words: `nbucket`, `nchain`, the buckets, then the successor of every symbol. */
  ghost predicate SysvShape(d: Dso) {
    var t := d.hashtab;
    |t| >= 2 && t[0] > 0 && t[1] == |d.syms| && |t| == 2 + t[0] + t[1] && VersymOk(d) &&
    forall k :: 2 <= k < |t| ==> t[k] < t[1] || t[k] == 0
  }

  /** The symbols met from symbol `i` on, at most `steps` of them. */
  ghost function Chain(t: seq<nat>, i: nat, steps: nat): seq<nat>
    decreases steps
  {
    if i == 0 || steps == 0 || |t| < 2 || 2 + t[0] + i >= |t| then [] else [i] + Chain(t, t[2 + t[0] + i], steps - 1)
  }

  ghost predicate ChainEnds(t: seq<nat>, i: nat, steps: nat)
    decreases steps
  {
    i == 0 || (steps > 0 && |t| >= 2 && 2 + t[0] + i < |t| && ChainEnds(t, t[2 + t[0] + i], steps - 1))
  }

  function Start(t: seq<nat>, s: Name): nat
    requires |t| >= 2 && t[0] > 0 && |t| >= 2 + t[0]
  {
    t[2 + (ElfHash(s) as nat) % t[0]]
  }

  /** Chains end, and every symbol but the null symbol is on the chain of its name. */
  ghost predicate SysvOk(d: Dso) {
    SysvShape(d) &&
    (forall k :: 2 <= k < 2 + d.hashtab[0] ==> ChainEnds(d.hashtab, d.hashtab[k], |d.syms|)) &&
    (forall i :: 0 < i < |d.syms| ==> i in Chain(d.hashtab, Start(d.hashtab, d.syms[i].name), |d.syms|))
  }

  /** `r` is the first match in the order of `c`. */
  ghost predicate FirstAlong(d: Dso, c: seq<nat>, s: Name, r: Option<nat>) {
    match r
    case None => forall k :: 0 <= k < |c| ==> !Match(d, c[k], s)
    case Some(i) => exists k :: 0 <= k < |c| && FirstAt(d, c, s, i, k)
  }

  ghost predicate FirstAt(d: Dso, c: seq<nat>, s: Name, i: nat, k: int) {
    0 <= k < |c| && c[k] == i && Match(d, i, s) && forall j :: 0 <= j < k ==> !Match(d, c[j], s)
  }

  ghost function NameChain(d: Dso, s: Name): seq<nat>
    requires SysvShape(d)
  {
    Chain(d.hashtab, Start(d.hashtab, s), |d.syms|)
  }

  /** `sysv_lookup`: the loop ends, and stops at the first match of the chain. */
  method SysvLookup(s: Name, h: nat, d: Dso) returns (r: Option<nat>)
    requires SysvOk(d) && h == ElfHash(s) as nat
    ensures FirstAlong(d, NameChain(d, s), s, r)
  {
    hide ElfHash;
    var t := d.hashtab;
    var i: nat := t[2 + h % t[0]];
    assert i == Start(t, s);
    ghost var steps: nat, c, k := |d.syms|, NameChain(d, s), 0;
    assert ChainEnds(t, i, steps);
    hide SysvOk, Start, NameChain, Visible, Signed16;
    while i != 0
      invariant i < |d.syms| || i == 0
      invariant ChainEnds(t, i, steps) && 0 <= k <= |c| && c[k..] == Chain(t, i, steps)
      invariant forall j :: 0 <= j < k ==> !Match(d, c[j], s)
      decreases steps
    {
      assert c[k..][0] == c[k] == i && c[k + 1..] == c[k..][1..];
      SignIsTopBit(d, i);
      if (d.versym.None? || Signed16(d.versym.value[i]) >= 0) && s == d.syms[i].name {
        assert FirstAt(d, c, s, i, k);
        return Some(i);
      }
      i := t[2 + t[0] + i];
      steps := steps - 1;
      k := k + 1;
    }
    return None;
  }

  /** A lookup fails only if no symbol of that name is visible. */
  lemma SysvComplete(d: Dso, s: Name, i: nat)
    requires SysvOk(d) && FirstAlong(d, NameChain(d, s), s, None) && 0 < i
    ensures !Match(d, i, s)
  {
    var c := NameChain(d, s);
    assert i < |d.syms| && d.syms[i].name == s ==> i in c;
  }

  // ----- counting the symbols

  ghost predicate Bounded(t: seq<nat>, ws: nat, n: nat, max: nat)
    requires |t| >= 4 && n <= t[0] && ChainBase(t, ws) <= |t|
  {
    forall c: nat :: c < n ==> First(t, ws, c) <= max
  }

  /** The bucket with the largest first symbol holds the last symbol. */
  lemma LastBucket(d: Dso, t: seq<nat>, ws: nat, b: nat)
    requires TableOk(d, t, ws) && b < t[0] && First(t, ws, b) > 0 && Bounded(t, ws, t[0], First(t, ws, b))
    ensures t[1] <= First(t, ws, b) < |d.syms|
    ensures Bucket(d, t, First(t, ws, b)) == Bucket(d, t, |d.syms| - 1)
  {
    hide First, ChainBase, Filtered, Hash;
    var last := |d.syms| - 1;
    assert BucketOk(d, t, ws, b);
    BucketInRange(d, t, last);
    var c := Bucket(d, t, last);
    assert BucketOk(d, t, ws, c);
    hide Bucket;
    assert First(t, ws, c) <= First(t, ws, b) <= last;
  }

  lemma BucketInRange(d: Dso, t: seq<nat>, i: nat)
    requires i < |d.syms| && |t| >= 4 && t[0] > 0
    ensures Bucket(d, t, i) < t[0]
  {
    DivMod(SymHash(d, i), t[0]);
  }

  /** `count_syms`: the number of symbols, or zero if there is only a GNU table and it
      hashes none. */
  method CountSyms(d: Dso, ws: nat) returns (nsym: nat)
    requires if d.hashtab != [] then SysvOk(d) else d.ghashtab.Some? && TableOk(d, d.ghashtab.value, ws)
    ensures nsym == if d.hashtab != [] || d.ghashtab.value[1] < |d.syms| then |d.syms| else 0
  {
    if d.hashtab != [] { return d.hashtab[1]; }
    var t := d.ghashtab.value;
    hide TableOk, Bucket;
    TableShape(d, t, ws);
    var buckets := 4 + t[2] * ws;
    assert buckets == BucketBase(t, ws);
    hide BucketBase;
    nsym := 0;
    var i := 0;
    ghost var at: nat := 0;
    while i < t[0]
      invariant 0 <= i <= t[0] && Bounded(t, ws, i, nsym)
      invariant nsym > 0 ==> at < t[0] && First(t, ws, at) == nsym
    {
      assert First(t, ws, i) == t[buckets + i];
      if t[buckets + i] > nsym {
        nsym := t[buckets + i];
        at := i;
      }
      i := i + 1;
    }
    if t[1] < |d.syms| { SomeBucket(d, t, ws, t[1]); }
    if nsym != 0 {
      LastBucket(d, t, ws, at);
      nsym := EndOfBucket(d, t, ws, nsym);
    }
  }

  /** Walk to the end of the last bucket. */
  method EndOfBucket(d: Dso, t: seq<nat>, ws: nat, first: nat) returns (nsym: nat)
    requires TableOk(d, t, ws) && t[1] <= first < |d.syms| && Bucket(d, t, first) == Bucket(d, t, |d.syms| - 1)
    ensures nsym == |d.syms|
  {
    hide TableOk, Bucket;
    TableShape(d, t, ws);
    nsym := first;
    var hashval := 4 + t[2] * ws + t[0] + (nsym - t[1]);
    assert hashval == ChainBase(t, ws) + (nsym - t[1]);
    hide BucketBase;
    while true
      invariant t[1] <= nsym < |d.syms| && hashval == ChainBase(t, ws) + (nsym - t[1])
      invariant Bucket(d, t, nsym) == Bucket(d, t, |d.syms| - 1)
      decreases |d.syms| - nsym
    {
      var i, w := nsym, t[hashval];
      nsym := nsym + 1;
      hashval := hashval + 1;
      if w % 2 == 1 {
        if nsym < |d.syms| { LastInBucket(d, t, ws, i, |d.syms| - 1); }
        break;
      }
      MoreInBucket(d, t, ws, i);
    }
  }

  lemma SomeBucket(d: Dso, t: seq<nat>, ws: nat, i: nat)
    requires TableOk(d, t, ws) && t[1] <= i < |d.syms|
    ensures Bucket(d, t, i) < t[0] && First(t, ws, Bucket(d, t, i)) > 0
  {
    hide First;
    BucketInRange(d, t, i);
    assert BucketOk(d, t, ws, Bucket(d, t, i));
  }

  // ----- the search along a scope

  const STT_TLS := 6
  const OK_TYPES := 0x67    // 1<<STT_NOTYPE | 1<<STT_OBJECT | 1<<STT_FUNC | 1<<STT_COMMON | 1<<STT_TLS
  const OK_BINDS := 0x406   // 1<<STB_GLOBAL | 1<<STB_WEAK | 1<<STB_GNU_UNIQUE

  predicate Has(x: nat, k: nat) { if k == 0 then x % 2 == 1 else x > 1 && Has(x / 2, k - 1) }

  lemma {:induction false} MaskHas(x: nat, k: nat)
    ensures And(x, Pow2(k)) != 0 <==> Has(x, k)
  {
    hide And;
    if k == 0 {
      AndBit(x, 0);
    } else {
      MaskHas(x / 2, k - 1);
      AndEvenRight(x, Pow2(k - 1));
    }
  }

  lemma TypeMask(k: nat)
    ensures And(OK_TYPES, Pow2(k)) != 0 <==> k in {0, 1, 2, 5, 6}
  {
    hide And, Pow2;
    MaskHas(0x67, k);
    assert k >= 1 ==> (Has(103, k) <==> Has(51, k - 1));
    assert k >= 2 ==> (Has(51, k - 1) <==> Has(25, k - 2));
    assert k >= 3 ==> (Has(25, k - 2) <==> Has(12, k - 3));
    assert k >= 4 ==> (Has(12, k - 3) <==> Has(6, k - 4));
    assert k >= 5 ==> (Has(6, k - 4) <==> Has(3, k - 5));
    assert k >= 6 ==> (Has(3, k - 5) <==> Has(1, k - 6));
  }

  lemma BindMask(k: nat)
    ensures And(OK_BINDS, Pow2(k)) != 0 <==> k in {1, 2, 10}
  {
    hide And, Pow2;
    MaskHas(0x406, k);
    assert k >= 1 ==> (Has(1030, k) <==> Has(515, k - 1));
    assert k >= 2 ==> (Has(515, k - 1) <==> Has(257, k - 2));
    assert k >= 3 ==> (Has(257, k - 2) <==> Has(128, k - 3));
    assert k >= 4 ==> (Has(128, k - 3) <==> Has(64, k - 4));
    assert k >= 5 ==> (Has(64, k - 4) <==> Has(32, k - 5));
    assert k >= 6 ==> (Has(32, k - 5) <==> Has(16, k - 6));
    assert k >= 7 ==> (Has(16, k - 6) <==> Has(8, k - 7));
    assert k >= 8 ==> (Has(8, k - 7) <==> Has(4, k - 8));
    assert k >= 9 ==> (Has(4, k - 8) <==> Has(2, k - 9));
    assert k >= 10 ==> (Has(2, k - 9) <==> Has(1, k - 10));
  }

  /** What a reference asks for: a definition, or else possibly an undefined symbol that
      has an address, unless the architecture rejects that. */
  datatype Want = Want(needDef: bool, rejectUnd: Sym -> bool)

  /** A symbol that can satisfy a reference. */
  predicate Acceptable(y: Sym, want: Want) {
    y.info % 16 in {0, 1, 2, 5, 6} &&   // NOTYPE, OBJECT, FUNC, COMMON, TLS
    y.info / 16 in {1, 2, 10} &&        // GLOBAL, WEAK, GNU_UNIQUE
    if y.info % 16 == 6 then y.shndx != 0
    else y.value != 0 && (y.shndx == 0 ==> !want.needDef && !want.rejectUnd(y))
  }

  ghost predicate HasTable(d: Dso, ws: nat) {
    if d.ghashtab.Some? then TableOk(d, d.ghashtab.value, ws) else SysvOk(d)
  }

  /** `r` is the result of looking `s` up in `d`. */
  ghost predicate IsLookup(d: Dso, ws: nat, s: Name, r: Option<nat>)
    requires HasTable(d, ws)
  {
    if d.ghashtab.Some? then FirstFrom(d, d.ghashtab.value[1], s, r) else FirstAlong(d, NameChain(d, s), s, r)
  }

  lemma LookupUnique(d: Dso, ws: nat, s: Name, r: Option<nat>, q: Option<nat>)
    requires HasTable(d, ws) && IsLookup(d, ws, s, r) && IsLookup(d, ws, s, q)
    ensures r == q && (r.Some? ==> r.value < |d.syms|)
  {
    hide TableOk, NameChain;
    if d.ghashtab.Some? {
      if r.Some? && q.Some? { assert !(r.value < q.value) && !(q.value < r.value); }
    } else if r.Some? && q.Some? {
      var c := NameChain(d, s);
      var k :| 0 <= k < |c| && FirstAt(d, c, s, r.value, k);
      var j :| 0 <= j < |c| && FirstAt(d, c, s, q.value, j);
      assert !(k < j) && !(j < k);
    }
  }

  /** Looking `s` up in `d` finds nothing acceptable. */
  ghost predicate Rejected(d: Dso, ws: nat, s: Name, want: Want)
    requires HasTable(d, ws)
  {
    forall i: nat :: IsLookup(d, ws, s, Some(i)) ==> i < |d.syms| && !Acceptable(d.syms[i], want)
  }

  datatype SymDef = SymDef(dso: nat, sym: nat)

  /** `find_sym2` along a scope, which is the global one or a DSO and its dependencies: the
      first DSO whose looked-up symbol is acceptable. */
  method FindSym2(scope: seq<Dso>, ws: nat, s: Name, want: Want) returns (r: Option<SymDef>)
    requires 1 <= ws <= 2 && forall k :: 0 <= k < |scope| ==> HasTable(scope[k], ws)
    ensures r.None? ==> forall k :: 0 <= k < |scope| ==> Rejected(scope[k], ws, s, want)
    ensures r.Some? ==> r.value.dso < |scope| && IsLookup(scope[r.value.dso], ws, s, Some(r.value.sym)) &&
                        r.value.sym < |scope[r.value.dso].syms| &&
                        Acceptable(scope[r.value.dso].syms[r.value.sym], want)
    ensures r.Some? ==> forall k :: 0 <= k < r.value.dso ==> Rejected(scope[k], ws, s, want)
  {
    hide TableOk, SysvOk, FirstFrom, FirstAlong, NameChain, ElfHash, Hash, And;
    var h: bv32 := 0;
    var gh := GnuHash(s, 32);
    var gho, ghm := gh / (32 * ws), Pow2(gh % (32 * ws));
    var k := 0;
    while k < |scope|
      invariant 0 <= k <= |scope| && (h == 0 || h == ElfHash(s))
      invariant forall j :: 0 <= j < k ==> Rejected(scope[j], ws, s, want)
    {
      var d := scope[k];
      var sym: Option<nat>;
      if d.ghashtab.Some? {
        sym := GnuLookupFiltered(gh, d.ghashtab.value, ws, d, s, gho, ghm);
      } else {
        if h == 0 { h := SysvHash(s); }
        sym := SysvLookup(s, h as nat, d);
      }
      OnlyLookup(d, ws, s, want, sym);
      k := k + 1;
      if sym.None? { continue; }
      var y := d.syms[sym.value];
      if y.shndx == 0 && (want.needDef || y.info % 16 == STT_TLS || want.rejectUnd(y)) { continue; }
      if y.value == 0 && y.info % 16 != STT_TLS { continue; }
      TypeMask(y.info % 16);
      BindMask(y.info / 16);
      if And(OK_TYPES, Pow2(y.info % 16)) == 0 { continue; }
      if And(OK_BINDS, Pow2(y.info / 16)) == 0 { continue; }
      return Some(SymDef(k - 1, sym.value));
    }
    return None;
  }

  lemma OnlyLookup(d: Dso, ws: nat, s: Name, want: Want, r: Option<nat>)
    requires HasTable(d, ws) && IsLookup(d, ws, s, r)
    ensures r.Some? ==> r.value < |d.syms|
    ensures (r.None? || !Acceptable(d.syms[r.value], want)) ==> Rejected(d, ws, s, want)
  {
    hide Acceptable, IsLookup, HasTable;
    LookupUnique(d, ws, s, r, r);
    forall i: nat | IsLookup(d, ws, s, Some(i)) ensures r == Some(i) {
      LookupUnique(d, ws, s, r, Some(i));
    }
  }
}
