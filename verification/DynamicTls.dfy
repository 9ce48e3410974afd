/** Thread-local storage for modules loaded at run time: the reservation that
    `load_library` makes inside each DSO's allocation, and `install_new_tls`, which cuts
    it up into new DTVs and blocks for the threads that already exist. */
module DynamicTls {
  import opened Arith
  import opened Bits
  import opened StaticTls

  // ----- the reservation

  /** The allocation of a DSO with TLS. `header` is the size of struct dso and `buf` the
      offset in it of the name; `oldCnt` is `tls_cnt` before the load and `nTh` the
      number of threads then. */
  datatype Alloc = Alloc(base: nat, header: nat, buf: nat, nameLen: nat, word: nat,
                         size: nat, align: nat, oldCnt: nat, nTh: nat)

  function PerThread(a: Alloc): nat { a.size + a.align + a.word * (a.oldCnt + 3) }

  function AllocSize(a: Alloc): nat { a.header + a.nameLen + 1 + a.nTh * PerThread(a) }

  /** Bytes of one DTV row: `tls_cnt+1` words after the load. */
  function Row(a: Alloc): nat { a.word * (a.oldCnt + 2) }

  function Stride(a: Alloc): nat { a.size + a.align }

  /** `-sizeof(size_t) & (name + strlen(name) + sizeof(size_t))`. */
  function NewDtv(w: nat, a: Alloc): nat
    requires 0 < a.word < Pow2(w)
  {
    And(a.base + a.buf + a.nameLen + a.word, Neg(w, a.word))
  }

  function NewTls(w: nat, a: Alloc): nat
    requires 0 < a.word < Pow2(w)
  {
    NewDtv(w, a) + a.nTh * Row(a)
  }

  lemma MulMono(i: nat, n: nat, x: nat)
    requires i < n
    ensures i * x + x <= n * x && (i + 1) * x == i * x + x
  {
    MulAdd(x, i, 1);
    var d := n - i - 1;
    assert n == i + 1 + d;
    MulAdd(x, i + 1, d);
    assert n * x == x * n && i * x == x * i && (i + 1) * x == x * (i + 1) && x * d >= 0;
  }

  /** Whatever the number of threads, rows and blocks for all of them lie one after the
      other past the name and inside the allocation. */
  lemma ReservationSuffices(w: nat, a: Alloc, i: nat)
    requires IsPow2(a.word) && a.word < Pow2(w) && a.buf <= a.header && i < a.nTh
    requires a.base + AllocSize(a) <= Pow2(w)
    ensures NewDtv(w, a) % a.word == 0
    ensures a.base + a.buf + a.nameLen + 1 <= NewDtv(w, a) + i * Row(a)
    ensures NewDtv(w, a) + i * Row(a) + Row(a) <= NewTls(w, a)
    ensures NewTls(w, a) + i * Stride(a) + Stride(a) <= a.base + AllocSize(a)
    ensures NewTls(w, a) + a.nTh * Stride(a) <= a.base + AllocSize(a)
  {
    hide NewDtv, NewTls, Row, Stride, AllocSize;
    RowsStart(w, a);
    RowFits(w, a, i);
    BlocksEnd(w, a);
    MulMono(i, a.nTh, Stride(a));
  }

  lemma RowFits(w: nat, a: Alloc, i: nat)
    requires 0 < a.word < Pow2(w) && i < a.nTh
    ensures NewDtv(w, a) <= NewDtv(w, a) + i * Row(a)
    ensures NewDtv(w, a) + i * Row(a) + Row(a) <= NewTls(w, a)
  {
    hide NewDtv, Row;
    MulMono(i, a.nTh, Row(a));
    Product(i, Row(a));
  }

  lemma RowsStart(w: nat, a: Alloc)
    requires IsPow2(a.word) && a.word < Pow2(w) && a.buf <= a.header && a.nTh > 0
    requires a.base + AllocSize(a) <= Pow2(w)
    ensures NewDtv(w, a) % a.word == 0
    ensures a.base + a.buf + a.nameLen + 1 <= NewDtv(w, a) <= a.base + a.buf + a.nameLen + a.word
  {
    hide And, AllocSize;
    AllocRoom(a);
    AndDown(w, a.base + a.buf + a.nameLen + a.word, a.word);
  }

  lemma AllocRoom(a: Alloc)
    requires a.nTh > 0
    ensures a.header + a.nameLen + 1 + a.word <= AllocSize(a)
  {
    hide PerThread, Row, Stride;
    PerThreadSum(a);
    MulMono(0, a.nTh, a.word);
  }

  lemma BlocksEnd(w: nat, a: Alloc)
    requires IsPow2(a.word) && a.word < Pow2(w) && a.buf <= a.header && a.nTh > 0
    requires NewDtv(w, a) <= a.base + a.buf + a.nameLen + a.word
    ensures NewTls(w, a) + a.nTh * Stride(a) <= a.base + AllocSize(a)
  {
    hide NewDtv, PerThread, Row, Stride;
    PerThreadSum(a);
    MulMono(0, a.nTh, a.word);
  }

  lemma PerThreadSum(a: Alloc)
    ensures a.nTh * PerThread(a) == a.nTh * Row(a) + a.nTh * Stride(a) + a.nTh * a.word
  {
    MulAdd(a.word, a.oldCnt + 2, 1);
    assert PerThread(a) == Row(a) + Stride(a) + a.word;
    MulAdd(a.nTh, Row(a) + Stride(a), a.word);
    MulAdd(a.nTh, Row(a), Stride(a));
  }

  lemma AndDown(w: nat, x: nat, y: nat)
    requires IsPow2(y) && y < Pow2(w) && x < Pow2(w)
    ensures x - y < And(x, Neg(w, y)) <= x && And(x, Neg(w, y)) % y == 0
  {
    var k: nat :| y == Pow2(k);
    if k > w { Pow2Monotone(w, k); }
    hide And;
    AndHigh(w, x, k);
    DivMod(x, y);
    ModIs(y * (x / y), y, x / y, 0);
  }

  // ----- installing

  /** What `install_new_tls` reads of a DSO; `id` is zero for one without TLS. */
  datatype Dso = Dso(id: nat, image: nat, len: nat, size: nat, align: nat, newDtv: nat, newTls: nat)

  function Slot(p: Dso, j: nat): nat { p.newTls + j * (p.size + p.align) }

  predicate InSlot(p: Dso, j: nat, x: int) { Slot(p, j) <= x < Slot(p, j) + p.size + p.align }

  /** The address given to thread `j`. */
  function Block(w: nat, p: Dso, j: nat): nat
    requires Slot(p, j) < Pow2(w) && p.align > 0
  {
    Slot(p, j) + Gap(w, Slot(p, j), p.image, p.align)
  }

  /** A module whose storage is in memory and can be installed for `n` threads. */
  ghost predicate DsoOk(w: nat, p: Dso, n: nat, limit: nat) {
    IsPow2(p.align) && p.align > 0 && p.align <= Pow2(w) && p.len <= p.size &&
    p.image + p.len <= limit <= Pow2(w) && p.newTls + n * (p.size + p.align) <= limit
  }

  lemma SlotBounds(p: Dso, n: nat, j: nat)
    requires j < n
    ensures p.newTls <= Slot(p, j) && Slot(p, j) + p.size + p.align <= p.newTls + n * (p.size + p.align)
  {
    MulMono(j, n, p.size + p.align);
  }

  lemma SlotInside(w: nat, p: Dso, n: nat, limit: nat, j: nat)
    requires DsoOk(w, p, n, limit) && j < n
    ensures p.newTls <= Slot(p, j) && Slot(p, j) + p.size + p.align <= p.newTls + n * (p.size + p.align)
    ensures Slot(p, j) < Pow2(w)
    ensures Slot(p, j) <= Block(w, p, j) && Block(w, p, j) + p.size <= Slot(p, j) + p.size + p.align
    ensures Block(w, p, j) % p.align == p.image % p.align
  {
    hide Gap, Slot;
    SlotBounds(p, n, j);
    GapIs(w, Slot(p, j), p.image, p.align);
  }

  lemma SlotsApart(p: Dso, i: nat, j: nat)
    requires i < j
    ensures Slot(p, i) + p.size + p.align <= Slot(p, j)
  {
    MulMono(i, j, p.size + p.align);
  }

  /** The image, then zeros, at the address given to thread `j`. */
  ghost predicate Holds(w: nat, m: seq<int>, m0: seq<int>, p: Dso, j: nat)
    requires Slot(p, j) < Pow2(w) && p.align > 0
  {
    var b := Block(w, p, j);
    b + p.size <= |m| && p.image + p.len <= |m0| && p.len <= p.size &&
    m[b..b + p.len] == m0[p.image..p.image + p.len] &&
    forall x :: b + p.len <= x < b + p.size ==> m[x] == 0
  }

  ghost predicate Zero(m: seq<int>, p: Dso, j: nat) {
    forall x :: InSlot(p, j, x) && 0 <= x < |m| ==> m[x] == 0
  }

  function Copied(m: seq<int>, dst: nat, src: nat, len: nat): seq<int>
    requires dst + len <= |m| && src + len <= |m|
  {
    m[..dst] + m[src..src + len] + m[dst + len..]
  }

  /** memcpy between areas that do not overlap. */
  method MemCpy(mem: array<int>, dst: nat, src: nat, len: nat)
    requires dst + len <= mem.Length && src + len <= mem.Length
    requires dst + len <= src || src + len <= dst
    modifies mem
    ensures mem[..] == Copied(old(mem[..]), dst, src, len)
  {
    var i := 0;
    while i < len
      invariant 0 <= i <= len
      invariant forall x :: 0 <= x < mem.Length ==>
        mem[x] == if dst <= x < dst + i then old(mem[src + (x - dst)]) else old(mem[x])
    {
      mem[dst + i] := mem[src + i];
      i := i + 1;
    }
  }

  /** Installing one block leaves every other address alone and fills this one. */
  lemma CopyFills(w: nat, m: seq<int>, m0: seq<int>, p: Dso, n: nat, j: nat)
    requires |m| == |m0| && DsoOk(w, p, n, |m|) && j < n
    requires Zero(m, p, j) && m[p.image..p.image + p.len] == m0[p.image..p.image + p.len]
    ensures Slot(p, j) < Pow2(w) && Block(w, p, j) + p.len <= |m|
    ensures var m' := Copied(m, Block(w, p, j), p.image, p.len);
      |m'| == |m| && Holds(w, m', m0, p, j) &&
      forall x :: 0 <= x < |m| && !InSlot(p, j, x) ==> m'[x] == m[x]
  {
    SlotInside(w, p, n, |m|, j);
    hide Block, Slot, IsPow2, Copied;
    var b := Block(w, p, j);
    CopiedIs(m, b, p.image, p.len);
    forall x | b + p.len <= x < b + p.size ensures Copied(m, b, p.image, p.len)[x] == 0 {
      assert InSlot(p, j, x);
    }
  }

  lemma CopiedIs(m: seq<int>, dst: nat, src: nat, len: nat)
    requires dst + len <= |m| && src + len <= |m|
    ensures var c := Copied(m, dst, src, len);
      |c| == |m| && c[dst..dst + len] == m[src..src + len] && forall x :: 0 <= x < |m| && !(dst <= x < dst + len) ==> c[x] == m[x]
  {
  }

  /** The chain of DSOs as `load_library` leaves it: module ids ascend along it, without
      holes. */
  ghost predicate ChainOk(chain: seq<Dso>, tlsCnt: nat) {
    (forall a :: 0 <= a < |chain| ==> chain[a].id <= tlsCnt) &&
    (forall a, b :: 0 <= a < b < |chain| && chain[b].id != 0 ==> chain[a].id < chain[b].id) &&
    (forall id :: 1 <= id <= tlsCnt ==> HasId(chain, id))
  }

  ghost predicate HasId(chain: seq<Dso>, id: nat) {
    exists a :: 0 <= a < |chain| && chain[a].id == id
  }

  // ----- rows

  /** The new DTVs in memory: one row of `cnt` words for each of `n` threads. */
  datatype Rows = Rows(at: nat, word: nat, cnt: nat, n: nat)

  /** The rows in the allocation of the module with the last id. */
  function RowsOf(p: Dso, word: nat, n: nat): Rows { Rows(p.newDtv, word, p.id + 1, n) }

  function RowBytes(r: Rows): nat { r.word * r.cnt }

  function RowStart(r: Rows, j: nat): nat { r.at + j * RowBytes(r) }

  function EntryAddr(r: Rows, j: nat, i: nat): nat { RowStart(r, j) + i * r.word }

  predicate InRow(r: Rows, j: nat, x: int) { RowStart(r, j) <= x < RowStart(r, j) + RowBytes(r) }

  predicate InRows(r: Rows, x: int) { r.at <= x < r.at + r.n * RowBytes(r) }

  /** A word is held at its lowest address. */
  function CellAt(m: seq<int>, x: int): int { if 0 <= x < |m| then m[x] else 0 }

  /** `cnt` words from `at` on. */
  function Words(m: seq<int>, at: nat, word: nat, cnt: nat): (r: seq<int>)
    ensures |r| == cnt
  {
    seq(cnt, i requires 0 <= i < cnt => CellAt(m, at + i * word))
  }

  function Dtv(m: seq<int>, r: Rows, j: nat): (d: seq<int>)
    ensures |d| == r.cnt
  {
    Words(m, RowStart(r, j), r.word, r.cnt)
  }

  lemma RowInside(r: Rows, j: nat)
    requires j < r.n
    ensures r.at <= RowStart(r, j) && RowStart(r, j) + RowBytes(r) <= r.at + r.n * RowBytes(r)
  {
    MulMono(j, r.n, RowBytes(r));
  }

  lemma RowsApart(r: Rows, i: nat, j: nat)
    requires i < j
    ensures RowStart(r, i) + RowBytes(r) <= RowStart(r, j)
  {
    MulMono(i, j, RowBytes(r));
  }

  lemma WordInside(word: nat, cnt: nat, i: nat)
    requires i < cnt
    ensures i * word + word <= word * cnt
  {
    MulMono(i, cnt, word);
  }

  lemma WordsSame(m: seq<int>, m': seq<int>, at: nat, word: nat, cnt: nat)
    requires word > 0 && |m'| == |m| && forall x :: at <= x < at + word * cnt && x < |m| ==> m'[x] == m[x]
    ensures Words(m', at, word, cnt) == Words(m, at, word, cnt)
  {
    forall i | 0 <= i < cnt ensures CellAt(m', at + i * word) == CellAt(m, at + i * word) { WordInside(word, cnt, i); }
  }

  lemma RowSame(m: seq<int>, m': seq<int>, r: Rows, j: nat)
    requires r.word > 0 && |m'| == |m| && forall x :: InRow(r, j, x) && x < |m| ==> m'[x] == m[x]
    ensures Dtv(m', r, j) == Dtv(m, r, j)
  {
    hide Words, RowStart;
    assert forall x :: RowStart(r, j) <= x < RowStart(r, j) + r.word * r.cnt ==> InRow(r, j, x);
    WordsSame(m, m', RowStart(r, j), r.word, r.cnt);
  }

  function Stored(m: seq<int>, a: nat, word: nat, v: int): (m': seq<int>)
    ensures |m'| == |m|
  {
    seq(|m|, x requires 0 <= x < |m| => if x == a then v else if a < x < a + word then 0 else m[x])
  }

  /** A store of one word. */
  method StoreWord(mem: array<int>, a: nat, word: nat, v: int)
    requires 0 < word && a + word <= mem.Length
    modifies mem
    ensures mem[..] == Stored(old(mem[..]), a, word, v)
  {
    mem[a] := v;
    var i := a + 1;
    while i < a + word
      invariant a < i <= a + word
      invariant forall x :: 0 <= x < mem.Length ==>
        mem[x] == if x == a then v else if a < x < i then 0 else old(mem[x])
    {
      mem[i] := 0;
      i := i + 1;
    }
  }

  /** A store to an entry changes that entry, and nothing outside its row. */
  lemma EntryStored(m: seq<int>, r: Rows, j: nat, i: nat, v: int)
    requires r.word > 0 && j < r.n && i < r.cnt && r.at + r.n * RowBytes(r) <= |m|
    ensures EntryAddr(r, j, i) + r.word <= |m|
    ensures var m' := Stored(m, EntryAddr(r, j, i), r.word, v);
      Dtv(m', r, j) == Dtv(m, r, j)[i := v] && forall x :: 0 <= x < |m| && !InRow(r, j, x) ==> m'[x] == m[x]
  {
    RowInside(r, j);
    WordInside(r.word, r.cnt, i);
    hide RowStart, Stored, Words;
    var s := RowStart(r, j);
    WordStored(m, s, r.word, r.cnt, i, v);
    forall x | 0 <= x < |m| && !InRow(r, j, x) ensures Stored(m, s + i * r.word, r.word, v)[x] == m[x] {
      StoredAt(m, s + i * r.word, r.word, v, x);
    }
  }

  lemma StoredAt(m: seq<int>, a: nat, word: nat, v: int, x: nat)
    requires x < |m|
    ensures Stored(m, a, word, v)[x] == if x == a then v else if a < x < a + word then 0 else m[x]
  {
  }

  lemma WordStored(m: seq<int>, at: nat, word: nat, cnt: nat, i: nat, v: int)
    requires word > 0 && i < cnt && at + word * cnt <= |m|
    ensures at + i * word + word <= |m|
    ensures Words(Stored(m, at + i * word, word, v), at, word, cnt) == Words(m, at, word, cnt)[i := v]
  {
    hide Stored;
    WordInside(word, cnt, i);
    var m' := Stored(m, at + i * word, word, v);
    var d, d' := Words(m, at, word, cnt), Words(m', at, word, cnt);
    forall h | 0 <= h < cnt ensures d'[h] == d[i := v][h] { OtherWord(m, at, word, cnt, i, v, h); }
  }

  lemma OtherWord(m: seq<int>, at: nat, word: nat, cnt: nat, i: nat, v: int, h: nat)
    requires word > 0 && i < cnt && h < cnt && at + word * cnt <= |m| && at + i * word + word <= |m|
    ensures CellAt(Stored(m, at + i * word, word, v), at + h * word) == if h == i then v else CellAt(m, at + h * word)
  {
    hide Stored;
    WordInside(word, cnt, h);
    if h < i { MulMono(h, i, word); } else if h > i { MulMono(i, h, word); }
    StoredAt(m, at + i * word, word, v, at + h * word);
  }

  lemma OtherRows(m: seq<int>, m': seq<int>, r: Rows, j: nat, i: nat)
    requires r.word > 0 && |m'| == |m| && forall x :: 0 <= x < |m| && !InRow(r, j, x) ==> m'[x] == m[x]
    requires i != j
    ensures Dtv(m', r, i) == Dtv(m, r, i)
  {
    hide Words, RowStart;
    if i < j { RowsApart(r, i, j); } else { RowsApart(r, j, i); }
    RowSame(m, m', r, i);
  }

  // ----- storage

  predicate InStorage(p: Dso, n: nat, x: int) { p.newTls <= x < p.newTls + n * (p.size + p.align) }

  predicate InImage(p: Dso, x: int) { p.image <= x < p.image + p.len }

  /** The rows are in memory, and apart from the storage and the image of a new module. */
  ghost predicate RowsOk(chain: seq<Dso>, rows: Rows, oldCnt: nat, limit: nat) {
    rows.word > 0 && rows.at + rows.n * RowBytes(rows) <= limit &&
    forall a, x: int :: 0 <= a < |chain| && chain[a].id > oldCnt && InRows(rows, x) ==>
      !InStorage(chain[a], rows.n, x) && !InImage(chain[a], x)
  }

  /** The storage of the new modules is in memory, zeroed, and apart from the storage and
      the image of any of them. */
  ghost predicate StorageOk(w: nat, chain: seq<Dso>, rows: Rows, oldCnt: nat, m0: seq<int>) {
    (forall a :: 0 <= a < |chain| && chain[a].id > oldCnt ==> DsoOk(w, chain[a], rows.n, |m0|)) &&
    (forall a, j: nat :: 0 <= a < |chain| && chain[a].id > oldCnt && j < rows.n ==> Zero(m0, chain[a], j)) &&
    (forall a, b, x: int ::
      (0 <= a < |chain| && 0 <= b < |chain| && chain[a].id > oldCnt && chain[b].id > oldCnt &&
       InStorage(chain[a], rows.n, x)) ==>
      (a != b ==> !InStorage(chain[b], rows.n, x)) && !InImage(chain[b], x))
  }

  /** `p` was loaded into the allocation `al`, which calloc zeroed and in which only the
      structure and the name have been written since. */
  ghost predicate Reserved(w: nat, p: Dso, al: Alloc, n: nat, m0: seq<int>) {
    al.size == p.size && al.align == p.align && n <= al.nTh && IsPow2(p.align) && p.len <= p.size &&
    IsPow2(al.word) && al.word < Pow2(w) && al.buf <= al.header && p.newTls == NewTls(w, al) && p.newDtv == NewDtv(w, al) &&
    p.image + p.len <= |m0| <= Pow2(w) && al.base + AllocSize(al) <= |m0| &&
    forall x :: al.base + al.buf + al.nameLen < x < al.base + AllocSize(al) ==> m0[x] == 0
  }

  predicate InAlloc(al: Alloc, x: int) { al.base <= x < al.base + AllocSize(al) }

  lemma StorageInAlloc(w: nat, p: Dso, al: Alloc, n: nat, m0: seq<int>)
    requires Reserved(w, p, al, n, m0) && 0 < n
    ensures al.base + al.buf + al.nameLen < p.newTls
    ensures p.newTls + n * (p.size + p.align) <= al.base + AllocSize(al)
    ensures DsoOk(w, p, n, |m0|)
  {
    hide NewTls, NewDtv, AllocSize;
    ReservationSuffices(w, al, 0);
    if n < al.nTh { MulMono(n, al.nTh, p.size + p.align); }
    MulMono(0, n, p.size + p.align);
  }

  /** The rows of the module loaded last are past its name and before its blocks. */
  lemma RowsInAlloc(w: nat, p: Dso, al: Alloc, rows: Rows, m0: seq<int>)
    requires Reserved(w, p, al, rows.n, m0) && 0 < rows.n && rows == Rows(p.newDtv, al.word, al.oldCnt + 2, rows.n)
    ensures al.base <= rows.at && rows.at + rows.n * RowBytes(rows) <= p.newTls <= al.base + AllocSize(al)
    ensures rows.word > 0
  {
    hide NewDtv, AllocSize;
    ReservationSuffices(w, al, 0);
    assert RowBytes(rows) == Row(al);
    if rows.n < al.nTh { MulMono(rows.n, al.nTh, Row(al)); }
    Product(al.nTh, Stride(al));
  }

  ghost predicate AllocsApart(chain: seq<Dso>, allocs: seq<Alloc>, oldCnt: nat) {
    |allocs| == |chain| && forall a, b, x: int ::
      (0 <= a < |chain| && 0 <= b < |chain| && chain[a].id > oldCnt && chain[b].id > oldCnt && InAlloc(allocs[a], x)) ==>
      (a != b ==> !InAlloc(allocs[b], x)) && !InImage(chain[b], x)
  }

  /** What `load_library` reserved is what `install_new_tls` relies on: for up to as many
      threads as there were at each load, and any number of new modules. The rows are in
      the allocation of the module loaded last, `chain[q]`. */
  lemma ReservedIsStorage(w: nat, chain: seq<Dso>, allocs: seq<Alloc>, rows: Rows, oldCnt: nat, m0: seq<int>, q: nat)
    requires AllocsApart(chain, allocs, oldCnt) && 0 < rows.n && q < |chain| && chain[q].id > oldCnt
    requires forall a :: 0 <= a < |chain| && chain[a].id > oldCnt ==> Reserved(w, chain[a], allocs[a], rows.n, m0)
    requires chain[q].id == allocs[q].oldCnt + 1
    requires rows == RowsOf(chain[q], allocs[q].word, rows.n)
    ensures StorageOk(w, chain, rows, oldCnt, m0) && RowsOk(chain, rows, oldCnt, |m0|)
    ensures forall x: int :: InRows(rows, x) ==> InAlloc(allocs[q], x)
  {
    hide DsoOk, AllocSize, NewTls, NewDtv, Reserved, InStorage;
    forall a | 0 <= a < |chain| && chain[a].id > oldCnt
      ensures DsoOk(w, chain[a], rows.n, |m0|)
      ensures forall x: int :: InStorage(chain[a], rows.n, x) ==>
                InAlloc(allocs[a], x) && chain[a].newTls <= x && 0 <= x < |m0| && m0[x] == 0
    {
      StorageHere(w, chain[a], allocs[a], rows.n, m0);
    }
    forall a, j: nat | 0 <= a < |chain| && chain[a].id > oldCnt && j < rows.n ensures Zero(m0, chain[a], j) {
      forall x | InSlot(chain[a], j, x) && 0 <= x < |m0| ensures m0[x] == 0 {
        SlotInStorage(w, chain[a], rows.n, |m0|, j, x);
      }
    }
    RowsInAlloc(w, chain[q], allocs[q], rows, m0);
    AllocInside(w, chain[q], allocs[q], rows.n, m0);
  }

  lemma StorageHere(w: nat, p: Dso, al: Alloc, n: nat, m0: seq<int>)
    requires Reserved(w, p, al, n, m0) && 0 < n
    ensures DsoOk(w, p, n, |m0|)
    ensures forall x: int :: InStorage(p, n, x) ==> InAlloc(al, x) && p.newTls <= x && 0 <= x < |m0| && m0[x] == 0
  {
    hide DsoOk, AllocSize, NewTls, NewDtv;
    StorageInAlloc(w, p, al, n, m0);
  }

  lemma AllocInside(w: nat, p: Dso, al: Alloc, n: nat, m0: seq<int>)
    requires Reserved(w, p, al, n, m0)
    ensures al.base + AllocSize(al) <= |m0|
  {
  }

  predicate Before(a: int, b: int, k: int, j: int) { a < k || (a == k && b < j) }

  /** Blocks before module `k`, thread `j` are installed, the rest of the storage is
      still zero, and nothing else has changed. */
  ghost predicate Progress(w: nat, chain: seq<Dso>, rows: Rows, oldCnt: nat, m0: seq<int>, m: seq<int>, k: nat, j: nat) {
    |m| == |m0| &&
    (forall a: nat, b: nat :: a < |chain| && b < rows.n && chain[a].id > oldCnt ==>
       Status(w, m0, m, chain[a], b, Before(a, b, k, j))) &&
    (forall x :: 0 <= x < |m| && Elsewhere(chain, rows, oldCnt, x) ==> m[x] == m0[x])
  }

  ghost predicate Status(w: nat, m0: seq<int>, m: seq<int>, p: Dso, j: nat, done: bool) {
    Slot(p, j) < Pow2(w) && p.align > 0 && if done then Holds(w, m, m0, p, j) else Zero(m, p, j)
  }

  ghost predicate Elsewhere(chain: seq<Dso>, rows: Rows, oldCnt: nat, x: int) {
    !InRows(rows, x) && forall a :: 0 <= a < |chain| && chain[a].id > oldCnt ==> !InStorage(chain[a], rows.n, x)
  }

  lemma SlotInStorage(w: nat, p: Dso, n: nat, limit: nat, j: nat, x: int)
    requires DsoOk(w, p, n, limit) && j < n && InSlot(p, j, x)
    ensures InStorage(p, n, x)
  {
    SlotInside(w, p, n, limit, j);
  }

  /** Different blocks have no address in common. */
  lemma SlotsDisjoint(w: nat, chain: seq<Dso>, rows: Rows, oldCnt: nat, m0: seq<int>, a: nat, b: nat, k: nat, j: nat, x: int)
    requires StorageOk(w, chain, rows, oldCnt, m0) && a < |chain| && k < |chain| && b < rows.n && j < rows.n
    requires chain[a].id > oldCnt && chain[k].id > oldCnt && (a, b) != (k, j) && InSlot(chain[a], b, x)
    ensures !InSlot(chain[k], j, x)
  {
    SlotInStorage(w, chain[a], rows.n, |m0|, b, x);
    if InSlot(chain[k], j, x) {
      SlotInStorage(w, chain[k], rows.n, |m0|, j, x);
      if a == k {
        if b < j { SlotsApart(chain[a], b, j); } else { SlotsApart(chain[a], j, b); }
      }
      assert false;
    }
  }

  lemma HoldsSame(w: nat, m: seq<int>, m': seq<int>, m0: seq<int>, p: Dso, n: nat, j: nat)
    requires |m| == |m'| && DsoOk(w, p, n, |m|) && j < n && Slot(p, j) < Pow2(w) && Holds(w, m, m0, p, j)
    requires forall x :: InSlot(p, j, x) && 0 <= x < |m| ==> m'[x] == m[x]
    ensures Holds(w, m', m0, p, j)
  {
    SlotInside(w, p, n, |m|, j);
    var b := Block(w, p, j);
    assert m'[b..b + p.len] == m[b..b + p.len] by {
      assert forall x :: b <= x < b + p.size ==> InSlot(p, j, x);
    }
    assert forall x :: b + p.len <= x < b + p.size ==> InSlot(p, j, x);
  }

  lemma BeginProgress(w: nat, chain: seq<Dso>, rows: Rows, oldCnt: nat, m0: seq<int>)
    requires StorageOk(w, chain, rows, oldCnt, m0)
    ensures Progress(w, chain, rows, oldCnt, m0, m0, 0, 0)
  {
    forall a: nat, b: nat | a < |chain| && b < rows.n && chain[a].id > oldCnt
      ensures Status(w, m0, m0, chain[a], b, false)
    {
      SlotInside(w, chain[a], rows.n, |m0|, b);
    }
  }

  /** Images are never overwritten. */
  lemma ImageIntact(w: nat, chain: seq<Dso>, rows: Rows, oldCnt: nat, m0: seq<int>, m: seq<int>, k: nat, j: nat)
    requires StorageOk(w, chain, rows, oldCnt, m0) && Progress(w, chain, rows, oldCnt, m0, m, k, j)
    requires k < |chain| && chain[k].id > oldCnt && RowsOk(chain, rows, oldCnt, |m0|)
    ensures var p := chain[k]; p.image + p.len <= |m| && m[p.image..p.image + p.len] == m0[p.image..p.image + p.len]
  {
    var p := chain[k];
    assert DsoOk(w, p, rows.n, |m0|);
    forall x | p.image <= x < p.image + p.len ensures m[x] == m0[x] {
      assert Elsewhere(chain, rows, oldCnt, x);
    }
  }

  lemma OtherSlotKept(w: nat, chain: seq<Dso>, rows: Rows, oldCnt: nat, m0: seq<int>, m: seq<int>, m': seq<int>,
                      k: nat, j: nat, a: nat, c: nat, done: bool)
    requires StorageOk(w, chain, rows, oldCnt, m0) && |m| == |m'| == |m0|
    requires k < |chain| && chain[k].id > oldCnt && j < rows.n
    requires a < |chain| && chain[a].id > oldCnt && c < rows.n && (a, c) != (k, j)
    requires forall x :: 0 <= x < |m| && !InSlot(chain[k], j, x) ==> m'[x] == m[x]
    requires Status(w, m0, m, chain[a], c, done)
    ensures Status(w, m0, m', chain[a], c, done)
  {
    forall x | InSlot(chain[a], c, x) && 0 <= x < |m| ensures m'[x] == m[x] {
      SlotsDisjoint(w, chain, rows, oldCnt, m0, a, c, k, j, x);
    }
    if done { HoldsSame(w, m, m', m0, chain[a], rows.n, c); }
  }

  /** One block more. */
  lemma OneBlock(w: nat, chain: seq<Dso>, rows: Rows, oldCnt: nat, m0: seq<int>, m: seq<int>, k: nat, j: nat)
    requires StorageOk(w, chain, rows, oldCnt, m0) && Progress(w, chain, rows, oldCnt, m0, m, k, j)
    requires k < |chain| && chain[k].id > oldCnt && j < rows.n && RowsOk(chain, rows, oldCnt, |m0|)
    ensures Slot(chain[k], j) < Pow2(w) && chain[k].align > 0
    ensures var b := Block(w, chain[k], j);
      b + chain[k].len <= |m| && chain[k].image + chain[k].len <= |m| &&
      (b + chain[k].len <= chain[k].image || chain[k].image + chain[k].len <= b || chain[k].len == 0) &&
      var m' := Copied(m, b, chain[k].image, chain[k].len);
      Progress(w, chain, rows, oldCnt, m0, m', k, j + 1) && forall i: nat :: i < rows.n ==> Dtv(m', rows, i) == Dtv(m, rows, i)
  {
    hide StorageOk, RowsOk, Dtv, Holds, Zero, Copied, Block, InStorage, Elsewhere, Slot, IsPow2;
    var p := chain[k];
    ImageIntact(w, chain, rows, oldCnt, m0, m, k, j);
    assert Status(w, m0, m, p, j, Before(k, j, k, j));
    assert DsoOk(w, p, rows.n, |m|) by { StorageModule(w, chain, rows, oldCnt, m0, k); }
    CopyFills(w, m, m0, p, rows.n, j);
    var b := Block(w, p, j);
    var m' := Copied(m, b, p.image, p.len);
    ImageApart(w, chain, rows, oldCnt, m0, k, j);
    assert Status(w, m0, m', p, j, true);
    OthersKept(w, chain, rows, oldCnt, m0, m, m', k, j);
    forall i: nat | i < rows.n ensures Dtv(m', rows, i) == Dtv(m, rows, i) {
      SlotSparesRow(w, chain, rows, oldCnt, m0, m, m', k, j, i);
    }
  }

  lemma SlotSparesRow(w: nat, chain: seq<Dso>, rows: Rows, oldCnt: nat, m0: seq<int>, m: seq<int>, m': seq<int>, k: nat,
                      j: nat, i: nat)
    requires StorageOk(w, chain, rows, oldCnt, m0) && RowsOk(chain, rows, oldCnt, |m0|) && |m| == |m'| == |m0|
    requires k < |chain| && chain[k].id > oldCnt && j < rows.n && i < rows.n
    requires forall x :: 0 <= x < |m| && !InSlot(chain[k], j, x) ==> m'[x] == m[x]
    ensures Dtv(m', rows, i) == Dtv(m, rows, i)
  {
    hide InStorage, InSlot, Dtv;
    StorageModule(w, chain, rows, oldCnt, m0, k);
    RowInside(rows, i);
    forall x | InRow(rows, i, x) && x < |m| ensures m'[x] == m[x] {
      assert InRows(rows, x);
      if InSlot(chain[k], j, x) { SlotInStorage(w, chain[k], rows.n, |m0|, j, x); }
    }
    RowSame(m, m', rows, i);
  }

  /** Writing to the rows disturbs no block. */
  lemma RowsSpareSlots(w: nat, chain: seq<Dso>, rows: Rows, oldCnt: nat, m0: seq<int>, m: seq<int>, m': seq<int>, k: nat,
                       j: nat)
    requires StorageOk(w, chain, rows, oldCnt, m0) && RowsOk(chain, rows, oldCnt, |m0|)
    requires Progress(w, chain, rows, oldCnt, m0, m, k, j) && |m'| == |m|
    requires forall x :: 0 <= x < |m| && !InRows(rows, x) ==> m'[x] == m[x]
    ensures Progress(w, chain, rows, oldCnt, m0, m', k, j)
  {
    hide StorageOk, RowsOk, Status, InStorage, InRows;
    forall a: nat, b: nat | a < |chain| && b < rows.n && chain[a].id > oldCnt
      ensures Status(w, m0, m', chain[a], b, Before(a, b, k, j))
    {
      var done := Before(a, b, k, j);
      assert Status(w, m0, m, chain[a], b, done);
      RowsSpareSlot(w, chain, rows, oldCnt, m0, m, m', a, b, done);
    }
  }

  lemma RowsSpareSlot(w: nat, chain: seq<Dso>, rows: Rows, oldCnt: nat, m0: seq<int>, m: seq<int>, m': seq<int>, a: nat,
                      b: nat, done: bool)
    requires StorageOk(w, chain, rows, oldCnt, m0) && RowsOk(chain, rows, oldCnt, |m0|) && |m'| == |m| == |m0|
    requires a < |chain| && b < rows.n && chain[a].id > oldCnt && Status(w, m0, m, chain[a], b, done)
    requires forall x :: 0 <= x < |m| && !InRows(rows, x) ==> m'[x] == m[x]
    ensures Status(w, m0, m', chain[a], b, done)
  {
    hide InStorage, InRows;
    var p := chain[a];
    StorageModule(w, chain, rows, oldCnt, m0, a);
    forall x | InSlot(p, b, x) && 0 <= x < |m| ensures m'[x] == m[x] {
      SlotInStorage(w, p, rows.n, |m0|, b, x);
    }
    if done { HoldsSame(w, m, m', m0, p, rows.n, b); }
  }

  lemma StorageModule(w: nat, chain: seq<Dso>, rows: Rows, oldCnt: nat, m0: seq<int>, k: nat)
    requires StorageOk(w, chain, rows, oldCnt, m0) && k < |chain| && chain[k].id > oldCnt
    ensures DsoOk(w, chain[k], rows.n, |m0|)
  {
  }

  lemma OthersKept(w: nat, chain: seq<Dso>, rows: Rows, oldCnt: nat, m0: seq<int>, m: seq<int>, m': seq<int>, k: nat, j: nat)
    requires StorageOk(w, chain, rows, oldCnt, m0) && Progress(w, chain, rows, oldCnt, m0, m, k, j)
    requires k < |chain| && chain[k].id > oldCnt && j < rows.n && |m'| == |m|
    requires forall x :: 0 <= x < |m| && !InSlot(chain[k], j, x) ==> m'[x] == m[x]
    requires Status(w, m0, m', chain[k], j, true)
    ensures Progress(w, chain, rows, oldCnt, m0, m', k, j + 1)
  {
    hide StorageOk, Status, InStorage, InSlot;
    var j' := j + 1;
    forall a: nat, c: nat | a < |chain| && c < rows.n && chain[a].id > oldCnt
      ensures Status(w, m0, m', chain[a], c, Before(a, c, k, j'))
    {
      if (a, c) != (k, j) {
        assert Status(w, m0, m, chain[a], c, Before(a, c, k, j));
        OtherSlotKept(w, chain, rows, oldCnt, m0, m, m', k, j, a, c, Before(a, c, k, j));
      }
    }
    StorageModule(w, chain, rows, oldCnt, m0, k);
    forall x | 0 <= x < |m| && Elsewhere(chain, rows, oldCnt, x) ensures m'[x] == m0[x] {
      if InSlot(chain[k], j, x) { SlotInStorage(w, chain[k], rows.n, |m0|, j, x); }
    }
  }

  /** A block does not overlap its module's image. */
  lemma ImageApart(w: nat, chain: seq<Dso>, rows: Rows, oldCnt: nat, m0: seq<int>, k: nat, j: nat)
    requires StorageOk(w, chain, rows, oldCnt, m0) && k < |chain| && chain[k].id > oldCnt && j < rows.n
    ensures Slot(chain[k], j) < Pow2(w) && chain[k].align > 0
    ensures var b := Block(w, chain[k], j);
      b + chain[k].len <= chain[k].image || chain[k].image + chain[k].len <= b || chain[k].len == 0
  {
    StorageModule(w, chain, rows, oldCnt, m0, k);
    var p := chain[k];
    SlotInside(w, p, rows.n, |m0|, j);
    hide Block, Slot, StorageOk, DsoOk, InStorage, IsPow2;
    var b := Block(w, p, j);
    var x := if b < p.image then p.image else b;
    if b <= x < b + p.len {
      BlockInStorage(w, p, rows.n, |m0|, j, x);
      StorageNotImage(w, chain, rows, oldCnt, m0, k, x);
    }
  }

  lemma BlockInStorage(w: nat, p: Dso, n: nat, limit: nat, j: nat, x: int)
    requires DsoOk(w, p, n, limit) && j < n && Slot(p, j) < Pow2(w) && Block(w, p, j) <= x < Block(w, p, j) + p.len
    ensures InStorage(p, n, x)
  {
    SlotInside(w, p, n, limit, j);
    hide Block, Slot;
  }

  lemma StorageNotImage(w: nat, chain: seq<Dso>, rows: Rows, oldCnt: nat, m0: seq<int>, k: nat, x: int)
    requires StorageOk(w, chain, rows, oldCnt, m0) && k < |chain| && chain[k].id > oldCnt && InStorage(chain[k], rows.n, x)
    ensures !InImage(chain[k], x)
  {
  }

  lemma NextModule(w: nat, chain: seq<Dso>, rows: Rows, oldCnt: nat, m0: seq<int>, m: seq<int>, k: nat, j: nat)
    requires Progress(w, chain, rows, oldCnt, m0, m, k, j) && k < |chain| && (chain[k].id <= oldCnt || j == rows.n)
    ensures Progress(w, chain, rows, oldCnt, m0, m, k + 1, 0)
  {
    hide Status, Elsewhere;
    var k' := k + 1;
    forall a: nat, b: nat | a < |chain| && b < rows.n && chain[a].id > oldCnt
      ensures Status(w, m0, m, chain[a], b, Before(a, b, k', 0))
    {
      assert Status(w, m0, m, chain[a], b, Before(a, b, k, j));
    }
  }

  // ----- entries

  /** The new DTVs: the old entries, and for each new module the block of that thread. */
  ghost predicate DtvOk(w: nat, chain: seq<Dso>, oldDtv: seq<seq<int>>, oldCnt: nat, tlsCnt: nat, dtpOffset: int,
                        dtv: seq<int>, j: nat, k: nat)
  {
    |dtv| == tlsCnt + 1 && j < |oldDtv| && |oldDtv[j]| > oldCnt && oldCnt <= tlsCnt && dtv[0] == tlsCnt &&
    (forall i :: 1 <= i <= oldCnt ==> dtv[i] == oldDtv[j][i]) &&
    (forall a: nat :: a < |chain| && a < k && chain[a].id > oldCnt ==> EntryOk(w, chain[a], dtpOffset, dtv, j))
  }

  ghost predicate EntryOk(w: nat, p: Dso, dtpOffset: int, dtv: seq<int>, j: nat) {
    p.id < |dtv| && Slot(p, j) < Pow2(w) && p.align > 0 && dtv[p.id] == Block(w, p, j) + dtpOffset
  }

  // ----- copying

  /** The DTV at `at`, before: words up to `cnt` in memory, and apart from the new rows. */
  ghost predicate OldOk(at: nat, word: nat, cnt: nat, rows: Rows, limit: nat) {
    at + word * cnt <= limit && forall x: int :: at <= x < at + word * cnt ==> !InRows(rows, x)
  }

  /** What the first loop has done for thread `j`. */
  ghost predicate CopiedRow(m0: seq<int>, m: seq<int>, td: seq<nat>, rows: Rows, oldCnt: nat, j: nat) {
    j < |td| && oldCnt + 1 < rows.cnt &&
    var d, o := Dtv(m, rows, j), Words(m0, td[j], rows.word, oldCnt + 1);
    d[0] == rows.cnt - 1 && forall i :: 1 <= i <= oldCnt ==> d[i] == o[i]
  }

  /** Copy the DTVs of all threads and set their new size. */
  method CopyDtvs(mem: array<int>, td: seq<nat>, rows: Rows, oldCnt: nat)
    requires rows.word > 0 && rows.n == |td| && oldCnt + 1 < rows.cnt && rows.at + rows.n * RowBytes(rows) <= mem.Length
    requires forall j :: 0 <= j < |td| ==> OldOk(td[j], rows.word, oldCnt + 1, rows, mem.Length)
    modifies mem
    ensures forall x :: 0 <= x < mem.Length && !InRows(rows, x) ==> mem[x] == old(mem[x])
    ensures forall j: nat :: j < |td| ==> CopiedRow(old(mem[..]), mem[..], td, rows, oldCnt, j)
  {
    hide Stored, Copied, CopiedRow, InRows, OldOk;
    ghost var m0 := mem[..];
    var i := 0;
    while i < |td|
      invariant 0 <= i <= |td| && forall x :: 0 <= x < mem.Length && !InRows(rows, x) ==> mem[x] == m0[x]
      invariant forall j: nat :: j < i ==> CopiedRow(m0, mem[..], td, rows, oldCnt, j)
    {
      ghost var m := mem[..];
      RowCopies(m0, m, td, rows, oldCnt, i);
      MemCpy(mem, RowStart(rows, i), td[i], rows.word * (oldCnt + 1));
      StoreWord(mem, RowStart(rows, i), rows.word, rows.cnt - 1);
      forall j: nat | j < i ensures CopiedRow(m0, mem[..], td, rows, oldCnt, j) {
        StillCopied(m0, m, mem[..], td, rows, oldCnt, i, j);
      }
      i := i + 1;
    }
  }

  lemma StillCopied(m0: seq<int>, m: seq<int>, m': seq<int>, td: seq<nat>, rows: Rows, oldCnt: nat, i: nat, j: nat)
    requires rows.word > 0 && |m'| == |m| && forall x :: 0 <= x < |m| && !InRow(rows, i, x) ==> m'[x] == m[x]
    requires i != j && CopiedRow(m0, m, td, rows, oldCnt, j)
    ensures CopiedRow(m0, m', td, rows, oldCnt, j)
  {
    OtherRows(m, m', rows, i, j);
  }

  /** One iteration. */
  lemma RowCopies(m0: seq<int>, m: seq<int>, td: seq<nat>, rows: Rows, oldCnt: nat, i: nat)
    requires rows.word > 0 && rows.n == |td| && oldCnt + 1 < rows.cnt && rows.at + rows.n * RowBytes(rows) <= |m| == |m0|
    requires i < |td| && OldOk(td[i], rows.word, oldCnt + 1, rows, |m|)
    requires forall x :: 0 <= x < |m| && !InRows(rows, x) ==> m[x] == m0[x]
    ensures var len, dst := rows.word * (oldCnt + 1), RowStart(rows, i);
      dst + len <= |m| && td[i] + len <= |m| && (dst + len <= td[i] || td[i] + len <= dst) && dst + rows.word <= |m| &&
      var m' := Stored(Copied(m, dst, td[i], len), dst, rows.word, rows.cnt - 1);
      |m'| == |m| && (forall x :: 0 <= x < |m| && !InRow(rows, i, x) ==> m'[x] == m[x]) &&
      (forall x :: 0 <= x < |m| && !InRows(rows, x) ==> m'[x] == m0[x]) && CopiedRow(m0, m', td, rows, oldCnt, i)
  {
    var len, dst := rows.word * (oldCnt + 1), RowStart(rows, i);
    RowPlaces(m, td[i], rows, oldCnt, i);
    hide RowStart, InRows, OldOk, Stored, Words;
    CopyInRow(m, dst, td[i], len, rows, i);
    hide Copied;
    EntryStored(Copied(m, dst, td[i], len), rows, i, 0, rows.cnt - 1);
    RowIs(Copied(m, dst, td[i], len), rows, i);
    WordsCopied(m0, m, dst, td[i], rows.word, rows.cnt, oldCnt + 1);
  }

  lemma RowPlaces(m: seq<int>, src: nat, rows: Rows, oldCnt: nat, i: nat)
    requires rows.word > 0 && oldCnt + 1 < rows.cnt && rows.at + rows.n * RowBytes(rows) <= |m| && i < rows.n
    requires OldOk(src, rows.word, oldCnt + 1, rows, |m|)
    ensures var len, dst := rows.word * (oldCnt + 1), RowStart(rows, i);
      src + len <= |m| && (dst + len <= src || src + len <= dst) && rows.word <= len < RowBytes(rows) &&
      dst + RowBytes(rows) <= |m| && (forall x: int :: src <= x < src + len ==> !InRows(rows, x)) &&
      forall x: int :: InRow(rows, i, x) ==> InRows(rows, x)
  {
    var len, dst := rows.word * (oldCnt + 1), RowStart(rows, i);
    RowInside(rows, i);
    RowInRows(rows, i);
    MulMono(oldCnt + 1, rows.cnt, rows.word);
    MulMono(0, oldCnt + 1, rows.word);
    RowFrom(m, src, dst, len, rows);
  }

  lemma CopyInRow(m: seq<int>, dst: nat, src: nat, len: nat, rows: Rows, i: nat)
    requires dst == RowStart(rows, i) && len <= RowBytes(rows) && dst + len <= |m| && src + len <= |m|
    ensures var c := Copied(m, dst, src, len); |c| == |m| && forall x :: 0 <= x < |m| && !InRow(rows, i, x) ==> c[x] == m[x]
  {
  }

  lemma WordsCopied(m0: seq<int>, m: seq<int>, dst: nat, src: nat, word: nat, cnt: nat, n: nat)
    requires word > 0 && |m| == |m0| && n <= cnt && dst + word * n <= |m| && src + word * n <= |m|
    requires forall x :: src <= x < src + word * n ==> m[x] == m0[x]
    ensures forall h :: 0 <= h < n ==> Words(Copied(m, dst, src, word * n), dst, word, cnt)[h] == Words(m0, src, word, n)[h]
  {
    var c := Copied(m, dst, src, word * n);
    forall h | 0 <= h < n ensures Words(c, dst, word, cnt)[h] == Words(m0, src, word, n)[h] {
      WordInside(word, n, h);
      assert c[dst + h * word] == m[src + h * word];
    }
  }

  lemma RowFrom(m: seq<int>, src: nat, dst: nat, len: nat, rows: Rows)
    requires 0 < len && rows.at <= dst && dst + len <= rows.at + rows.n * RowBytes(rows) <= |m|
    requires src + len <= |m| && forall x: int :: src <= x < src + len ==> !InRows(rows, x)
    ensures dst + len <= src || src + len <= dst
  {
    if !(dst + len <= src || src + len <= dst) {
      var x := if src < dst then dst else src;
      assert InRows(rows, x);
      assert false;
    }
  }

  // ----- the method

  /** Thread `j` had the DTV at `td[j]`. */
  ghost function OldDtvs(m0: seq<int>, td: seq<nat>, word: nat, oldCnt: nat): (o: seq<seq<int>>)
    ensures |o| == |td| && forall j :: 0 <= j < |td| ==> o[j] == Words(m0, td[j], word, oldCnt + 1)
  {
    seq(|td|, j requires 0 <= j < |td| => Words(m0, td[j], word, oldCnt + 1))
  }

  /** Rows are complete for the modules before `k`. */
  ghost predicate RowsDone(w: nat, chain: seq<Dso>, o: seq<seq<int>>, oldCnt: nat, rows: Rows, dtpOffset: int, m: seq<int>,
                           k: nat)
  {
    rows.cnt > 0 && forall j: nat :: j < rows.n ==>
      DtvOk(w, chain, o, oldCnt, rows.cnt - 1, dtpOffset, Dtv(m, rows, j), j, k)
  }

  /** Install the modules with ids above `oldCnt`, for all threads; thread 0 is the caller,
      `td` has their DTVs and `tail` is the position of the module with the last id, at
      which the walk along the chain stops. The new DTVs are in the rows of that module's
      allocation. */
  method InstallNewTls(w: nat, chain: seq<Dso>, tail: nat, mem: array<int>, word: nat, td: seq<nat>, oldCnt: nat,
                       tlsCnt: nat, dtpOffset: int)
    returns (newTd: seq<nat>)
    requires ChainOk(chain, tlsCnt) && oldCnt < tlsCnt && |td| > 0 && tail < |chain| && chain[tail].id == tlsCnt
    requires var rows := RowsOf(chain[tail], word, |td|);
      StorageOk(w, chain, rows, oldCnt, mem[..]) && RowsOk(chain, rows, oldCnt, mem.Length) &&
      forall j :: 0 <= j < |td| ==> OldOk(td[j], word, oldCnt + 1, rows, mem.Length)
    modifies mem
    ensures |newTd| == |td| && forall j: nat :: j < |td| ==> newTd[j] == RowStart(RowsOf(chain[tail], word, |td|), j)
    ensures forall j: nat :: j < |td| ==>
      DtvOk(w, chain, OldDtvs(old(mem[..]), td, word, oldCnt), oldCnt, tlsCnt, dtpOffset,
            Words(mem[..], newTd[j], word, tlsCnt + 1), j, |chain|)
    ensures Progress(w, chain, RowsOf(chain[tail], word, |td|), oldCnt, old(mem[..]), mem[..], |chain|, 0)
  {
    hide Progress, StorageOk, RowsOk, DtvOk, DsoOk, InRows, OldOk, Dtv, Words, ChainOk;
    ghost var m0, o := mem[..], OldDtvs(mem[..], td, word, oldCnt);
    var rows := RowsOf(chain[tail], word, |td|);
    RowsFitting(chain, rows, oldCnt, mem.Length);
    CopyDtvs(mem, td, rows, oldCnt);
    BeginProgress(w, chain, rows, oldCnt, m0);
    RowsSpareSlots(w, chain, rows, oldCnt, m0, m0, mem[..], 0, 0);
    BeginRows(w, chain, m0, mem[..], td, rows, oldCnt, dtpOffset);
    var k := 0;
    while true
      invariant 0 <= k <= |chain| && NotYet(chain, k, tlsCnt)
      invariant Progress(w, chain, rows, oldCnt, m0, mem[..], k, 0)
      invariant RowsDone(w, chain, o, oldCnt, rows, dtpOffset, mem[..], k)
      decreases |chain| - k
    {
      hide RowsDone;
      StillAhead(chain, k, tlsCnt);
      var p := chain[k];
      if p.id <= oldCnt {
        NextModule(w, chain, rows, oldCnt, m0, mem[..], k, 0);
        RowsSkip(w, chain, o, oldCnt, rows, dtpOffset, mem[..], k);
        k := k + 1;
        continue;
      }
      InstallModule(w, chain, mem, m0, o, rows, oldCnt, dtpOffset, k);
      if p.id == tlsCnt {
        Finished(w, chain, rows, oldCnt, m0, mem[..], tlsCnt, k + 1);
        RowsFinished(w, chain, o, oldCnt, rows, dtpOffset, mem[..], k + 1);
        break;
      }
      k := k + 1;
    }
    newTd := GiveRows(rows);
    forall j: nat | j < |td|
      ensures DtvOk(w, chain, o, oldCnt, tlsCnt, dtpOffset, Words(mem[..], newTd[j], word, tlsCnt + 1), j, |chain|)
    {
      assert Dtv(mem[..], rows, j) == Words(mem[..], newTd[j], word, tlsCnt + 1) by { RowIs(mem[..], rows, j); }
    }
  }

  lemma RowIs(m: seq<int>, r: Rows, j: nat)
    ensures Dtv(m, r, j) == Words(m, RowStart(r, j), r.word, r.cnt)
  {
  }

  lemma RowsFitting(chain: seq<Dso>, rows: Rows, oldCnt: nat, limit: nat)
    requires RowsOk(chain, rows, oldCnt, limit)
    ensures rows.word > 0 && rows.at + rows.n * RowBytes(rows) <= limit
  {
  }

  /** The last loop: each thread gets its row. */
  method GiveRows(rows: Rows) returns (td: seq<nat>)
    ensures |td| == rows.n && forall j: nat :: j < rows.n ==> td[j] == RowStart(rows, j)
  {
    td := [];
    while |td| < rows.n
      invariant |td| <= rows.n && forall j: nat :: j < |td| ==> td[j] == RowStart(rows, j)
    {
      td := td + [RowStart(rows, |td|)];
    }
  }

  lemma BeginRows(w: nat, chain: seq<Dso>, m0: seq<int>, m: seq<int>, td: seq<nat>, rows: Rows, oldCnt: nat, dtpOffset: int)
    requires rows.n == |td| && forall j: nat :: j < |td| ==> CopiedRow(m0, m, td, rows, oldCnt, j)
    requires oldCnt + 1 < rows.cnt
    ensures RowsDone(w, chain, OldDtvs(m0, td, rows.word, oldCnt), oldCnt, rows, dtpOffset, m, 0)
  {
    hide Dtv, Words;
    forall j: nat | j < rows.n
      ensures DtvOk(w, chain, OldDtvs(m0, td, rows.word, oldCnt), oldCnt, rows.cnt - 1, dtpOffset, Dtv(m, rows, j), j, 0)
    {
      assert CopiedRow(m0, m, td, rows, oldCnt, j);
    }
  }

  lemma RowsSkip(w: nat, chain: seq<Dso>, o: seq<seq<int>>, oldCnt: nat, rows: Rows, dtpOffset: int, m: seq<int>, k: nat)
    requires RowsDone(w, chain, o, oldCnt, rows, dtpOffset, m, k) && k < |chain| && chain[k].id <= oldCnt
    ensures RowsDone(w, chain, o, oldCnt, rows, dtpOffset, m, k + 1)
  {
    hide DtvOk, Dtv;
    forall j: nat | j < rows.n
      ensures DtvOk(w, chain, o, oldCnt, rows.cnt - 1, dtpOffset, Dtv(m, rows, j), j, k + 1)
    {
      DtvSkip(w, chain, o, oldCnt, rows.cnt - 1, dtpOffset, Dtv(m, rows, j), j, k);
    }
  }

  lemma RowsFinished(w: nat, chain: seq<Dso>, o: seq<seq<int>>, oldCnt: nat, rows: Rows, dtpOffset: int, m: seq<int>, k: nat)
    requires RowsDone(w, chain, o, oldCnt, rows, dtpOffset, m, k) && ChainOk(chain, rows.cnt - 1)
    requires 0 < k <= |chain| && chain[k - 1].id == rows.cnt - 1 > oldCnt
    ensures RowsDone(w, chain, o, oldCnt, rows, dtpOffset, m, |chain|)
  {
    hide DtvOk, Dtv, ChainOk;
    forall j: nat | j < rows.n
      ensures DtvOk(w, chain, o, oldCnt, rows.cnt - 1, dtpOffset, Dtv(m, rows, j), j, |chain|)
    {
      DtvFinished(w, chain, o, oldCnt, rows.cnt - 1, dtpOffset, Dtv(m, rows, j), j, k);
    }
  }

  /** Rows while module `k` is being installed, and thread `j` is next. */
  ghost predicate RowsAt(w: nat, chain: seq<Dso>, o: seq<seq<int>>, oldCnt: nat, rows: Rows, dtpOffset: int, m: seq<int>,
                         k: nat, j: nat)
  {
    rows.cnt > 0 && forall i: nat :: i < rows.n ==>
      DtvOk(w, chain, o, oldCnt, rows.cnt - 1, dtpOffset, Dtv(m, rows, i), i, if i < j then k + 1 else k)
  }

  lemma RowsBetween(w: nat, chain: seq<Dso>, o: seq<seq<int>>, oldCnt: nat, rows: Rows, dtpOffset: int, m: seq<int>, k: nat)
    ensures RowsDone(w, chain, o, oldCnt, rows, dtpOffset, m, k) <==> RowsAt(w, chain, o, oldCnt, rows, dtpOffset, m, k, 0)
    ensures RowsAt(w, chain, o, oldCnt, rows, dtpOffset, m, k, rows.n) ==>
            RowsDone(w, chain, o, oldCnt, rows, dtpOffset, m, k + 1)
  {
    hide DtvOk, Dtv;
  }

  /** The blocks of one module. */
  method InstallModule(w: nat, chain: seq<Dso>, mem: array<int>, ghost m0: seq<int>, ghost o: seq<seq<int>>, rows: Rows,
                       ghost oldCnt: nat, dtpOffset: int, k: nat)
    requires k < |chain| && oldCnt < chain[k].id < rows.cnt && ChainOk(chain, rows.cnt - 1) && |o| == rows.n
    requires StorageOk(w, chain, rows, oldCnt, m0) && RowsOk(chain, rows, oldCnt, |m0|)
    requires Progress(w, chain, rows, oldCnt, m0, mem[..], k, 0) && |m0| == mem.Length
    requires RowsDone(w, chain, o, oldCnt, rows, dtpOffset, mem[..], k)
    modifies mem
    ensures Progress(w, chain, rows, oldCnt, m0, mem[..], k + 1, 0)
    ensures RowsDone(w, chain, o, oldCnt, rows, dtpOffset, mem[..], k + 1)
  {
    hide Progress, StorageOk, RowsOk, DtvOk, DsoOk, ChainOk, RowsAt, RowsDone, Copied, Stored, Dtv, Block, Gap;
    RowsBetween(w, chain, o, oldCnt, rows, dtpOffset, mem[..], k);
    var p := chain[k];
    var area := p.newTls;
    var j := 0;
    while j < rows.n
      invariant 0 <= j <= rows.n && area == Slot(p, j)
      invariant Progress(w, chain, rows, oldCnt, m0, mem[..], k, j)
      invariant RowsAt(w, chain, o, oldCnt, rows, dtpOffset, mem[..], k, j)
    {
      ghost var m := mem[..];
      OneBlock(w, chain, rows, oldCnt, m0, m, k, j);
      MulMono(j, rows.n, p.size + p.align);
      assert Block(w, p, j) == area + Gap(w, area, p.image, p.align) by { BlockIs(w, p, j); }
      var new_ := area + Gap(w, area, p.image, p.align);
      if p.len > 0 { MemCpy(mem, new_, p.image, p.len); } else { NothingCopied(m, new_, p.image); }
      RowsFitting(chain, rows, oldCnt, mem.Length);
      OneEntry(w, chain, rows, oldCnt, m0, o, dtpOffset, m, mem[..], k, j);
      StoreWord(mem, EntryAddr(rows, j, p.id), rows.word, new_ + dtpOffset);
      area := area + p.size + p.align;
      j := j + 1;
    }
    RowsBetween(w, chain, o, oldCnt, rows, dtpOffset, mem[..], k);
    NextModule(w, chain, rows, oldCnt, m0, mem[..], k, rows.n);
  }

  lemma BlockIs(w: nat, p: Dso, j: nat)
    requires Slot(p, j) < Pow2(w) && p.align > 0
    ensures Block(w, p, j) == Slot(p, j) + Gap(w, Slot(p, j), p.image, p.align)
  {
  }

  lemma NothingCopied(m: seq<int>, dst: nat, src: nat)
    requires dst <= |m| && src <= |m|
    ensures Copied(m, dst, src, 0) == m
  {
  }

  /** After a block has been filled, its address goes into the row of its thread. */
  lemma OneEntry(w: nat, chain: seq<Dso>, rows: Rows, oldCnt: nat, m0: seq<int>, o: seq<seq<int>>, dtpOffset: int, m: seq<int>,
                 c: seq<int>, k: nat, j: nat)
    requires k < |chain| && oldCnt < chain[k].id < rows.cnt && ChainOk(chain, rows.cnt - 1) && j < rows.n
    requires StorageOk(w, chain, rows, oldCnt, m0) && RowsOk(chain, rows, oldCnt, |m0|) && |c| == |m0|
    requires Slot(chain[k], j) < Pow2(w) && chain[k].align > 0
    requires forall i: nat :: i < rows.n ==> Dtv(c, rows, i) == Dtv(m, rows, i)
    requires RowsAt(w, chain, o, oldCnt, rows, dtpOffset, m, k, j) && Progress(w, chain, rows, oldCnt, m0, c, k, j + 1)
    ensures EntryAddr(rows, j, chain[k].id) + rows.word <= |c| && rows.word > 0
    ensures var m' := Stored(c, EntryAddr(rows, j, chain[k].id), rows.word, Block(w, chain[k], j) + dtpOffset);
      RowsAt(w, chain, o, oldCnt, rows, dtpOffset, m', k, j + 1) && Progress(w, chain, rows, oldCnt, m0, m', k, j + 1)
  {
    hide Progress, StorageOk, DtvOk, ChainOk, Stored, Dtv, Block, RowsOk, Slot;
    RowsFitting(chain, rows, oldCnt, |m0|);
    var v := Block(w, chain[k], j) + dtpOffset;
    EntryStored(c, rows, j, chain[k].id, v);
    var m' := Stored(c, EntryAddr(rows, j, chain[k].id), rows.word, v);
    hide RowStart;
    RowInRows(rows, j);
    RowsSpareSlots(w, chain, rows, oldCnt, m0, c, m', k, j + 1);
    forall i: nat | i < rows.n
      ensures DtvOk(w, chain, o, oldCnt, rows.cnt - 1, dtpOffset, Dtv(m', rows, i), i, if i < j + 1 then k + 1 else k)
    {
      if i == j {
        DtvEntry(w, chain, o, oldCnt, rows.cnt - 1, dtpOffset, Dtv(m, rows, j), j, k);
      } else {
        OtherRows(c, m', rows, j, i);
      }
    }
  }

  lemma RowInRows(r: Rows, j: nat)
    requires j < r.n
    ensures forall x: int :: InRow(r, j, x) ==> InRows(r, x)
  {
    RowInside(r, j);
  }

  ghost predicate NotYet(chain: seq<Dso>, k: nat, tlsCnt: nat) {
    forall a :: 0 <= a < k && a < |chain| ==> chain[a].id != tlsCnt
  }

  /** The walk does not run off the end: the last id is still to come. */
  lemma StillAhead(chain: seq<Dso>, k: nat, tlsCnt: nat)
    requires ChainOk(chain, tlsCnt) && NotYet(chain, k, tlsCnt) && k <= |chain| && tlsCnt > 0
    ensures k < |chain| && chain[k].id <= tlsCnt
    ensures chain[k].id != tlsCnt ==> NotYet(chain, k + 1, tlsCnt)
  {
    assert HasId(chain, tlsCnt);
  }

  /** Stopping at the last id skips no module. */
  lemma Finished(w: nat, chain: seq<Dso>, rows: Rows, oldCnt: nat, m0: seq<int>, m: seq<int>, tlsCnt: nat, k: nat)
    requires ChainOk(chain, tlsCnt) && 0 < k <= |chain| && chain[k - 1].id == tlsCnt > oldCnt
    requires Progress(w, chain, rows, oldCnt, m0, m, k, 0)
    ensures Progress(w, chain, rows, oldCnt, m0, m, |chain|, 0)
  {
    hide Status, Elsewhere;
    var k' := |chain|;
    forall a: nat, b: nat | a < |chain| && b < rows.n && chain[a].id > oldCnt
      ensures Status(w, m0, m, chain[a], b, Before(a, b, k', 0))
    {
      assert Status(w, m0, m, chain[a], b, Before(a, b, k, 0));
      assert chain[a].id <= chain[k - 1].id;
    }
  }

  lemma DtvFinished(w: nat, chain: seq<Dso>, oldDtv: seq<seq<int>>, oldCnt: nat, tlsCnt: nat, dtpOffset: int,
                    dtv: seq<int>, j: nat, k: nat)
    requires ChainOk(chain, tlsCnt) && 0 < k <= |chain| && chain[k - 1].id == tlsCnt > oldCnt
    requires DtvOk(w, chain, oldDtv, oldCnt, tlsCnt, dtpOffset, dtv, j, k)
    ensures DtvOk(w, chain, oldDtv, oldCnt, tlsCnt, dtpOffset, dtv, j, |chain|)
  {
    forall a: nat | a < |chain| && chain[a].id > oldCnt ensures EntryOk(w, chain[a], dtpOffset, dtv, j) {
      assert chain[a].id <= chain[k - 1].id;
    }
  }

  lemma DtvSkip(w: nat, chain: seq<Dso>, oldDtv: seq<seq<int>>, oldCnt: nat, tlsCnt: nat, dtpOffset: int,
                dtv: seq<int>, j: nat, k: nat)
    requires k < |chain| && chain[k].id <= oldCnt
    requires DtvOk(w, chain, oldDtv, oldCnt, tlsCnt, dtpOffset, dtv, j, k)
    ensures DtvOk(w, chain, oldDtv, oldCnt, tlsCnt, dtpOffset, dtv, j, k + 1)
  {
  }

  /** Entries of different modules are different. */
  lemma DtvEntry(w: nat, chain: seq<Dso>, oldDtv: seq<seq<int>>, oldCnt: nat, tlsCnt: nat, dtpOffset: int,
                 dtv: seq<int>, j: nat, k: nat)
    requires ChainOk(chain, tlsCnt) && k < |chain| && oldCnt < chain[k].id <= tlsCnt
    requires DtvOk(w, chain, oldDtv, oldCnt, tlsCnt, dtpOffset, dtv, j, k)
    requires Slot(chain[k], j) < Pow2(w) && chain[k].align > 0
    ensures chain[k].id < |dtv|
    ensures DtvOk(w, chain, oldDtv, oldCnt, tlsCnt, dtpOffset,
                  dtv[chain[k].id := Block(w, chain[k], j) + dtpOffset], j, k + 1)
  {
    var dtv' := dtv[chain[k].id := Block(w, chain[k], j) + dtpOffset];
    forall a: nat | a < |chain| && a < k + 1 && chain[a].id > oldCnt ensures EntryOk(w, chain[a], dtpOffset, dtv', j) {
      if a < k {
        assert chain[a].id < chain[k].id;
        assert EntryOk(w, chain[a], dtpOffset, dtv, j);
      }
    }
  }
}
