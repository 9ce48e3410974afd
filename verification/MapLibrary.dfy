/** `map_library`: one reservation, mapped from the file, over which the segments are then
    mapped in place. Memory is the reservation, counted from its first byte. */
module MapLibrary {
  import opened Arith
  import opened Bits
  import opened Wrappers

  /** A PT_LOAD program header; `prot` stands for its flags, `write` for PF_W among them. */
  datatype Seg = Seg(offset: nat, vaddr: nat, filesz: nat, memsz: nat, prot: nat, write: bool)

  datatype Cell = Cell(byte: nat, prot: nat)

  // ----- pages

  function PageDown(p: nat, x: int): int
    requires p > 0
  {
    x - x % p
  }

  function PageUp(p: nat, x: int): int
    requires p > 0
  {
    PageDown(p, x + p - 1)
  }

  /** The masks with which the source rounds. */
  lemma PageMask(w: nat, p: nat, x: nat)
    requires IsPow2(p) && p < Pow2(w) && x < Pow2(w)
    ensures p > 0 && And(x, Neg(w, p)) == PageDown(p, x)
  {
    var k: nat :| p == Pow2(k);
    if k > w { Pow2Monotone(w, k); }
    hide And;
    AndHigh(w, x, k);
  }

  lemma PageDownIs(p: nat, x: int)
    requires p > 0
    ensures x - p < PageDown(p, x) <= x && PageDown(p, x) % p == 0 && x == PageDown(p, x) + x % p
    ensures x >= 0 ==> PageDown(p, x) >= 0
  {
    DivMod(x, p);
    ModIs(p * (x / p), p, x / p, 0);
    if x >= 0 && x / p < 0 { MulFar(p, x / p); }
  }

  lemma PageUpIs(p: nat, x: int)
    requires p > 0
    ensures x <= PageUp(p, x) < x + p && PageUp(p, x) % p == 0
  {
    PageDownIs(p, x + p - 1);
  }

  /** Rounding is monotone. */
  lemma PagesGrow(p: nat, x: int, y: int)
    requires p > 0 && x <= y
    ensures PageDown(p, x) <= PageDown(p, y) && PageUp(p, x) <= PageUp(p, y)
  {
    DownGrows(p, x, y);
    DownGrows(p, x + p - 1, y + p - 1);
  }

  lemma DownGrows(p: nat, x: int, y: int)
    requires p > 0 && x <= y
    ensures PageDown(p, x) <= PageDown(p, y)
  {
    DivMod(x, p);
    DivMod(y, p);
    if y / p < x / p {
      MulSub(p, x / p, y / p);
      MulFar(p, x / p - y / p);
    }
  }

  /** Rounding commutes with moving by whole pages. */
  lemma PageUpShift(p: nat, x: int, k: int)
    requires p > 0 && k % p == 0
    ensures PageUp(p, x + k) == PageUp(p, x) + k
  {
    DivMod(k, p);
    ModAddMultiple(x + p - 1, p, k / p);
  }

  // ----- well-formed files

  /** Pages of a segment; one without memory still claims the page it names. */
  function Low(p: nat, s: Seg): int
    requires p > 0
  {
    PageDown(p, s.vaddr)
  }

  function High(p: nat, s: Seg): int
    requires p > 0
  {
    PageUp(p, s.vaddr + s.memsz)
  }

  function Claim(p: nat, s: Seg): int
    requires p > 0
  {
    PageUp(p, s.vaddr + if s.memsz == 0 then 1 else s.memsz)
  }

  ghost predicate SegOk(p: nat, file: seq<nat>, s: Seg)
    requires p > 0
  {
    s.filesz <= s.memsz && s.offset % p == s.vaddr % p && s.offset + s.filesz <= |file|
  }

  ghost predicate Disjoint(p: nat, s: Seg, t: Seg)
    requires p > 0
  {
    Claim(p, s) <= Low(p, t) || Claim(p, t) <= Low(p, s)
  }

  ghost predicate SegsOk(p: nat, file: seq<nat>, segs: seq<Seg>) {
    p > 0 && segs != [] && (forall i :: 0 <= i < |segs| ==> SegOk(p, file, segs[i])) &&
    forall i, j :: 0 <= i < j < |segs| ==> Disjoint(p, segs[i], segs[j])
  }

  lemma SegPages(p: nat, s: Seg)
    requires p > 0
    ensures Low(p, s) <= s.vaddr < Low(p, s) + p && s.vaddr + s.memsz <= High(p, s) <= Claim(p, s)
    ensures Low(p, s) < Claim(p, s) && Low(p, s) <= High(p, s) && 0 <= Low(p, s) && Low(p, s) % p == 0
  {
    hide PageDown, PageUp;
    PageDownIs(p, s.vaddr);
    PageUpIs(p, s.vaddr + s.memsz);
    PageUpIs(p, s.vaddr + if s.memsz == 0 then 1 else s.memsz);
    PagesGrow(p, s.vaddr + s.memsz, s.vaddr + if s.memsz == 0 then 1 else s.memsz);
    LowAtMostHigh(p, s);
  }

  lemma LowAtMostHigh(p: nat, s: Seg)
    requires p > 0
    ensures Low(p, s) <= High(p, s)
  {
    DownGrows(p, s.vaddr, s.vaddr + s.memsz + p - 1);
  }

  // ----- the first pass

  /** What the scan of the headers finds. */
  datatype Extent = Extent(min: nat, max: nat, off: nat, prot: nat)

  /** The lowest segment, and the end of the highest. */
  method Scan(segs: seq<Seg>) returns (e: Extent, ghost low: nat)
    requires segs != []
    ensures low < |segs| && e.min == segs[low].vaddr && e.off == segs[low].offset && e.prot == segs[low].prot
    ensures forall i :: 0 <= i < |segs| ==> segs[low].vaddr <= segs[i].vaddr
    ensures forall i :: 0 <= i < |segs| ==> segs[i].vaddr + segs[i].memsz <= e.max
    ensures exists i :: 0 <= i < |segs| && e.max == segs[i].vaddr + segs[i].memsz
  {
    // the first header is always below the initial SIZE_MAX
    e, low := Extent(segs[0].vaddr, segs[0].vaddr + segs[0].memsz, segs[0].offset, segs[0].prot), 0;
    var i := 1;
    while i < |segs|
      invariant 1 <= i <= |segs| && low < i
      invariant e.min == segs[low].vaddr && e.off == segs[low].offset && e.prot == segs[low].prot
      invariant forall j :: 0 <= j < i ==> segs[low].vaddr <= segs[j].vaddr
      invariant forall j :: 0 <= j < i ==> segs[j].vaddr + segs[j].memsz <= e.max
      invariant exists j :: 0 <= j < i && e.max == segs[j].vaddr + segs[j].memsz
    {
      if segs[i].vaddr < e.min {
        e := e.(min := segs[i].vaddr, off := segs[i].offset, prot := segs[i].prot);
        low := i;
      }
      if segs[i].vaddr + segs[i].memsz > e.max { e := e.(max := segs[i].vaddr + segs[i].memsz); }
      i := i + 1;
    }
  }

  // ----- mapping

  /** A byte of a mapping of the file; what lies past its end is never used. */
  function FileByte(file: seq<nat>, o: int): nat { if 0 <= o < |file| then file[o] else 0 }

  /** `mmap` of the file over part of the reservation. */
  method MapFixed(mem: array<Cell>, lo: nat, hi: nat, file: seq<nat>, off: int, prot: nat)
    requires lo <= hi <= mem.Length
    modifies mem
    ensures forall x :: 0 <= x < mem.Length ==>
      mem[x] == if lo <= x < hi then Cell(FileByte(file, off + (x - lo)), prot) else old(mem[x])
  {
    var i := lo;
    while i < hi
      invariant lo <= i <= hi
      invariant forall x :: 0 <= x < mem.Length ==>
        mem[x] == if lo <= x < i then Cell(FileByte(file, off + (x - lo)), prot) else old(mem[x])
    {
      mem[i] := Cell(FileByte(file, off + (i - lo)), prot);
      i := i + 1;
    }
  }

  /** Zeros: written over a page, or a fresh anonymous mapping. */
  method ZeroFill(mem: array<Cell>, lo: nat, hi: nat, prot: Option<nat>)
    requires lo <= hi <= mem.Length
    modifies mem
    ensures forall x :: 0 <= x < mem.Length ==>
      mem[x] == if lo <= x < hi then Cell(0, if prot.Some? then prot.value else old(mem[x]).prot) else old(mem[x])
  {
    var i := lo;
    while i < hi
      invariant lo <= i <= hi
      invariant forall x :: 0 <= x < mem.Length ==>
        mem[x] == if lo <= x < i then Cell(0, if prot.Some? then prot.value else old(mem[x]).prot) else old(mem[x])
    {
      mem[i] := Cell(0, if prot.Some? then prot.value else mem[i].prot);
      i := i + 1;
    }
  }

  /** The image of a segment: its bytes of the file, then zeros if it is writable, all with
      its protection. `min` is the address of the first byte of memory. */
  ghost predicate Loaded(file: seq<nat>, s: Seg, min: int, mem: seq<Cell>) {
    var at := s.vaddr - min;
    0 <= at && at + s.memsz <= |mem| && s.offset + s.filesz <= |file| && s.filesz <= s.memsz &&
    (forall x :: at <= x < at + s.memsz ==> mem[x].prot == s.prot) &&
    (forall x :: at <= x < at + s.filesz ==> mem[x].byte == file[s.offset + (x - at)]) &&
    (s.write ==> forall x :: at + s.filesz <= x < at + s.memsz ==> mem[x].byte == 0)
  }

  /** Part of the reservation as the first mapping left it. */
  ghost predicate Untouched(file: seq<nat>, off: int, prot: nat, mem: seq<Cell>, lo: int, hi: int) {
    forall x :: 0 <= x < |mem| && lo <= x < hi ==> mem[x] == Cell(FileByte(file, off + x), prot)
  }

  ghost predicate SameBut(was: seq<Cell>, now: seq<Cell>, lo: int, hi: int) {
    |was| == |now| && forall x :: 0 <= x < |was| && !(lo <= x < hi) ==> now[x] == was[x]
  }

  /** Where a segment begins in its first page, both in the file and in memory. */
  lemma SameRemainder(p: nat, s: Seg)
    requires p > 0 && s.offset % p == s.vaddr % p
    ensures s.offset - PageDown(p, s.offset) == s.vaddr - Low(p, s) >= 0 && PageDown(p, s.offset) >= 0
  {
    PageDownIs(p, s.offset);
    PageDownIs(p, s.vaddr);
  }

  /** The pages of a segment hold the file from the start of its first page on. */
  ghost predicate Mapped(p: nat, file: seq<nat>, s: Seg, min: int, mem: seq<Cell>)
    requires p > 0
  {
    0 <= Low(p, s) - min && High(p, s) - min <= |mem| &&
    forall x :: Low(p, s) - min <= x < High(p, s) - min ==>
      mem[x] == Cell(FileByte(file, PageDown(p, s.offset) + (x - (Low(p, s) - min))), s.prot)
  }

  /** The addresses between which a writable segment is cleared. */
  ghost predicate Breaks(p: nat, s: Seg, brk: int, pgbrk: int)
    requires p > 0
  {
    brk == s.vaddr + s.filesz && brk <= pgbrk <= High(p, s)
  }

  lemma MappedLoads(p: nat, file: seq<nat>, s: Seg, min: int, mem: seq<Cell>)
    requires p > 0 && SegOk(p, file, s) && Mapped(p, file, s, min, mem) && (!s.write || s.memsz == s.filesz)
    ensures Loaded(file, s, min, mem)
  {
    hide PageDown, PageUp;
    SegPages(p, s);
    SameRemainder(p, s);
  }

  lemma ClearedLoads(p: nat, file: seq<nat>, s: Seg, min: int, was: seq<Cell>, mem: seq<Cell>, brk: int, pgbrk: int)
    requires p > 0 && SegOk(p, file, s) && Mapped(p, file, s, min, was) && |mem| == |was| && Breaks(p, s, brk, pgbrk)
    requires forall x :: 0 <= x < |was| ==>
      mem[x] == if brk - min <= x < High(p, s) - min then Cell(0, s.prot) else was[x]
    ensures Loaded(file, s, min, mem)
  {
    hide PageDown, PageUp;
    SegPages(p, s);
    SameRemainder(p, s);
  }

  /** The kernel is asked to map the file for a segment: not for the lowest, which the
      reservation maps, nor for one without pages. */
  predicate AsksFile(p: nat, s: Seg, min: int)
    requires p > 0
  {
    Low(p, s) != min && Low(p, s) < High(p, s)
  }

  /** It is asked for pages of zeros past those of the file. */
  predicate AsksZeros(p: nat, s: Seg)
    requires p > 0
  {
    s.memsz > s.filesz && s.write && PageUp(p, s.vaddr + s.filesz) < High(p, s)
  }

  /** What the kernel refuses of what it is asked for. */
  predicate Fails(p: nat, s: Seg, min: int, noFile: bool, noZeros: bool)
    requires p > 0
  {
    (AsksFile(p, s, min) && noFile) || (AsksZeros(p, s) && noZeros)
  }

  /** The second loop's work on one segment. `addr` is the address of the reservation. */
  method MapSegment(p: nat, file: seq<nat>, s: Seg, min: nat, addr: nat, mem: array<Cell>, noFile: bool, noZeros: bool)
    returns (ok: bool)
    requires p > 0 && SegOk(p, file, s) && min % p == 0 && addr % p == 0
    requires min <= Low(p, s) && High(p, s) - min <= mem.Length
    requires Low(p, s) == min ==> Untouched(file, PageDown(p, s.offset), s.prot, mem[..], 0, High(p, s) - min)
    modifies mem
    ensures ok ==> Loaded(file, s, min, mem[..]) && SameBut(old(mem[..]), mem[..], Low(p, s) - min, High(p, s) - min)
    ensures ok <==> !Fails(p, s, min, noFile, noZeros)
  {
    hide PageDown, PageUp, SegOk;
    SegPages(p, s);
    var base := addr - min;
    var thisMin, thisMax, off := PageDown(p, s.vaddr), PageUp(p, s.vaddr + s.memsz), PageDown(p, s.offset);
    if PageDown(p, s.vaddr) != min {
      if thisMin != thisMax && noFile { return false; }
      MapFixed(mem, base + thisMin - addr, base + thisMax - addr, file, off, s.prot);
    }
    ghost var was := mem[..];
    assert Mapped(p, file, s, min, was);
    if s.memsz > s.filesz && s.write {
      var brk := base + s.vaddr + s.filesz;
      var pgbrk := PageUp(p, brk);
      BreakPages(p, file, s, min, addr);
      ZeroFill(mem, brk - addr, brk - addr + (pgbrk - brk) % p, None);
      if pgbrk - base < thisMax {
        if noZeros { return false; }
        ZeroFill(mem, pgbrk - addr, base + thisMax - addr, Some(s.prot));
      }
      ClearedLoads(p, file, s, min, was, mem[..], brk - base, pgbrk - base);
    } else {
      NotCleared(p, file, s);
      MappedLoads(p, file, s, min, mem[..]);
    }
    ok := true;
  }

  lemma NotCleared(p: nat, file: seq<nat>, s: Seg)
    requires p > 0 && SegOk(p, file, s) && !(s.memsz > s.filesz && s.write)
    ensures !s.write || s.memsz == s.filesz
  {
  }

  /** Rounding the break as an address, or relative to the load address, is the same; the
      mask on the length to clear changes nothing. */
  lemma BreakPages(p: nat, file: seq<nat>, s: Seg, min: nat, addr: nat)
    requires p > 0 && SegOk(p, file, s) && min % p == 0 && addr % p == 0
    ensures var base := addr - min; var brk := base + s.vaddr + s.filesz; var pgbrk := PageUp(p, brk);
      Breaks(p, s, brk - base, pgbrk - base) && (pgbrk - brk) % p == pgbrk - brk &&
      pgbrk - base == PageUp(p, s.vaddr + s.filesz)
  {
    hide PageDown, PageUp;
    var base := addr - min;
    WholePages(p, addr, min);
    PageUpShift(p, s.vaddr + s.filesz, base);
    PageUpIs(p, s.vaddr + s.filesz);
    PagesGrow(p, s.vaddr + s.filesz, s.vaddr + s.memsz);
    var brk := base + s.vaddr + s.filesz;
    assert s.vaddr + s.filesz + base == brk;
    ModSmall(PageUp(p, brk) - brk, p);
  }

  lemma WholePages(p: nat, a: int, b: int)
    requires p > 0 && a % p == 0 && b % p == 0
    ensures (a - b) % p == 0
  {
    DivMod(a, p);
    DivMod(b, p);
    MulSub(p, a / p, b / p);
    ModIs(a - b, p, a / p - b / p, 0);
  }

  // ----- the whole image

  /** What is known of the headers after the scan. `min` and `off` are rounded down. */
  ghost predicate Scanned(p: nat, segs: seq<Seg>, low: nat, min: int, off: int, prot: nat, len: int) {
    p > 0 && low < |segs| && min == Low(p, segs[low]) && off == PageDown(p, segs[low].offset) &&
    prot == segs[low].prot && forall i :: 0 <= i < |segs| ==> Within(p, segs[i], min, len)
  }

  /** The pages of a segment are in the reservation. */
  ghost predicate Within(p: nat, s: Seg, min: int, len: int)
    requires p > 0
  {
    min <= Low(p, s) && High(p, s) - min <= len
  }

  lemma ScanSpans(p: nat, file: seq<nat>, segs: seq<Seg>, low: nat, e: Extent)
    requires SegsOk(p, file, segs) && low < |segs|
    requires e.min == segs[low].vaddr && e.off == segs[low].offset && e.prot == segs[low].prot
    requires forall i :: 0 <= i < |segs| ==> segs[low].vaddr <= segs[i].vaddr
    requires forall i :: 0 <= i < |segs| ==> segs[i].vaddr + segs[i].memsz <= e.max
    ensures var min, off := PageDown(p, e.min), PageDown(p, e.off);
      0 <= min && min % p == 0 && 0 <= off && 0 <= PageUp(p, e.max) - min &&
      Scanned(p, segs, low, min, off, e.prot, PageUp(p, e.max) - min + off)
  {
    hide PageDown, PageUp;
    var min, off := PageDown(p, e.min), PageDown(p, e.off);
    PageDownIs(p, e.min);
    PageDownIs(p, e.off);
    SegPages(p, segs[low]);
    PagesGrow(p, segs[low].vaddr + segs[low].memsz, e.max);
    forall i | 0 <= i < |segs| ensures Within(p, segs[i], min, PageUp(p, e.max) - min + off) {
      PagesGrow(p, segs[low].vaddr, segs[i].vaddr);
      PagesGrow(p, segs[i].vaddr + segs[i].memsz, e.max);
    }
  }

  /** Segments before `k` are loaded; the pages of the others are as first mapped. */
  ghost predicate Progress(p: nat, file: seq<nat>, segs: seq<Seg>, min: int, off: int, prot: nat, mem: seq<Cell>, k: nat) {
    p > 0 && (forall i :: 0 <= i < k && i < |segs| ==> Loaded(file, segs[i], min, mem)) &&
    forall i :: k <= i < |segs| ==> Untouched(file, off, prot, mem, Low(p, segs[i]) - min, High(p, segs[i]) - min)
  }

  lemma NextLoaded(p: nat, file: seq<nat>, segs: seq<Seg>, min: int, off: int, prot: nat, was: seq<Cell>,
                   now: seq<Cell>, k: nat)
    requires SegsOk(p, file, segs) && k < |segs| && Progress(p, file, segs, min, off, prot, was, k)
    requires Loaded(file, segs[k], min, now) && SameBut(was, now, Low(p, segs[k]) - min, High(p, segs[k]) - min)
    ensures Progress(p, file, segs, min, off, prot, now, k + 1)
  {
    hide PageDown, PageUp, Loaded;
    var s := segs[k];
    SegPages(p, s);
    forall i | 0 <= i < k + 1 ensures Loaded(file, segs[i], min, now) {
      if i < k {
        assert Disjoint(p, segs[i], segs[k]);
        StaysLoaded(p, file, segs[i], s, min, was, now);
      }
    }
    forall i | k + 1 <= i < |segs|
      ensures Untouched(file, off, prot, now, Low(p, segs[i]) - min, High(p, segs[i]) - min)
    {
      assert Disjoint(p, segs[k], segs[i]);
      SegPages(p, segs[i]);
    }
  }

  lemma StaysLoaded(p: nat, file: seq<nat>, t: Seg, s: Seg, min: int, was: seq<Cell>, now: seq<Cell>)
    requires p > 0 && Disjoint(p, t, s) && Loaded(file, t, min, was)
    requires SameBut(was, now, Low(p, s) - min, High(p, s) - min)
    ensures Loaded(file, t, min, now)
  {
    hide PageDown, PageUp;
    SegPages(p, s);
    SegPages(p, t);
  }

  /** Only the lowest segment relies on the first mapping, and it is what that maps. */
  lemma LowestOnly(p: nat, file: seq<nat>, segs: seq<Seg>, low: nat, min: int, off: int, prot: nat, len: int,
                   mem: seq<Cell>, k: nat)
    requires SegsOk(p, file, segs) && Scanned(p, segs, low, min, off, prot, len) && k < |segs| && |mem| == len
    requires Progress(p, file, segs, min, off, prot, mem, k)
    ensures SegOk(p, file, segs[k]) && Within(p, segs[k], min, len)
    ensures Low(p, segs[k]) == min ==>
      Untouched(file, PageDown(p, segs[k].offset), segs[k].prot, mem, 0, High(p, segs[k]) - min)
  {
    hide PageDown, PageUp;
    if Low(p, segs[k]) == min && k != low {
      SegPages(p, segs[k]);
      SegPages(p, segs[low]);
      assert false;
    }
  }

  /** What the kernel says to `mprotect`; a system may be without it. */
  datatype Answer = Granted | Refused | NoSys

  /** `mprotect` of the whole reservation. */
  method Protect(mem: array<Cell>, prot: nat)
    modifies mem
    ensures forall x :: 0 <= x < mem.Length ==> mem[x] == old(mem[x]).(prot := prot)
  {
    var i := 0;
    while i < mem.Length
      invariant 0 <= i <= mem.Length
      invariant forall x :: 0 <= x < mem.Length ==> mem[x] == if x < i then old(mem[x]).(prot := prot) else old(mem[x])
    {
      mem[i] := mem[i].(prot := prot);
      i := i + 1;
    }
  }

  lemma StillLoaded(file: seq<nat>, s: Seg, min: int, was: seq<Cell>, now: seq<Cell>, prot: nat)
    requires Loaded(file, s, min, was) && |now| == |was| && forall x :: 0 <= x < |was| ==> now[x] == was[x].(prot := prot)
    ensures Loaded(file, s.(prot := prot), min, now)
  {
  }

  /** The headers are inside segment `s`. */
  predicate Holds(s: Seg, phoff: nat, phsize: nat) { s.offset <= phoff && phoff + phsize <= s.offset + s.filesz }

  /** Memory at `at` is part of the file. */
  ghost predicate Copy(file: seq<nat>, off: nat, len: nat, mem: seq<Cell>, at: int) {
    0 <= at && at + len <= |mem| && off + len <= |file| &&
    forall x :: at <= x < at + len ==> mem[x].byte == file[off + (x - at)]
  }

  /** `addr` is the page-aligned address at which the kernel put the reservation. On success
      every segment is in place, and `phdr` points at a copy of the program headers if some
      segment has them. The kernel may refuse the reservation, a mapping of the file for the
      segments in `noFile`, or one of zeros for those in `noZeros`. A file with text
      relocations has all its memory made writable, unless that cannot be asked for. */
  method MapLibrary(p: nat, file: seq<nat>, segs: seq<Seg>, phoff: nat, phsize: nat, addr: nat, dyn: bool, space: bool,
                    noFile: set<nat>, noZeros: set<nat>, textrel: bool, rwx: nat, protect: Answer)
    returns (ok: bool, mem: array<Cell>, min: nat, phdr: Option<int>)
    requires SegsOk(p, file, segs) && addr % p == 0
    ensures ok ==> forall i :: 0 <= i < |segs| ==>
      Within(p, segs[i], min, mem.Length) &&
      Loaded(file, if textrel && protect.Granted? then segs[i].(prot := rwx) else segs[i], min, mem[..])
    ensures ok ==> (phdr.Some? <==> exists i :: 0 <= i < |segs| && Holds(segs[i], phoff, phsize))
    ensures ok && phdr.Some? ==> Copy(file, phoff, phsize, mem[..], phdr.value - addr)
    ensures ok <==>
      space && (dyn || min == 0 || addr == min) && !(textrel && protect.Refused?) &&
      forall i: nat :: i < |segs| ==> !Fails(p, segs[i], min, i in noFile, i in noZeros)
  {
    hide PageDown, PageUp, Scanned, Progress, Loaded, SegsOk, Copy, Fails;
    NonEmpty(p, file, segs);
    var e, low := Scan(segs);
    ScanSpans(p, file, segs, low, e);
    min := PageDown(p, e.min);
    var off := PageDown(p, e.off);
    var len := PageUp(p, e.max) - min + off;
    phdr, ok := None, false;
    mem := new Cell[len](x => Cell(FileByte(file, off + x), e.prot));
    if !space { return; }
    if !dyn && min != 0 && addr != min { return; }
    var base := addr - min;
    FirstMapping(p, file, segs, min, off, e.prot, mem[..]);
    ghost var at := 0;
    var k: nat := 0;
    while k < |segs|
      invariant 0 <= k <= |segs| && Progress(p, file, segs, min, off, e.prot, mem[..], k)
      invariant forall i: nat :: i < k ==> !Fails(p, segs[i], min, i in noFile, i in noZeros)
      invariant phdr.Some? ==> at < k && Holds(segs[at], phoff, phsize)
      invariant phdr.Some? ==> phdr.value == base + segs[at].vaddr + (phoff - segs[at].offset)
      invariant phdr.None? ==> forall i :: 0 <= i < k ==> !Holds(segs[i], phoff, phsize)
    {
      var s := segs[k];
      if phdr.None? && phoff >= s.offset && phoff + phsize <= s.offset + s.filesz {
        phdr := Some(base + s.vaddr + (phoff - s.offset));
        at := k;
      }
      ghost var was := mem[..];
      LowestOnly(p, file, segs, low, min, off, e.prot, len, was, k);
      ok := MapSegment(p, file, s, min, addr, mem, k in noFile, k in noZeros);
      if !ok { return; }
      NextLoaded(p, file, segs, min, off, e.prot, was, mem[..], k);
      k := k + 1;
    }
    AllLoaded(p, file, segs, low, min, off, e.prot, len, mem[..]);
    if phdr.Some? { HeadersIn(file, segs[at], min, mem[..], phoff, phsize); }
    ok := !textrel || !protect.Refused?;
    if textrel && protect.Granted? {
      ghost var was := mem[..];
      Protect(mem, rwx);
      forall i | 0 <= i < |segs| ensures Loaded(file, segs[i].(prot := rwx), min, mem[..]) {
        StillLoaded(file, segs[i], min, was, mem[..], rwx);
      }
      if phdr.Some? { HeadersIn(file, segs[at].(prot := rwx), min, mem[..], phoff, phsize); }
    }
  }

  lemma NonEmpty(p: nat, file: seq<nat>, segs: seq<Seg>)
    requires SegsOk(p, file, segs)
    ensures p > 0 && segs != []
  {
  }

  lemma FirstMapping(p: nat, file: seq<nat>, segs: seq<Seg>, min: int, off: int, prot: nat, mem: seq<Cell>)
    requires p > 0 && forall x :: 0 <= x < |mem| ==> mem[x] == Cell(FileByte(file, off + x), prot)
    ensures Progress(p, file, segs, min, off, prot, mem, 0)
  {
  }

  lemma AllLoaded(p: nat, file: seq<nat>, segs: seq<Seg>, low: nat, min: int, off: int, prot: nat, len: int, mem: seq<Cell>)
    requires Scanned(p, segs, low, min, off, prot, len) && Progress(p, file, segs, min, off, prot, mem, |segs|)
    ensures forall i :: 0 <= i < |segs| ==> Within(p, segs[i], min, len) && Loaded(file, segs[i], min, mem)
  {
  }

  lemma HeadersIn(file: seq<nat>, s: Seg, min: int, mem: seq<Cell>, phoff: nat, phsize: nat)
    requires Loaded(file, s, min, mem) && Holds(s, phoff, phsize)
    ensures Copy(file, phoff, phsize, mem, s.vaddr + (phoff - s.offset) - min)
  {
  }
}
