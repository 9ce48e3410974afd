/** Where the initial thread-local storage of the loaded modules goes: the offsets
    chosen by `__dls3` and `load_library`, in both ABI variants, and the allocation that
    `__copy_tls` fills for a thread. */
module StaticTls {
  import opened Arith
  import opened Bits

  /** `offset` counts up from the thread pointer, or down from it. */
  datatype Module = Module(image: nat, size: nat, align: nat, offset: nat)

  /** Blocks grow away from the thread pointer without overlap and each address is
      congruent to its image modulo the alignment. */
  ghost predicate Laid(above: bool, ms: seq<Module>, tlsOffset: nat) {
    (forall i :: 0 <= i < |ms| ==> Placed(above, ms[i], tlsOffset)) &&
    (forall i, j :: 0 <= i < j < |ms| ==> Apart(above, ms[i], ms[j]))
  }

  /** `n`, loaded after `m`, lies wholly beyond it. */
  predicate Apart(above: bool, m: Module, n: Module) {
    if above then m.offset + m.size <= n.offset else m.offset + n.size <= n.offset
  }

  ghost predicate Placed(above: bool, m: Module, tlsOffset: nat) {
    IsPow2(m.align) && m.align > 0 &&
    if above then m.offset + m.size <= tlsOffset && m.offset % m.align == m.image % m.align
    else m.size <= m.offset <= tlsOffset && (m.offset + m.image) % m.align == 0
  }

  /** `tlsAlign` is the largest alignment so far. */
  ghost predicate Largest(ms: seq<Module>, tlsAlign: nat, least: nat) {
    IsPow2(tlsAlign) && least <= tlsAlign && (forall i :: 0 <= i < |ms| ==> ms[i].align <= tlsAlign) &&
    (tlsAlign == least || exists i :: 0 <= i < |ms| && ms[i].align == tlsAlign)
  }

  /** The distance from `x` to the next address congruent to `image`, computed in
      unsigned words of `w` bits. */
  function Gap(w: nat, x: nat, image: nat, align: nat): nat
    requires x < Pow2(w) && align > 0
  {
    And((Neg(w, x) + image) % Pow2(w), align - 1)
  }

  lemma GapIs(w: nat, x: nat, image: nat, align: nat)
    requires x < Pow2(w) && IsPow2(align) && align <= Pow2(w)
    ensures align > 0 && Gap(w, x, image, align) < align
    ensures (x + Gap(w, x, image, align)) % align == image % align
  {
    hide And;
    var m := Pow2(w);
    var y := Neg(w, x) + image;
    AndAlign(y % m, align);
    assert IsPow2(m);
    Pow2Divides(align, m);
    ModMod(y, m, align);
    DivMod(y, align);
    // x + y is image, or image plus the word size
    ModMod(m, m, align);
    ModIs(m, m, 1, 0);
    var k := m / align;
    DivMod(m, align);
    assert Gap(w, x, image, align) == y % align == y - align * (y / align);
    var c := if x == 0 then 0 - y / align else k - y / align;
    assert x + Gap(w, x, image, align) == image + align * c by {
      MulSub(align, if x == 0 then 0 else k, y / align);
    }
    ModAddMultiple(image, align, c);
  }

  /** What a library adds: `tls_offset` before and after, and the module's offset. */
  class Layout {
    const w: nat            // bits in a size_t
    const above: bool       // TLS_ABOVE_TP
    const minAlign: nat     // MIN_TLS_ALIGN
    var modules: seq<Module>
    var tlsOffset: nat
    var tlsAlign: nat
    var tlsCnt: nat

    ghost predicate Valid()
      reads this
    {
      tlsCnt == |modules| && tlsOffset < Pow2(w) && tlsAlign < Pow2(w) &&
      Laid(above, modules, tlsOffset) && Largest(modules, tlsAlign, minAlign)
    }

    constructor (w: nat, above: bool, minAlign: nat)
      requires IsPow2(minAlign) && minAlign < Pow2(w)
      ensures Valid() && modules == [] && this.w == w && this.above == above && this.minAlign == minAlign && tlsOffset == 0
    {
      this.w, this.above, this.minAlign := w, above, minAlign;
      modules, tlsOffset, tlsAlign, tlsCnt := [], 0, minAlign, 0;
    }

    /** The TLS part of `load_library`. */
    method Load(image: nat, size: nat, align: nat)
      requires Valid() && IsPow2(align) && align < Pow2(w) && tlsOffset + size + align < Pow2(w)
      modifies this
      ensures Valid() && old(tlsOffset) + size <= tlsOffset < old(tlsOffset) + size + align
      ensures tlsCnt == old(tlsCnt) + 1 && |modules| == old(|modules|) + 1
      ensures modules[..tlsCnt - 1] == old(modules)
      ensures var m := modules[tlsCnt - 1]; m.image == image && m.size == size && m.align == align
    {
      assert align > 0;
      hide And, Gap, Laid, MaxP2, IsPow2, Pow2;
      ghost var a0, o0 := tlsAlign, tlsOffset;
      tlsCnt := tlsCnt + 1;
      MaxP2IsMax(w, tlsAlign, align);
      tlsAlign := MaxP2(w, tlsAlign, align);
      var offset;
      if above {
        GapIs(w, tlsOffset, image, align);
        offset := tlsOffset + Gap(w, tlsOffset, image, align);
        tlsOffset := offset + size;
      } else {
        tlsOffset := tlsOffset + size + align - 1;
        DropIs(w, tlsOffset, image, align);
        tlsOffset := tlsOffset - And((tlsOffset + image) % Pow2(w), align - 1);
        offset := tlsOffset;
      }
      var m := Module(image, size, align, offset);
      Extend(above, modules, o0, m, tlsOffset);
      LargestExtend(modules, a0, minAlign, m, tlsAlign);
      modules := modules + [m];
    }

    /** The TLS part of `__dls3`: the application comes first, past a gap in the variant
        that counts up. */
    method LoadApp(image: nat, size: nat, align: nat, gapAboveTp: nat)
      requires Valid() && modules == [] && tlsOffset == 0
      requires IsPow2(align) && align < Pow2(w) && gapAboveTp + size + align < Pow2(w)
      modifies this
      ensures Valid() && tlsCnt == 1 && |modules| == 1
      ensures var m := modules[0]; m.image == image && m.size == size && m.align == align
      ensures above ==> modules[0].offset >= gapAboveTp
      ensures tlsOffset < (if above then gapAboveTp else 0) + size + align
    {
      hide And, Gap, MaxP2, IsPow2, Pow2;
      ghost var a0 := tlsAlign;
      var offset;
      if above {
        GapIs(w, gapAboveTp, image, align);
        offset := gapAboveTp + Gap(w, gapAboveTp, image, align);
        tlsOffset := offset + size;
      } else {
        PadIs(w, image, size, align);
        tlsOffset := size + And(Neg(w, (image + size) % Pow2(w)), align - 1);
        offset := tlsOffset;
      }
      MaxP2IsMax(w, tlsAlign, align);
      tlsAlign := MaxP2(w, tlsAlign, align);
      tlsCnt := 1;
      var m := Module(image, size, align, offset);
      Extend(above, [], 0, m, tlsOffset);
      LargestExtend([], a0, minAlign, m, tlsAlign);
      modules := [m];
    }
  }

  lemma DropIs(w: nat, t: nat, image: nat, align: nat)
    requires IsPow2(align) && align <= Pow2(w)
    requires t + 1 >= align
    ensures align > 0
    ensures var d := And((t + image) % Pow2(w), align - 1); d < align && d <= t && (t - d + image) % align == 0
  {
    hide And;
    var m := Pow2(w);
    assert IsPow2(m);
    AndAlign((t + image) % m, align);
    Pow2Divides(align, m);
    ModMod(t + image, m, align);
    DivMod(t + image, align);
    ModIs(align * ((t + image) / align), align, (t + image) / align, 0);
  }

  lemma PadIs(w: nat, image: nat, size: nat, align: nat)
    requires IsPow2(align) && align <= Pow2(w)
    ensures align > 0
    ensures var d := And(Neg(w, (image + size) % Pow2(w)), align - 1); d < align && (size + d + image) % align == 0
  {
    hide And;
    var m := Pow2(w);
    var y := (image + size) % m;
    assert IsPow2(m);
    DivMod(image + size, m);
    GapIs(w, y, 0, align);
    assert Gap(w, y, 0, align) == And(Neg(w, y), align - 1) by { ModSmall(Neg(w, y), m); }
    var d := And(Neg(w, y), align - 1);
    Pow2Divides(align, m);
    ModMod(image + size, m, align);
    ModSmall(0, align);
    ModMod(y, m, align);
    ModShift(y, image + size, d, align);
  }

  lemma Extend(above: bool, ms: seq<Module>, before: nat, m: Module, after: nat)
    requires Laid(above, ms, before) && before <= after && Placed(above, m, after)
    requires if above then before <= m.offset else before + m.size <= m.offset
    ensures Laid(above, ms + [m], after)
  {
    forall i | 0 <= i < |ms| ensures Placed(above, ms[i], after) && Apart(above, ms[i], m) {
      assert Placed(above, ms[i], before);
    }
  }

  lemma LargestExtend(ms: seq<Module>, a: nat, least: nat, m: Module, a': nat)
    requires Largest(ms, a, least) && IsPow2(m.align) && a' == if a < m.align then m.align else a
    ensures Largest(ms + [m], a', least)
  {
    if a' == m.align {
      assert (ms + [m])[|ms|].align == a';
    } else if a' != least {
      var i :| 0 <= i < |ms| && ms[i].align == a;
      assert (ms + [m])[i].align == a';
    }
  }

  // ----- the storage of one thread

  /** The address of a module's block, for a thread pointer at `tp`. */
  function BlockAddr(above: bool, tp: int, m: Module): int {
    if above then tp + m.offset else tp - m.offset
  }

  /** With an aligned thread pointer every block is congruent to its image, and no two
      blocks share a byte. */
  lemma BlocksWellPlaced(above: bool, ms: seq<Module>, tlsOffset: nat, tlsAlign: nat, least: nat, tp: int, i: nat, j: nat)
    requires Laid(above, ms, tlsOffset) && Largest(ms, tlsAlign, least) && tp % tlsAlign == 0
    requires i < |ms| && j < |ms| && i != j
    ensures ms[i].align > 0 && BlockAddr(above, tp, ms[i]) % ms[i].align == ms[i].image % ms[i].align
    ensures BlockAddr(above, tp, ms[i]) + ms[i].size <= BlockAddr(above, tp, ms[j]) ||
            BlockAddr(above, tp, ms[j]) + ms[j].size <= BlockAddr(above, tp, ms[i])
  {
    var m := ms[i];
    assert Placed(above, m, tlsOffset);
    Pow2Divides(m.align, tlsAlign);
    if above {
      ModMultiple(tp, m.offset, tlsAlign, m.align);
    } else {
      ModMultiple(tp, 0 - m.offset, tlsAlign, m.align);
      ModSmall(0, m.align);
      ModShift(m.offset + m.image, 0, 0 - m.offset, m.align);
    }
    if i < j { assert Apart(above, ms[i], ms[j]); } else { assert Apart(above, ms[j], ms[i]); }
  }

  /** What one `__copy_tls` call sets up: the thread pointer base from which offsets
      count, the thread structure and the DTV. */
  datatype ThreadArea = ThreadArea(tp: int, td: int, dtv: int)

  /** `update_tls_size`. */
  function TlsSize(w: nat, word: nat, pthreadSize: nat, tlsCnt: nat, tlsOffset: nat, tlsAlign: nat): nat
    requires 0 < tlsAlign < Pow2(w)
  {
    AlignUp(w, (1 + tlsCnt) * word + tlsOffset + pthreadSize + tlsAlign * 2, tlsAlign)
  }

  /** The address computations of `__copy_tls` on an allocation at `mem`. */
  function CopyTls(w: nat, above: bool, word: nat, pthreadSize: nat, tlsCnt: nat, tlsAlign: nat,
                   tlsSize: nat, mem: nat): ThreadArea
    requires tlsAlign > 0
  {
    if above then
      var td := mem + And(Neg(w, (mem + pthreadSize) % Pow2(w)), tlsAlign - 1);
      ThreadArea(td + pthreadSize, td, mem + tlsSize - (tlsCnt + 1) * word)
    else
      var top := mem + tlsSize - pthreadSize;
      var td := if top < 0 then 0 else top - And(top, tlsAlign - 1);
      ThreadArea(td, td, mem)
  }

  /** An allocation of the size computed by `update_tls_size` holds the DTV, the thread
      structure and all blocks, apart from each other, on an aligned thread pointer. */
  lemma ThreadAreaFits(w: nat, above: bool, word: nat, pthreadSize: nat, tlsCnt: nat, tlsOffset: nat, tlsAlign: nat, mem: nat)
    requires IsPow2(tlsAlign) && tlsAlign < Pow2(w)
    requires (1 + tlsCnt) * word + tlsOffset + pthreadSize + tlsAlign * 3 <= Pow2(w)
    ensures var size := TlsSize(w, word, pthreadSize, tlsCnt, tlsOffset, tlsAlign);
      var a := CopyTls(w, above, word, pthreadSize, tlsCnt, tlsAlign, size, mem);
      var dtvEnd := a.dtv + (1 + tlsCnt) * word;
      a.tp % tlsAlign == 0 &&
      if above then mem <= a.td && a.td + pthreadSize == a.tp && a.tp + tlsOffset <= a.dtv && dtvEnd <= mem + size
      else a.dtv == mem && dtvEnd <= a.tp - tlsOffset && a.tp == a.td && a.td + pthreadSize <= mem + size
  {
    hide And, AlignUp, IsPow2, Pow2;
    var dtvBytes := (1 + tlsCnt) * word;
    AlignUpIs(w, dtvBytes + tlsOffset + pthreadSize + tlsAlign * 2, tlsAlign);
    if above {
      PadIs(w, mem, pthreadSize, tlsAlign);
    } else {
      RoundedDown(mem + TlsSize(w, word, pthreadSize, tlsCnt, tlsOffset, tlsAlign) - pthreadSize, tlsAlign);
    }
  }

  lemma RoundedDown(x: nat, align: nat)
    requires IsPow2(align)
    ensures align > 0 && x - align < x - And(x, align - 1) <= x && (x - And(x, align - 1)) % align == 0
  {
    hide And;
    AndAlign(x, align);
    DivMod(x, align);
    ModIs(align * (x / align), align, x / align, 0);
  }
}
