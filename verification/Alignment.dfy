/** Shift registers pre-shifted by `fine_x`, so that every dot taps the same bits.

  The wide registers never lose their upper bits; only the bits the narrow registers have
  are related.
 */
module Alignment {
  import opened PpuModel

  datatype Wide = Wide(hi: bv32, lo: bv32, at: bv64)

  // The 16 (32) bits the registers share, moved to the top of the wide register.

  function WideTop(w: bv32, fineX: bv8): bv32
    requires fineX < 8
  {
    w << (16 - fineX)
  }

  function PlaneTop(s: bv16): bv32 { (s as bv32) << 16 }

  function WideAttributeTop(w: bv64, fineX: bv8): bv64
    requires fineX < 8
  {
    w << (32 - 2 * fineX)
  }

  function AttributeTop(s: bv32): bv64 { (s as bv64) << 32 }

  ghost predicate PlaneAligned(w: bv32, s: bv16, fineX: bv8)
    requires fineX < 8
  {
    WideTop(w, fineX) == PlaneTop(s)
  }

  ghost predicate AttributeAligned(w: bv64, s: bv32, fineX: bv8)
    requires fineX < 8
  {
    WideAttributeTop(w, fineX) == AttributeTop(s)
  }

  ghost predicate Aligned(w: Wide, s: Shifters, fineX: bv8)
    requires fineX < 8
  {
    PlaneAligned(w.hi, s.hi, fineX) && PlaneAligned(w.lo, s.lo, fineX) && AttributeAligned(w.at, s.at, fineX)
  }

  function WidenPlane(s: bv16, fineX: bv8): bv32
    requires fineX < 8
  {
    (s as bv32) << fineX
  }

  function WidenAttribute(s: bv32, fineX: bv8): bv64
    requires fineX < 8
  {
    (s as bv64) << (2 * fineX)
  }

  function Widen(s: Shifters, fineX: bv8): Wide
    requires fineX < 8
  {
    Wide(WidenPlane(s.hi, fineX), WidenPlane(s.lo, fineX), WidenAttribute(s.at, fineX))
  }

  function NarrowPlane(w: bv32, fineX: bv8): bv16
    requires fineX < 8
  {
    ((w >> fineX) & 0xffff) as bv16
  }

  function NarrowAttribute(w: bv64, fineX: bv8): bv32
    requires fineX < 8
  {
    ((w >> (2 * fineX)) & 0xffff_ffff) as bv32
  }

  /** Shift back and keep the low 16 (32) bits. */
  function Narrow(w: Wide, fineX: bv8): Shifters
    requires fineX < 8
  {
    Shifters(NarrowPlane(w.hi, fineX), NarrowPlane(w.lo, fineX), NarrowAttribute(w.at, fineX))
  }

  function WideShiftPlane(w: bv32): bv32 { w << 1 }

  function WideShiftAttribute(w: bv64): bv64 { w << 2 }

  function WideShift(w: Wide): Wide {
    Wide(WideShiftPlane(w.hi), WideShiftPlane(w.lo), WideShiftAttribute(w.at))
  }

  function WideMergePlane(w: bv32, byte: bv8, fineX: bv8): bv32
    requires fineX < 8
  {
    w | ((byte as bv32) << fineX)
  }

  function WideMergeAttribute(w: bv64, at: bv16, fineX: bv8): bv64
    requires fineX < 8
  {
    w | ((at as bv64) << (2 * fineX))
  }

  function WideMerge(w: Wide, hi: bv8, lo: bv8, at: bv16, fineX: bv8): Wide
    requires fineX < 8
  {
    Wide(WideMergePlane(w.hi, hi, fineX), WideMergePlane(w.lo, lo, fineX), WideMergeAttribute(w.at, at, fineX))
  }

  function WideColor(w: Wide): bv8 { (((w.hi >> 14) & 2) | ((w.lo >> 15) & 1)) as bv8 }

  function WidePalette(w: Wide): bv8 { ((w.at >> 28) & 12) as bv8 }

  // The register arithmetic, one register at a time.

  lemma PlaneStart(s: bv16, fineX: bv8)
    requires fineX < 8
    ensures PlaneAligned(WidenPlane(s, fineX), s, fineX)
  {
  }

  lemma AttributeStart(s: bv32, fineX: bv8)
    requires fineX < 8
    ensures AttributeAligned(WidenAttribute(s, fineX), s, fineX)
  {
  }

  lemma PlaneEnd(w: bv32, s: bv16, fineX: bv8)
    requires fineX < 8 && PlaneAligned(w, s, fineX)
    ensures NarrowPlane(w, fineX) == s
  {
  }

  lemma AttributeEnd(w: bv64, s: bv32, fineX: bv8)
    requires fineX < 8 && AttributeAligned(w, s, fineX)
    ensures NarrowAttribute(w, fineX) == s
  {
  }

  lemma TopShifts(w: bv32, s: bv16, fineX: bv8)
    requires fineX < 8
    ensures WideTop(WideShiftPlane(w), fineX) == WideShiftPlane(WideTop(w, fineX))
    ensures PlaneTop(ShiftPlane(s)) == WideShiftPlane(PlaneTop(s))
  {
  }

  lemma PlaneShift(w: bv32, s: bv16, fineX: bv8)
    requires fineX < 8 && PlaneAligned(w, s, fineX)
    ensures PlaneAligned(WideShiftPlane(w), ShiftPlane(s), fineX)
  {
    hide WideTop, PlaneTop, WideShiftPlane, ShiftPlane;
    TopShifts(w, s, fineX);
  }

  lemma AttributeTopShifts(w: bv64, s: bv32, fineX: bv8)
    requires fineX < 8
    ensures WideAttributeTop(WideShiftAttribute(w), fineX) == WideShiftAttribute(WideAttributeTop(w, fineX))
    ensures AttributeTop(ShiftAttribute(s)) == WideShiftAttribute(AttributeTop(s))
  {
  }

  lemma AttributeShiftTwo(w: bv64, s: bv32, fineX: bv8)
    requires fineX < 8 && AttributeAligned(w, s, fineX)
    ensures AttributeAligned(WideShiftAttribute(w), ShiftAttribute(s), fineX)
  {
    hide WideAttributeTop, AttributeTop, WideShiftAttribute, ShiftAttribute;
    AttributeTopShifts(w, s, fineX);
  }

  lemma PlaneMerge(w: bv32, s: bv16, fineX: bv8, byte: bv8)
    requires fineX < 8 && PlaneAligned(w, s, fineX)
    ensures PlaneAligned(WideMergePlane(w, byte, fineX), MergePlane(s, byte), fineX)
  {
  }

  lemma AttributeMerge(w: bv64, s: bv32, fineX: bv8, at: bv16)
    requires fineX < 8 && AttributeAligned(w, s, fineX)
    ensures AttributeAligned(WideMergeAttribute(w, at, fineX), MergeAttribute(s, at), fineX)
  {
  }

  // All three registers together.

  lemma WidenAligns(s: Shifters, fineX: bv8)
    requires fineX < 8
    ensures Aligned(Widen(s, fineX), s, fineX)
  {
    hide PlaneAligned, AttributeAligned, WidenPlane, WidenAttribute;
    PlaneStart(s.hi, fineX);
    PlaneStart(s.lo, fineX);
    AttributeStart(s.at, fineX);
  }

  lemma NarrowUndoes(w: Wide, s: Shifters, fineX: bv8)
    requires fineX < 8 && Aligned(w, s, fineX)
    ensures Narrow(w, fineX) == s
  {
    hide PlaneAligned, AttributeAligned, NarrowPlane, NarrowAttribute;
    PlaneEnd(w.hi, s.hi, fineX);
    PlaneEnd(w.lo, s.lo, fineX);
    AttributeEnd(w.at, s.at, fineX);
  }

  lemma ShiftAligned(w: Wide, s: Shifters, fineX: bv8)
    requires fineX < 8 && Aligned(w, s, fineX)
    ensures Aligned(WideShift(w), ShiftOnce(s), fineX)
  {
    hide PlaneAligned, AttributeAligned, WideShiftPlane, WideShiftAttribute, ShiftPlane, ShiftAttribute;
    PlaneShift(w.hi, s.hi, fineX);
    PlaneShift(w.lo, s.lo, fineX);
    AttributeShiftTwo(w.at, s.at, fineX);
  }

  lemma MergeAligned(w: Wide, s: Shifters, fineX: bv8, hi: bv8, lo: bv8, at: bv16)
    requires fineX < 8 && Aligned(w, s, fineX)
    ensures Aligned(WideMerge(w, hi, lo, at, fineX),
                    Shifters(MergePlane(s.hi, hi), MergePlane(s.lo, lo), MergeAttribute(s.at, at)), fineX)
  {
    hide PlaneAligned, AttributeAligned, WideMergePlane, WideMergeAttribute, MergePlane, MergeAttribute;
    PlaneMerge(w.hi, s.hi, fineX, hi);
    PlaneMerge(w.lo, s.lo, fineX, lo);
    AttributeMerge(w.at, s.at, fineX, at);
  }

  /** Tapping the aligned registers at fixed bits is tapping the plain ones at
    bit 15 - fine_x, and at attribute bits 30 - 2 fine_x and 31 - 2 fine_x. */
  lemma TapsAligned(w: Wide, s: Shifters, fineX: bv8)
    requires fineX < 8 && Aligned(w, s, fineX)
    ensures WideColor(w) == BackgroundColor(s, fineX)
    ensures WidePalette(w) == BackgroundPalette(s, fineX)
  {
  }
}
