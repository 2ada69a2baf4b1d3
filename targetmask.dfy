/**
 * The CPU mask construction derives from a banked target register. Each
 * byte lane of a target register names, one bit per CPU interface, the CPUs
 * a line is sent to. Two right-shift folds collect every lane into the low
 * byte, and two left-shift folds copy that byte into every lane.
 */
module TargetMask {

  /** Byte lanes 0 (least significant) to 3 of a register word. */
  function Lane0(w: bv32): bv32 { w & 0xFF }
  function Lane1(w: bv32): bv32 { (w >> 8) & 0xFF }
  function Lane2(w: bv32): bv32 { (w >> 16) & 0xFF }
  function Lane3(w: bv32): bv32 { w >> 24 }

  /** The OR of the four byte lanes of `w`: every CPU any lane names. */
  function LaneUnion(w: bv32): bv32
  {
    Lane0(w) | Lane1(w) | Lane2(w) | Lane3(w)
  }

  /** The two right-shift folds applied to a banked target word. */
  function FoldLanes(w: bv32): bv32
  {
    var m := w | (w >> 16);
    m | (m >> 8)
  }

  /** After the right folds, lane k is the OR of lanes k and above: lane 0 collects all four. */
  lemma FoldLane0(w: bv32) ensures Lane0(FoldLanes(w)) == LaneUnion(w) {}
  lemma FoldLane1(w: bv32) ensures Lane1(FoldLanes(w)) == Lane1(w) | Lane2(w) | Lane3(w) {}
  lemma FoldLane2(w: bv32) ensures Lane2(FoldLanes(w)) == Lane2(w) | Lane3(w) {}
  lemma FoldLane3(w: bv32) ensures Lane3(FoldLanes(w)) == Lane3(w) {}

  /** The right folds keep a word zero exactly when it was zero. */
  lemma FoldZero(w: bv32) ensures FoldLanes(w) == 0 <==> w == 0 {}

  /** The two left-shift folds that copy the low byte into every lane. */
  function Spread(m: bv32): bv32
  {
    var s := m | (m << 8);
    s | (s << 16)
  }

  /** After the left folds, lane k is the OR of lanes k and below. */
  lemma SpreadLane0(m: bv32) ensures Lane0(Spread(m)) == Lane0(m) {}
  lemma SpreadLane1(m: bv32) ensures Lane1(Spread(m)) == Lane0(m) | Lane1(m) {}
  lemma SpreadLane2(m: bv32) ensures Lane2(Spread(m)) == Lane0(m) | Lane1(m) | Lane2(m) {}
  lemma SpreadLane3(m: bv32) ensures Lane3(Spread(m)) == Lane0(m) | Lane1(m) | Lane2(m) | Lane3(m) {}

  /** The routing word construction derives from a banked target word. */
  function CpuMask(w: bv32): bv32
  {
    Spread(FoldLanes(w))
  }

  lemma CpuMaskLane0(w: bv32) ensures Lane0(CpuMask(w)) == LaneUnion(w)
  {
    FoldLane0(w); SpreadLane0(FoldLanes(w));
  }

  lemma CpuMaskLane1(w: bv32) ensures Lane1(CpuMask(w)) == LaneUnion(w)
  {
    FoldLane0(w); FoldLane1(w); SpreadLane1(FoldLanes(w));
  }

  lemma CpuMaskLane2(w: bv32) ensures Lane2(CpuMask(w)) == LaneUnion(w)
  {
    FoldLane0(w); FoldLane1(w); FoldLane2(w); SpreadLane2(FoldLanes(w));
  }

  lemma CpuMaskLane3(w: bv32) ensures Lane3(CpuMask(w)) == LaneUnion(w)
  {
    FoldLane0(w); FoldLane1(w); FoldLane2(w); FoldLane3(w); SpreadLane3(FoldLanes(w));
  }

  lemma CpuMaskZero(w: bv32) ensures CpuMask(w) == 0 <==> w == 0
  {
    FoldZero(w); FoldLane0(w); SpreadLane0(FoldLanes(w));
  }

  /**
   * Every byte lane of the routing word is the OR of the banked word's four
   * lanes, so each shared line targets every CPU the banked word names; the
   * routing word is zero exactly when the banked word is.
   */
  lemma CpuMaskLanes(w: bv32)
    ensures Lane0(CpuMask(w)) == LaneUnion(w) && Lane1(CpuMask(w)) == LaneUnion(w)
    ensures Lane2(CpuMask(w)) == LaneUnion(w) && Lane3(CpuMask(w)) == LaneUnion(w)
    ensures CpuMask(w) == 0 <==> w == 0
  {
    CpuMaskLane0(w); CpuMaskLane1(w); CpuMaskLane2(w); CpuMaskLane3(w); CpuMaskZero(w);
  }
}
