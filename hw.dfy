/**
 * Register layout of a GICv2 Distributor and CPU interface: the bitfields the
 * driver reads and writes, the field-value algebra used to build a register
 * write, and the offset tables of the two memory-mapped blocks.
 */
module Hw {

  /** A bitfield of `width` bits starting at bit `offset` of a 32-bit register. */
  datatype Field = Field(offset: nat, width: nat)
  {
    predicate Valid() { 0 < width < 32 && offset + width <= 32 }
  }

  // Distributor control register.
  const CTRL_ENABLE := Field(0, 1)
  // Distributor type register.
  const TYPE_ITLINES := Field(0, 4)
  const TYPE_CPUS := Field(5, 3)
  const TYPE_SEC := Field(10, 1)
  // Software-generated interrupt register.
  const SGI_SGIINTID := Field(0, 4)
  // CPU interface control register.
  const CPUCTRL_ENABLE := Field(0, 1)
  const CPUCTRL_FIQ_BYPASS_DISABLE := Field(5, 1)
  const CPUCTRL_IRQ_BYPASS_DISABLE := Field(6, 1)
  const CPUCTRL_EOI_MODE := Field(9, 1)
  // Interrupt acknowledge register.
  const IAR_INTERRUPT := Field(0, 10)

  /** The `width` lowest bits set. */
  function LowOnes(width: nat): bv32
    requires width < 32
  {
    (1 << width) - 1
  }

  /** The bits of a register word that field `f` occupies. */
  function Mask(f: Field): bv32
    requires f.Valid()
  {
    LowOnes(f.width) << f.offset
  }

  /** The value of field `f` in word `w`, moved down to bit 0. */
  function Get(f: Field, w: bv32): bv32
    requires f.Valid()
  {
    (w >> f.offset) & LowOnes(f.width)
  }

  /**
   * A field value as a register access library builds it: the bits it
   * covers and the value those bits take. `a + b` joins two of them.
   */
  datatype FieldValue = FieldValue(mask: bv32, value: bv32)

  /** All bits of `f` set (`F::SET`). */
  function SetField(f: Field): FieldValue
    requires f.Valid()
  {
    FieldValue(Mask(f), Mask(f))
  }

  /** All bits of `f` clear (`F::CLEAR`). */
  function ClearField(f: Field): FieldValue
    requires f.Valid()
  {
    FieldValue(Mask(f), 0)
  }

  /** The join `a + b` of two field values. */
  function Plus(a: FieldValue, b: FieldValue): FieldValue
  {
    FieldValue(a.mask | b.mask, a.value | b.value)
  }

  /**
   * The word a read-modify-write of `fv` stores into a register holding `w`:
   * the covered bits take their new value and every other bit is kept.
   */
  function Modify(w: bv32, fv: FieldValue): (r: bv32)
    requires fv.value & !fv.mask == 0
    ensures r & fv.mask == fv.value
    ensures r & !fv.mask == w & !fv.mask
  {
    (w & !fv.mask) | fv.value
  }

  /** Applying the same read-modify-write twice stores what applying it once does. */
  lemma ModifyIdempotent(w: bv32, fv: FieldValue)
    requires fv.value & !fv.mask == 0
    ensures Modify(Modify(w, fv), fv) == Modify(w, fv)
  {
  }

  /** A second read-modify-write of the same bits overrides the first. */
  lemma ModifyOverride(w: bv32, a: FieldValue, b: FieldValue)
    requires a.value & !a.mask == 0 && b.value & !b.mask == 0
    requires a.mask == b.mask
    ensures Modify(Modify(w, a), b) == Modify(w, b)
  {
    MaskedOverride(w, a.mask, a.value, b.value);
  }

  /** The bits outside `m` of `w` survive two masked writes; only the last value written inside `m` remains. */
  lemma MaskedOverride(w: bv32, m: bv32, x: bv32, y: bv32)
    requires x & !m == 0
    ensures (((w & !m) | x) & !m) | y == (w & !m) | y
  {
  }

  // The field accessors and field values the driver uses, with the masks
  // written out; FieldTable ties each to the field definitions above.

  /** Number of 32-line groups above the first, from the type register. */
  function ItLines(typer: bv32): (n: nat)
    ensures n < 16
  {
    (typer & 0xF) as nat
  }

  /** Number of CPU interfaces minus one, from the type register. */
  function Cpus(typer: bv32): (n: nat)
    ensures n < 8
  {
    ((typer >> 5) & 0x7) as nat
  }

  /** The security extensions flag of the type register. */
  function Sec(typer: bv32): (b: nat)
    ensures b < 2
  {
    ((typer >> 10) & 0x1) as nat
  }

  /** The interrupt id an acknowledge value carries. */
  function IarInterrupt(iar: bv32): (id: nat)
    ensures id < 1024
  {
    (iar & 0x3FF) as nat
  }

  /** The software interrupt id a generation-register word names. */
  function SgiIntId(w: bv32): (id: nat)
    ensures id < 16
  {
    (w & 0xF) as nat
  }

  /** `ENABLE::SET` and `ENABLE::CLEAR` of the Distributor control register. */
  const CTRL_ENABLE_SET := FieldValue(0x1, 0x1)
  const CTRL_ENABLE_CLEAR := FieldValue(0x1, 0x0)

  /** `ENABLE::SET + EOI_MODE::CLEAR` of the CPU interface control register. */
  const CPUCTRL_INIT := FieldValue(0x201, 0x1)

  // Each accessor reads exactly its field of the register definitions.
  lemma ItLinesField(w: bv32) ensures ItLines(w) == Get(TYPE_ITLINES, w) as nat {}
  lemma CpusField(w: bv32) ensures Cpus(w) == Get(TYPE_CPUS, w) as nat {}
  lemma SecField(w: bv32) ensures Sec(w) == Get(TYPE_SEC, w) as nat {}
  lemma IarInterruptField(w: bv32) ensures IarInterrupt(w) == Get(IAR_INTERRUPT, w) as nat {}
  lemma SgiIntIdField(w: bv32) ensures SgiIntId(w) == Get(SGI_SGIINTID, w) as nat {}

  /** The field values are the ones the field-value algebra builds. */
  lemma FieldValueTable()
    ensures SetField(CTRL_ENABLE) == CTRL_ENABLE_SET
    ensures ClearField(CTRL_ENABLE) == CTRL_ENABLE_CLEAR
    ensures Plus(SetField(CPUCTRL_ENABLE), ClearField(CPUCTRL_EOI_MODE)) == CPUCTRL_INIT
  {
  }

  /**
   * Writing `ENABLE::SET + EOI_MODE::CLEAR` stores the word 1: the interface
   * enabled, both bypass-disable bits and the split completion mode off.
   */
  lemma CpuCtrlInitWord()
    ensures CPUCTRL_INIT.value == 0x1
    ensures Get(CPUCTRL_ENABLE, CPUCTRL_INIT.value) == 1
    ensures Get(CPUCTRL_EOI_MODE, CPUCTRL_INIT.value) == 0
    ensures Get(CPUCTRL_FIQ_BYPASS_DISABLE, CPUCTRL_INIT.value) == 0
    ensures Get(CPUCTRL_IRQ_BYPASS_DISABLE, CPUCTRL_INIT.value) == 0
  {
  }

  // Array lengths of the register arrays in the two blocks.
  const IGROUP_COUNT: nat := 32
  const ISENABLE_COUNT: nat := 32
  const ICENABLE_COUNT: nat := 32
  const ISPEND_COUNT: nat := 32
  const ICPEND_COUNT: nat := 32
  const ISACTIVE_COUNT: nat := 32
  const ICACTIVE_COUNT: nat := 32
  const IPRIORITY_COUNT: nat := 256
  const ITARGET_COUNT: nat := 256
  const ICFG_COUNT: nat := 64
  const SPIS_COUNT: nat := 6
  const CPENDSGI_COUNT: nat := 4
  const SPENDSGI_COUNT: nat := 4
  const APR_COUNT: nat := 4
  const NSAPR_COUNT: nat := 4

  /** One entry of a register block: a register, an array of registers, a reserved gap, or the end. */
  datatype Slot =
    | Reg(name: string, offset: nat)
    | Regs(name: string, offset: nat, count: nat)
    | Reserved(offset: nat)
    | End(offset: nat)

  /** Bytes a slot occupies; a gap extends to the next slot. */
  function Size(s: Slot): nat
  {
    match s
    case Reg(_, _) => 4
    case Regs(_, _, count) => 4 * count
    case Reserved(_) => 0
    case End(_) => 0
  }

  /** `s` is followed by `next` with no overlap, and with no gap unless `s` is reserved. */
  predicate Adjacent(s: Slot, next: Slot)
  {
    match s
    case Reserved(offset) => offset < next.offset
    case End(_) => false
    case _ => s.offset + Size(s) == next.offset
  }

  /** From entry `k` on, the table is a chain of adjacent slots closed by its end. */
  predicate WellFormedFrom(t: seq<Slot>, k: nat)
    decreases |t| - k
  {
    k < |t| &&
    if k == |t| - 1 then t[k].End? else Adjacent(t[k], t[k + 1]) && WellFormedFrom(t, k + 1)
  }

  predicate WellFormed(t: seq<Slot>)
  {
    WellFormedFrom(t, 0)
  }

  /** Where slot `s` stops. */
  function Limit(s: Slot): nat
  {
    s.offset + Size(s)
  }

  /** In a well-formed table every slot ends no later than any later slot starts. */
  lemma {:induction false} WellFormedNonOverlapping(t: seq<Slot>, j: nat, k: nat)
    requires WellFormedFrom(t, j)
    requires j < k < |t|
    ensures Limit(t[j]) <= t[k].offset
    decreases k - j
  {
    if j + 1 < k {
      WellFormedNonOverlapping(t, j + 1, k);
    }
  }

  /** In a well-formed table a register or register array ends exactly where the next slot starts. */
  lemma {:induction false} WellFormedContiguous(t: seq<Slot>, j: nat, k: nat)
    requires WellFormedFrom(t, j)
    requires j <= k < |t| - 1
    requires t[k].Reg? || t[k].Regs?
    ensures Limit(t[k]) == t[k + 1].offset
    decreases k - j
  {
    if j < k {
      WellFormedContiguous(t, j + 1, k);
    }
  }

  const DISTRIBUTOR_LAYOUT: seq<Slot> := [
    Reg("ctrl", 0x000),
    Reg("typer", 0x004),
    Reg("iidr", 0x008),
    Reserved(0x00c),
    Regs("igroup", 0x080, IGROUP_COUNT),
    Regs("isenable", 0x100, ISENABLE_COUNT),
    Regs("icenable", 0x180, ICENABLE_COUNT),
    Regs("ispend", 0x200, ISPEND_COUNT),
    Regs("icpend", 0x280, ICPEND_COUNT),
    Regs("isactive", 0x300, ISACTIVE_COUNT),
    Regs("icactive", 0x380, ICACTIVE_COUNT),
    Regs("ipriority", 0x400, IPRIORITY_COUNT),
    Regs("itarget", 0x800, ITARGET_COUNT),
    Regs("icfg", 0xc00, ICFG_COUNT),
    Reg("ppis", 0xd00),
    Regs("spis", 0xd04, SPIS_COUNT),
    Reserved(0xd1c),
    Reg("sgi", 0xf00),
    Reserved(0xf04),
    Regs("cpendsgi", 0xf10, CPENDSGI_COUNT),
    Regs("spendsgi", 0xf20, SPENDSGI_COUNT),
    Reserved(0xf30),
    Reg("pidr4", 0xfd0),
    Reg("pidr5", 0xfd4),
    Reg("pidr6", 0xfd8),
    Reg("pidr7", 0xfdc),
    Reg("pidr0", 0xfe0),
    Reg("pidr1", 0xfe4),
    Reg("pidr2", 0xfe8),
    Reg("pidr3", 0xfec),
    Reg("cidr0", 0xff0),
    Reg("cidr1", 0xff4),
    Reg("cidr2", 0xff8),
    Reg("cidr3", 0xffc),
    End(0x1000)
  ]

  const CPU_LAYOUT: seq<Slot> := [
    Reg("ctrl", 0x000),
    Reg("pmr", 0x004),
    Reg("bpr", 0x008),
    Reg("iar", 0x00c),
    Reg("eoir", 0x010),
    Reg("rpr", 0x014),
    Reg("hppir", 0x018),
    Reg("abpr", 0x01c),
    Reg("aiar", 0x020),
    Reg("aeoir", 0x024),
    Reg("ahppir", 0x028),
    Reserved(0x02c),
    Regs("apr", 0x0d0, APR_COUNT),
    Regs("nsapr", 0x0e0, NSAPR_COUNT),
    Reserved(0x0f0),
    Reg("iidr", 0x0fc),
    Reserved(0x100),
    Reg("dir", 0x1000),
    End(0x1004)
  ]

  /** The Distributor table is a gap-free chain of non-overlapping slots ending at 0x1000. */
  lemma DistributorLayoutWellFormed()
    ensures WellFormed(DISTRIBUTOR_LAYOUT)
    ensures DISTRIBUTOR_LAYOUT[|DISTRIBUTOR_LAYOUT| - 1] == End(0x1000)
  {
    // Unfolded from the end, two entries at a time.
    assert WellFormedFrom(DISTRIBUTOR_LAYOUT, 32);
    assert WellFormedFrom(DISTRIBUTOR_LAYOUT, 30);
    assert WellFormedFrom(DISTRIBUTOR_LAYOUT, 28);
    assert WellFormedFrom(DISTRIBUTOR_LAYOUT, 26);
    assert WellFormedFrom(DISTRIBUTOR_LAYOUT, 24);
    assert WellFormedFrom(DISTRIBUTOR_LAYOUT, 22);
    assert WellFormedFrom(DISTRIBUTOR_LAYOUT, 20);
    assert WellFormedFrom(DISTRIBUTOR_LAYOUT, 18);
    assert WellFormedFrom(DISTRIBUTOR_LAYOUT, 16);
    assert WellFormedFrom(DISTRIBUTOR_LAYOUT, 14);
    assert WellFormedFrom(DISTRIBUTOR_LAYOUT, 12);
    assert WellFormedFrom(DISTRIBUTOR_LAYOUT, 10);
    assert WellFormedFrom(DISTRIBUTOR_LAYOUT, 8);
    assert WellFormedFrom(DISTRIBUTOR_LAYOUT, 6);
    assert WellFormedFrom(DISTRIBUTOR_LAYOUT, 4);
    assert WellFormedFrom(DISTRIBUTOR_LAYOUT, 2);
  }

  /** The CPU interface table is a gap-free chain with `dir` at 0x1000, ending at 0x1004. */
  lemma CpuLayoutWellFormed()
    ensures WellFormed(CPU_LAYOUT)
    ensures CPU_LAYOUT[|CPU_LAYOUT| - 2] == Reg("dir", 0x1000)
    ensures CPU_LAYOUT[|CPU_LAYOUT| - 1] == End(0x1004)
  {
    // Unfolded from the end, two entries at a time.
    assert WellFormedFrom(CPU_LAYOUT, 16);
    assert WellFormedFrom(CPU_LAYOUT, 14);
    assert WellFormedFrom(CPU_LAYOUT, 12);
    assert WellFormedFrom(CPU_LAYOUT, 10);
    assert WellFormedFrom(CPU_LAYOUT, 8);
    assert WellFormedFrom(CPU_LAYOUT, 6);
    assert WellFormedFrom(CPU_LAYOUT, 4);
    assert WellFormedFrom(CPU_LAYOUT, 2);
  }
}
