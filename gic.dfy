/**
 * The GICv2 driver: construction (disable, discover the implemented lines,
 * configure defaults, route shared lines to this CPU, set up the CPU
 * interface, enable), the runtime control calls, and the
 * acknowledge/end-of-interrupt cycle, over the register blocks of Mmio.
 */
module Gic {
  import Hw
  import opened Mmio
  import opened Bits
  import opened TargetMask

  /** The driver's unsigned 32-bit integers: interrupt ids and counts. */
  type U32 = x: int | 0 <= x < 0x1_0000_0000

  /** Why the driver aborts. */
  datatype Panic =
    | UnsupportedInterrupt(id: U32)
    | AssertionFailed
    | UnknownCpuMask
    | IndexOutOfBounds(index: nat)

  /** The outcome of a call that can abort. */
  datatype Result<T> = Ok(value: T) | Err(panic: Panic)

  const ALL_ONES: bv32 := 0xffff_ffff
  /** Level-triggered, active-low: the configuration word written to every configurable group. */
  const LEVEL_TRIGGERED: bv32 := 0
  /** The default priority of every line, in each of the four byte lanes. */
  const DEFAULT_PRIORITY: bv32 := 0xa0a0_a0a0
  /** The CPU interface priority mask: lines whose priority is numerically below it are signalled. */
  const PRIORITY_MASK: bv32 := 0xf0
  /** The target-list filter of a software interrupt sent to the requesting CPU only (`2 << 24`). */
  const TO_SELF: bv32 := 0x0200_0000

  // ---------------------------------------------------------------------------
  // Counts derived from the type register.

  /** `dividend / divisor` rounded up, computed as the driver does. */
  method DivCeil(dividend: U32, divisor: U32) returns (x: U32)
    requires divisor > 0
    ensures (x - 1) * divisor < dividend <= x * divisor
  {
    x := dividend / divisor;
    if dividend % divisor != 0 {
      x := x + 1;
    }
  }

  /**
   * The line count and the register counts construction derives from the
   * type register, each rounded up from the line count as the driver does.
   */
  method InterruptCounts(typer: bv32) returns (maxInterrupts: U32, maxIsEnable: U32, maxIcfg: U32, maxIPriority: U32)
    ensures maxInterrupts == MaxInterrupts(typer)
    ensures maxIsEnable == EnableWords(typer)
    ensures maxIcfg == ConfigWords(typer)
    ensures maxIPriority == PriorityWords(typer)
  {
    maxInterrupts := 32 * (Hw.ItLines(typer) + 1);
    maxIsEnable := DivCeil(maxInterrupts, 32);
    maxIcfg := DivCeil(maxInterrupts, 16);
    maxIPriority := DivCeil(maxInterrupts, 4);
  }

  /** The number of interrupt lines the Distributor reports. */
  function MaxInterrupts(typer: bv32): (n: U32)
    ensures 32 <= n <= 512
    ensures n % 32 == 0
  {
    32 * (Hw.ItLines(typer) + 1)
  }

  /** The number of CPU interfaces the Distributor reports. */
  function CpuInterfaceCount(typer: bv32): (n: U32)
    ensures 1 <= n <= 8
  {
    Hw.Cpus(typer) + 1
  }

  /** Enable registers in use: one bit per line. */
  function EnableWords(typer: bv32): (n: nat)
    ensures 32 * n == MaxInterrupts(typer)
    ensures n <= Hw.ISENABLE_COUNT && n <= Hw.ICENABLE_COUNT && n <= Hw.ICACTIVE_COUNT
  {
    Hw.ItLines(typer) + 1
  }

  /** Configuration registers in use: two bits per line. */
  function ConfigWords(typer: bv32): (n: nat)
    ensures 16 * n == MaxInterrupts(typer)
    ensures 2 <= n <= Hw.ICFG_COUNT
  {
    2 * (Hw.ItLines(typer) + 1)
  }

  /** Priority (and target) registers in use: one byte per line. */
  function PriorityWords(typer: bv32): (n: nat)
    ensures 4 * n == MaxInterrupts(typer)
    ensures 8 <= n <= Hw.IPRIORITY_COUNT && n <= Hw.ITARGET_COUNT
  {
    8 * (Hw.ItLines(typer) + 1)
  }

  // ---------------------------------------------------------------------------
  // Discovery.

  /**
   * The bitset discovery records: word k is what the hardware read back for
   * enable word k when k < n, and 0 beyond.
   */
  function Discovered(readback: seq<bv32>, n: nat): seq<bv32>
    requires n <= |readback| && n <= 32
  {
    seq(32, k requires 0 <= k < 32 => if k < n then readback[k] else 0)
  }

  /**
   * An id is in a discovered bitset exactly when it lies below the discovered
   * range and its bit was set in the word read back; in particular no id at
   * or above 32 * n, and none at or above 1024, is ever in it.
   */
  lemma DiscoveredMembership(readback: seq<bv32>, n: nat, id: nat)
    requires n <= |readback| && n <= 32
    ensures InBitSet(Discovered(readback, n), id) <==> id < 32 * n && BitAt(readback[id / 32], id % 32)
    ensures id >= 32 * n ==> !InBitSet(Discovered(readback, n), id)
    ensures id >= 1024 ==> !InBitSet(Discovered(readback, n), id)
  {
  }

  // ---------------------------------------------------------------------------
  // The scan of the banked target registers.

  /** The first index at or after `from` whose entry is not zero. */
  function FirstNonZero(s: seq<bv32>, from: nat): (r: Option<nat>)
    requires from <= |s|
    ensures r.Some? ==> from <= r.value < |s| && s[r.value] != 0
    ensures r.Some? ==> forall j :: from <= j < r.value ==> s[j] == 0
    ensures r.None? <==> forall j :: from <= j < |s| ==> s[j] == 0
    decreases |s| - from
  {
    if from == |s| then None
    else if s[from] != 0 then Some(from)
    else FirstNonZero(s, from + 1)
  }

  /** How many banked target registers the scan reads: up to the first non-zero one. */
  function ScanLength(banked: seq<bv32>): (n: nat)
    ensures n <= |banked|
  {
    match FirstNonZero(banked, 0)
    case Some(k) => k + 1
    case None => |banked|
  }

  /** The routing word the scan of the banked target registers yields, or None when all are zero. */
  function BankedMask(banked: seq<bv32>): (r: Option<bv32>)
    ensures r.None? <==> forall j :: 0 <= j < |banked| ==> banked[j] == 0
  {
    match FirstNonZero(banked, 0)
    case Some(k) => Some(CpuMask(banked[k]))
    case None => None
  }

  /** The first non-zero banked target word after the right-shift folds, or None when all are zero. */
  function FoldedBanked(banked: seq<bv32>): Option<bv32>
  {
    match FirstNonZero(banked, 0)
    case Some(k) => Some(FoldLanes(banked[k]))
    case None => None
  }

  /**
   * The target registers after routing: with several CPU interfaces and a
   * routing word, the registers of the shared lines 8..PriorityWords-1 hold
   * that word; otherwise nothing changes.
   */
  function RoutedTargets(targets: seq<bv32>, typer: bv32, banked: seq<bv32>): seq<bv32>
  {
    match BankedMask(banked)
    case Some(m) =>
      if CpuInterfaceCount(typer) > 1 then Filled(targets, 8, PriorityWords(typer), m) else targets
    case None => targets
  }

  // ---------------------------------------------------------------------------
  // The control registers.

  /** The Distributor control word with global enable cleared. */
  function DisabledCtrl(c: bv32): (r: bv32)
    ensures r & 1 == 0 && r & !1 == c & !1
  {
    Hw.Modify(c, Hw.CTRL_ENABLE_CLEAR)
  }

  /** The Distributor control word with global enable set. */
  function EnabledCtrl(c: bv32): (r: bv32)
    ensures r & 1 == 1 && r & !1 == c & !1
  {
    Hw.Modify(c, Hw.CTRL_ENABLE_SET)
  }

  /** Enabling or disabling twice is doing it once; each undoes the other's bit and nothing else. */
  lemma EnableDisableIdempotent(c: bv32)
    ensures EnabledCtrl(EnabledCtrl(c)) == EnabledCtrl(c)
    ensures DisabledCtrl(DisabledCtrl(c)) == DisabledCtrl(c)
    ensures DisabledCtrl(EnabledCtrl(c)) == DisabledCtrl(c)
    ensures EnabledCtrl(DisabledCtrl(c)) == EnabledCtrl(c)
  {
    var on, off := Hw.CTRL_ENABLE_SET, Hw.CTRL_ENABLE_CLEAR;
    Hw.ModifyIdempotent(c, on);
    Hw.ModifyIdempotent(c, off);
    Hw.ModifyOverride(c, on, off);
    Hw.ModifyOverride(c, off, on);
  }

  /** The default priority passes the priority mask the CPU interface is given. */
  lemma DefaultPriorityPassesMask()
    ensures Lane0(DEFAULT_PRIORITY) < PRIORITY_MASK && Lane1(DEFAULT_PRIORITY) < PRIORITY_MASK
    ensures Lane2(DEFAULT_PRIORITY) < PRIORITY_MASK && Lane3(DEFAULT_PRIORITY) < PRIORITY_MASK
  {
  }

  // ---------------------------------------------------------------------------
  // Software interrupts and the acknowledge value.

  /** The generation-register word that raises software interrupt `sgi` on the requesting CPU. */
  function SelfSgiWord(sgi: U32): bv32
  {
    (sgi as bv32) | TO_SELF
  }

  /**
   * For an id below 16 the word names that id in its id field, selects the
   * requesting-CPU-only filter and sets no other bit.
   */
  lemma SelfSgiWordFields(sgi: U32)
    requires sgi < 16
    ensures Hw.SgiIntId(SelfSgiWord(sgi)) == sgi
    ensures SelfSgiWord(sgi) & !0xF == TO_SELF
  {
  }

  /** The lowest supported software interrupt id, looking at ids 0-15. */
  function FirstSgi(supported: seq<bv32>): (r: Option<U32>)
    ensures r.None? <==> forall id :: 0 <= id < 16 ==> !InBitSet(supported, id)
    ensures r.Some? ==> r.value < 16 && InBitSet(supported, r.value)
    ensures r.Some? ==> forall id :: 0 <= id < r.value ==> !InBitSet(supported, id)
  {
    if |supported| == 0 then None
    else
      var low := LowestSetBit(supported[0], 16);
      LowIdsBelow(supported, 16);
      match low
      case None => None
      case Some(k) =>
        LowIdBit(supported, k);
        LowIdsBelow(supported, k);
        Some(k)
  }

  // ---------------------------------------------------------------------------
  // The access sequence of construction.

  /** The accesses that probe enable word i. */
  function DiscoverStep(i: nat, setReadback: seq<bv32>, clearReadback: seq<bv32>): seq<Event>
    requires i < |setReadback| && i < |clearReadback|
  {
    [ Write(Elem(IcActive, i), ALL_ONES),
      Write(Elem(IsEnable, i), ALL_ONES),
      Read(Elem(IsEnable, i), setReadback[i]),
      Write(Elem(IcEnable, i), ALL_ONES),
      Read(Elem(IcEnable, i), clearReadback[i]) ]
  }

  /** The accesses that probe enable words 0..n-1, in order. */
  function DiscoverTrace(n: nat, setReadback: seq<bv32>, clearReadback: seq<bv32>): seq<Event>
    requires n <= |setReadback| && n <= |clearReadback|
  {
    if n == 0 then [] else DiscoverTrace(n - 1, setReadback, clearReadback) + DiscoverStep(n - 1, setReadback, clearReadback)
  }

  /** Global disable, the type register read, discovery, trigger and priority defaults. */
  function ConfigureTrace(ctrl: bv32, typer: bv32, setReadback: seq<bv32>, clearReadback: seq<bv32>): seq<Event>
    requires |setReadback| == Hw.ISENABLE_COUNT && |clearReadback| == Hw.ICENABLE_COUNT
  {
    CtrlAccess(ctrl, DisabledCtrl(ctrl)) + [Read(DistTyper, typer)]
    + DiscoverTrace(EnableWords(typer), setReadback, clearReadback)
    + DefaultsTrace(typer)
  }

  /** The trigger defaults for the configurable words, then the priority defaults. */
  function DefaultsTrace(typer: bv32): seq<Event>
  {
    WriteTrace(ICfg, 2, ConfigWords(typer), LEVEL_TRIGGERED)
    + WriteTrace(IPriority, 0, PriorityWords(typer), DEFAULT_PRIORITY)
  }

  /** With several CPU interfaces: the scan of the banked target registers and the routing writes. */
  function RoutingTrace(typer: bv32, banked: seq<bv32>): seq<Event>
    requires |banked| == 8
  {
    if CpuInterfaceCount(typer) > 1 then
      ReadTrace(ITarget, ScanLength(banked), banked)
      + match BankedMask(banked)
        case Some(m) => WriteTrace(ITarget, 8, PriorityWords(typer), m)
        case None => []
    else []
  }

  /** The CPU interface set-up. */
  function CpuInitTrace(): seq<Event>
  {
    [Write(CpuPmr, PRIORITY_MASK)] + WriteTrace(Apr, 0, Hw.APR_COUNT, 0) + [Write(CpuCtrl, Hw.CPUCTRL_INIT.value)]
  }

  /** The accesses of a construction that does not abort. */
  function InitTrace(ctrl: bv32, typer: bv32, banked: seq<bv32>, setReadback: seq<bv32>, clearReadback: seq<bv32>): seq<Event>
    requires |banked| == 8
    requires |setReadback| == Hw.ISENABLE_COUNT && |clearReadback| == Hw.ICENABLE_COUNT
  {
    ConfigureTrace(ctrl, typer, setReadback, clearReadback)
    + RoutingTrace(typer, banked)
    + CpuInitTrace()
    + CtrlAccess(DisabledCtrl(ctrl), EnabledCtrl(DisabledCtrl(ctrl)))
  }

  /**
   * The register arrays after construction has programmed the Distributor:
   * discovery leaves all ones in the first EnableWords words of the three
   * enable and active arrays, the trigger and priority defaults fill the
   * configurable words, and routing fills the shared target words.
   */
  function ProgrammedArrays(a: DistArrays, typer: bv32, banked: seq<bv32>): DistArrays
  {
    DistArrays(
      Filled(a.isenable, 0, EnableWords(typer), ALL_ONES),
      Filled(a.icenable, 0, EnableWords(typer), ALL_ONES),
      Filled(a.icactive, 0, EnableWords(typer), ALL_ONES),
      Filled(a.ipriority, 0, PriorityWords(typer), DEFAULT_PRIORITY),
      RoutedTargets(a.itarget, typer, banked),
      Filled(a.icfg, 2, ConfigWords(typer), LEVEL_TRIGGERED))
  }

  /** Construction aborts exactly when several CPU interfaces exist and no banked target register is non-zero. */
  predicate ConstructionAborts(typer: bv32, banked: seq<bv32>)
  {
    CpuInterfaceCount(typer) > 1 && BankedMask(banked).None?
  }

  // ---------------------------------------------------------------------------
  // Properties of construction.

  /** Every access of discovery touches one of the three probed arrays below word n; its writes are all ones. */
  lemma {:induction false} DiscoverTraceEvents(n: nat, setReadback: seq<bv32>, clearReadback: seq<bv32>, e: Event)
    requires n <= |setReadback| && n <= |clearReadback|
    requires e in DiscoverTrace(n, setReadback, clearReadback)
    ensures (e.Read? || e.Write?) && e.reg.Elem? && e.reg.index < n
    ensures e.reg.arr == IcActive || e.reg.arr == IsEnable || e.reg.arr == IcEnable
    ensures e.Write? ==> e.value == ALL_ONES
  {
    if e !in DiscoverStep(n - 1, setReadback, clearReadback) {
      DiscoverTraceEvents(n - 1, setReadback, clearReadback, e);
    }
  }

  /** The writes of the Distributor set-up before routing: the disable of the control register, the rest to register arrays. */
  lemma ConfigureTraceWrites(ctrl: bv32, typer: bv32, setReadback: seq<bv32>, clearReadback: seq<bv32>, e: Event)
    requires |setReadback| == Hw.ISENABLE_COUNT && |clearReadback| == Hw.ICENABLE_COUNT
    requires e in ConfigureTrace(ctrl, typer, setReadback, clearReadback) && e.Write?
    ensures e.reg == DistCtrl || e.reg.Elem?
    ensures e.reg == DistCtrl ==> e.value == DisabledCtrl(ctrl)
  {
    var n, nc, np := EnableWords(typer), ConfigWords(typer), PriorityWords(typer);
    if e in DiscoverTrace(n, setReadback, clearReadback) {
      DiscoverTraceEvents(n, setReadback, clearReadback, e);
    } else if e in WriteTrace(ICfg, 2, nc, LEVEL_TRIGGERED) {
      WriteTraceEvents(ICfg, 2, nc, LEVEL_TRIGGERED, e);
    } else if e in WriteTrace(IPriority, 0, np, DEFAULT_PRIORITY) {
      WriteTraceEvents(IPriority, 0, np, DEFAULT_PRIORITY, e);
    }
  }

  /** The writes of the CPU interface set-up: the priority mask, the active-priority registers and the control register. */
  lemma CpuInitTraceWrites(e: Event)
    requires e in CpuInitTrace() && e.Write?
    ensures e.reg == CpuPmr || e.reg == CpuCtrl || (e.reg.Elem? && e.reg.arr == Apr)
  {
    if e in WriteTrace(Apr, 0, Hw.APR_COUNT, 0) {
      WriteTraceEvents(Apr, 0, Hw.APR_COUNT, 0, e);
    }
  }

  /**
   * Construction writes only register arrays and the two control registers
   * and the priority mask; it writes the Distributor control register only
   * to disable and then to enable, and never writes the software interrupt
   * or end-of-interrupt registers.
   */
  lemma InitTraceWrites(ctrl: bv32, typer: bv32, banked: seq<bv32>, setReadback: seq<bv32>, clearReadback: seq<bv32>, e: Event)
    requires |banked| == 8
    requires |setReadback| == Hw.ISENABLE_COUNT && |clearReadback| == Hw.ICENABLE_COUNT
    requires e in InitTrace(ctrl, typer, banked, setReadback, clearReadback)
    requires e.Write?
    ensures e.reg == DistCtrl || e.reg == CpuPmr || e.reg == CpuCtrl || e.reg.Elem?
    ensures e.reg == DistCtrl ==> e.value == DisabledCtrl(ctrl) || e.value == EnabledCtrl(ctrl)
  {
    if e in ConfigureTrace(ctrl, typer, setReadback, clearReadback) {
      ConfigureTraceWrites(ctrl, typer, setReadback, clearReadback, e);
    } else if e in RoutingTrace(typer, banked) {
      RoutingTraceWrites(typer, banked, e);
    } else if e in CpuInitTrace() {
      CpuInitTraceWrites(e);
    } else {
      assert e == Write(DistCtrl, EnabledCtrl(DisabledCtrl(ctrl)));
      Hw.ModifyOverride(ctrl, Hw.CTRL_ENABLE_CLEAR, Hw.CTRL_ENABLE_SET);
    }
  }

  /** The writes of routing are the routing word, to the target registers of the shared lines. */
  lemma RoutingTraceWrites(typer: bv32, banked: seq<bv32>, e: Event)
    requires |banked| == 8
    requires e in RoutingTrace(typer, banked) && e.Write?
    ensures e.reg.Elem? && e.reg.arr == ITarget && 8 <= e.reg.index < PriorityWords(typer)
    ensures BankedMask(banked).Some? && e.value == BankedMask(banked).value
  {
    if e in ReadTrace(ITarget, ScanLength(banked), banked) {
      ReadTraceEvents(ITarget, ScanLength(banked), banked, e);
    } else {
      WriteTraceEvents(ITarget, 8, PriorityWords(typer), BankedMask(banked).value, e);
    }
  }

  /** Construction opens with the disabling read-modify-write of the control register and the type register read. */
  lemma InitTraceOpens(ctrl: bv32, typer: bv32, banked: seq<bv32>, setReadback: seq<bv32>, clearReadback: seq<bv32>)
    requires |banked| == 8
    requires |setReadback| == Hw.ISENABLE_COUNT && |clearReadback| == Hw.ICENABLE_COUNT
    ensures var t := InitTrace(ctrl, typer, banked, setReadback, clearReadback);
      |t| >= 3 && t[0] == Read(DistCtrl, ctrl) && t[1] == Write(DistCtrl, DisabledCtrl(ctrl)) &&
      t[2] == Read(DistTyper, typer)
  {
    var pre := CtrlAccess(ctrl, DisabledCtrl(ctrl)) + [Read(DistTyper, typer)];
    var dt := DiscoverTrace(EnableWords(typer), setReadback, clearReadback);
    var c := ConfigureTrace(ctrl, typer, setReadback, clearReadback);
    var r := RoutingTrace(typer, banked);
    Heads(pre, dt);
    Heads(pre + dt, DefaultsTrace(typer));
    Heads(c, r);
    Heads(c + r, CpuInitTrace());
    Heads(c + r + CpuInitTrace(), CtrlAccess(DisabledCtrl(ctrl), EnabledCtrl(DisabledCtrl(ctrl))));
  }

  /** Appending keeps the first three entries. */
  lemma Heads(a: seq<Event>, b: seq<Event>)
    requires |a| >= 3
    ensures |a + b| >= 3 && (a + b)[0] == a[0] && (a + b)[1] == a[1] && (a + b)[2] == a[2]
  {
  }

  /** Construction closes with the read-modify-write of the control register that enables the Distributor. */
  lemma InitTraceCloses(ctrl: bv32, typer: bv32, banked: seq<bv32>, setReadback: seq<bv32>, clearReadback: seq<bv32>)
    requires |banked| == 8
    requires |setReadback| == Hw.ISENABLE_COUNT && |clearReadback| == Hw.ICENABLE_COUNT
    ensures var t := InitTrace(ctrl, typer, banked, setReadback, clearReadback);
      |t| >= 2 && t[|t| - 2] == Read(DistCtrl, DisabledCtrl(ctrl)) && t[|t| - 1] == Write(DistCtrl, EnabledCtrl(ctrl))
  {
    Hw.ModifyOverride(ctrl, Hw.CTRL_ENABLE_CLEAR, Hw.CTRL_ENABLE_SET);
  }

  /**
   * The registers of an implemented line after construction has programmed
   * the Distributor: its three enable and active words hold all ones, its
   * priority word the default priority and, past the 32 private lines, its
   * trigger word the level-triggered setting. With several CPU interfaces
   * and a routing word, the target word of each shared line holds that word.
   */
  lemma ProgrammedLine(a: DistArrays, typer: bv32, banked: seq<bv32>, id: nat)
    requires |a.isenable| == Hw.ISENABLE_COUNT && |a.icenable| == Hw.ICENABLE_COUNT
    requires |a.icactive| == Hw.ICACTIVE_COUNT && |a.ipriority| == Hw.IPRIORITY_COUNT
    requires |a.itarget| == Hw.ITARGET_COUNT && |a.icfg| == Hw.ICFG_COUNT
    requires id < MaxInterrupts(typer)
    ensures var p := ProgrammedArrays(a, typer, banked);
      p.isenable[id / 32] == ALL_ONES && p.icenable[id / 32] == ALL_ONES && p.icactive[id / 32] == ALL_ONES &&
      p.ipriority[id / 4] == DEFAULT_PRIORITY &&
      (id >= 32 ==> p.icfg[id / 16] == LEVEL_TRIGGERED) &&
      (id >= 32 && CpuInterfaceCount(typer) > 1 && BankedMask(banked).Some? ==>
        p.itarget[id / 4] == BankedMask(banked).value)
  {
  }

  /**
   * Routing writes exactly the target registers that hold shared
   * implemented lines: register k, which holds lines 4k..4k+3, is written
   * when 8 <= k and line 4k exists, and keeps its value otherwise.
   */
  lemma RoutedTargetsCoverSharedLines(targets: seq<bv32>, typer: bv32, banked: seq<bv32>, k: nat)
    requires CpuInterfaceCount(typer) > 1 && BankedMask(banked).Some?
    requires k < |targets|
    ensures |RoutedTargets(targets, typer, banked)| == |targets|
    ensures RoutedTargets(targets, typer, banked)[k] ==
      if 8 <= k && 4 * k < MaxInterrupts(typer) then BankedMask(banked).value else targets[k]
  {
  }

  // ---------------------------------------------------------------------------
  // The construction steps.

  /** Recording one more probed word. */
  lemma DiscoveredStep(readback: seq<bv32>, i: nat)
    requires i < |readback| && i < 32
    ensures Discovered(readback, i)[i := readback[i]] == Discovered(readback, i + 1)
  {
  }

  /**
   * Probes enable word i: clears its active bits, writes all ones to the
   * set-enable and then the clear-enable register, and returns what each
   * reads back (`setReadback[i]`, `clearReadback[i]`, the hardware's answers).
   */
  method ProbeWord(d: Distributor, i: nat, setReadback: seq<bv32>, clearReadback: seq<bv32>)
    returns (s: bv32, p: bv32)
    requires d.Valid()
    requires i < Hw.ISENABLE_COUNT
    requires |setReadback| == Hw.ISENABLE_COUNT && |clearReadback| == Hw.ICENABLE_COUNT
    modifies d.icactive, d.isenable, d.icenable, d.bus
    ensures s == setReadback[i] && p == clearReadback[i]
    ensures d.icactive[..] == old(d.icactive[..])[i := ALL_ONES]
    ensures d.isenable[..] == old(d.isenable[..])[i := ALL_ONES]
    ensures d.icenable[..] == old(d.icenable[..])[i := ALL_ONES]
    ensures d.bus.log == old(d.bus.log) + DiscoverStep(i, setReadback, clearReadback)
  {
    ghost var log0 := d.bus.log;
    d.icactive[i] := ALL_ONES;
    d.bus.log := d.bus.log + [Write(Elem(IcActive, i), ALL_ONES)];
    d.isenable[i] := ALL_ONES;
    d.bus.log := d.bus.log + [Write(Elem(IsEnable, i), ALL_ONES)];
    s := setReadback[i];
    d.bus.log := d.bus.log + [Read(Elem(IsEnable, i), s)];
    d.icenable[i] := ALL_ONES;
    d.bus.log := d.bus.log + [Write(Elem(IcEnable, i), ALL_ONES)];
    p := clearReadback[i];
    d.bus.log := d.bus.log + [Read(Elem(IcEnable, i), p)];
    assert d.bus.log == log0 + DiscoverStep(i, setReadback, clearReadback);
  }

  /**
   * Probes enable words 0..n-1 in order and returns the two bitsets
   * discovery records: the bits that stuck when set and when cleared.
   */
  method Discover(d: Distributor, n: nat, setReadback: seq<bv32>, clearReadback: seq<bv32>)
    returns (supported: seq<bv32>, permanent: seq<bv32>)
    requires d.Valid()
    requires n <= Hw.ISENABLE_COUNT
    requires |setReadback| == Hw.ISENABLE_COUNT && |clearReadback| == Hw.ICENABLE_COUNT
    modifies d.icactive, d.isenable, d.icenable, d.bus
    ensures supported == Discovered(setReadback, n)
    ensures permanent == Discovered(clearReadback, n)
    ensures d.icactive[..] == Filled(old(d.icactive[..]), 0, n, ALL_ONES)
    ensures d.isenable[..] == Filled(old(d.isenable[..]), 0, n, ALL_ONES)
    ensures d.icenable[..] == Filled(old(d.icenable[..]), 0, n, ALL_ONES)
    ensures d.bus.log == old(d.bus.log) + DiscoverTrace(n, setReadback, clearReadback)
  {
    supported := seq(32, _ => 0);
    permanent := seq(32, _ => 0);
    var i := 0;
    while i < n
      invariant 0 <= i <= n
      invariant supported == Discovered(setReadback, i)
      invariant permanent == Discovered(clearReadback, i)
      invariant d.icactive[..] == Filled(old(d.icactive[..]), 0, i, ALL_ONES)
      invariant d.isenable[..] == Filled(old(d.isenable[..]), 0, i, ALL_ONES)
      invariant d.icenable[..] == Filled(old(d.icenable[..]), 0, i, ALL_ONES)
      invariant d.bus.log == old(d.bus.log) + DiscoverTrace(i, setReadback, clearReadback)
    {
      FilledStep(old(d.icactive[..]), 0, i, ALL_ONES);
      FilledStep(old(d.isenable[..]), 0, i, ALL_ONES);
      FilledStep(old(d.icenable[..]), 0, i, ALL_ONES);
      DiscoveredStep(setReadback, i);
      DiscoveredStep(clearReadback, i);
      var s, p := ProbeWord(d, i, setReadback, clearReadback);
      supported := supported[i := s];
      permanent := permanent[i := p];
      i := i + 1;
    }
  }

  /** Writes `v` to registers lo..hi-1 of Distributor array `a`, in increasing order. */
  method WriteRange(d: Distributor, a: RegArray, lo: nat, hi: nat, v: bv32)
    requires d.Valid() && a != Apr
    requires lo <= hi <= Capacity(a)
    modifies d.Array(a), d.bus
    ensures d.Array(a)[..] == Filled(old(d.Array(a)[..]), lo, hi, v)
    ensures d.bus.log == old(d.bus.log) + WriteTrace(a, lo, hi, v)
  {
    var arr := d.Array(a);
    var i := lo;
    while i < hi
      invariant lo <= i <= hi
      invariant arr[..] == Filled(old(arr[..]), lo, i, v)
      invariant d.bus.log == old(d.bus.log) + WriteTrace(a, lo, i, v)
    {
      FilledStep(old(arr[..]), lo, i, v);
      arr[i] := v;
      d.bus.log := d.bus.log + [Write(Elem(a, i), v)];
      i := i + 1;
    }
  }

  /**
   * Global disable, then the type register read, discovery and the trigger
   * and priority defaults for every implemented line; returns the two
   * discovered bitsets.
   */
  method Configure(d: Distributor, setReadback: seq<bv32>, clearReadback: seq<bv32>)
    returns (supported: seq<bv32>, permanent: seq<bv32>)
    requires d.Valid()
    requires |setReadback| == Hw.ISENABLE_COUNT && |clearReadback| == Hw.ICENABLE_COUNT
    modifies d`ctrl, d.bus, d.icactive, d.isenable, d.icenable, d.icfg, d.ipriority
    ensures supported == Discovered(setReadback, EnableWords(d.typer))
    ensures permanent == Discovered(clearReadback, EnableWords(d.typer))
    ensures d.ctrl == DisabledCtrl(old(d.ctrl))
    ensures d.icactive[..] == Filled(old(d.icactive[..]), 0, EnableWords(d.typer), ALL_ONES)
    ensures d.isenable[..] == Filled(old(d.isenable[..]), 0, EnableWords(d.typer), ALL_ONES)
    ensures d.icenable[..] == Filled(old(d.icenable[..]), 0, EnableWords(d.typer), ALL_ONES)
    ensures d.icfg[..] == Filled(old(d.icfg[..]), 2, ConfigWords(d.typer), LEVEL_TRIGGERED)
    ensures d.ipriority[..] == Filled(old(d.ipriority[..]), 0, PriorityWords(d.typer), DEFAULT_PRIORITY)
    ensures d.bus.log == old(d.bus.log) + ConfigureTrace(old(d.ctrl), d.typer, setReadback, clearReadback)
  {
    ghost var log0 := d.bus.log;
    // Disable all interrupts.
    d.ModifyCtrl(Hw.CTRL_ENABLE_CLEAR);
    var typer := d.typer;
    d.bus.log := d.bus.log + [Read(DistTyper, typer)];
    var _, maxIsEnable, maxIcfg, maxIPriority := InterruptCounts(typer);
    supported, permanent := Discover(d, maxIsEnable, setReadback, clearReadback);
    SetDefaults(d, maxIcfg, maxIPriority);
    ghost var ca := CtrlAccess(old(d.ctrl), d.ctrl);
    ghost var dt := DiscoverTrace(maxIsEnable, setReadback, clearReadback);
    AppendAssoc(log0, ca, [Read(DistTyper, typer)]);
    AppendAssoc(log0, ca + [Read(DistTyper, typer)], dt);
    AppendAssoc(log0, ca + [Read(DistTyper, typer)] + dt, DefaultsTrace(typer));
  }

  /**
   * Writes the defaults of every implemented line: level-triggered,
   * active-low in the configurable trigger words (words 0 and 1, ids 0-31,
   * are not configurable), then the default priority in every priority word.
   */
  method SetDefaults(d: Distributor, maxIcfg: nat, maxIPriority: nat)
    requires d.Valid()
    requires maxIcfg == ConfigWords(d.typer) && maxIPriority == PriorityWords(d.typer)
    modifies d.icfg, d.ipriority, d.bus
    ensures d.icfg[..] == Filled(old(d.icfg[..]), 2, ConfigWords(d.typer), LEVEL_TRIGGERED)
    ensures d.ipriority[..] == Filled(old(d.ipriority[..]), 0, PriorityWords(d.typer), DEFAULT_PRIORITY)
    ensures d.bus.log == old(d.bus.log) + DefaultsTrace(d.typer)
  {
    ghost var log0 := d.bus.log;
    WriteRange(d, ICfg, 2, maxIcfg, LEVEL_TRIGGERED);
    WriteRange(d, IPriority, 0, maxIPriority, DEFAULT_PRIORITY);
    AppendAssoc(log0, WriteTrace(ICfg, 2, maxIcfg, LEVEL_TRIGGERED), WriteTrace(IPriority, 0, maxIPriority, DEFAULT_PRIORITY));
  }

  /**
   * With several CPU interfaces: scans the banked target registers and
   * aborts when all are zero, else routes every shared line to the CPUs the
   * routing word names. With a single interface it does nothing.
   */
  method Route(d: Distributor, banked: seq<bv32>) returns (r: Result<()>)
    requires d.Valid()
    requires |banked| == 8
    modifies d.itarget, d.bus
    ensures r.Err? <==> ConstructionAborts(d.typer, banked)
    ensures r.Err? ==> r.panic == UnknownCpuMask
    ensures r.Err? ==> d.itarget[..] == old(d.itarget[..])
    ensures r.Err? ==> d.bus.log == old(d.bus.log) + ReadTrace(ITarget, 8, banked)
    ensures r.Ok? ==> d.itarget[..] == RoutedTargets(old(d.itarget[..]), d.typer, banked)
    ensures r.Ok? ==> d.bus.log == old(d.bus.log) + RoutingTrace(d.typer, banked)
  {
    var numCpuInterfaces: U32 := Hw.Cpus(d.typer) + 1;
    if numCpuInterfaces > 1 {
      var mask := ScanBankedTargets(d, banked);
      if mask == 0 {
        return Err(UnknownCpuMask);
      }
      mask := Spread(mask);
      var _, _, _, maxIPriority := InterruptCounts(d.typer);
      WriteRange(d, ITarget, 8, maxIPriority, mask);
    }
    return Ok(());
  }

  /**
   * Reads the banked target registers in order until one is non-zero and
   * returns that word after the right-shift folds; 0 when all eight are zero.
   */
  method ScanBankedTargets(d: Distributor, banked: seq<bv32>) returns (mask: bv32)
    requires d.Valid()
    requires |banked| == 8
    modifies d.bus
    ensures mask == 0 <==> BankedMask(banked).None?
    ensures mask != 0 ==> BankedMask(banked) == Some(Spread(mask))
    ensures mask != 0 ==> FoldedBanked(banked) == Some(mask)
    ensures d.bus.log == old(d.bus.log) + ReadTrace(ITarget, ScanLength(banked), banked)
  {
    mask := 0;
    var i := 0;
    while i < 8
      invariant 0 <= i <= 8
      invariant forall j :: 0 <= j < i ==> banked[j] == 0
      invariant mask == 0
      invariant d.bus.log == old(d.bus.log) + ReadTrace(ITarget, i, banked)
    {
      var w := banked[i];
      d.bus.log := d.bus.log + [Read(Elem(ITarget, i), w)];
      mask := FoldLanes(w);
      FoldZero(w);
      if mask != 0 {
        FirstNonZeroAt(banked, i);
        assert BankedMask(banked) == Some(CpuMask(w));
        return;
      }
      i := i + 1;
    }
  }

  /** Once entries before i are zero and entry i is not, the first non-zero entry is i. */
  lemma FirstNonZeroAt(s: seq<bv32>, i: nat)
    requires i < |s| && s[i] != 0
    requires forall j :: 0 <= j < i ==> s[j] == 0
    ensures FirstNonZero(s, 0) == Some(i)
  {
  }

  /**
   * The Distributor part of construction: `Configure` and then `Route`.
   * Every register write of both happens whether or not routing then aborts.
   */
  method Program(d: Distributor, setReadback: seq<bv32>, clearReadback: seq<bv32>, banked: seq<bv32>)
    returns (r: Result<(seq<bv32>, seq<bv32>)>)
    requires d.Valid()
    requires |setReadback| == Hw.ISENABLE_COUNT && |clearReadback| == Hw.ICENABLE_COUNT
    requires |banked| == 8
    modifies d`ctrl, d.bus, d.icactive, d.isenable, d.icenable, d.icfg, d.ipriority, d.itarget
    ensures r.Err? <==> ConstructionAborts(d.typer, banked)
    ensures r.Err? ==> r.panic == UnknownCpuMask
    ensures r.Ok? ==> r.value.0 == Discovered(setReadback, EnableWords(d.typer))
    ensures r.Ok? ==> r.value.1 == Discovered(clearReadback, EnableWords(d.typer))
    ensures d.ctrl == DisabledCtrl(old(d.ctrl))
    ensures d.Arrays() == ProgrammedArrays(old(d.Arrays()), d.typer, banked)
    ensures r.Err? ==>
      d.bus.log == old(d.bus.log)
        + ConfigureTrace(old(d.ctrl), d.typer, setReadback, clearReadback)
        + ReadTrace(ITarget, 8, banked)
    ensures r.Ok? ==>
      d.bus.log == old(d.bus.log)
        + (ConfigureTrace(old(d.ctrl), d.typer, setReadback, clearReadback)
        + RoutingTrace(d.typer, banked))
  {
    ghost var log0 := d.bus.log;
    var supported, permanent := Configure(d, setReadback, clearReadback);
    var routed := Route(d, banked);
    if routed.Err? {
      return Err(routed.panic);
    }
    AppendAssoc(log0, ConfigureTrace(old(d.ctrl), d.typer, setReadback, clearReadback), RoutingTrace(d.typer, banked));
    return Ok((supported, permanent));
  }

  /**
   * Constructs the driver. `setReadback[k]` and `clearReadback[k]` are what
   * the hardware returns when enable word k is read back after the all-ones
   * writes, and `banked` what the eight banked target registers read on
   * this CPU.
   */
  method New(distributor: Distributor, cpu: CpuInterface, setReadback: seq<bv32>, clearReadback: seq<bv32>, banked: seq<bv32>)
    returns (r: Result<GicV2>)
    requires distributor.Valid() && cpu.Valid() && Separate(distributor, cpu)
    requires |setReadback| == Hw.ISENABLE_COUNT && |clearReadback| == Hw.ICENABLE_COUNT
    requires |banked| == 8
    modifies distributor`ctrl, distributor.bus
    modifies distributor.icactive, distributor.isenable, distributor.icenable
    modifies distributor.icfg, distributor.ipriority, distributor.itarget
    modifies cpu`ctrl, cpu`pmr, cpu.apr
    ensures r.Err? <==> ConstructionAborts(distributor.typer, banked)
    ensures r.Err? ==> r.panic == UnknownCpuMask
    ensures r.Err? ==>
      distributor.bus.log == old(distributor.bus.log)
        + ConfigureTrace(old(distributor.ctrl), distributor.typer, setReadback, clearReadback)
        + ReadTrace(ITarget, 8, banked)
    ensures r.Ok? ==>
      distributor.bus.log == old(distributor.bus.log)
        + InitTrace(old(distributor.ctrl), distributor.typer, banked, setReadback, clearReadback)
    ensures r.Ok? ==> fresh(r.value) && r.value.Valid()
    ensures r.Ok? ==> r.value.distributor == distributor && r.value.cpu == cpu
    ensures r.Ok? ==> r.value.supported == Discovered(setReadback, EnableWords(distributor.typer))
    ensures r.Ok? ==> r.value.permanent == Discovered(clearReadback, EnableWords(distributor.typer))
    ensures r.Ok? ==> r.value.numCpuInterfaces == CpuInterfaceCount(distributor.typer)
    // The Distributor registers, whether or not construction aborts.
    ensures distributor.Arrays() == ProgrammedArrays(old(distributor.Arrays()), distributor.typer, banked)
    ensures r.Err? ==> distributor.ctrl == DisabledCtrl(old(distributor.ctrl))
    ensures r.Err? ==> cpu.ctrl == old(cpu.ctrl) && cpu.pmr == old(cpu.pmr) && cpu.apr[..] == old(cpu.apr[..])
    ensures r.Ok? ==> distributor.ctrl == EnabledCtrl(DisabledCtrl(old(distributor.ctrl)))
    ensures r.Ok? ==> cpu.ctrl == Hw.CPUCTRL_INIT.value && cpu.pmr == PRIORITY_MASK && cpu.apr[..] == [0, 0, 0, 0]
  {
    ghost var log0 := distributor.bus.log;
    var programmed := Program(distributor, setReadback, clearReadback, banked);
    if programmed.Err? {
      return Err(programmed.panic);
    }
    var (supported, permanent) := programmed.value;
    ghost var pt := ConfigureTrace(old(distributor.ctrl), distributor.typer, setReadback, clearReadback)
      + RoutingTrace(distributor.typer, banked);
    ghost var ctrl1 := distributor.ctrl;
    var gic := Finish(distributor, cpu, supported, permanent);
    ghost var ft := CtrlAccess(ctrl1, distributor.ctrl);
    AppendAssoc(log0, pt, CpuInitTrace() + ft);
    AppendAssoc(pt, CpuInitTrace(), ft);
    return Ok(gic);
  }

  /**
   * The end of a construction that did not abort: the driver value, the CPU
   * interface set-up, and then the global enable.
   */
  method Finish(distributor: Distributor, cpu: CpuInterface, supported: seq<bv32>, permanent: seq<bv32>)
    returns (gic: GicV2)
    requires distributor.Valid() && cpu.Valid() && Separate(distributor, cpu)
    requires |supported| == 32 && |permanent| == 32
    modifies distributor`ctrl, distributor.bus, cpu`ctrl, cpu`pmr, cpu.apr
    ensures fresh(gic) && gic.Valid()
    ensures gic.distributor == distributor && gic.cpu == cpu
    ensures gic.supported == supported && gic.permanent == permanent
    ensures gic.numCpuInterfaces == CpuInterfaceCount(distributor.typer)
    ensures distributor.ctrl == EnabledCtrl(old(distributor.ctrl))
    ensures cpu.ctrl == Hw.CPUCTRL_INIT.value && cpu.pmr == PRIORITY_MASK && cpu.apr[..] == [0, 0, 0, 0]
    ensures distributor.bus.log == old(distributor.bus.log) + (CpuInitTrace()
      + CtrlAccess(old(distributor.ctrl), distributor.ctrl))
  {
    var numCpuInterfaces: U32 := Hw.Cpus(distributor.typer) + 1;
    gic := new GicV2(distributor, cpu, supported, permanent, numCpuInterfaces);
    ghost var log0 := distributor.bus.log;
    gic.CpuInit();
    gic.DistributorEnable();
    AppendAssoc(log0, CpuInitTrace(), CtrlAccess(old(distributor.ctrl), distributor.ctrl));
  }

  // ---------------------------------------------------------------------------
  // The driver.

  class GicV2 {
    const distributor: Distributor
    const cpu: CpuInterface
    /** Ids whose enable bit stuck when set during discovery. */
    const supported: seq<bv32>
    /** Ids whose enable bit stuck when cleared during discovery. */
    const permanent: seq<bv32>
    const numCpuInterfaces: U32

    ghost predicate Valid()
    {
      distributor.Valid() && cpu.Valid() && Separate(distributor, cpu) &&
      |supported| == 32 && |permanent| == 32 &&
      1 <= numCpuInterfaces <= 8
    }

    constructor (distributor: Distributor, cpu: CpuInterface, supported: seq<bv32>, permanent: seq<bv32>, numCpuInterfaces: U32)
      ensures this.distributor == distributor && this.cpu == cpu
      ensures this.supported == supported && this.permanent == permanent
      ensures this.numCpuInterfaces == numCpuInterfaces
    {
      this.distributor := distributor;
      this.cpu := cpu;
      this.supported := supported;
      this.permanent := permanent;
      this.numCpuInterfaces := numCpuInterfaces;
    }

    /** Whether `id` was found implemented; false for any id outside the bitset. */
    predicate IsInterruptSupported(id: U32): (b: bool)
      ensures b <==> id < 32 * |supported| && BitAt(supported[id / 32], id % 32)
    {
      InBitSet(supported, id)
    }

    /** Whether `id` was found impossible to disable; false for any id outside the bitset. */
    predicate IsInterruptPermanent(id: U32): (b: bool)
      ensures b <==> id < 32 * |permanent| && BitAt(permanent[id / 32], id % 32)
    {
      InBitSet(permanent, id)
    }

    /** The number of CPU interfaces the Distributor reported. */
    function NumCpuInterfaces(): (n: U32)
      requires Valid()
      ensures 1 <= n <= 8
    {
      numCpuInterfaces
    }

    /** Clears the global enable bit and no other. */
    method DistributorDisable()
      requires Valid()
      modifies distributor`ctrl, distributor.bus
      ensures distributor.ctrl == DisabledCtrl(old(distributor.ctrl))
      ensures distributor.bus.log == old(distributor.bus.log) + CtrlAccess(old(distributor.ctrl), distributor.ctrl)
    {
      distributor.ModifyCtrl(Hw.CTRL_ENABLE_CLEAR);
    }

    /** Sets the global enable bit and no other. */
    method DistributorEnable()
      requires Valid()
      modifies distributor`ctrl, distributor.bus
      ensures distributor.ctrl == EnabledCtrl(old(distributor.ctrl))
      ensures distributor.bus.log == old(distributor.bus.log) + CtrlAccess(old(distributor.ctrl), distributor.ctrl)
    {
      distributor.ModifyCtrl(Hw.CTRL_ENABLE_SET);
    }

    /**
     * Enables `id`: aborts unless it is supported; otherwise writes the single
     * bit of `id` to its set-enable word and makes no other access.
     */
    method InterruptUnmask(id: U32) returns (r: Result<()>)
      requires Valid()
      modifies distributor.isenable, distributor.bus
      ensures r.Err? <==> !IsInterruptSupported(id)
      ensures r.Err? ==> r.panic == UnsupportedInterrupt(id)
      ensures r.Err? ==> distributor.isenable[..] == old(distributor.isenable[..]) && distributor.bus.log == old(distributor.bus.log)
      ensures r.Ok? ==> id / 32 < Hw.ISENABLE_COUNT
      ensures r.Ok? ==> distributor.isenable[..] == old(distributor.isenable[..])[id / 32 := 1 << (id % 32)]
      ensures r.Ok? ==> distributor.bus.log == old(distributor.bus.log) + [Write(Elem(IsEnable, id / 32), 1 << (id % 32))]
    {
      if !IsInterruptSupported(id) {
        return Err(UnsupportedInterrupt(id));
      }
      var reg := id / 32;
      var bit := id % 32;
      distributor.isenable[reg] := 1 << bit;
      distributor.bus.log := distributor.bus.log + [Write(Elem(IsEnable, reg), 1 << bit)];
      return Ok(());
    }

    /**
     * Per-CPU set-up: priority mask 0xf0, active priorities cleared, then the
     * interface enabled in combined completion mode.
     */
    method CpuInit()
      requires Valid()
      modifies cpu`pmr, cpu`ctrl, cpu.apr, cpu.bus
      ensures cpu.pmr == PRIORITY_MASK
      ensures cpu.apr[..] == [0, 0, 0, 0]
      ensures cpu.ctrl == Hw.CPUCTRL_INIT.value
      ensures cpu.bus.log == old(cpu.bus.log) + CpuInitTrace()
    {
      cpu.pmr := PRIORITY_MASK;
      cpu.bus.log := cpu.bus.log + [Write(CpuPmr, PRIORITY_MASK)];
      var i := 0;
      while i < 4
        invariant 0 <= i <= 4
        invariant cpu.pmr == PRIORITY_MASK
        invariant forall k :: 0 <= k < i ==> cpu.apr[k] == 0
        invariant cpu.bus.log == old(cpu.bus.log) + [Write(CpuPmr, PRIORITY_MASK)] + WriteTrace(Apr, 0, i, 0)
      {
        cpu.apr[i] := 0;
        cpu.bus.log := cpu.bus.log + [Write(Elem(Apr, i), 0)];
        i := i + 1;
      }
      cpu.ctrl := Hw.CPUCTRL_INIT.value;
      cpu.bus.log := cpu.bus.log + [Write(CpuCtrl, cpu.ctrl)];
    }

    /** The lowest supported software interrupt id among 0-15, or None. */
    function GetFirstSgi(): (r: Option<U32>)
      ensures r.None? <==> forall id :: 0 <= id < 16 ==> !IsInterruptSupported(id)
      ensures r.Some? ==> r.value < 16 && IsInterruptSupported(r.value)
      ensures r.Some? ==> forall id :: 0 <= id < r.value ==> !IsInterruptSupported(id)
    {
      assert forall id: U32 :: IsInterruptSupported(id) == InBitSet(supported, id);
      FirstSgi(supported)
    }

    /**
     * Raises software interrupt `sgi` on this CPU: aborts unless `sgi` is a
     * software interrupt id (below 16) and supported; otherwise writes the
     * id with the requesting-CPU-only filter and makes no other access.
     */
    method SendSgiToSelf(sgi: U32) returns (r: Result<()>)
      requires Valid()
      modifies distributor`sgi, distributor.bus
      ensures r.Ok? <==> sgi < 16 && IsInterruptSupported(sgi)
      ensures r.Err? ==> r.panic == AssertionFailed
      ensures r.Err? ==> distributor.sgi == old(distributor.sgi) && distributor.bus.log == old(distributor.bus.log)
      ensures r.Ok? ==> distributor.sgi == SelfSgiWord(sgi)
      ensures r.Ok? ==> distributor.bus.log == old(distributor.bus.log) + [Write(DistSgi, SelfSgiWord(sgi))]
    {
      if !(sgi < 16) {
        return Err(AssertionFailed);
      }
      if !IsInterruptSupported(sgi) {
        return Err(AssertionFailed);
      }
      distributor.sgi := (sgi as bv32) | TO_SELF;
      distributor.bus.log := distributor.bus.log + [Write(DistSgi, distributor.sgi)];
      return Ok(());
    }

    /**
     * One acknowledge/end-of-interrupt cycle. `iar` is what the acknowledge
     * register returns; the handler receives its id field, and then the whole
     * acknowledge value, source bits included, is written back as completion.
     */
    method HandleIrq(iar: bv32) returns (id: U32)
      requires Valid()
      modifies cpu`eoir, cpu.bus
      ensures id == Hw.IarInterrupt(iar) && id < 1024
      ensures cpu.eoir == iar
      ensures cpu.bus.log == old(cpu.bus.log) + [Read(CpuIar, iar), HandlerCall(id), Write(CpuEoir, iar)]
    {
      cpu.bus.log := cpu.bus.log + [Read(CpuIar, iar)];
      id := Hw.IarInterrupt(iar);
      cpu.bus.log := cpu.bus.log + [HandlerCall(id)];
      cpu.eoir := iar;
      cpu.bus.log := cpu.bus.log + [Write(CpuEoir, iar)];
    }
  }

  // ---------------------------------------------------------------------------
  // The code as written, where it departs from the behaviour modelled above.

  /**
   * Routing as written: the loop bound is the line count rather than the
   * register count, although each target register holds four lines. When it
   * does not abort it has written the routing word to every register from 8
   * up to the line count, past the registers of the implemented lines; it
   * aborts, at index 256, exactly when the line count exceeds the 256 target
   * registers.
   */
  function RoutedTargetsAsWritten(targets: seq<bv32>, typer: bv32, m: bv32): (r: Result<seq<bv32>>)
    requires |targets| == Hw.ITARGET_COUNT
    ensures r.Err? <==> Hw.ItLines(typer) >= 8
    ensures r.Err? ==> r.panic == IndexOutOfBounds(Hw.ITARGET_COUNT)
    ensures r.Ok? ==> |r.value| == |targets| && r.value[PriorityWords(typer)] == m
    ensures r.Ok? ==> forall k :: 8 <= k < MaxInterrupts(typer) ==> r.value[k] == m
    ensures r.Ok? ==> forall k :: 0 <= k < |targets| && !(8 <= k < MaxInterrupts(typer)) ==> r.value[k] == targets[k]
  {
    if MaxInterrupts(typer) <= |targets| then Ok(Filled(targets, 8, MaxInterrupts(typer), m))
    else Err(IndexOutOfBounds(|targets|))
  }

  /**
   * With 288 lines (ItLines = 8) the routing loop as written aborts, while
   * the routing modelled above writes target registers 8..71 only.
   */
  lemma RoutingAsWrittenOverruns(targets: seq<bv32>, m: bv32)
    requires |targets| == Hw.ITARGET_COUNT
    ensures MaxInterrupts(8) == 288 && PriorityWords(8) == 72
    ensures RoutedTargetsAsWritten(targets, 8, m) == Err(IndexOutOfBounds(256))
    ensures |Filled(targets, 8, PriorityWords(8), m)| == Hw.ITARGET_COUNT
  {
  }

  /** The lowest supported id among 0-3 as written: the mask 0xF covers four ids, not the sixteen software interrupts. */
  function FirstSgiAsWritten(supported: seq<bv32>): (r: Option<U32>)
    ensures r.None? <==> forall id :: 0 <= id < 4 ==> !InBitSet(supported, id)
    ensures r.Some? ==> r.value < 4 && InBitSet(supported, r.value)
    ensures r.Some? ==> forall id :: 0 <= id < r.value ==> !InBitSet(supported, id)
  {
    if |supported| == 0 then None
    else
      var low := LowestSetBit(supported[0], 4);
      LowIdsBelow(supported, 4);
      match low
      case None => None
      case Some(k) =>
        LowIdBit(supported, k);
        LowIdsBelow(supported, k);
        Some(k)
  }

  /** With software interrupt 4 the only one supported, the code as written finds none; the model finds 4. */
  lemma FirstSgiAsWrittenMissesSgi4(supported: seq<bv32>)
    requires |supported| == 32 && supported[0] == 0x10
    ensures FirstSgiAsWritten(supported) == None
    ensures FirstSgi(supported) == Some(4)
  {
    assert Bit(4) == 0x10;
    assert BitAt(supported[0], 4);
    assert !BitAt(supported[0], 0) && !BitAt(supported[0], 1) && !BitAt(supported[0], 2) && !BitAt(supported[0], 3);
  }

  /** The check of the software interrupt id as written: `sgi <= 16`, then the supported test. */
  predicate SelfSgiAcceptedAsWritten(supported: seq<bv32>, sgi: U32): (b: bool)
    ensures b <==> (sgi < 16 && InBitSet(supported, sgi)) || (sgi == 16 && InBitSet(supported, 16))
  {
    sgi <= 16 && InBitSet(supported, sgi)
  }

  /**
   * When line 16 (a private peripheral interrupt) is supported, the check as
   * written accepts it, and the word it then writes names software interrupt
   * 0 and sets a bit outside the id field and the target filter.
   */
  lemma SendSgiAsWrittenAliases(supported: seq<bv32>)
    requires |supported| > 0 && BitAt(supported[0], 16)
    ensures SelfSgiAcceptedAsWritten(supported, 16)
    ensures Hw.SgiIntId(SelfSgiWord(16)) == 0
    ensures SelfSgiWord(16) & !0xF != TO_SELF
  {
    LowIdBit(supported, 16);
  }
}
