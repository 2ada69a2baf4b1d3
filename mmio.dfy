/**
 * The Distributor and CPU interface register blocks as the driver sees them.
 * Each register array holds the last word the driver wrote into it; a shared
 * bus records, in order, every access the driver makes to either block.
 * Values the hardware decides (what a set-enable register reads back, the
 * type register, the eight read-only target registers banked per CPU, the
 * acknowledge register) come from outside the model.
 */
module Mmio {
  import Hw

  /** The register arrays the driver accesses: six in the Distributor, one in the CPU interface. */
  datatype RegArray = IsEnable | IcEnable | IcActive | IPriority | ITarget | ICfg | Apr

  /** A register the driver accesses, in either block. */
  datatype Reg =
    | DistCtrl
    | DistTyper
    | DistSgi
    | Elem(arr: RegArray, index: nat)
    | CpuCtrl
    | CpuPmr
    | CpuIar
    | CpuEoir

  /** One step of the driver as the hardware sees it, or the call of the interrupt handler. */
  datatype Event =
    | Read(reg: Reg, value: bv32)
    | Write(reg: Reg, value: bv32)
    | HandlerCall(id: nat)

  /** How many registers each array has. */
  function Capacity(a: RegArray): nat
  {
    match a
    case IsEnable => Hw.ISENABLE_COUNT
    case IcEnable => Hw.ICENABLE_COUNT
    case IcActive => Hw.ICACTIVE_COUNT
    case IPriority => Hw.IPRIORITY_COUNT
    case ITarget => Hw.ITARGET_COUNT
    case ICfg => Hw.ICFG_COUNT
    case Apr => Hw.APR_COUNT
  }

  /** The contents of the six Distributor register arrays. */
  datatype DistArrays = DistArrays(
    isenable: seq<bv32>, icenable: seq<bv32>, icactive: seq<bv32>,
    ipriority: seq<bv32>, itarget: seq<bv32>, icfg: seq<bv32>)

  /** The record of accesses shared by both blocks. */
  class Bus {
    ghost var log: seq<Event>

    constructor ()
      ensures log == []
    {
      log := [];
    }
  }

  class Distributor {
    const bus: Bus
    var ctrl: bv32
    /** The read-only type register, as the hardware reports it. */
    const typer: bv32
    const isenable: array<bv32>
    const icenable: array<bv32>
    const icactive: array<bv32>
    const ipriority: array<bv32>
    const itarget: array<bv32>
    const icfg: array<bv32>
    /** The write-only software interrupt generation register: the last word written. */
    var sgi: bv32

    /** The arrays have their lengths from the register layout and are six distinct arrays. */
    ghost predicate Valid()
    {
      isenable.Length == Hw.ISENABLE_COUNT &&
      icenable.Length == Hw.ICENABLE_COUNT &&
      icactive.Length == Hw.ICACTIVE_COUNT &&
      ipriority.Length == Hw.IPRIORITY_COUNT &&
      itarget.Length == Hw.ITARGET_COUNT &&
      icfg.Length == Hw.ICFG_COUNT &&
      isenable != icenable && isenable != icactive && isenable != ipriority &&
      isenable != itarget && isenable != icfg &&
      icenable != icactive && icenable != ipriority && icenable != itarget && icenable != icfg &&
      icactive != ipriority && icactive != itarget && icactive != icfg &&
      ipriority != itarget && ipriority != icfg &&
      itarget != icfg
    }

    /** What the six register arrays hold. */
    ghost function Arrays(): DistArrays
      reads isenable, icenable, icactive, ipriority, itarget, icfg
    {
      DistArrays(isenable[..], icenable[..], icactive[..], ipriority[..], itarget[..], icfg[..])
    }

    /** The array behind a Distributor register array name. */
    function Array(a: RegArray): array<bv32>
      requires a != Apr
    {
      match a
      case IsEnable => isenable
      case IcEnable => icenable
      case IcActive => icactive
      case IPriority => ipriority
      case ITarget => itarget
      case ICfg => icfg
    }

    /** A block whose control register holds `ctrl` and whose type register reads `typer`. */
    constructor (bus: Bus, ctrl: bv32, typer: bv32)
      ensures Valid()
      ensures this.bus == bus && this.ctrl == ctrl && this.typer == typer && sgi == 0
      ensures fresh(isenable) && fresh(icenable) && fresh(icactive)
      ensures fresh(ipriority) && fresh(itarget) && fresh(icfg)
    {
      this.bus := bus;
      this.ctrl := ctrl;
      this.typer := typer;
      isenable := new bv32[Hw.ISENABLE_COUNT];
      icenable := new bv32[Hw.ICENABLE_COUNT];
      icactive := new bv32[Hw.ICACTIVE_COUNT];
      ipriority := new bv32[Hw.IPRIORITY_COUNT];
      itarget := new bv32[Hw.ITARGET_COUNT];
      icfg := new bv32[Hw.ICFG_COUNT];
      sgi := 0;
    }

    /** A read-modify-write of the control register with field value `fv`. */
    method ModifyCtrl(fv: Hw.FieldValue)
      requires fv.value & !fv.mask == 0
      modifies this`ctrl, bus
      ensures ctrl == Hw.Modify(old(ctrl), fv)
      ensures bus.log == old(bus.log) + CtrlAccess(old(ctrl), ctrl)
    {
      var w := ctrl;
      bus.log := bus.log + [Read(DistCtrl, w)];
      ctrl := Hw.Modify(w, fv);
      bus.log := bus.log + [Write(DistCtrl, ctrl)];
    }
  }

  class CpuInterface {
    const bus: Bus
    var ctrl: bv32
    var pmr: bv32
    const apr: array<bv32>
    /** The write-only end-of-interrupt register: the last word written. */
    var eoir: bv32

    ghost predicate Valid()
    {
      apr.Length == Hw.APR_COUNT
    }

    constructor (bus: Bus, ctrl: bv32, pmr: bv32)
      ensures Valid() && fresh(apr)
      ensures this.bus == bus && this.ctrl == ctrl && this.pmr == pmr && eoir == 0
    {
      this.bus := bus;
      this.ctrl := ctrl;
      this.pmr := pmr;
      apr := new bv32[Hw.APR_COUNT];
      eoir := 0;
    }
  }

  /** The two blocks share one bus and no register array. */
  ghost predicate Separate(d: Distributor, c: CpuInterface)
  {
    d.bus == c.bus &&
    c.apr != d.isenable && c.apr != d.icenable && c.apr != d.icactive &&
    c.apr != d.ipriority && c.apr != d.itarget && c.apr != d.icfg
  }

  /** A read-modify-write of the Distributor control register: `before` read, `after` written. */
  function CtrlAccess(before: bv32, after: bv32): seq<Event>
  {
    [Read(DistCtrl, before), Write(DistCtrl, after)]
  }

  /** `s` with the entries lo..hi-1 replaced by `v`. */
  function Filled(s: seq<bv32>, lo: nat, hi: nat, v: bv32): seq<bv32>
  {
    seq(|s|, k requires 0 <= k < |s| => if lo <= k < hi then v else s[k])
  }

  /** Filling one more entry. */
  lemma FilledStep(s: seq<bv32>, lo: nat, hi: nat, v: bv32)
    requires lo <= hi < |s|
    ensures Filled(s, lo, hi, v)[hi := v] == Filled(s, lo, hi + 1, v)
  {
  }

  /** Concatenation regrouped. */
  lemma AppendAssoc(a: seq<Event>, b: seq<Event>, c: seq<Event>)
    ensures a + (b + c) == (a + b) + c
  {
  }

  /** The writes of `v` to registers lo..hi-1 of array `a`, in increasing order. */
  function WriteTrace(a: RegArray, lo: nat, hi: nat, v: bv32): seq<Event>
    decreases hi
  {
    if hi <= lo then [] else WriteTrace(a, lo, hi - 1, v) + [Write(Elem(a, hi - 1), v)]
  }

  /** The reads of registers 0..hi-1 of array `a`, returning `values`. */
  function ReadTrace(a: RegArray, hi: nat, values: seq<bv32>): seq<Event>
    requires hi <= |values|
  {
    if hi == 0 then [] else ReadTrace(a, hi - 1, values) + [Read(Elem(a, hi - 1), values[hi - 1])]
  }

  /** Writing a register range writes each register once, in increasing order. */
  lemma {:induction false} WriteTraceAt(a: RegArray, lo: nat, hi: nat, v: bv32, k: nat)
    requires lo <= hi
    requires k < hi - lo
    ensures |WriteTrace(a, lo, hi, v)| == hi - lo
    ensures WriteTrace(a, lo, hi, v)[k] == Write(Elem(a, lo + k), v)
    decreases hi
  {
    if k < hi - 1 - lo {
      WriteTraceAt(a, lo, hi - 1, v, k);
    } else {
      WriteTraceLength(a, lo, hi - 1, v);
    }
  }

  lemma {:induction false} WriteTraceLength(a: RegArray, lo: nat, hi: nat, v: bv32)
    requires lo <= hi
    ensures |WriteTrace(a, lo, hi, v)| == hi - lo
    decreases hi
  {
    if lo < hi {
      WriteTraceLength(a, lo, hi - 1, v);
    }
  }

  /** Every event of a register-range write is a write of `v` to a register of the range. */
  lemma {:induction false} WriteTraceEvents(a: RegArray, lo: nat, hi: nat, v: bv32, e: Event)
    requires e in WriteTrace(a, lo, hi, v)
    ensures e.Write? && e.reg.Elem? && e.reg.arr == a && lo <= e.reg.index < hi && e.value == v
    decreases hi
  {
    if lo < hi && e != Write(Elem(a, hi - 1), v) {
      WriteTraceEvents(a, lo, hi - 1, v, e);
    }
  }

  /** A run of reads contains reads only, of registers 0..hi-1 of `a`. */
  lemma {:induction false} ReadTraceEvents(a: RegArray, hi: nat, values: seq<bv32>, e: Event)
    requires hi <= |values|
    requires e in ReadTrace(a, hi, values)
    ensures e.Read? && e.reg.Elem? && e.reg.arr == a && e.reg.index < hi
    ensures e.value == values[e.reg.index]
  {
    if e != Read(Elem(a, hi - 1), values[hi - 1]) {
      ReadTraceEvents(a, hi - 1, values, e);
    }
  }
}
