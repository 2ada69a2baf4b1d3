# GICv2 interrupt-controller driver, modelled in Dafny

This project models the `gicv2` Rust crate, a driver for the ARM Generic
Interrupt Controller version 2 (ARM GIC Architecture Specification v2.0,
chapter 4). It covers the driver's construction, its runtime calls and the
register layout. The driver only reads and writes memory-mapped 32-bit
registers, so the model is built from five parts:

- `hw.dfy` (module `Hw`): the bitfields of the control, type,
  software-interrupt, CPU-control and acknowledge registers. It also holds the
  field-value algebra the register library uses for a read-modify-write
  (`SET`, `CLEAR`, `+`), and the offset and array-length tables of the
  Distributor and CPU interface blocks.
- `mmio.dfy` (module `Mmio`): the two register blocks as classes.
  - Each register array is a `bv32` array that holds the last word the driver
    wrote.
  - A shared `Bus` keeps a ghost log of every access, in order.
  - Values the hardware decides are inputs: the set-enable and clear-enable
    read-backs, the type register, the banked target registers and the
    acknowledge value.
- `bits.dfy` (module `Bits`): the supported and permanent bitsets, which are
  32 words, least significant bit first. It also holds the lowest-set-bit
  search behind `get_first_sgi`.
- `targetmask.dfy` (module `TargetMask`): the byte-lane folds that turn a
  banked target word into the routing word.
- `gic.dfy` (module `Gic`): the driver itself.
  - Construction (`New`) is split into its phases: disable, discovery, the
    trigger and priority defaults, target routing, CPU interface set-up, and
    enable.
  - The runtime calls are members of the class `GicV2`.
  - Spec functions give the array contents and the access sequence of
    construction.
  - The last section holds the code as written where it departs from the
    intended behaviour (see Findings).

Each state-changing method states its complete new state and the exact
accesses it appends to the bus log. The aborts of the source (`panic!`,
`assert!`, an out-of-bounds index) are `Err` results, not preconditions. The
exception is the routing loop's out-of-bounds index: construction uses the
corrected loop bound, and the abort of the loop as written is modelled
separately (see Findings). `Gic.DivCeil` requires a non-zero divisor; its
callers pass the constants 32, 16 and 4, so the division-by-zero abort never
arises.

## Model

| member | source | states |
|---|---|---|
| Hw.Modify | src/lib.rs:128-135 | a read-modify-write stores the field value in the covered bits and keeps every other bit of the old word |
| Hw.ModifyIdempotent | src/lib.rs:128-135 | applying the same read-modify-write twice stores what applying it once does |
| Hw.ModifyOverride | src/lib.rs:128-135 | a second read-modify-write of the same bits overrides the first, whatever the first wrote |
| Hw.ItLines | src/hw.rs:12 | the line-group count field is below 16 |
| Hw.Cpus | src/hw.rs:13 | the CPU-count field is below 8 |
| Hw.Sec | src/hw.rs:14 | the security-extensions field is a single bit |
| Hw.IarInterrupt | src/hw.rs:26 | the id carried by an acknowledge value is below 1024 |
| Hw.SgiIntId | src/hw.rs:17 | the software-interrupt id field is below 16 |
| Hw.ItLinesField | src/hw.rs:12 | the line-group accessor reads exactly bits 0-3 of the type register |
| Hw.CpusField | src/hw.rs:13 | the CPU-count accessor reads exactly bits 5-7 |
| Hw.SecField | src/hw.rs:14 | the security accessor reads exactly bit 10 |
| Hw.IarInterruptField | src/hw.rs:26 | the acknowledge-id accessor reads exactly bits 0-9 |
| Hw.SgiIntIdField | src/hw.rs:17 | the software-interrupt id accessor reads exactly bits 0-3 |
| Hw.FieldValueTable | src/hw.rs:8-24 | the control field values are `ENABLE::SET`, `ENABLE::CLEAR` and `ENABLE::SET + EOI_MODE::CLEAR` built from the field definitions |
| Hw.CpuCtrlInitWord | src/lib.rs:162-165 | the CPU interface control write stores the word 1: interface enabled, combined completion mode, both bypass-disable bits clear |
| Hw.WellFormedNonOverlapping | src/hw.rs:30-88 | in a well-formed layout table every slot ends no later than any later slot starts |
| Hw.WellFormedContiguous | src/hw.rs:30-88 | in a well-formed layout table a register or register array ends exactly where the next slot begins |
| Hw.DistributorLayoutWellFormed | src/hw.rs:30-67 | the Distributor table is a chain of adjacent, non-overlapping slots closed at 0x1000 |
| Hw.CpuLayoutWellFormed | src/hw.rs:68-88 | the CPU interface table is such a chain, with `dir` at 0x1000 and the end at 0x1004 |
| Mmio.Distributor.constructor | src/hw.rs:30-67 | a Distributor block with the given control and type registers and register arrays of the layout's lengths |
| Mmio.Distributor.ModifyCtrl | src/lib.rs:29 | a read-modify-write of the control register: one read of the old word, then one write of the modified word |
| Mmio.WriteTraceAt | src/lib.rs:61-68 | a register-range loop writes each register of the range exactly once, in increasing order |
| Mmio.WriteTraceEvents | src/lib.rs:61-68 | every access of a register-range loop is a write of its value to a register of that range |
| Mmio.ReadTraceEvents | src/lib.rs:75-82 | every access of the banked target scan is a read of a register below the scan length |
| Bits.LowIdsBelow | src/lib.rs:112-117 | for n up to 32, no id below n is in a bitset exactly when bits 0..n-1 of word 0 are clear |
| Bits.TrailingZeros | src/lib.rs:173 | the trailing-zero count is 32 exactly for the zero word, and otherwise the index of the lowest set bit |
| Bits.LowestSetBit | src/lib.rs:169-173 | masking to the low bits and counting trailing zeros yields None exactly when those bits are all clear, and otherwise the lowest set bit among them |
| TargetMask.FoldZero | src/lib.rs:76-79 | the right-shift folds keep a banked word zero exactly when it was zero |
| TargetMask.FoldLane0 | src/lib.rs:77-78 | after the right-shift folds, the low byte is the OR of all four byte lanes |
| TargetMask.SpreadLane3 | src/lib.rs:88-89 | after the left-shift folds, the top byte is the OR of all four lanes of the folded word |
| TargetMask.CpuMaskLanes | src/lib.rs:76-89 | every byte lane of the routing word is the OR of the four lanes of the banked word read, and the routing word is zero exactly when that word is |
| TargetMask.CpuMaskZero | src/lib.rs:79-86 | the routing word is zero exactly when the banked word is zero |
| Gic.DivCeil | src/lib.rs:192-205 | the result is the ceiling quotient: `(x - 1) * divisor < dividend <= x * divisor` |
| Gic.InterruptCounts | src/lib.rs:33-38 | the line count and the enable, configuration and priority register counts derived from the type register |
| Gic.MaxInterrupts | src/lib.rs:33-34 | the line count lies in 32..512 and is a multiple of 32 |
| Gic.CpuInterfaceCount | src/lib.rs:32 | the CPU interface count lies in 1..8 |
| Gic.EnableWords | src/lib.rs:36 | one enable word per 32 lines, within the 32-word enable and active arrays |
| Gic.ConfigWords | src/lib.rs:37 | one configuration word per 16 lines, at least 2 and within the 64-word array |
| Gic.PriorityWords | src/lib.rs:38 | one priority word per 4 lines, at least 8 and within the 256-word priority and target arrays |
| Gic.DiscoveredMembership | src/lib.rs:42-57 | an id is in a discovered bitset exactly when it is below 32 * (itlines + 1) and its bit was set in the word read back; no id at or above 1024 is ever in it |
| Gic.FirstNonZero | src/lib.rs:75-82 | the index of the first non-zero entry at or after `from`, or None exactly when all of those entries are zero |
| Gic.BankedMask | src/lib.rs:75-86 | None exactly when all eight banked target words are zero |
| Gic.DisabledCtrl | src/lib.rs:128-130 | disabling clears bit 0 and keeps every other bit |
| Gic.EnabledCtrl | src/lib.rs:133-135 | enabling sets bit 0 and keeps every other bit |
| Gic.EnableDisableIdempotent | src/lib.rs:128-135 | enabling or disabling twice is doing it once, and each undoes the other |
| Gic.DefaultPriorityPassesMask | src/lib.rs:67 | every byte of the default priority 0xa0a0a0a0 is below the priority mask 0xf0 set in `cpu_init`, so the default passes |
| Gic.SelfSgiWordFields | src/lib.rs:179 | for an id below 16, the generation word names that id in its id field and otherwise holds only the requesting-CPU filter |
| Gic.FirstSgi | src/lib.rs:168-174 | None exactly when none of ids 0-15 is supported, and otherwise the lowest supported one among them (the corrected mask, see Findings) |
| Gic.DiscoverTraceEvents | src/lib.rs:45-57 | every access of discovery touches the clear-active, set-enable or clear-enable word of a probed index, and its writes are all ones |
| Gic.ConfigureTraceWrites | src/lib.rs:29-68 | before routing, construction writes only register arrays and the control register, and writes the latter only to disable it |
| Gic.CpuInitTraceWrites | src/lib.rs:156-166 | the CPU interface set-up writes only the priority mask, the active-priority registers and the CPU control register |
| Gic.RoutingTraceWrites | src/lib.rs:70-95 | routing writes only the routing word, only to target registers 8..PriorityWords-1 |
| Gic.InitTraceWrites | src/lib.rs:24-109 | construction writes only register arrays, the priority mask and the two control registers. It writes the Distributor control register only to disable it and then to enable it |
| Gic.InitTraceOpens | src/lib.rs:29-31 | construction begins with the disabling read-modify-write of the control register, then the type register read |
| Gic.InitTraceCloses | src/lib.rs:105-106 | construction ends with the enabling read-modify-write of the control register, after the CPU interface set-up |
| Gic.ProgrammedLine | src/lib.rs:42-95 | every implemented line has these registers after construction: all ones in its enable and active words, the default priority in its priority word, and level-triggered in its trigger word past line 32. With several CPU interfaces, each shared line's target word holds the routing word |
| Gic.RoutedTargetsCoverSharedLines | src/lib.rs:88-94 | routing writes target register k exactly when 8 <= k and line 4k exists; every other register, banked ones included, keeps its value |
| Gic.ProbeWord | src/lib.rs:46-54 | one probe clears the active word, writes all ones to the set-enable and the clear-enable word, and returns the two read-backs |
| Gic.Discover | src/lib.rs:42-57 | both bitsets hold the read-backs of the probed words and 0 beyond; the probed words of the three arrays hold all ones |
| Gic.WriteRange | src/lib.rs:61-68 | a register-range loop fills exactly registers lo..hi-1 and logs their writes in order |
| Gic.SetDefaults | src/lib.rs:59-68 | trigger words 2..ConfigWords-1 become level-triggered and priority words 0..PriorityWords-1 the default; words 0 and 1 are untouched |
| Gic.Configure | src/lib.rs:28-68 | the disable, type register read, discovery and defaults: the control word, the five arrays and the exact access sequence afterwards |
| Gic.ScanBankedTargets | src/lib.rs:75-86 | reads the banked target registers up to the first non-zero one and returns the folded word of the first non-zero one, or 0 exactly when all eight are zero |
| Gic.Route | src/lib.rs:70-95 | aborts exactly when several CPU interfaces exist and every banked word is zero; otherwise writes the spread routing word to the shared target registers |
| Gic.Program | src/lib.rs:28-95 | the Distributor part of construction, with the corrected routing bound. It aborts exactly as routing does, declares the six arrays' new contents on both paths, and returns the discovered bitsets |
| Gic.New | src/lib.rs:24-109 | construction, with the corrected routing bound. It aborts exactly when no CPU mask can be determined. Otherwise the Distributor is enabled, the CPU interface is set up and the accesses follow InitTrace. The array contents are stated on both paths |
| Gic.Finish | src/lib.rs:97-107 | the driver value, then the CPU interface set-up, then the enable as the last access |
| Gic.GicV2.NumCpuInterfaces | src/lib.rs:139-141 | the reported count lies in 1..8 |
| Gic.GicV2.IsInterruptSupported | src/lib.rs:111-117 | true exactly when the id lies inside the supported bitset and its bit is set; false for any id beyond it. With `Gic.New`'s `supported ==` ensures and `Gic.DiscoveredMembership`, that is an id below the line count whose set-enable read-back bit was set |
| Gic.GicV2.IsInterruptPermanent | src/lib.rs:119-125 | true exactly when the id lies inside the permanent bitset and its bit is set; false for any id beyond it. With `Gic.New`'s `permanent ==` ensures and `Gic.DiscoveredMembership`, that is an id below the line count whose clear-enable read-back bit was set |
| Gic.GicV2.DistributorDisable | src/lib.rs:128-130 | clears bit 0 of the control register with one read and one write |
| Gic.GicV2.DistributorEnable | src/lib.rs:133-135 | sets bit 0 of the control register with one read and one write |
| Gic.GicV2.InterruptUnmask | src/lib.rs:143-152 | aborts exactly for unsupported ids, touching nothing. Otherwise it writes just the id's bit to its set-enable word, an in-bounds index, and makes no other access |
| Gic.GicV2.CpuInit | src/lib.rs:156-166 | priority mask 0xf0, the four active-priority registers zero, the control word 1, in that order |
| Gic.GicV2.GetFirstSgi | src/lib.rs:168-174 | None exactly when no id 0-15 is supported, and otherwise the lowest supported id among them (the corrected mask, see Findings) |
| Gic.GicV2.SendSgiToSelf | src/lib.rs:176-180 | succeeds exactly for a supported id below 16, writing the id with the requesting-CPU filter (`2 << 24`) and nothing else; otherwise aborts with no access (the corrected bound, see Findings) |
| Gic.GicV2.HandleIrq | src/lib.rs:182-189 | one acknowledge read, the handler called with its 10-bit id, then the whole acknowledge value written as end of interrupt |
| Gic.RoutedTargetsAsWritten | src/lib.rs:91-94 | the routing loop as written aborts exactly when itlines >= 8; otherwise it writes the routing word to every register from 8 to the line count, including register PriorityWords, which holds no implemented line, and every other register, 0-7 included, keeps its value |
| Gic.RoutingAsWrittenOverruns | src/lib.rs:91-94 | with itlines = 8 (288 lines) the loop as written aborts at index 256, where the corrected bound stops at register 72 |
| Gic.FirstSgiAsWritten | src/lib.rs:168-174 | the search as written: None exactly when none of ids 0-3 is supported, and otherwise the lowest supported id, which is below 4 |
| Gic.FirstSgiAsWrittenMissesSgi4 | src/lib.rs:169 | with only software interrupt 4 supported, the code as written returns None and the corrected search returns 4 |
| Gic.SelfSgiAcceptedAsWritten | src/lib.rs:177-178 | the check as written accepts exactly the ids the corrected check accepts, plus 16 when line 16 is supported |
| Gic.SendSgiAsWrittenAliases | src/lib.rs:177-179 | when line 16 is supported the check as written accepts 16, and the word written then names software interrupt 0 and sets a bit outside the id field and the filter |

## Left out

- Volatile register access (`tock_registers`) and the `bitvec` internals are foreign library code. Registers are plain `bv32` storage, and the bitsets are 32-word sequences.
- `critical_section::with`, the raw-pointer casts, `unsafe impl Sync` and `unsafe fn` carry no logic; the model is single-threaded.
- The `GicType` argument is unused by the driver and is not modelled. The security-extensions field is read and discarded: `Hw.Sec` exists but nothing uses it.
- Hardware semantics are inputs, not modelled behaviour:
  - what a set-enable or clear-enable register reads back after the all-ones write;
  - what the banked target registers read on this CPU;
  - the type register;
  - which interrupt the acknowledge register returns.

  Pending and active hardware state, priority arbitration and routing by the hardware are out of scope. So is any claim that a probed line has no pending or active bit after construction.
- The handler closure is opaque; the log records only the id it is called with (`HandlerCall`).
- Registers the driver never touches appear only as offsets in the layout table.
- The Distributor control register reads back the stored word; the model does not capture bits the hardware might change on its own. The banked target registers 0-7 are read from the `banked` input of `Gic.Route`, `Gic.Program` and `Gic.New`, independent of the stored `itarget[0..8)`.
- Every abort is an `Err` result. The only state afterwards that the model states is the accesses made before the abort, as the trace ensures of `Gic.Program` and `Gic.New` give.
- Gic.InitTraceWrites: does not restate that every register-array index is inside its array. That is proved where the writes happen: the array updates of `Gic.WriteRange`, `Gic.ProbeWord` and `Gic.GicV2.CpuInit` must be in bounds to verify.
- Gic.RoutedTargetsAsWritten: on the abort path it does not give the target registers 8..255 that the loop as written fills before it reaches index 256.
- Gic.GicV2.GetFirstSgi: models the evidently intended 16-id search, not the 4-id mask as written. The as-written search is `Gic.FirstSgiAsWritten`.
- Gic.GicV2.SendSgiToSelf: models the evidently intended bound `sgi < 16`, not `sgi <= 16` as written. The as-written check is `Gic.SelfSgiAcceptedAsWritten`.
- Gic.Program: routes with the corrected bound, as `Gic.Route` does. With itlines >= 8 and several CPU interfaces the source writes `itarget[8..256)` and then aborts at index 256; the model returns `Ok`. That abort is `Gic.RoutedTargetsAsWritten`.
- Gic.New: builds on `Gic.Program`, so the same holds. In that case the source never reaches the CPU interface set-up or the enable; the model goes on to both. Its "aborts exactly when no CPU mask can be determined" is about the corrected routing.
- Gic.Route: writes target registers 8..PriorityWords-1, the evidently intended bound, not 8..max_interrupts-1 as written. The as-written loop is `Gic.RoutedTargetsAsWritten`.
- 32-bit wrap-around does not arise. The driver's counts are at most 512 and its shifts are below 32, so unbounded `int` arithmetic with a `U32` range type is exact.

## Findings

| source | as written | input that shows it | evidently intended | confidence | as-written member | corrected member |
|---|---|---|---|---|---|---|
| src/lib.rs:91-94 | routing writes `itarget[i]` for `i` in `8..max_interrupts`; a target register holds four lines, and the array has 256 registers | type register with itlines = 8: 288 lines, so the loop indexes register 256 and aborts; with itlines < 8 it writes registers of lines that do not exist | loop over `8..max_ipriority`, the target registers of the implemented shared lines | high; not executed | Gic.RoutingAsWrittenOverruns | Gic.RoutedTargetsCoverSharedLines |
| src/lib.rs:169 | `supported.data[0] & 0xF`, which keeps ids 0-3 | word 0 of the supported set is 0x10 (only software interrupt 4): returns None | mask `0xFFFF`, all sixteen software interrupts | medium; not executed | Gic.FirstSgiAsWrittenMissesSgi4 | Gic.FirstSgi |
| src/lib.rs:177 | `assert!(sgi <= 16)` | sgi = 16 with line 16 supported: accepted, and the word 0x0200_0010 raises software interrupt 0 | `sgi < 16` | high; not executed | Gic.SendSgiAsWrittenAliases | Gic.GicV2.SendSgiToSelf |
