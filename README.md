# DP83826 Ethernet PHY driver — Dafny model

This project models the CycloneTCP driver for the TI DP83826 Ethernet
transceiver (`drivers/phy/dp83826_driver.c`). The driver is a set of
operations over the host's network interface record (`NetInterface`):

- it brings the transceiver out of reset and enables its link-change interrupt;
- it detects link changes by polling the basic status register (`dp83826Tick`);
- it commits link state, speed and duplex from the PHY status register when
  the link interrupt fires (`dp83826EventHandler`);
- it gates the external interrupt line;
- it routes every register transfer to the SMI driver when there is one, and
  to the NIC driver otherwise.

Files and modules:

- `registers.dfy`, module `Dp83826Regs`: register addresses, bit masks, the
  default PHY address, and the facts the driver relies on: distinct
  registers, single-bit masks, default address below 32. BMCR and BMSR, with
  the reset bit and the link-status bit, are the Clause 22 management
  registers of section 22.2.4 of IEEE 802.3.
- `link.dfy`, module `LinkStatus`: link speed and duplex as the interface
  stores them, and the decoding of the PHY status register, with an encoder
  for the round trip.
- `bus.dfy`, module `PhyBus`: the two backends and the observable operations
  the driver performs, recorded as `Op` values. An `Op` is a register read or
  write (backend, PHY address, register, value) or a collaborator call
  (`smiDriver->init`, `extIntDriver->init/enableIrq/disableIrq`,
  `updateMacConfig`, `nicNotifyLinkChange`, `osSetEvent`).
- `init_spec.dfy`, module `InitSequence`: the operations of the
  initialisation and of the register dump, as functions of the transceiver's
  answers, with the ordering and exactly-once lemmas.
- `driver.dfy`, module `Dp83826Driver`: class `NetInterface` and its methods.
  Each method corresponds to one function of the C file and changes the
  interface's fields in place.

The transceiver is an oracle. The field `responses` holds the values it will
return to the next register reads, in order, whatever register is addressed.
Each read consumes one value. A read past the end returns 0. The ghost field
`trace` records every register transfer and collaborator call, so that
ordering and "exactly once" can be stated.

The PHYSTS duplex bit set means full duplex and clear means half duplex
(`drivers/phy/dp83826_driver.c:212-219`); `LinkStatus.PhystsDuplex` follows
this.

## Model

| member | source | states |
|---|---|---|
| Dp83826Regs.RegisterMap | drivers/phy/dp83826_driver.c:84-100 | the five registers the driver uses are distinct and below 32, each mask is a single bit, the three PHYSTS status bits are distinct, and the default PHY address is below 32 |
| LinkStatus.PhystsSpeed | drivers/phy/dp83826_driver.c:201-209 | a link-up report always yields a known speed, never "unknown"; which speed each bit value gives is pinned by the PhystsReport round trip |
| LinkStatus.PhystsDuplex | drivers/phy/dp83826_driver.c:211-219 | a link-up report always yields a known duplex mode, never "unknown"; which mode each bit value gives is pinned by the PhystsReport round trip |
| LinkStatus.PhystsReport | drivers/phy/dp83826_driver.c:199-219 | round trip: a PHYSTS value built for link up at a given speed and duplex is decoded as link up with exactly that speed and duplex |
| LinkStatus.PhystsDecodeComplete | drivers/phy/dp83826_driver.c:199-219 | reverse round trip: for a link-up PHYSTS value, re-encoding the decoded speed and duplex gives back its three status bits, so decoding ignores every other bit |
| PhyBus.ReadsAt | drivers/phy/dp83826_driver.c:270-288 | in a series of register reads, the i-th read addresses the i-th requested register on the same device and backend, and returns the transceiver's i-th answer |
| InitSequence.ResetPolls | drivers/phy/dp83826_driver.c:87-90 | the reset wait performs at least one BMCR read and at most one more read than the transceiver has answers |
| InitSequence.ResetPollsStop | drivers/phy/dp83826_driver.c:87-90 | every BMCR read of the reset wait but the last sees the reset bit set, and the last one sees it clear: the wait ends exactly at the first read with the bit clear |
| InitSequence.ResetWaitReads | drivers/phy/dp83826_driver.c:87-90 | every operation of the reset wait is a BMCR read on the configured device and backend, and only the last one returns the reset bit clear |
| InitSequence.DumpTraceReads | drivers/phy/dp83826_driver.c:301-306 | the dump performs exactly 32 reads, of registers 0 to 31 in ascending order, on the configured device and backend |
| InitSequence.InitHooks | drivers/phy/dp83826_driver.c:72-82 | the init hooks of the SMI and interrupt-line drivers are at most two calls and perform no register transfer |
| InitSequence.InitHooksCalls | drivers/phy/dp83826_driver.c:72-82 | `smiDriver->init` is called exactly when an SMI driver is present and `extIntDriver->init` exactly when an interrupt line is present, each once at most, the SMI hook first |
| InitSequence.InitWrites | drivers/phy/dp83826_driver.c:84-100 | the initialisation writes exactly three registers, in this order: BMCR with the reset bit, PHYSCR with interrupt enable and interrupt output, MISR1 with the link-interrupt enable. So the first write is the reset, and each configuration register is written exactly once, PHYSCR before MISR1 |
| InitSequence.InitLayout | drivers/phy/dp83826_driver.c:84-105 | the positions of the steps: the reset write, then BMCR reads of which only the last has the reset bit clear, then the 32 dump reads, then the PHYSCR write, the MISR1 write and the host event, which ends the sequence |
| InitSequence.InitOneDevice | drivers/phy/dp83826_driver.c:84-100 | every register transfer of the initialisation goes to the same device address and the same backend |
| Dp83826Driver.NetInterface.WritePhyReg | drivers/phy/dp83826_driver.c:246-260 | the write goes to the SMI backend exactly when an SMI driver is present, else to the NIC backend, at the current PHY address, with the given register and value; no field changes |
| Dp83826Driver.NetInterface.ReadPhyReg | drivers/phy/dp83826_driver.c:270-288 | the read goes to the SMI backend exactly when an SMI driver is present, else to the NIC backend, at the current PHY address; it returns the transceiver's next answer and consumes it; no interface field changes |
| Dp83826Driver.NetInterface.DumpPhyReg | drivers/phy/dp83826_driver.c:296-310 | the dump performs exactly the 32 reads of the dump trace, consumes 32 answers, and changes no interface field |
| Dp83826Driver.NetInterface.WaitResetDone | drivers/phy/dp83826_driver.c:87-90 | the busy-wait performs exactly the BMCR reads of the reset wait and consumes exactly that many answers |
| Dp83826Driver.NetInterface.Init | drivers/phy/dp83826_driver.c:60-109 | an address of 32 or more is replaced by the default and a smaller one is kept, so the address is below 32 afterwards. The result is always NO_ERROR with phyEvent raised. Link state, speed and duplex are untouched. The operations are exactly the initialisation sequence on the new address, and the answers consumed are the reset wait's plus 32 |
| Dp83826Driver.NetInterface.Tick | drivers/phy/dp83826_driver.c:117-147 | link state, speed and duplex never change. With an interrupt line there is no read and nothing changes. Without one there is exactly one BMSR read, and phyEvent becomes true exactly when the BMSR link bit differs from the stored link state, keeping its old value otherwise. The host event is signalled exactly in that case |
| Dp83826Driver.NetInterface.EnableIrq | drivers/phy/dp83826_driver.c:155-162 | calls the interrupt line's enable exactly once when the line is present, and does nothing otherwise |
| Dp83826Driver.NetInterface.DisableIrq | drivers/phy/dp83826_driver.c:170-177 | calls the interrupt line's disable exactly once when the line is present, and does nothing otherwise |
| Dp83826Driver.NetInterface.EventHandler | drivers/phy/dp83826_driver.c:185-236 | phyEvent is never touched. With the MISR1 link-interrupt bit clear there is only the MISR1 read and nothing changes. On link up the link state becomes true with the decoded speed and duplex, and the MAC update (seeing those values) is called once, before the single link-change notification. On link down the link state becomes false, speed and duplex are kept, there is no MAC update, and there is one notification |

## Left out

- The dispatch table `dp83826PhyDriver` (lines 44-51) is not modelled: it only lists the five entry points, which are modelled one by one.
- Logging (`TRACE_INFO`, `TRACE_DEBUG`) is left out. The dump is modelled as its sequence of reads only.
- Dp83826Driver.NetInterface.DumpPhyReg: the dump's reads are arguments of `TRACE_DEBUG` (lines 304-305), under the trace level `NIC_TRACE_LEVEL` (line 32). `debug.h` and `nic.h`, which decide whether `TRACE_DEBUG` expands to anything at that level, are not part of this model. The model assumes a build with debug tracing on, in which the dump performs its 32 reads. In a build where `TRACE_DEBUG` expands to nothing, the dump performs no read, and `Init` consumes only the reset wait's answers (`ResetPolls`) rather than `InitReadCount` = `ResetPolls` + 32, with no dump reads between the reset wait and the PHYSCR write.
- The SMI and NIC drivers' transport, and `osSetEvent`, are foreign calls. Transfers and calls appear only as entries in the trace. The transceiver's answers are an input script.
- The script is independent of what the driver writes: the model does not capture how a write changes what the transceiver later returns.
- Termination of the reset busy-wait on real hardware is not modelled. A read past the end of the script returns 0, whose reset bit is clear, so the wait always ends. A transceiver that never clears the reset bit would hang the driver, and the model does not capture that.
- Bus errors are not modelled. The driver has no error path for them.
- Concurrency between the interrupt context and the tick context is left out. Each entry point is atomic and the entry points run one after another.
- `drivers/phy/dp83826_driver.h` is not part of this model. The register addresses, masks and `DP83826_PHY_ADDR` (0) are the transceiver's documented values. The proofs rest on the facts in `Dp83826Regs.RegisterMap`.
- `NicLinkSpeed` and `NicDuplexMode` keep only the values this driver produces, plus "unknown". `error_t` keeps only `NO_ERROR` and a generic failure.
- `smiDriver != NULL` and `extIntDriver != NULL` are the constant fields `hasSmi` and `hasExtInt`: the driver never changes them. `nicDriver` is assumed present, as the source assumes.
- Dp83826Driver.NetInterface.WaitResetDone: the source runs the busy-wait inline in `dp83826Init`. The model gives it a method of its own, which `Init` calls at the same point.
