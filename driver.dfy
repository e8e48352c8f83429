/**
 * The DP83826 driver's entry points (initialisation, tick, interrupt gate,
 * event handler, register access and register dump), acting in place on
 * the host's network interface record.
 */
module Dp83826Driver {
  import opened Dp83826Regs
  import opened LinkStatus
  import opened PhyBus
  import opened InitSequence

  /** error_t, reduced to success and the generic failure code. */
  datatype Error = NoError | ErrorFailure

  /**
   * The fields of the host's NetInterface that the driver reads or writes.
   * `hasSmi` and `hasExtInt` stand for smiDriver != NULL and
   * extIntDriver != NULL.  `responses` is the transceiver: the values it
   * will return to the next register reads.  `trace` records every register
   * transfer and every call into a collaborator, in order.
   */
  class NetInterface {
    var phyAddr: uint8
    var linkState: bool
    var linkSpeed: LinkSpeed
    var duplexMode: DuplexMode
    var phyEvent: bool
    const hasSmi: bool
    const hasExtInt: bool
    var responses: seq<bv16>
    ghost var trace: seq<Op>

    /** The backend register transfers go through: the SMI driver if present, else the NIC driver. */
    function Via(): Backend {
      if hasSmi then Smi else Nic
    }

    /** A freshly configured interface: link down, speed and duplex unknown, no pending event. */
    constructor (phyAddr: uint8, hasSmi: bool, hasExtInt: bool, responses: seq<bv16>)
      ensures this.phyAddr == phyAddr && this.hasSmi == hasSmi && this.hasExtInt == hasExtInt
      ensures this.responses == responses
      ensures !linkState && linkSpeed == SpeedUnknown && duplexMode == UnknownDuplex && !phyEvent
      ensures trace == []
    {
      this.phyAddr := phyAddr;
      this.hasSmi := hasSmi;
      this.hasExtInt := hasExtInt;
      this.responses := responses;
      linkState := false;
      linkSpeed := SpeedUnknown;
      duplexMode := UnknownDuplex;
      phyEvent := false;
      trace := [];
    }

    /** Writes `data` to register `address` of the transceiver at phyAddr. */
    method WritePhyReg(address: uint8, data: bv16)
      modifies this`trace
      ensures trace == old(trace) + [Write(Via(), phyAddr, address, data)]
    {
      if hasSmi {
        trace := trace + [Write(Smi, phyAddr, address, data)];
      } else {
        trace := trace + [Write(Nic, phyAddr, address, data)];
      }
    }

    /** Reads register `address` of the transceiver at phyAddr. */
    method ReadPhyReg(address: uint8) returns (data: bv16)
      modifies this`responses, this`trace
      ensures data == Head(old(responses)) && responses == Drop(old(responses), 1)
      ensures trace == old(trace) + [Read(Via(), phyAddr, address, data)]
    {
      if hasSmi {
        data := Head(responses);
        trace := trace + [Read(Smi, phyAddr, address, data)];
      } else {
        data := Head(responses);
        trace := trace + [Read(Nic, phyAddr, address, data)];
      }
      responses := Drop(responses, 1);
    }

    /** Reads the 32 registers in ascending order, for the debug log only. */
    method DumpPhyReg()
      modifies this`responses, this`trace
      ensures responses == Drop(old(responses), REG_COUNT)
      ensures trace == old(trace) + DumpTrace(Via(), phyAddr, old(responses))
    {
      ghost var script, before := responses, trace;
      for i := 0 to REG_COUNT
        invariant responses == Drop(script, i)
        invariant trace == before + Reads(Via(), phyAddr, RegRange(i), script)
      {
        var value := ReadPhyReg(i as uint8);
        RegRangeStep(Via(), phyAddr, i, script);
        DropDrop(script, i, 1);
      }
    }

    /**
     * Brings the transceiver out of reset: fixes an out-of-range address,
     * runs the collaborators' init hooks, soft-resets the device and waits for
     * the reset bit to clear, dumps the registers, enables the link-change
     * interrupt, and raises phyEvent so that the host polls the link state.
     */
    method Init() returns (error: Error)
      modifies this`phyAddr, this`phyEvent, this`responses, this`trace
      ensures old(phyAddr) >= 32 ==> phyAddr == DEFAULT_PHY_ADDR
      ensures old(phyAddr) < 32 ==> phyAddr == old(phyAddr)
      ensures phyAddr < 32
      ensures error == NoError && phyEvent
      ensures linkState == old(linkState) && linkSpeed == old(linkSpeed) && duplexMode == old(duplexMode)
      ensures responses == Drop(old(responses), InitReadCount(old(responses)))
      ensures trace == old(trace) + InitTrace(Via(), phyAddr, hasSmi, hasExtInt, old(responses))
    {
      ghost var script, before := responses, trace;
      if phyAddr >= 32 {
        phyAddr := DEFAULT_PHY_ADDR;
      }
      if hasSmi {
        trace := trace + [SmiInit];
      }
      if hasExtInt {
        trace := trace + [ExtIntInit];
      }
      ghost var hooks := InitHooks(hasSmi, hasExtInt);
      assert trace == before + hooks;

      ghost var t1 := trace;
      WritePhyReg(BMCR, BMCR_RESET);
      ghost var t2 := trace;
      WaitResetDone();
      ghost var t3 := trace;
      ghost var n := ResetPolls(script);
      DumpPhyReg();
      DropDrop(script, n, REG_COUNT);
      ghost var t4 := trace;

      WritePhyReg(PHYSCR, PHYSCR_INT_EN | PHYSCR_INT_OE);
      WritePhyReg(MISR1, MISR1_LINK_INT_EN);
      phyEvent := true;
      trace := trace + [SetNetEvent];
      ghost var config := [Write(Via(), phyAddr, PHYSCR, PHYSCR_INT_EN | PHYSCR_INT_OE),
                           Write(Via(), phyAddr, MISR1, MISR1_LINK_INT_EN),
                           SetNetEvent];
      assert trace == t4 + config;
      Regroup(before, t1, t2, t3, t4, trace,
              hooks, [Write(Via(), phyAddr, BMCR, BMCR_RESET)], ResetWait(Via(), phyAddr, script),
              DumpTrace(Via(), phyAddr, Drop(script, n)), config);
      error := NoError;
    }

    /**
     * The busy-wait of the initialisation: reads BMCR until a read returns
     * it with the reset bit clear.
     */
    method WaitResetDone()
      modifies this`responses, this`trace
      ensures responses == Drop(old(responses), ResetPolls(old(responses)))
      ensures trace == old(trace) + ResetWait(Via(), phyAddr, old(responses))
    {
      ghost var script, before := responses, trace;
      var value := ReadPhyReg(BMCR);
      ghost var n: nat := 1;
      assert Repeat(BMCR, 1) == [BMCR];
      while Has(value, BMCR_RESET)
        invariant 1 <= n <= |script| + 1
        invariant responses == Drop(script, n)
        invariant value == Head(Drop(script, n - 1))
        invariant n - 1 + ResetPolls(Drop(script, n - 1)) == ResetPolls(script)
        invariant trace == before + Reads(Via(), phyAddr, Repeat(BMCR, n), script)
        decreases |script| + 1 - n
      {
        value := ReadPhyReg(BMCR);
        RepeatStep(Via(), phyAddr, BMCR, n, script);
        DropDrop(script, n, 1);
        n := n + 1;
      }
    }

    /**
     * Polling entry, active only without an external interrupt line: reads
     * BMSR and raises phyEvent when its link bit differs from the stored
     * link state.  The stored link state itself is left for the event
     * handler to commit.
     */
    method Tick()
      modifies this`phyEvent, this`responses, this`trace
      ensures linkState == old(linkState) && linkSpeed == old(linkSpeed) && duplexMode == old(duplexMode)
      ensures hasExtInt ==> phyEvent == old(phyEvent) && responses == old(responses) && trace == old(trace)
      ensures !hasExtInt ==>
        var bmsr := Head(old(responses));
        var changed := BmsrLinkUp(bmsr) != linkState;
        && responses == Drop(old(responses), 1)
        && phyEvent == (old(phyEvent) || changed)
        && trace == old(trace) + [Read(Via(), phyAddr, BMSR, bmsr)] + (if changed then [SetNetEvent] else [])
    {
      if !hasExtInt {
        var value := ReadPhyReg(BMSR);
        var up := Has(value, BMSR_LINK_STATUS);
        if up && !linkState {
          // Link up event
          phyEvent := true;
          trace := trace + [SetNetEvent];
        } else if !up && linkState {
          // Link down event
          phyEvent := true;
          trace := trace + [SetNetEvent];
        }
      }
    }

    /** Enables the transceiver interrupt line, if there is one. */
    method EnableIrq()
      modifies this`trace
      ensures trace == old(trace) + (if hasExtInt then [ExtIntEnable] else [])
    {
      if hasExtInt {
        trace := trace + [ExtIntEnable];
      }
    }

    /** Disables the transceiver interrupt line, if there is one. */
    method DisableIrq()
      modifies this`trace
      ensures trace == old(trace) + (if hasExtInt then [ExtIntDisable] else [])
    {
      if hasExtInt {
        trace := trace + [ExtIntDisable];
      }
    }

    /**
     * Event-driven entry: reads MISR1, which acknowledges the interrupt; on a
     * link-status change reads PHYSTS and commits the link state, speed and
     * duplex it reports, reconfigures the MAC on link up, and notifies the
     * stack of the change.
     */
    method EventHandler()
      modifies this`linkState, this`linkSpeed, this`duplexMode, this`responses, this`trace
      ensures phyEvent == old(phyEvent)
      ensures var misr1 := Head(old(responses));
        !LinkInterrupt(misr1) ==>
          && linkState == old(linkState) && linkSpeed == old(linkSpeed) && duplexMode == old(duplexMode)
          && responses == Drop(old(responses), 1)
          && trace == old(trace) + [Read(Via(), phyAddr, MISR1, misr1)]
      ensures var misr1, physts := Head(old(responses)), Head(Drop(old(responses), 1));
        LinkInterrupt(misr1) && PhystsLinkUp(physts) ==>
          && linkState
          && linkSpeed == PhystsSpeed(physts) && duplexMode == PhystsDuplex(physts)
          && responses == Drop(old(responses), 2)
          && trace == old(trace) + [Read(Via(), phyAddr, MISR1, misr1), Read(Via(), phyAddr, PHYSTS, physts),
                                    UpdateMacConfig(true, linkSpeed, duplexMode), NotifyLinkChange(true)]
      ensures var misr1, physts := Head(old(responses)), Head(Drop(old(responses), 1));
        LinkInterrupt(misr1) && !PhystsLinkUp(physts) ==>
          && !linkState
          && linkSpeed == old(linkSpeed) && duplexMode == old(duplexMode)
          && responses == Drop(old(responses), 2)
          && trace == old(trace) + [Read(Via(), phyAddr, MISR1, misr1), Read(Via(), phyAddr, PHYSTS, physts),
                                    NotifyLinkChange(false)]
    {
      ghost var script := responses;
      var status := ReadPhyReg(MISR1);
      if Has(status, MISR1_LINK_INT) {
        status := ReadPhyReg(PHYSTS);
        DropDrop(script, 1, 1);
        if Has(status, PHYSTS_LINK_STATUS) {
          if Has(status, PHYSTS_SPEED_STATUS) {
            linkSpeed := Speed10Mbps;
          } else {
            linkSpeed := Speed100Mbps;
          }
          if Has(status, PHYSTS_DUPLEX_STATUS) {
            duplexMode := FullDuplex;
          } else {
            duplexMode := HalfDuplex;
          }
          linkState := true;
          trace := trace + [UpdateMacConfig(linkState, linkSpeed, duplexMode)];
        } else {
          linkState := false;
        }
        trace := trace + [NotifyLinkChange(linkState)];
      }
    }
  }
}
