/**
 * What the DP83826 initialisation and the register dump do on the bus, as
 * functions of the transceiver's answers, with the ordering and
 * exactly-once properties of the initialisation sequence.
 */
module InitSequence {
  import opened Dp83826Regs
  import opened LinkStatus
  import opened PhyBus

  /**
   * Number of BMCR reads of the reset wait when the transceiver answers from
   * `script`: the wait reads until a value has the reset bit clear.
   */
  function ResetPolls(script: seq<bv16>): (n: nat)
    ensures 1 <= n <= |script| + 1
    decreases |script|
  {
    if script != [] && Has(script[0], BMCR_RESET) then 1 + ResetPolls(script[1..]) else 1
  }

  /** Every read of the reset wait but the last sees the reset bit set, the last sees it clear. */
  lemma {:induction false} ResetPollsStop(script: seq<bv16>)
    ensures var n := ResetPolls(script);
      && (forall i :: 0 <= i < n - 1 ==> Has(script[i], BMCR_RESET))
      && !Has(Head(Drop(script, n - 1)), BMCR_RESET)
    decreases |script|
  {
    if script != [] && Has(script[0], BMCR_RESET) {
      var n := ResetPolls(script);
      ResetPollsStop(script[1..]);
      forall i | 0 <= i < n - 1 ensures Has(script[i], BMCR_RESET) {
        if i > 0 {
          assert script[i] == script[1..][i - 1];
        }
      }
      assert Drop(script, n - 1) == Drop(script[1..], n - 2);
    }
  }

  /** The reads of the reset wait. */
  function ResetWait(via: Backend, phy: uint8, script: seq<bv16>): (t: seq<Op>)
    ensures |t| == ResetPolls(script)
  {
    Reads(via, phy, Repeat(BMCR, ResetPolls(script)), script)
  }

  /** The reads of the register dump. */
  function DumpTrace(via: Backend, phy: uint8, script: seq<bv16>): (t: seq<Op>)
    ensures |t| == REG_COUNT
  {
    Reads(via, phy, RegRange(REG_COUNT), script)
  }

  /**
   * The dump performs exactly 32 reads, of the registers 0 to 31 in
   * ascending order, all on device `phy` through backend `via`, and returns
   * the transceiver's next 32 answers.
   */
  lemma DumpTraceReads(via: Backend, phy: uint8, script: seq<bv16>)
    ensures var t := DumpTrace(via, phy, script);
      && |t| == REG_COUNT
      && forall i :: 0 <= i < |t| ==>
           t[i].Read? && t[i].via == via && t[i].phy == phy && t[i].reg as int == i
           && t[i].value == Head(Drop(script, i))
  {
    ReadsAt(via, phy, RegRange(REG_COUNT), script);
  }

  /** The init() hooks of the serial management and external interrupt drivers that are present. */
  function InitHooks(hasSmi: bool, hasExtInt: bool): (t: seq<Op>)
    ensures |t| <= 2
    ensures forall i :: 0 <= i < |t| ==> !t[i].Read? && !t[i].Write?
  {
    (if hasSmi then [SmiInit] else []) + (if hasExtInt then [ExtIntInit] else [])
  }

  /**
   * The hooks call smiDriver->init exactly when an SMI driver is present and
   * extIntDriver->init exactly when an interrupt line is present, each at
   * most once, the SMI hook first.
   */
  lemma InitHooksCalls(hasSmi: bool, hasExtInt: bool)
    ensures var t := InitHooks(hasSmi, hasExtInt);
      && (SmiInit in t <==> hasSmi) && (ExtIntInit in t <==> hasExtInt)
      && |t| == (if hasSmi then 1 else 0) + (if hasExtInt then 1 else 0)
      && (hasSmi ==> t[0] == SmiInit)
      && (hasExtInt ==> t[|t| - 1] == ExtIntInit)
  {
  }

  /** A trace extended piece by piece holds the pieces, in order, after its start. */
  lemma Regroup(t0: seq<Op>, t1: seq<Op>, t2: seq<Op>, t3: seq<Op>, t4: seq<Op>, t5: seq<Op>,
                a: seq<Op>, b: seq<Op>, c: seq<Op>, d: seq<Op>, e: seq<Op>)
    requires t1 == t0 + a && t2 == t1 + b && t3 == t2 + c && t4 == t3 + d && t5 == t4 + e
    ensures t5 == t0 + (a + b + c + d + e)
  {
  }

  /** Number of reads the initialisation takes from the script: the reset wait, then the dump. */
  function InitReadCount(script: seq<bv16>): nat {
    ResetPolls(script) + REG_COUNT
  }

  /**
   * The whole initialisation on device `phy` through backend `via`: the
   * hooks, the soft reset, the wait for the reset bit to clear, the dump,
   * the interrupt configuration, and the event that makes the host poll the
   * link state.
   */
  function InitTrace(via: Backend, phy: uint8, hasSmi: bool, hasExtInt: bool, script: seq<bv16>): seq<Op> {
    InitHooks(hasSmi, hasExtInt)
    + [Write(via, phy, BMCR, BMCR_RESET)]
    + ResetWait(via, phy, script)
    + DumpTrace(via, phy, Drop(script, ResetPolls(script)))
    + [Write(via, phy, PHYSCR, PHYSCR_INT_EN | PHYSCR_INT_OE),
       Write(via, phy, MISR1, MISR1_LINK_INT_EN),
       SetNetEvent]
  }

  /**
   * The initialisation writes exactly three registers, in this order: BMCR
   * with the reset bit, then PHYSCR with interrupt enable and interrupt
   * output, then MISR1 with the link-interrupt enable.  So the first write
   * is the reset and each configuration register is written exactly once,
   * PHYSCR before MISR1.
   */
  lemma InitWrites(via: Backend, phy: uint8, hasSmi: bool, hasExtInt: bool, script: seq<bv16>)
    ensures Writes(InitTrace(via, phy, hasSmi, hasExtInt, script))
         == [Write(via, phy, BMCR, BMCR_RESET),
             Write(via, phy, PHYSCR, PHYSCR_INT_EN | PHYSCR_INT_OE),
             Write(via, phy, MISR1, MISR1_LINK_INT_EN)]
  {
    var n := ResetPolls(script);
    WritesNone(InitHooks(hasSmi, hasExtInt));
    ReadsWriteNothing(via, phy, Repeat(BMCR, n), script);
    ReadsWriteNothing(via, phy, RegRange(REG_COUNT), Drop(script, n));
    WritesBetweenReads(InitHooks(hasSmi, hasExtInt),
                       Write(via, phy, BMCR, BMCR_RESET),
                       ResetWait(via, phy, script),
                       DumpTrace(via, phy, Drop(script, n)),
                       Write(via, phy, PHYSCR, PHYSCR_INT_EN | PHYSCR_INT_OE),
                       Write(via, phy, MISR1, MISR1_LINK_INT_EN));
  }

  /** The shape of InitTrace, with everything but the three writes write-free. */
  lemma WritesBetweenReads(hooks: seq<Op>, reset: Op, wait: seq<Op>, dump: seq<Op>, physcr: Op, misr1: Op)
    requires Writes(hooks) == [] && Writes(wait) == [] && Writes(dump) == []
    requires reset.Write? && physcr.Write? && misr1.Write?
    ensures Writes(hooks + [reset] + wait + dump + [physcr, misr1, SetNetEvent]) == [reset, physcr, misr1]
  {
    WritesSingle(reset);
    var p1 := hooks + [reset];
    WritesAppend(hooks, [reset]);
    assert Writes(p1) == [reset];
    var p2 := p1 + wait;
    WritesAppend(p1, wait);
    assert Writes(p2) == [reset];
    var p3 := p2 + dump;
    WritesAppend(p2, dump);
    assert Writes(p3) == [reset];
    WritesConfig(physcr, misr1);
    WritesAppend(p3, [physcr, misr1, SetNetEvent]);
  }

  /** The configuration tail of the initialisation writes two registers. */
  lemma WritesConfig(physcr: Op, misr1: Op)
    requires physcr.Write? && misr1.Write?
    ensures Writes([physcr, misr1, SetNetEvent]) == [physcr, misr1]
  {
    assert [physcr, misr1, SetNetEvent] == [physcr] + [misr1] + [SetNetEvent];
    WritesSingle(physcr);
    WritesSingle(misr1);
    WritesSingle(SetNetEvent);
    WritesAppend([physcr], [misr1]);
    WritesAppend([physcr] + [misr1], [SetNetEvent]);
  }

  /** The reads of the reset wait all address BMCR, and only the last sees the reset bit clear. */
  lemma ResetWaitReads(via: Backend, phy: uint8, script: seq<bv16>)
    ensures var wait := ResetWait(via, phy, script);
      && |wait| == ResetPolls(script)
      && forall j :: 0 <= j < |wait| ==>
           wait[j].Read? && wait[j].via == via && wait[j].phy == phy && wait[j].reg == BMCR
           && (Has(wait[j].value, BMCR_RESET) <==> j < |wait| - 1)
  {
    var wait := ResetWait(via, phy, script);
    var n := ResetPolls(script);
    ReadsAt(via, phy, Repeat(BMCR, n), script);
    ResetPollsStop(script);
    forall j | 0 <= j < |wait|
      ensures wait[j].Read? && wait[j].via == via && wait[j].phy == phy && wait[j].reg == BMCR
      ensures Has(wait[j].value, BMCR_RESET) <==> j < |wait| - 1
    {
      assert wait[j] == Read(via, phy, BMCR, Head(Drop(script, j)));
      if j < n - 1 {
        assert Head(Drop(script, j)) == script[j];
      }
    }
  }

  /** Positions in the initialisation built from its pieces. */
  lemma LayoutOfPieces(hooks: seq<Op>, reset: Op, wait: seq<Op>, dump: seq<Op>, config: seq<Op>)
    requires |config| == 3
    requires forall j :: 0 <= j < |wait| ==>
      wait[j].Read? && wait[j].reg == BMCR && (Has(wait[j].value, BMCR_RESET) <==> j < |wait| - 1)
    requires |dump| == REG_COUNT && forall j :: 0 <= j < |dump| ==> dump[j].Read? && dump[j].reg as int == j
    ensures var t := hooks + [reset] + wait + dump + config;
      var k := |hooks|;
      var n := |wait|;
      && |t| == k + 1 + n + REG_COUNT + 3
      && t[k] == reset
      && (forall i :: k < i <= k + n ==>
            t[i].Read? && t[i].reg == BMCR && (Has(t[i].value, BMCR_RESET) <==> i < k + n))
      && (forall i :: k + n < i <= k + n + REG_COUNT ==>
            t[i].Read? && t[i].reg as int == i - (k + n + 1))
      && t[k + n + REG_COUNT + 1] == config[0]
      && t[k + n + REG_COUNT + 2] == config[1]
      && t[k + n + REG_COUNT + 3] == config[2]
  {
    var t := hooks + [reset] + wait + dump + config;
    var k := |hooks|;
    var n := |wait|;
    forall i | k < i <= k + n
      ensures t[i].Read? && t[i].reg == BMCR && (Has(t[i].value, BMCR_RESET) <==> i < k + n)
    {
      assert t[i] == wait[i - k - 1];
    }
    forall i | k + n < i <= k + n + REG_COUNT
      ensures t[i].Read? && t[i].reg as int == i - (k + n + 1)
    {
      assert t[i] == dump[i - (k + n + 1)];
    }
  }

  /**
   * Where each step of the initialisation sits: after the k hook calls comes
   * the reset write, then n BMCR reads of which only the last sees the reset
   * bit clear, then the 32 dump reads of registers 0 to 31, then the two
   * configuration writes and the host event, which end the sequence.
   */
  lemma InitLayout(via: Backend, phy: uint8, hasSmi: bool, hasExtInt: bool, script: seq<bv16>)
    ensures var t := InitTrace(via, phy, hasSmi, hasExtInt, script);
      var k := |InitHooks(hasSmi, hasExtInt)|;
      var n := ResetPolls(script);
      && |t| == k + 1 + n + REG_COUNT + 3
      && t[k] == Write(via, phy, BMCR, BMCR_RESET)
      && (forall i :: k < i <= k + n ==>
            t[i].Read? && t[i].reg == BMCR && (Has(t[i].value, BMCR_RESET) <==> i < k + n))
      && (forall i :: k + n < i <= k + n + REG_COUNT ==>
            t[i].Read? && t[i].reg as int == i - (k + n + 1))
      && t[k + n + REG_COUNT + 1] == Write(via, phy, PHYSCR, PHYSCR_INT_EN | PHYSCR_INT_OE)
      && t[k + n + REG_COUNT + 2] == Write(via, phy, MISR1, MISR1_LINK_INT_EN)
      && t[k + n + REG_COUNT + 3] == SetNetEvent
  {
    ResetWaitReads(via, phy, script);
    DumpTraceReads(via, phy, Drop(script, ResetPolls(script)));
    LayoutOfPieces(InitHooks(hasSmi, hasExtInt),
                   Write(via, phy, BMCR, BMCR_RESET),
                   ResetWait(via, phy, script),
                   DumpTrace(via, phy, Drop(script, ResetPolls(script))),
                   [Write(via, phy, PHYSCR, PHYSCR_INT_EN | PHYSCR_INT_OE),
                    Write(via, phy, MISR1, MISR1_LINK_INT_EN),
                    SetNetEvent]);
  }

  /** Every register transfer among the pieces goes to device `phy` through backend `via`. */
  lemma OneDeviceOfPieces(via: Backend, phy: uint8, hooks: seq<Op>, wait: seq<Op>, dump: seq<Op>)
    requires forall j :: 0 <= j < |hooks| ==> !hooks[j].Read? && !hooks[j].Write?
    requires forall j :: 0 <= j < |wait| ==> wait[j].Read? && wait[j].via == via && wait[j].phy == phy
    requires forall j :: 0 <= j < |dump| ==> dump[j].Read? && dump[j].via == via && dump[j].phy == phy
    ensures var t := hooks + [Write(via, phy, BMCR, BMCR_RESET)] + wait + dump
                     + [Write(via, phy, PHYSCR, PHYSCR_INT_EN | PHYSCR_INT_OE),
                        Write(via, phy, MISR1, MISR1_LINK_INT_EN),
                        SetNetEvent];
      forall i :: 0 <= i < |t| && (t[i].Read? || t[i].Write?) ==> t[i].via == via && t[i].phy == phy
  {
  }

  /**
   * Every register transfer of the initialisation goes to device `phy`
   * through backend `via`.
   */
  lemma InitOneDevice(via: Backend, phy: uint8, hasSmi: bool, hasExtInt: bool, script: seq<bv16>)
    ensures var t := InitTrace(via, phy, hasSmi, hasExtInt, script);
      forall i :: 0 <= i < |t| && (t[i].Read? || t[i].Write?) ==> t[i].via == via && t[i].phy == phy
  {
    var hooks := InitHooks(hasSmi, hasExtInt);
    ResetWaitReads(via, phy, script);
    DumpTraceReads(via, phy, Drop(script, ResetPolls(script)));
    var wait := ResetWait(via, phy, script);
    var dump := DumpTrace(via, phy, Drop(script, ResetPolls(script)));
    assert forall j :: 0 <= j < |wait| ==> wait[j].Read? && wait[j].via == via && wait[j].phy == phy;
    assert forall j :: 0 <= j < |dump| ==> dump[j].Read? && dump[j].via == via && dump[j].phy == phy;
    OneDeviceOfPieces(via, phy, hooks, wait, dump);
  }
}
