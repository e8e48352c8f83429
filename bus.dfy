/**
 * The management bus as the driver sees it: the two register-access
 * backends, the observable operations the driver performs (register
 * transfers and calls into its collaborators), and the transceiver's answers
 * to register reads.
 *
 * The transceiver itself is an oracle: a finite script of the values it
 * returns to successive register reads, whatever register is addressed.  A
 * read past the end of the script returns 0.
 */
module PhyBus {
  import opened Dp83826Regs
  import opened LinkStatus

  /** Which driver carries a register transfer: the SMI driver, or the NIC driver's own MDIO. */
  datatype Backend = Smi | Nic

  /** One observable step of the driver, in the order it happens. */
  datatype Op =
    | Read(via: Backend, phy: uint8, reg: uint8, value: bv16)
    | Write(via: Backend, phy: uint8, reg: uint8, value: bv16)
    | SmiInit                // smiDriver->init()
    | ExtIntInit             // extIntDriver->init()
    | ExtIntEnable           // extIntDriver->enableIrq()
    | ExtIntDisable          // extIntDriver->disableIrq()
    | UpdateMacConfig(up: bool, speed: LinkSpeed, duplex: DuplexMode)  // nicDriver->updateMacConfig(interface)
    | NotifyLinkChange(up: bool)                                      // nicNotifyLinkChange(interface)
    | SetNetEvent            // osSetEvent(&netEvent)

  /** The value the transceiver returns to the next read. */
  function Head(script: seq<bv16>): bv16 {
    if script == [] then 0 else script[0]
  }

  /** The script left after `n` reads. */
  function Drop(script: seq<bv16>, n: nat): seq<bv16> {
    if n <= |script| then script[n..] else []
  }

  lemma DropDrop(script: seq<bv16>, m: nat, n: nat)
    ensures Drop(Drop(script, m), n) == Drop(script, m + n)
  {
  }

  /** The registers 0, 1, ..., n-1 in ascending order. */
  function RegRange(n: nat): (regs: seq<uint8>)
    requires n <= 256
    ensures |regs| == n && forall i :: 0 <= i < n ==> regs[i] as int == i
  {
    seq(n, i requires 0 <= i < n => i as uint8)
  }

  /** The register `reg`, `n` times. */
  function Repeat(reg: uint8, n: nat): (regs: seq<uint8>)
    ensures |regs| == n && forall i :: 0 <= i < n ==> regs[i] == reg
  {
    seq(n, _ => reg)
  }

  /**
   * The operations of reading the registers `regs` in order from device `phy`
   * through backend `via`, while the transceiver answers from `script`.
   */
  function Reads(via: Backend, phy: uint8, regs: seq<uint8>, script: seq<bv16>): (t: seq<Op>)
    ensures |t| == |regs|
    decreases |regs|
  {
    if regs == [] then []
    else [Read(via, phy, regs[0], Head(script))] + Reads(via, phy, regs[1..], Drop(script, 1))
  }

  /** The i-th read addresses regs[i] and returns the script's i-th value. */
  lemma {:induction false} ReadsAt(via: Backend, phy: uint8, regs: seq<uint8>, script: seq<bv16>)
    ensures var t := Reads(via, phy, regs, script);
      forall i :: 0 <= i < |regs| ==> t[i] == Read(via, phy, regs[i], Head(Drop(script, i)))
    decreases |regs|
  {
    if regs != [] {
      var t := Reads(via, phy, regs, script);
      var rest := Reads(via, phy, regs[1..], Drop(script, 1));
      ReadsAt(via, phy, regs[1..], Drop(script, 1));
      forall i | 0 <= i < |regs| ensures t[i] == Read(via, phy, regs[i], Head(Drop(script, i))) {
        if i > 0 {
          assert t[i] == rest[i - 1];
          DropDrop(script, 1, i - 1);
        }
      }
    }
  }

  /** Reading one more register extends the operations by that one read. */
  lemma ReadsSnoc(via: Backend, phy: uint8, regs: seq<uint8>, reg: uint8, script: seq<bv16>)
    ensures Reads(via, phy, regs + [reg], script)
         == Reads(via, phy, regs, script) + [Read(via, phy, reg, Head(Drop(script, |regs|)))]
  {
    var longer := regs + [reg];
    var lhs := Reads(via, phy, longer, script);
    var front := Reads(via, phy, regs, script);
    var rhs := front + [Read(via, phy, reg, Head(Drop(script, |regs|)))];
    ReadsAt(via, phy, longer, script);
    ReadsAt(via, phy, regs, script);
    forall i | 0 <= i < |lhs| ensures lhs[i] == rhs[i] {
      if i < |regs| {
        assert longer[i] == regs[i];
        assert lhs[i] == Read(via, phy, regs[i], Head(Drop(script, i)));
        assert rhs[i] == front[i];
      } else {
        assert longer[i] == reg;
      }
    }
    assert |lhs| == |rhs|;
  }

  /** Reading register n after registers 0 to n-1. */
  lemma RegRangeStep(via: Backend, phy: uint8, n: nat, script: seq<bv16>)
    requires n < 256
    ensures Reads(via, phy, RegRange(n + 1), script)
         == Reads(via, phy, RegRange(n), script) + [Read(via, phy, n as uint8, Head(Drop(script, n)))]
  {
    assert RegRange(n + 1) == RegRange(n) + [n as uint8];
    ReadsSnoc(via, phy, RegRange(n), n as uint8, script);
  }

  /** Reading register `reg` once more. */
  lemma RepeatStep(via: Backend, phy: uint8, reg: uint8, n: nat, script: seq<bv16>)
    ensures Reads(via, phy, Repeat(reg, n + 1), script)
         == Reads(via, phy, Repeat(reg, n), script) + [Read(via, phy, reg, Head(Drop(script, n)))]
  {
    assert Repeat(reg, n + 1) == Repeat(reg, n) + [reg];
    ReadsSnoc(via, phy, Repeat(reg, n), reg, script);
  }

  /** The register writes of a sequence of operations, in order. */
  function Writes(t: seq<Op>): (w: seq<Op>)
    ensures |w| <= |t|
    ensures forall i :: 0 <= i < |w| ==> w[i].Write?
  {
    if t == [] then []
    else (if t[0].Write? then [t[0]] else []) + Writes(t[1..])
  }

  lemma {:induction false} WritesAppend(a: seq<Op>, b: seq<Op>)
    ensures Writes(a + b) == Writes(a) + Writes(b)
    decreases |a|
  {
    if a == [] {
      assert a + b == b;
    } else {
      assert (a + b)[0] == a[0];
      assert (a + b)[1..] == a[1..] + b;
      WritesAppend(a[1..], b);
    }
  }

  lemma WritesSingle(op: Op)
    ensures Writes([op]) == if op.Write? then [op] else []
  {
    assert [op][1..] == [];
  }

  /** A sequence of operations without a write has no writes. */
  lemma {:induction false} WritesNone(t: seq<Op>)
    requires forall i :: 0 <= i < |t| ==> !t[i].Write?
    ensures Writes(t) == []
    decreases |t|
  {
    if t != [] {
      WritesNone(t[1..]);
    }
  }

  /** Reads perform no register write. */
  lemma ReadsWriteNothing(via: Backend, phy: uint8, regs: seq<uint8>, script: seq<bv16>)
    ensures Writes(Reads(via, phy, regs, script)) == []
  {
    ReadsAt(via, phy, regs, script);
    WritesNone(Reads(via, phy, regs, script));
  }
}
