/**
 * Link parameters as the host interface stores them, and how the DP83826
 * reports them in its PHY status register (PHYSTS).
 */
module LinkStatus {
  import opened Dp83826Regs

  /** NicLinkSpeed, restricted to the values this driver reads or writes. */
  datatype LinkSpeed = SpeedUnknown | Speed10Mbps | Speed100Mbps

  /** NicDuplexMode. */
  datatype DuplexMode = UnknownDuplex | HalfDuplex | FullDuplex

  /** Link presence in the basic status register (BMSR). */
  predicate BmsrLinkUp(bmsr: bv16) {
    Has(bmsr, BMSR_LINK_STATUS)
  }

  /** Link presence in the PHY status register. */
  predicate PhystsLinkUp(physts: bv16) {
    Has(physts, PHYSTS_LINK_STATUS)
  }

  /** A link-status-change interrupt is flagged in MISR1. */
  predicate LinkInterrupt(misr1: bv16) {
    Has(misr1, MISR1_LINK_INT)
  }

  /** The speed PHYSTS reports: the speed bit set means 10 Mbit/s, clear 100 Mbit/s. */
  function PhystsSpeed(physts: bv16): (s: LinkSpeed)
    ensures s != SpeedUnknown
  {
    if Has(physts, PHYSTS_SPEED_STATUS) then Speed10Mbps else Speed100Mbps
  }

  /** The duplex mode PHYSTS reports: the duplex bit set means full duplex, clear half. */
  function PhystsDuplex(physts: bv16): (d: DuplexMode)
    ensures d != UnknownDuplex
  {
    if Has(physts, PHYSTS_DUPLEX_STATUS) then FullDuplex else HalfDuplex
  }

  /**
   * The PHYSTS value a transceiver with link up at `speed` and `duplex`
   * presents (other bits clear).  Decoding it gives back exactly the link
   * parameters it was built from.
   */
  function PhystsReport(speed: LinkSpeed, duplex: DuplexMode): (physts: bv16)
    requires speed != SpeedUnknown && duplex != UnknownDuplex
    ensures PhystsLinkUp(physts)
    ensures PhystsSpeed(physts) == speed && PhystsDuplex(physts) == duplex
  {
    PHYSTS_LINK_STATUS
    | (if speed == Speed10Mbps then PHYSTS_SPEED_STATUS else 0)
    | (if duplex == FullDuplex then PHYSTS_DUPLEX_STATUS else 0)
  }

  /**
   * The other direction of the round trip: a link-up PHYSTS value decodes to
   * the parameters whose report agrees with it on the three status bits, so
   * the decoders look at those bits and at nothing else.
   */
  lemma PhystsDecodeComplete(physts: bv16)
    requires PhystsLinkUp(physts)
    ensures var mask := PHYSTS_LINK_STATUS | PHYSTS_SPEED_STATUS | PHYSTS_DUPLEX_STATUS;
      PhystsReport(PhystsSpeed(physts), PhystsDuplex(physts)) == physts & mask
  {
  }
}
