/**
 * Register map of the DP83826 Ethernet transceiver as the driver uses it.
 *
 * BMCR and BMSR, with the reset bit (bit 15) and the link-status bit (bit 2),
 * are the basic control and status registers of the Clause 22 management
 * register set (section 22.2.4 of IEEE 802.3).  PHYSTS, PHYSCR and MISR1 are
 * vendor registers of the DP83826 (TI datasheet register map).  The driver's
 * header, drivers/phy/dp83826_driver.h, is not part of this model; the values
 * below are the transceiver's, and everything proved about the driver only
 * uses the facts collected in lemma RegisterMap.
 */
module Dp83826Regs {

  /** An 8-bit unsigned value (uint8_t): PHY and register addresses. */
  newtype uint8 = x: int | 0 <= x < 256

  /** Number of registers in the transceiver's management register bank. */
  const REG_COUNT: nat := 32

  /** Address used when the interface supplies none (DP83826_PHY_ADDR). */
  const DEFAULT_PHY_ADDR: uint8 := 0

  // Register addresses
  const BMCR: uint8 := 0x00
  const BMSR: uint8 := 0x01
  const PHYSTS: uint8 := 0x10
  const PHYSCR: uint8 := 0x11
  const MISR1: uint8 := 0x12

  // Basic mode control register
  const BMCR_RESET: bv16 := 0x8000
  // Basic mode status register
  const BMSR_LINK_STATUS: bv16 := 0x0004
  // PHY status register
  const PHYSTS_DUPLEX_STATUS: bv16 := 0x0004
  const PHYSTS_SPEED_STATUS: bv16 := 0x0002
  const PHYSTS_LINK_STATUS: bv16 := 0x0001
  // PHY specific control register
  const PHYSCR_INT_EN: bv16 := 0x0002
  const PHYSCR_INT_OE: bv16 := 0x0001
  // MAC interrupt status register 1
  const MISR1_LINK_INT: bv16 := 0x2000
  const MISR1_LINK_INT_EN: bv16 := 0x0020

  /** The bit(s) of `mask` are set in `value` (the C test `(value & mask) != 0`). */
  predicate Has(value: bv16, mask: bv16) {
    (value & mask) != 0
  }

  /** `mask` has exactly one bit set. */
  predicate SingleBit(mask: bv16) {
    mask != 0 && (mask & (mask - 1)) == 0
  }

  /**
   * The facts about the register map that the driver's behaviour depends on:
   * the five registers are distinct and inside the 32-register bank, every
   * mask is a single bit, the three PHYSTS bits are distinct, and the default
   * address is a valid one.
   */
  lemma RegisterMap()
    ensures BMCR != BMSR && BMCR != PHYSTS && BMCR != PHYSCR && BMCR != MISR1
    ensures BMSR != PHYSTS && BMSR != PHYSCR && BMSR != MISR1
    ensures PHYSTS != PHYSCR && PHYSTS != MISR1 && PHYSCR != MISR1
    ensures BMCR as int < REG_COUNT && BMSR as int < REG_COUNT && PHYSTS as int < REG_COUNT
    ensures PHYSCR as int < REG_COUNT && MISR1 as int < REG_COUNT
    ensures SingleBit(BMCR_RESET) && SingleBit(BMSR_LINK_STATUS)
    ensures SingleBit(PHYSTS_LINK_STATUS) && SingleBit(PHYSTS_SPEED_STATUS) && SingleBit(PHYSTS_DUPLEX_STATUS)
    ensures PHYSTS_LINK_STATUS != PHYSTS_SPEED_STATUS && PHYSTS_LINK_STATUS != PHYSTS_DUPLEX_STATUS
    ensures PHYSTS_SPEED_STATUS != PHYSTS_DUPLEX_STATUS
    ensures SingleBit(PHYSCR_INT_EN) && SingleBit(PHYSCR_INT_OE) && PHYSCR_INT_EN != PHYSCR_INT_OE
    ensures SingleBit(MISR1_LINK_INT) && SingleBit(MISR1_LINK_INT_EN)
    ensures DEFAULT_PHY_ADDR as int < REG_COUNT
  {
  }
}
