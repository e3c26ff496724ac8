/** The register word of the pulse generator (`pulsegen.c`).  One write
    starts a burst: the transducer address in the low bits, the number of
    cycles above it and the enable flag at bit 16.  The register write
    itself is not modelled; the function gives the value written. */
module PulseGen {

  /** `pulseGen_GeneratePulse`'s register value
      `(enable << 16) | (cycleCount << 4) | address`.  The C operands are
      promoted to `int` before shifting; no bit is lost, since the widest
      term, `enable << 16`, stays below bit 24. */
  function PulseWord(enable: bv8, address: bv8, cycleCount: bv16): (w: bv32)
    ensures address < 16 && cycleCount < 4096 && enable <= 1 ==>
              && w & 0xF == address as bv32
              && (w >> 4) & 0xFFF == cycleCount as bv32
              && w >> 16 == enable as bv32
  {
    ((enable as bv32) << 16) | ((cycleCount as bv32) << 4) | (address as bv32)
  }

  /** The address is not masked: whatever lies above its four low bits is
      ORed into the cycle-count field. */
  lemma AddressOverlapsCycleCount(enable: bv8, address: bv8, cycleCount: bv16)
    ensures PulseWord(enable, address, cycleCount)
         == PulseWord(enable, address & 0xF, cycleCount | (address >> 4) as bv16)
  {
  }

  /** The cycle count is not masked: whatever lies above its twelve low bits
      is ORed into the enable field. */
  lemma CycleCountOverlapsEnable(enable: bv8, address: bv8, cycleCount: bv16)
    ensures PulseWord(enable, address, cycleCount)
         == PulseWord(enable | (cycleCount >> 12) as bv8, address, cycleCount & 0xFFF)
  {
  }

  /** The burst the ultrasound array starts: enabled, eight cycles, at a
      transducer address no larger than 11. */
  lemma ScanBurstWord(address: bv8)
    requires address <= 11
    ensures PulseWord(1, address, 8) == 0x10080 | address as bv32
  {
  }
}
