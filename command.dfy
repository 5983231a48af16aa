/**
 * The 16-bit command register at offset 0x4 of every header. Bits 3, 4, 5
 * and 9 are readable only; bit 7 and bits 11..=15 are reserved and have no
 * accessor. Every setter writes its own bit and leaves the other fifteen, so no
 * setter changes a read-only or reserved bit.
 */
module Command {

  predicate IoSpace(c: bv16) { c & 0x0001 != 0 }
  predicate MemorySpace(c: bv16) { c & 0x0002 != 0 }
  predicate BusMaster(c: bv16) { c & 0x0004 != 0 }
  predicate SpecialCycles(c: bv16) { c & 0x0008 != 0 }
  predicate MemoryWriteAndInvalidateEnable(c: bv16) { c & 0x0010 != 0 }
  predicate VgaPaletteSnoop(c: bv16) { c & 0x0020 != 0 }
  predicate ParityErrorResponse(c: bv16) { c & 0x0040 != 0 }
  predicate SerrEnable(c: bv16) { c & 0x0100 != 0 }
  predicate FastBackToBackEnable(c: bv16) { c & 0x0200 != 0 }
  predicate InterruptDisable(c: bv16) { c & 0x0400 != 0 }

  function SetIoSpace(c: bv16, on: bool): bv16 {
    if on then c | 0x0001 else c & 0xFFFE
  }

  /** After `SetIoSpace` its bit reads back as the value written. */
  lemma SetIoSpaceReadsBack(c: bv16, on: bool)
    ensures IoSpace(SetIoSpace(c, on)) == on
  {
  }

  /** `SetIoSpace` leaves every bit outside mask 0x0001 as it was. */
  lemma SetIoSpaceKeepsOtherBits(c: bv16, on: bool)
    ensures SetIoSpace(c, on) & 0xFFFE == c & 0xFFFE
  {
  }

  function SetMemorySpace(c: bv16, on: bool): bv16 {
    if on then c | 0x0002 else c & 0xFFFD
  }

  /** After `SetMemorySpace` its bit reads back as the value written. */
  lemma SetMemorySpaceReadsBack(c: bv16, on: bool)
    ensures MemorySpace(SetMemorySpace(c, on)) == on
  {
  }

  /** `SetMemorySpace` leaves every bit outside mask 0x0002 as it was. */
  lemma SetMemorySpaceKeepsOtherBits(c: bv16, on: bool)
    ensures SetMemorySpace(c, on) & 0xFFFD == c & 0xFFFD
  {
  }

  function SetBusMaster(c: bv16, on: bool): bv16 {
    if on then c | 0x0004 else c & 0xFFFB
  }

  /** After `SetBusMaster` its bit reads back as the value written. */
  lemma SetBusMasterReadsBack(c: bv16, on: bool)
    ensures BusMaster(SetBusMaster(c, on)) == on
  {
  }

  /** `SetBusMaster` leaves every bit outside mask 0x0004 as it was. */
  lemma SetBusMasterKeepsOtherBits(c: bv16, on: bool)
    ensures SetBusMaster(c, on) & 0xFFFB == c & 0xFFFB
  {
  }

  function SetParityErrorResponse(c: bv16, on: bool): bv16 {
    if on then c | 0x0040 else c & 0xFFBF
  }

  /** After `SetParityErrorResponse` its bit reads back as the value written. */
  lemma SetParityErrorResponseReadsBack(c: bv16, on: bool)
    ensures ParityErrorResponse(SetParityErrorResponse(c, on)) == on
  {
  }

  /** `SetParityErrorResponse` leaves every bit outside mask 0x0040 as it was. */
  lemma SetParityErrorResponseKeepsOtherBits(c: bv16, on: bool)
    ensures SetParityErrorResponse(c, on) & 0xFFBF == c & 0xFFBF
  {
  }

  function SetSerrEnable(c: bv16, on: bool): bv16 {
    if on then c | 0x0100 else c & 0xFEFF
  }

  /** After `SetSerrEnable` its bit reads back as the value written. */
  lemma SetSerrEnableReadsBack(c: bv16, on: bool)
    ensures SerrEnable(SetSerrEnable(c, on)) == on
  {
  }

  /** `SetSerrEnable` leaves every bit outside mask 0x0100 as it was. */
  lemma SetSerrEnableKeepsOtherBits(c: bv16, on: bool)
    ensures SetSerrEnable(c, on) & 0xFEFF == c & 0xFEFF
  {
  }

  function SetInterruptDisable(c: bv16, on: bool): bv16 {
    if on then c | 0x0400 else c & 0xFBFF
  }

  /** After `SetInterruptDisable` its bit reads back as the value written. */
  lemma SetInterruptDisableReadsBack(c: bv16, on: bool)
    ensures InterruptDisable(SetInterruptDisable(c, on)) == on
  {
  }

  /** `SetInterruptDisable` leaves every bit outside mask 0x0400 as it was. */
  lemma SetInterruptDisableKeepsOtherBits(c: bv16, on: bool)
    ensures SetInterruptDisable(c, on) & 0xFBFF == c & 0xFBFF
  {
  }

  /** Setting a bit to its current value leaves the register as it was, and
      setting it to the same value twice is the same as setting it once. */
  lemma SetBusMasterIdempotent(c: bv16, on: bool)
    ensures SetBusMaster(c, BusMaster(c)) == c
    ensures SetBusMaster(SetBusMaster(c, on), on) == SetBusMaster(c, on)
  {
  }
}
