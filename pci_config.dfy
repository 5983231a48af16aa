/**
 * The CONFIG_ADDRESS word of Configuration Mechanism #1 (PCI Local Bus
 * Specification 3.0, section 3.2.2.3.2) as the crate's `PciConfig` bitfield
 * declares it. Note the declared bus field, bits 23..=15, which overlaps the
 * device field's bit 15; `AddressWord` applies the setters in the order the
 * transport does, so the device number overwrites bus bit 0.
 */
module PciConfig {
  import opened Bitfield

  predicate Enable(w: bv32) { (w >> 31) & 1 == 1 }
  function SetEnable(w: bv32, on: bool): bv32 { if on then w | 0x8000_0000 else w & !0x8000_0000 }

  function BusNumber(w: bv32): bv8 { Low8((w >> 15) & 0x1FF) }
  function SetBusNumber(w: bv32, bus: bv8): bv32 { (w & !0x00FF_8000) | (((bus as bv32) << 15) & 0x00FF_8000) }

  function DeviceNumber(w: bv32): bv8 { Low8((w >> 11) & 0x1F) }
  function SetDeviceNumber(w: bv32, dev: bv8): bv32 { (w & !0xF800) | (((dev as bv32) << 11) & 0xF800) }

  function FunctionNumber(w: bv32): bv8 { Low8((w >> 8) & 0x7) }
  function SetFunctionNumber(w: bv32, fn: bv8): bv32 { (w & !0x700) | (((fn as bv32) << 8) & 0x700) }

  function RegisterOffset(w: bv32): bv8 { Low8(w & 0xFF) }
  function SetRegisterOffset(w: bv32, off: bv8): bv32 { (w & !0xFF) | ((off as bv32) & 0xFF) }

  /** The word written to the address port: `PciConfig(0)` and then the five
      setters, in the order the transport applies them. */
  function AddressWord(bus: bv8, dev: bv8, fn: bv8, off: bv8): (w: bv32)
    ensures Enable(w) && w & 0x7F80_0000 == 0
  {
    SetRegisterOffset(SetFunctionNumber(SetDeviceNumber(SetBusNumber(SetEnable(0, true), bus), dev), fn), off)
  }

  lemma SetEnableWritesOnlyBit31(w: bv32, on: bool)
    ensures Enable(SetEnable(w, on)) == on
    ensures SetEnable(w, on) & 0x7FFF_FFFF == w & 0x7FFF_FFFF
  {
  }

  /** The bus setter writes bits 23..=15; an 8-bit value never sets bit 23. */
  lemma SetBusNumberWritesOnlyItsField(w: bv32, bus: bv8)
    ensures BusNumber(SetBusNumber(w, bus)) == bus
    ensures SetBusNumber(w, bus) & !0x00FF_8000 == w & !0x00FF_8000
    ensures SetBusNumber(w, bus) & 0x0080_0000 == 0
  {
  }

  lemma SetDeviceNumberWritesOnlyItsField(w: bv32, dev: bv8)
    ensures DeviceNumber(SetDeviceNumber(w, dev)) == dev & 0x1F
    ensures SetDeviceNumber(w, dev) & !0xF800 == w & !0xF800
  {
  }

  lemma SetFunctionNumberWritesOnlyItsField(w: bv32, fn: bv8)
    ensures FunctionNumber(SetFunctionNumber(w, fn)) == fn & 0x7
    ensures SetFunctionNumber(w, fn) & !0x700 == w & !0x700
  {
  }

  lemma SetRegisterOffsetWritesOnlyItsField(w: bv32, off: bv8)
    ensures RegisterOffset(SetRegisterOffset(w, off)) == off
    ensures SetRegisterOffset(w, off) & !0xFF == w & !0xFF
  {
  }

  /** What the port sees: the device, function and offset fields as given, and
      only bus bits 7..=1, in bits 22..=16. */
  lemma AddressWordFields(bus: bv8, dev: bv8, fn: bv8, off: bv8)
    ensures DeviceNumber(AddressWord(bus, dev, fn, off)) == dev & 0x1F
    ensures FunctionNumber(AddressWord(bus, dev, fn, off)) == fn & 0x7
    ensures RegisterOffset(AddressWord(bus, dev, fn, off)) == off
    ensures (AddressWord(bus, dev, fn, off) >> 16) & 0x7F == (bus >> 1) as bv32
  {
    var w := AddressWord(bus, dev, fn, off);
    assert RegisterOffset(w) == off by { SetRegisterOffsetWritesOnlyItsField(SetFunctionNumber(SetDeviceNumber(SetBusNumber(SetEnable(0, true), bus), dev), fn), off); }
  }

  /** For bus 0 the word is the textbook `0x8000_0000 | dev << 11 | fn << 8 | off`. */
  lemma AddressWordBusZero(dev: bv8, fn: bv8, off: bv8)
    requires dev < 32 && fn < 8
    ensures AddressWord(0, dev, fn, off)
         == 0x8000_0000 | ((dev as bv32) << 11) | ((fn as bv32) << 8) | (off as bv32)
  {
  }

  /** The word as packed: bus bits 7..=1 land in bits 22..=16 and bus bit 0
      is overwritten by device bit 4. */
  lemma AddressWordLayout(bus: bv8, dev: bv8, fn: bv8, off: bv8)
    ensures AddressWord(bus, dev, fn, off)
         == 0x8000_0000 | (((bus >> 1) as bv32) << 16) | (((dev & 0x1F) as bv32) << 11)
          | (((fn & 0x7) as bv32) << 8) | (off as bv32)
  {
  }

  /** Two addresses give the same word exactly when they agree on bus bits
      7..=1, the low five device bits, the low three function bits and the
      offset: bus bit 0 never reaches the port. */
  lemma AddressWordEquality(b1: bv8, d1: bv8, f1: bv8, o1: bv8, b2: bv8, d2: bv8, f2: bv8, o2: bv8)
    ensures AddressWord(b1, d1, f1, o1) == AddressWord(b2, d2, f2, o2)
        <==> b1 >> 1 == b2 >> 1 && d1 & 0x1F == d2 & 0x1F && f1 & 7 == f2 & 7 && o1 == o2
  {
    AddressWordLayout(b1, d1, f1, o1);
    AddressWordLayout(b2, d2, f2, o2);
    if AddressWord(b1, d1, f1, o1) == AddressWord(b2, d2, f2, o2) {
      AddressWordFields(b1, d1, f1, o1);
      AddressWordFields(b2, d2, f2, o2);
    }
  }

  /** As a consequence, buses 2k and 2k+1 alias. In the layout of section
      3.2.2.3.2 (bus in bits 23..=16) they would not. */
  lemma BusesAlias(k: bv8, dev: bv8, fn: bv8, off: bv8)
    requires k < 128
    ensures AddressWord(2 * k, dev, fn, off) == AddressWord(2 * k + 1, dev, fn, off)
  {
    AddressWordEquality(2 * k, dev, fn, off, 2 * k + 1, dev, fn, off);
  }
}
