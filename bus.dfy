/** A bus (`PciBus`, made by `PciAccess::bus`) and probing a device on it. */
module Buses {
  import opened Wrappers
  import opened Bitfield
  import opened PciConfig
  import opened Access
  import opened HeaderTypes
  import opened Functions
  import opened Devices

  datatype PciBus = PciBus(pci: PciAccess, busNumber: bv8)
  {
    /**
     * `device`: the device is there unless the low half of the dword at 0x0
     * of function 0 is all ones; only then is the header-type byte read, as
     * bits 23..=16 of the dword at 0xC, for its multi-function flag.
     */
    method Device(d: bv8) returns (r: Option<PciDevice>)
      requires d < 32
      requires InBounds(pci.Space(), busNumber, d, 0, 0x0, 4)
      requires Low16(Dword(pci.Space(), busNumber, d, 0, 0x0)) != 0xFFFF ==>
        InBounds(pci.Space(), busNumber, d, 0, 0xC, 4)
      modifies pci
      ensures pci.Space() == old(pci.Space())
      ensures r.None? <==> Low16(Dword(pci.Space(), busNumber, d, 0, 0x0)) == 0xFFFF
      ensures r.Some? ==> r.value == PciDevice(pci, busNumber, d,
        MultiFunction(Low8(Dword(pci.Space(), busNumber, d, 0, 0xC) >> 16)))
      ensures r.None? && pci.mechanism.Pci? ==> pci.configAddress == AddressWord(busNumber, d, 0, 0x0)
    {
      var reg := pci.ReadU32(busNumber, d, 0, 0x0);
      var vendorId := Low16(reg);
      if vendorId != 0xFFFF {
        var headerReg := pci.ReadU32(busNumber, d, 0, 0xC);
        var multiFunction := MultiFunction(Low8(headerReg >> 16));
        r := Some(PciDevice(pci, busNumber, d, multiFunction));
      } else {
        r := None;
      }
    }
  }

  /** `PciAccess::bus`: a handle on one bus of the transport. */
  function Bus(pci: PciAccess, busNumber: bv8): (b: PciBus)
    ensures b.pci == pci && b.busNumber == busNumber
  {
    PciBus(pci, busNumber)
  }

  /** The bus and the device agree on presence: the vendor id `device` takes
      from the dword at 0x0 is the word `function(0)` reads, and the flag
      `device` takes from the dword at 0xC is the one in the header-type
      byte `header_type_byte` reads. */
  lemma BusAndFunctionZeroAgree(s: Space, bus: bv8, d: bv8)
    requires InBounds(s, bus, d, 0, 0x0, 4) && InBounds(s, bus, d, 0, 0xC, 4)
    ensures InBounds(s, bus, d, 0, 0x0, 2) && InBounds(s, bus, d, 0, 0xE, 2)
    ensures Low16(Dword(s, bus, d, 0, 0x0)) == 0xFFFF <==> Word(s, bus, d, 0, 0x0) == 0xFFFF
    ensures MultiFunction(Low8(Dword(s, bus, d, 0, 0xC) >> 16))
        <==> MultiFunction(Low8Of16(Word(s, bus, d, 0, 0xE)))
  {
    IdsAreHalvesOfDword0(s, bus, d, 0);
    HeaderByteOfDwordC(s, bus, d, 0);
  }

  /** The multi-function flag is bit 23 of the dword at 0xC. */
  lemma MultiFunctionIsBit23(reg: bv32)
    ensures MultiFunction(Low8(reg >> 16)) <==> reg & 0x0080_0000 != 0
  {
  }
}
