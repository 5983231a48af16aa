/** A device on a bus (`PciDevice`): which functions may exist, and probing one. */
module Devices {
  import opened Wrappers
  import opened Access
  import opened Functions

  datatype PciDevice = PciDevice(pci: PciAccess, bus: bv8, dev: bv8, multiFunction: bool)
  {
    /** `possible_functions`: 0..=7 for a multi-function device, else 0..=0. */
    function PossibleFunctions(): (r: RangeInclusive)
      ensures forall n: bv8 :: r.Contains(n) <==> if multiFunction then n <= 7 else n == 0
    {
      if multiFunction then RangeInclusive(0, 7) else RangeInclusive(0, 0)
    }

    /** `function`: the function is there unless its vendor id reads as
        all ones; the result keeps this device's bus and device numbers. */
    method Function(n: bv8) returns (r: Option<PciFunction>)
      requires n <= 7
      requires InBounds(pci.Space(), bus, dev, n, 0x0, 2)
      modifies pci
      ensures pci.Space() == old(pci.Space())
      ensures r.None? <==> Word(pci.Space(), bus, dev, n, 0x0) == 0xFFFF
      ensures r.Some? ==> r.value == PciFunction(pci, bus, dev, n)
    {
      var vendorId := pci.ReadU16(bus, dev, n, 0x0);
      if vendorId != 0xFFFF {
        r := Some(PciFunction(pci, bus, dev, n));
      } else {
        r := None;
      }
    }
  }
}
