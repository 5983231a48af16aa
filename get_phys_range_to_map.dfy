/**
 * The physical window an ECAM segment occupies, computed from an ACPI MCFG
 * allocation entry (`get_phys_range_to_map`).
 */
module PhysRange {

  /** The fields of an MCFG allocation entry this crate reads. */
  datatype McfgEntry = McfgEntry(baseAddress: bv64, busNumberStart: bv8, busNumberEnd: bv8)

  /** Rust's `Range<PhysAddr>`: addresses `start <= a < end`. */
  datatype PhysAddrRange = PhysAddrRange(start: nat, end: nat)

  /** Each bus takes `1 << 20` bytes of ECAM space. */
  const BUS_WINDOW: nat := 0x10_0000

  /** `PhysAddr::new` panics unless bits 52..=63 are clear. */
  const PHYS_ADDR_LIMIT: nat := 0x10_0000_0000_0000

  /** `n_buses`: the u8 subtraction must not underflow. */
  function BusCount(e: McfgEntry): (n: nat)
    requires e.busNumberStart as int <= e.busNumberEnd as int
    ensures 1 <= n <= 256
    ensures e.busNumberStart as int + n == e.busNumberEnd as int + 1
  {
    e.busNumberEnd as int - e.busNumberStart as int + 1
  }

  /**
   * The range to map before building an ECAM transport. The requires are the
   * source's panics: the u8 subtraction, and the u64 additions and
   * `PhysAddr::new` rejecting an address at or above 2^52. Under them the u64
   * arithmetic is exact, so it is written on integers here.
   */
  function GetPhysRangeToMap(e: McfgEntry): (r: PhysAddrRange)
    requires e.busNumberStart as int <= e.busNumberEnd as int
    requires e.baseAddress as int + (e.busNumberEnd as int + 1) * BUS_WINDOW < PHYS_ADDR_LIMIT
    ensures r.start == e.baseAddress as int + e.busNumberStart as int * BUS_WINDOW
    ensures r.end - r.start == BusCount(e) * BUS_WINDOW
    ensures BUS_WINDOW <= r.end - r.start <= 256 * BUS_WINDOW
    ensures (r.end - r.start) % BUS_WINDOW == 0
    ensures r.end == e.baseAddress as int + (e.busNumberEnd as int + 1) * BUS_WINDOW
  {
    var nBuses := BusCount(e);
    var startAddr := e.baseAddress as int + e.busNumberStart as int * BUS_WINDOW;
    var len := nBuses * BUS_WINDOW;
    PhysAddrRange(startAddr, startAddr + len)
  }
}
