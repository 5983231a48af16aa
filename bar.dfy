/**
 * Base address registers: the fields of a raw BAR value, and the decoded
 * result of sizing one (address and size, memory or I/O).
 */
module Bar {
  import opened Bitfield

  /** `BarCommon::bar_type`, bit 0: 0 for memory space, 1 for I/O space. */
  function BarType(raw: bv32): bv8 { Low8(raw & 0x1) }

  /** `MemorySpaceBar::prefetchable`, bit 3. */
  predicate Prefetchable(raw: bv32) { (raw >> 3) & 1 == 1 }

  /** `MemorySpaceBar::_type`, bits 2..=1: 0 for a 32-bit BAR, 2 for a 64-bit one. */
  function MemoryType(raw: bv32): bv8 { Low8((raw >> 1) & 0x3) }

  /** `IoSpaceBar::addr`: the register with its two low bits cleared. */
  function IoAddr(raw: bv32): bv32 { raw & 0xFFFF_FFFC }

  /** The bar type is one bit. */
  lemma BarTypeIsOneBit(raw: bv32)
    ensures BarType(raw) == 0 || BarType(raw) == 1
  {
  }

  /** The memory type is two bits. */
  lemma MemoryTypeIsTwoBits(raw: bv32)
    ensures MemoryType(raw) <= 3
  {
  }

  /** An I/O address is 4-byte aligned ... */
  lemma IoAddrAligned(raw: bv32)
    ensures IoAddr(raw) & 0x3 == 0
  {
  }

  /** ... and agrees with the register everywhere else. */
  lemma IoAddrKeepsUpperBits(raw: bv32)
    ensures IoAddr(raw) | (raw & 0x3) == raw
  {
  }

  datatype MemoryBarAddrAndSizeU32 = MemoryBarAddrAndSizeU32(addr: bv32, size: bv32)
  datatype MemoryBarAddrAndSizeU64 = MemoryBarAddrAndSizeU64(addr: bv64, size: bv64)

  datatype MemoryBarAddrAndSize =
    | U32(narrow: MemoryBarAddrAndSizeU32)
    | U64(wide: MemoryBarAddrAndSizeU64)

  /** `addr_u64`: the address widened without changing its value. */
  function AddrU64(m: MemoryBarAddrAndSize): (a: bv64)
    ensures m.U32? ==> a >> 32 == 0 && Low32(a) == m.narrow.addr
    ensures m.U64? ==> a == m.wide.addr
  {
    match m
    case U32(x) => x.addr as bv64
    case U64(x) => x.addr
  }

  /** `size_u64`: the size widened without changing its value. */
  function SizeU64(m: MemoryBarAddrAndSize): (s: bv64)
    ensures m.U32? ==> s >> 32 == 0 && Low32(s) == m.narrow.size
    ensures m.U64? ==> s == m.wide.size
  {
    match m
    case U32(x) => x.size as bv64
    case U64(x) => x.size
  }

  /** `addr_and_size_u64`: both widened at once, agreeing with the two accessors. */
  function AddrAndSizeU64(m: MemoryBarAddrAndSize): (r: MemoryBarAddrAndSizeU64)
    ensures r.addr == AddrU64(m) && r.size == SizeU64(m)
  {
    match m
    case U32(x) => MemoryBarAddrAndSizeU64(x.addr as bv64, x.size as bv64)
    case U64(x) => x
  }

  datatype MemoryBarInfo = MemoryBarInfo(addrAndSize: MemoryBarAddrAndSize, prefetchable: bool)
  datatype IoBarInfo = IoBarInfo(addr: bv32, size: bv32)

  datatype BarWithSize =
    | Memory(memory: MemoryBarInfo)
    | Io(io: IoBarInfo)

  /** `slots_len`: a 64-bit memory BAR takes two slots, anything else one. */
  function SlotsLen(b: BarWithSize): (n: bv8)
    ensures n == 1 || n == 2
    ensures n == 2 <==> b.Memory? && b.memory.addrAndSize.U64?
  {
    match b
    case Memory(info) =>
      (match info.addrAndSize
       case U32(_) => 1
       case U64(_) => 2)
    case Io(_) => 1
  }
}
