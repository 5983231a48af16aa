/**
 * The configuration-space transport (`PciAccess`). The legacy mechanism
 * writes an address word to CONFIG_ADDRESS (port 0xCF8) and then moves a
 * dword through CONFIG_DATA (port 0xCFC); the ECAM mechanism reads and writes
 * a memory-mapped window laid out per bus, device, function and offset.
 *
 * The registers behind the ports are modelled as a map from address word to
 * dword, and the mapped window as an array of bytes. `Space` is the pure view
 * of either, and the spec functions `Dword`, `Word`, `WithDword` and
 * `WithWord` say what the four accessors read and write.
 */
module Access {
  import opened Bitfield
  import opened Bytes
  import opened PciConfig
  import opened PhysRange

  /** The two variants of `PciAccess`. */
  datatype Mechanism = Pci | Pcie(mcfgEntry: McfgEntry)

  /** Rust's `RangeInclusive<u8>`. */
  datatype RangeInclusive = RangeInclusive(first: bv8, last: bv8) {
    predicate Contains(x: bv8) { first as int <= x as int <= last as int }
  }

  /** A word written to CONFIG_ADDRESS, as the key of the register it selects. */
  datatype ConfigAddress = ConfigAddress(word: bv32)

  /** Configuration space as one mechanism sees it. */
  datatype Space =
    | Ports(data: map<ConfigAddress, bv32>)
    | Mapped(mcfgEntry: McfgEntry, bytes: seq<bv8>)

  /** What CONFIG_DATA returns for an address word; a function that is not
      there answers with all ones. */
  function PortValue(data: map<ConfigAddress, bv32>, address: bv32): bv32
  {
    if ConfigAddress(address) in data then data[ConfigAddress(address)] else 0xFFFF_FFFF
  }

  /**
   * The byte offset of a register in the mapped window: the bus offset from
   * the segment's first bus lands at bit 20, the device at bit 15, the
   * function at bit 12. The source ORs the shifted fields; for a device below
   * 32 and a function below 8 they do not overlap, and the OR is this sum
   * (`EcamOffsetOrIsSum`).
   */
  function EcamOffset(e: McfgEntry, bus: bv8, dev: bv8, fn: bv8, off: bv8): nat
    requires e.busNumberStart as int <= bus as int
  {
    (bus as int - e.busNumberStart as int) * 0x10_0000 + dev as int * 0x8000 + fn as int * 0x1000 + off as int
  }

  /** The OR of the shifted fields, as the source writes it, is their sum. */
  lemma EcamOffsetOrIsSum(start: bv8, bus: bv8, dev: bv8, fn: bv8, off: bv8)
    requires start <= bus && dev < 32 && fn < 8
    ensures ((((bus - start) as bv64) << 20) | ((dev as bv64) << 15) | ((fn as bv64) << 12) | (off as bv64))
         == ((bus - start) as bv64) * 0x10_0000 + (dev as bv64) * 0x8000 + (fn as bv64) * 0x1000 + (off as bv64)
  {
  }

  /**
   * The register can be reached without a panic. The ports always answer.
   * Through the mapping, `bus - bus_number_start` must not underflow and the
   * chunk index `offset / width` must lie inside `as_chunks`; device and
   * function must be in range for `EcamOffset` to be the source's OR.
   */
  predicate InBounds(s: Space, bus: bv8, dev: bv8, fn: bv8, off: bv8, width: nat)
    requires width == 2 || width == 4
  {
    match s
    case Ports(_) => true
    case Mapped(e, bytes) =>
      e.busNumberStart as int <= bus as int && dev as int < 32 && fn as int < 8
      && EcamOffset(e, bus, dev, fn, off) / width < |bytes| / width
  }

  /** Where the chunk holding a register starts in the mapped window:
      `as_chunks` of `width` bytes, index `offset / width`. */
  function Chunk(s: Space, bus: bv8, dev: bv8, fn: bv8, off: bv8, width: nat): (i: nat)
    requires s.Mapped? && (width == 2 || width == 4) && InBounds(s, bus, dev, fn, off, width)
    ensures i % width == 0 && i + width <= |s.bytes|
  {
    var q := EcamOffset(s.mcfgEntry, bus, dev, fn, off) / width;
    ChunkFits(q, width, |s.bytes|);
    q * width
  }

  /** Chunk `q` of `width` bytes is aligned and lies inside a window of `n`
      bytes when `q` is below the window's chunk count. */
  lemma ChunkFits(q: nat, width: nat, n: nat)
    requires (width == 2 || width == 4) && q < n / width
    ensures (q * width) % width == 0 && q * width + width <= n
  {
    if width == 2 {
      assert q * 2 + 2 <= n / 2 * 2;
    } else {
      assert q * 4 + 4 <= n / 4 * 4;
    }
  }

  /** The whole 256-byte configuration space of one function can be reached. */
  predicate FunctionInBounds(s: Space, bus: bv8, dev: bv8, fn: bv8)
  {
    match s
    case Ports(_) => true
    case Mapped(e, bytes) =>
      e.busNumberStart as int <= bus as int && dev as int < 32 && fn as int < 8
      && EcamOffset(e, bus, dev, fn, 0) + 0x100 <= |bytes|
  }

  /** `read_u32`: the dword at a 4-aligned offset. */
  function Dword(s: Space, bus: bv8, dev: bv8, fn: bv8, off: bv8): bv32
    requires off % 4 == 0 && InBounds(s, bus, dev, fn, off, 4)
  {
    match s
    case Ports(data) => PortValue(data, AddressWord(bus, dev, fn, off))
    case Mapped(e, bytes) =>
      var i := Chunk(s, bus, dev, fn, off, 4);
      FromLe32(bytes[i..i + 4])
  }

  /** `(dword >> bit_index) as u16` with `bit_index = 8 * (off % 4)`, for the
      word at `off` inside the dword that holds it; at a 2-aligned offset
      `bit_index` is 0 or 16. */
  function HalfAt(v: bv32, off: bv8): bv16
  {
    if off % 4 == 0 then Low16(v) else Low16(v >> 16)
  }

  /** `(reg & !change_mask) | ((value as u32) << bit_index)` with
      `change_mask = 0xFFFF << bit_index`, `bit_index` as in `HalfAt`. */
  function MergeHalf(reg: bv32, off: bv8, v: bv16): bv32
  {
    if off % 4 == 0 then (reg & 0xFFFF_0000) | (v as bv32)
    else (reg & 0x0000_FFFF) | ((v as bv32) << 16)
  }

  /** `read_u16`: the word at a 2-aligned offset. The ports move whole
      dwords, so the legacy mechanism reads the enclosing dword and shifts. */
  function Word(s: Space, bus: bv8, dev: bv8, fn: bv8, off: bv8): bv16
    requires off % 2 == 0 && InBounds(s, bus, dev, fn, off, 2)
  {
    match s
    case Ports(data) => HalfAt(PortValue(data, AddressWord(bus, dev, fn, off / 4 * 4)), off)
    case Mapped(e, bytes) =>
      var i := Chunk(s, bus, dev, fn, off, 2);
      FromLe16(bytes[i..i + 2])
  }

  /** Both views have the same mechanism and, when mapped, the same window. */
  predicate SameShape(s1: Space, s2: Space)
  {
    match s1
    case Ports(_) => s2.Ports?
    case Mapped(e, bytes) => s2.Mapped? && s2.mcfgEntry == e && |s2.bytes| == |bytes|
  }

  /** `write_u32`: the space after storing `v` at a 4-aligned offset. */
  function WithDword(s: Space, bus: bv8, dev: bv8, fn: bv8, off: bv8, v: bv32): (r: Space)
    requires off % 4 == 0 && InBounds(s, bus, dev, fn, off, 4)
    ensures SameShape(s, r)
  {
    match s
    case Ports(data) => Ports(data[ConfigAddress(AddressWord(bus, dev, fn, off)) := v])
    case Mapped(e, bytes) =>
      var i := Chunk(s, bus, dev, fn, off, 4);
      Mapped(e, Splice(bytes, i, ToLe32(v)))
  }

  /** `write_u16`: the space after storing `v` at a 2-aligned offset. The legacy
      mechanism reads the enclosing dword, merges the half and writes it back. */
  function WithWord(s: Space, bus: bv8, dev: bv8, fn: bv8, off: bv8, v: bv16): (r: Space)
    requires off % 2 == 0 && InBounds(s, bus, dev, fn, off, 2)
    ensures SameShape(s, r)
  {
    match s
    case Ports(data) =>
      var address := AddressWord(bus, dev, fn, off - off % 4);
      Ports(data[ConfigAddress(address) := MergeHalf(PortValue(data, address), off, v)])
    case Mapped(e, bytes) =>
      var i := Chunk(s, bus, dev, fn, off, 2);
      Mapped(e, Splice(bytes, i, ToLe16(v)))
  }

  /** Two views a driver cannot tell apart: every register reads the same.
      (An address word that was never written reads as all ones, exactly as
      one holding all ones.) */
  ghost predicate SameContents(s1: Space, s2: Space)
  {
    match s1
    case Ports(d1) => s2.Ports? && forall a :: PortValue(d1, a) == PortValue(s2.data, a)
    case Mapped(_, _) => s1 == s2
  }

  /** The handle itself: one mechanism, with the state that mechanism uses. */
  class PciAccess {
    const mechanism: Mechanism
    /** The last word written to CONFIG_ADDRESS. */
    var configAddress: bv32
    /** The registers behind CONFIG_DATA, by address word. */
    var configData: map<ConfigAddress, bv32>
    /** The mapped ECAM window; empty for the legacy mechanism. */
    const mem: array<bv8>

    /** `new_pci`: the legacy mechanism over the given register contents. */
    constructor NewPci(data: map<ConfigAddress, bv32>)
      ensures mechanism == Pci && configData == data && mem.Length == 0
      ensures Space() == Ports(data)
    {
      mechanism := Pci;
      configAddress := 0;
      configData := data;
      mem := new bv8[0];
    }

    /** `new_pcie`: the ECAM mechanism over a window mapped for `e`. */
    constructor NewPcie(e: McfgEntry, mapped: array<bv8>)
      ensures mechanism == Pcie(e) && mem == mapped && configData == map[]
      ensures Space() == Mapped(e, mapped[..])
    {
      mechanism := Pcie(e);
      configAddress := 0;
      configData := map[];
      mem := mapped;
    }

    /** The pure view of configuration space. */
    function Space(): Space
      reads this, mem
    {
      match mechanism
      case Pci => Ports(configData)
      case Pcie(e) => Mapped(e, mem[..])
    }

    /** `known_buses`: bus 0 for the ports, the segment's buses for ECAM. */
    function KnownBuses(): (r: RangeInclusive)
      ensures mechanism.Pci? ==> r.Contains(0) && forall b: bv8 :: r.Contains(b) ==> b == 0
      ensures mechanism.Pcie? ==> forall b: bv8 :: r.Contains(b) <==>
        mechanism.mcfgEntry.busNumberStart as int <= b as int <= mechanism.mcfgEntry.busNumberEnd as int
    {
      match mechanism
      case Pci => RangeInclusive(0, 0)
      case Pcie(e) => RangeInclusive(e.busNumberStart, e.busNumberEnd)
    }

    method ReadU32(bus: bv8, dev: bv8, fn: bv8, off: bv8) returns (v: bv32)
      requires off % 4 == 0
      requires InBounds(Space(), bus, dev, fn, off, 4)
      modifies this
      ensures Space() == old(Space())
      ensures v == Dword(Space(), bus, dev, fn, off)
      ensures mechanism.Pci? ==> configAddress == AddressWord(bus, dev, fn, off)
      ensures mechanism.Pcie? ==> configAddress == old(configAddress)
    {
      match mechanism
      case Pci =>
        configAddress := AddressWord(bus, dev, fn, off);
        v := PortValue(configData, configAddress);
      case Pcie(e) =>
        var i := Chunk(Space(), bus, dev, fn, off, 4);
        v := FromLe32(mem[i..i + 4]);
    }

    method ReadU16(bus: bv8, dev: bv8, fn: bv8, off: bv8) returns (v: bv16)
      requires off % 2 == 0
      requires InBounds(Space(), bus, dev, fn, off, 2)
      modifies this
      ensures Space() == old(Space())
      ensures v == Word(Space(), bus, dev, fn, off)
      ensures mechanism.Pci? ==> configAddress == AddressWord(bus, dev, fn, off / 4 * 4)
      ensures mechanism.Pcie? ==> configAddress == old(configAddress)
    {
      match mechanism
      case Pci =>
        configAddress := AddressWord(bus, dev, fn, off / 4 * 4);
        v := HalfAt(PortValue(configData, configAddress), off);
      case Pcie(e) =>
        var i := Chunk(Space(), bus, dev, fn, off, 2);
        v := FromLe16(mem[i..i + 2]);
    }

    method WriteU32(bus: bv8, dev: bv8, fn: bv8, off: bv8, v: bv32)
      requires off % 4 == 0
      requires InBounds(Space(), bus, dev, fn, off, 4)
      modifies this, mem
      ensures Space() == WithDword(old(Space()), bus, dev, fn, off, v)
      ensures mechanism.Pci? ==> configAddress == AddressWord(bus, dev, fn, off)
      ensures mechanism.Pcie? ==> configAddress == old(configAddress)
    {
      match mechanism
      case Pci =>
        configAddress := AddressWord(bus, dev, fn, off);
        configData := configData[ConfigAddress(configAddress) := v];
      case Pcie(e) =>
        var i := Chunk(Space(), bus, dev, fn, off, 4);
        var bytes := ToLe32(v);
        ghost var s0 := mem[..];
        SpliceFourBytes(s0, i, bytes);
        mem[i] := bytes[0];
        assert mem[..] == s0[i := bytes[0]];
        mem[i + 1] := bytes[1];
        assert mem[..] == s0[i := bytes[0]][i + 1 := bytes[1]];
        mem[i + 2] := bytes[2];
        assert mem[..] == s0[i := bytes[0]][i + 1 := bytes[1]][i + 2 := bytes[2]];
        mem[i + 3] := bytes[3];
        assert mem[..] == s0[i := bytes[0]][i + 1 := bytes[1]][i + 2 := bytes[2]][i + 3 := bytes[3]];
    }

    method WriteU16(bus: bv8, dev: bv8, fn: bv8, off: bv8, v: bv16)
      requires off % 2 == 0
      requires InBounds(Space(), bus, dev, fn, off, 2)
      modifies this, mem
      ensures Space() == WithWord(old(Space()), bus, dev, fn, off, v)
      ensures mechanism.Pci? ==> configAddress == AddressWord(bus, dev, fn, off - off % 4)
      ensures mechanism.Pcie? ==> configAddress == old(configAddress)
    {
      match mechanism
      case Pci =>
        var withinDword := off % 4;
        var offU32 := off - withinDword;
        var reg := ReadU32(bus, dev, fn, offU32);
        WriteU32(bus, dev, fn, offU32, MergeHalf(reg, off, v));
      case Pcie(e) =>
        var i := Chunk(Space(), bus, dev, fn, off, 2);
        var bytes := ToLe16(v);
        ghost var s0 := mem[..];
        SpliceTwoBytes(s0, i, bytes);
        mem[i] := bytes[0];
        assert mem[..] == s0[i := bytes[0]];
        mem[i + 1] := bytes[1];
        assert mem[..] == s0[i := bytes[0]][i + 1 := bytes[1]];
    }
  }

  // Properties of the spec functions.

  /** `EcamOffset` is the start of the function's 4 KiB page plus the offset. */
  function FunctionPage(e: McfgEntry, bus: bv8, dev: bv8, fn: bv8): nat
    requires e.busNumberStart as int <= bus as int
  {
    (bus as int - e.busNumberStart as int) * 0x100 + dev as int * 8 + fn as int
  }

  lemma EcamOffsetIsPagePlusOffset(e: McfgEntry, bus: bv8, dev: bv8, fn: bv8, off: bv8)
    requires e.busNumberStart as int <= bus as int
    ensures EcamOffset(e, bus, dev, fn, off) == 0x1000 * FunctionPage(e, bus, dev, fn) + off as int
    ensures off as int < 0x100
  {
  }

  /** Inside a page that fits the window, every chunk of a register fits too. */
  lemma PageChunkInBounds(page: nat, o: nat, n: nat, width: nat)
    requires width == 2 || width == 4
    requires o < 0x100 && 0x1000 * page + 0x100 <= n
    ensures (0x1000 * page + o) / width < n / width
  {
    if width == 2 {
      assert (0x1000 * page + o) / 2 == 0x800 * page + o / 2;
    } else {
      assert (0x1000 * page + o) / 4 == 0x400 * page + o / 4;
    }
  }

  /** An aligned register starts its chunk. */
  lemma PageChunkStart(page: nat, o: nat, width: nat)
    requires width == 2 || width == 4
    requires o % width == 0
    ensures (0x1000 * page + o) / width * width == 0x1000 * page + o
  {
    if width == 2 {
      assert (0x1000 * page + o) / 2 == 0x800 * page + o / 2;
    } else {
      assert (0x1000 * page + o) / 4 == 0x400 * page + o / 4;
    }
  }

  lemma Aligned4AsInt(off: bv8)
    requires off % 4 == 0
    ensures off as int % 4 == 0
  {
  }

  lemma Aligned2AsInt(off: bv8)
    requires off % 2 == 0
    ensures off as int % 2 == 0
  {
  }

  /** Reaching a function's whole space reaches every register in it. */
  lemma FunctionReachesRegister(s: Space, bus: bv8, dev: bv8, fn: bv8, off: bv8, width: nat)
    requires width == 2 || width == 4
    requires FunctionInBounds(s, bus, dev, fn)
    ensures InBounds(s, bus, dev, fn, off, width)
  {
    if s.Mapped? {
      EcamOffsetIsPagePlusOffset(s.mcfgEntry, bus, dev, fn, off);
      EcamOffsetIsPagePlusOffset(s.mcfgEntry, bus, dev, fn, 0);
      PageChunkInBounds(FunctionPage(s.mcfgEntry, bus, dev, fn), off as int, |s.bytes|, width);
    }
  }

  /** Where an aligned register of a reachable function sits in the mapped
      window: at the function's page plus the offset. */
  lemma ChunkIsPagePlusOffset(s: Space, bus: bv8, dev: bv8, fn: bv8, off: bv8, width: nat)
    requires width == 2 || width == 4
    requires s.Mapped? && FunctionInBounds(s, bus, dev, fn)
    requires off as int % width == 0
    ensures InBounds(s, bus, dev, fn, off, width)
    ensures Chunk(s, bus, dev, fn, off, width) == 0x1000 * FunctionPage(s.mcfgEntry, bus, dev, fn) + off as int
  {
    FunctionReachesRegister(s, bus, dev, fn, off, width);
    EcamOffsetIsPagePlusOffset(s.mcfgEntry, bus, dev, fn, off);
    PageChunkStart(FunctionPage(s.mcfgEntry, bus, dev, fn), off as int, width);
  }

  /** An aligned register starts its chunk: the chunk begins at the register's
      ECAM offset. */
  lemma ChunkIsEcamOffset(s: Space, bus: bv8, dev: bv8, fn: bv8, off: bv8, width: nat)
    requires width == 2 || width == 4
    requires s.Mapped? && InBounds(s, bus, dev, fn, off, width)
    requires off as int % width == 0
    ensures Chunk(s, bus, dev, fn, off, width) == EcamOffset(s.mcfgEntry, bus, dev, fn, off)
  {
    EcamOffsetIsPagePlusOffset(s.mcfgEntry, bus, dev, fn, off);
    PageChunkStart(FunctionPage(s.mcfgEntry, bus, dev, fn), off as int, width);
  }

  /** Views of the same shape reach the same registers. */
  lemma SameShapeInBounds(s1: Space, s2: Space, bus: bv8, dev: bv8, fn: bv8, off: bv8, width: nat)
    requires width == 2 || width == 4
    requires SameShape(s1, s2)
    ensures InBounds(s1, bus, dev, fn, off, width) <==> InBounds(s2, bus, dev, fn, off, width)
    ensures FunctionInBounds(s1, bus, dev, fn) <==> FunctionInBounds(s2, bus, dev, fn)
  {
  }

  /** A dword reads back as written. */
  lemma DwordReadsBack(s: Space, bus: bv8, dev: bv8, fn: bv8, off: bv8, v: bv32)
    requires off % 4 == 0 && InBounds(s, bus, dev, fn, off, 4)
    ensures InBounds(WithDword(s, bus, dev, fn, off, v), bus, dev, fn, off, 4)
    ensures Dword(WithDword(s, bus, dev, fn, off, v), bus, dev, fn, off) == v
  {
    if s.Mapped? {
      MappedDwordReadsBack(s, bus, dev, fn, off, v);
    }
  }

  lemma MappedDwordReadsBack(s: Space, bus: bv8, dev: bv8, fn: bv8, off: bv8, v: bv32)
    requires s.Mapped? && off % 4 == 0 && InBounds(s, bus, dev, fn, off, 4)
    ensures InBounds(WithDword(s, bus, dev, fn, off, v), bus, dev, fn, off, 4)
    ensures Dword(WithDword(s, bus, dev, fn, off, v), bus, dev, fn, off) == v
  {
    var r := WithDword(s, bus, dev, fn, off, v);
    var i := Chunk(s, bus, dev, fn, off, 4);
    assert Chunk(r, bus, dev, fn, off, 4) == i;
    assert r.bytes[i..i + 4] == ToLe32(v);
    Le32RoundTrip(v);
  }

  /** A word reads back as written, through either mechanism. */
  lemma WordReadsBack(s: Space, bus: bv8, dev: bv8, fn: bv8, off: bv8, v: bv16)
    requires off % 2 == 0 && InBounds(s, bus, dev, fn, off, 2)
    ensures InBounds(WithWord(s, bus, dev, fn, off, v), bus, dev, fn, off, 2)
    ensures Word(WithWord(s, bus, dev, fn, off, v), bus, dev, fn, off) == v
  {
    if s.Ports? {
      PortsWordReadsBack(s, bus, dev, fn, off, v);
    } else {
      MappedWordReadsBack(s, bus, dev, fn, off, v);
    }
  }

  lemma PortsWordReadsBack(s: Space, bus: bv8, dev: bv8, fn: bv8, off: bv8, v: bv16)
    requires s.Ports? && off % 2 == 0
    ensures Word(WithWord(s, bus, dev, fn, off, v), bus, dev, fn, off) == v
  {
    DwordBaseAgrees(off);
    MergeThenHalf(PortValue(s.data, AddressWord(bus, dev, fn, off - off % 4)), off, v);
  }

  lemma MappedWordReadsBack(s: Space, bus: bv8, dev: bv8, fn: bv8, off: bv8, v: bv16)
    requires s.Mapped? && off % 2 == 0 && InBounds(s, bus, dev, fn, off, 2)
    ensures InBounds(WithWord(s, bus, dev, fn, off, v), bus, dev, fn, off, 2)
    ensures Word(WithWord(s, bus, dev, fn, off, v), bus, dev, fn, off) == v
  {
    var r := WithWord(s, bus, dev, fn, off, v);
    var i := Chunk(s, bus, dev, fn, off, 2);
    assert Chunk(r, bus, dev, fn, off, 2) == i;
    assert r.bytes[i..i + 2] == ToLe16(v);
    Le16RoundTrip(v);
  }

  /** `register_offset / 4 * 4` and `register_offset - register_offset % 4`
      name the same dword. */
  lemma DwordBaseAgrees(off: bv8)
    ensures off / 4 * 4 == off - off % 4
  {
  }

  /** Merging a half into a dword and reading that half gives the half. */
  lemma MergeThenHalf(reg: bv32, off: bv8, v: bv16)
    ensures HalfAt(MergeHalf(reg, off, v), off) == v
  {
  }

  /** Merging a half leaves the other half of the dword. */
  lemma MergeKeepsOtherHalf(reg: bv32, off: bv8, other: bv8, v: bv16)
    requires (off % 4 == 0) != (other % 4 == 0)
    ensures HalfAt(MergeHalf(reg, off, v), other) == HalfAt(reg, other)
  {
  }

  /** Two different aligned registers are disjoint byte ranges. */
  lemma DistinctDwords(o1: bv8, o2: bv8)
    requires o1 % 4 == 0 && o2 % 4 == 0 && o1 != o2
    ensures o1 as int + 4 <= o2 as int || o2 as int + 4 <= o1 as int
  {
  }

  lemma DistinctWords(o1: bv8, o2: bv8)
    requires o1 % 2 == 0 && o2 % 2 == 0 && o1 != o2
    ensures o1 as int + 2 <= o2 as int || o2 as int + 2 <= o1 as int
  {
  }

  /** A word outside a dword lies wholly before or after it. */
  lemma WordOutsideDword(o1: bv8, o2: bv8)
    requires o1 % 4 == 0 && o2 % 2 == 0 && o2 - o2 % 4 != o1
    ensures o2 as int + 2 <= o1 as int || o1 as int + 4 <= o2 as int
  {
  }

  /** Different offsets of one function give different address words. */
  lemma DistinctAddressWords(bus: bv8, dev: bv8, fn: bv8, o1: bv8, o2: bv8)
    requires o1 != o2
    ensures ConfigAddress(AddressWord(bus, dev, fn, o1)) != ConfigAddress(AddressWord(bus, dev, fn, o2))
  {
    AddressWordFields(bus, dev, fn, o1);
    AddressWordFields(bus, dev, fn, o2);
  }

  /** Writing a dword leaves every other dword. */
  lemma DwordFrame(s: Space, bus: bv8, dev: bv8, fn: bv8, o1: bv8, o2: bv8, v: bv32)
    requires o1 % 4 == 0 && o2 % 4 == 0 && o1 != o2
    requires InBounds(s, bus, dev, fn, o1, 4) && InBounds(s, bus, dev, fn, o2, 4)
    ensures InBounds(WithDword(s, bus, dev, fn, o1, v), bus, dev, fn, o2, 4)
    ensures Dword(WithDword(s, bus, dev, fn, o1, v), bus, dev, fn, o2) == Dword(s, bus, dev, fn, o2)
  {
    if s.Ports? {
      DistinctAddressWords(bus, dev, fn, o1, o2);
    } else {
      DistinctDwordChunks(s, bus, dev, fn, o1, o2);
      MappedDwordFrame(s, bus, dev, fn, o1, o2, v);
    }
  }

  lemma MappedDwordFrame(s: Space, bus: bv8, dev: bv8, fn: bv8, o1: bv8, o2: bv8, v: bv32)
    requires s.Mapped? && InBounds(s, bus, dev, fn, o1, 4) && InBounds(s, bus, dev, fn, o2, 4)
    requires o1 % 4 == 0 && o2 % 4 == 0
    requires var i := Chunk(s, bus, dev, fn, o1, 4); var j := Chunk(s, bus, dev, fn, o2, 4);
      i + 4 <= j || j + 4 <= i
    ensures InBounds(WithDword(s, bus, dev, fn, o1, v), bus, dev, fn, o2, 4)
    ensures Dword(WithDword(s, bus, dev, fn, o1, v), bus, dev, fn, o2) == Dword(s, bus, dev, fn, o2)
  {
    var r := WithDword(s, bus, dev, fn, o1, v);
    var i := Chunk(s, bus, dev, fn, o1, 4);
    var j := Chunk(s, bus, dev, fn, o2, 4);
    assert Chunk(r, bus, dev, fn, o2, 4) == j;
    SpliceElsewhere(s.bytes, i, ToLe32(v), j, 4);
    SameWindowSameDword(r, s, bus, dev, fn, o2);
  }

  /** Two mapped views that agree on a register's chunk read the same dword there. */
  lemma SameWindowSameDword(s1: Space, s2: Space, bus: bv8, dev: bv8, fn: bv8, off: bv8)
    requires s1.Mapped? && s2.Mapped? && s1.mcfgEntry == s2.mcfgEntry
    requires off % 4 == 0 && InBounds(s1, bus, dev, fn, off, 4) && InBounds(s2, bus, dev, fn, off, 4)
    requires Chunk(s1, bus, dev, fn, off, 4) == Chunk(s2, bus, dev, fn, off, 4)
    requires var j := Chunk(s1, bus, dev, fn, off, 4); s1.bytes[j..j + 4] == s2.bytes[j..j + 4]
    ensures Dword(s1, bus, dev, fn, off) == Dword(s2, bus, dev, fn, off)
  {
  }

  /** Two mapped views that agree on a register's chunk read the same word there. */
  lemma SameWindowSameWord(s1: Space, s2: Space, bus: bv8, dev: bv8, fn: bv8, off: bv8)
    requires s1.Mapped? && s2.Mapped? && s1.mcfgEntry == s2.mcfgEntry
    requires off % 2 == 0 && InBounds(s1, bus, dev, fn, off, 2) && InBounds(s2, bus, dev, fn, off, 2)
    requires Chunk(s1, bus, dev, fn, off, 2) == Chunk(s2, bus, dev, fn, off, 2)
    requires var j := Chunk(s1, bus, dev, fn, off, 2); s1.bytes[j..j + 2] == s2.bytes[j..j + 2]
    ensures Word(s1, bus, dev, fn, off) == Word(s2, bus, dev, fn, off)
  {
  }

  /** Two different aligned dwords occupy disjoint chunks of the window. */
  lemma DistinctDwordChunks(s: Space, bus: bv8, dev: bv8, fn: bv8, o1: bv8, o2: bv8)
    requires s.Mapped? && InBounds(s, bus, dev, fn, o1, 4) && InBounds(s, bus, dev, fn, o2, 4)
    requires o1 % 4 == 0 && o2 % 4 == 0 && o1 != o2
    ensures var i := Chunk(s, bus, dev, fn, o1, 4); var j := Chunk(s, bus, dev, fn, o2, 4);
      i + 4 <= j || j + 4 <= i
  {
    Aligned4AsInt(o1);
    Aligned4AsInt(o2);
    ChunkIsEcamOffset(s, bus, dev, fn, o1, 4);
    ChunkIsEcamOffset(s, bus, dev, fn, o2, 4);
    DistinctDwords(o1, o2);
  }

  /** Writing a word leaves every other word. */
  lemma WordFrame(s: Space, bus: bv8, dev: bv8, fn: bv8, o1: bv8, o2: bv8, v: bv16)
    requires o1 % 2 == 0 && o2 % 2 == 0 && o1 != o2
    requires InBounds(s, bus, dev, fn, o1, 2) && InBounds(s, bus, dev, fn, o2, 2)
    ensures InBounds(WithWord(s, bus, dev, fn, o1, v), bus, dev, fn, o2, 2)
    ensures Word(WithWord(s, bus, dev, fn, o1, v), bus, dev, fn, o2) == Word(s, bus, dev, fn, o2)
  {
    if s.Ports? {
      PortsWordFrame(s, bus, dev, fn, o1, o2, v);
    } else {
      DistinctWordChunks(s, bus, dev, fn, o1, o2);
      MappedWordFrame(s, bus, dev, fn, o1, o2, v);
    }
  }

  lemma PortsWordFrame(s: Space, bus: bv8, dev: bv8, fn: bv8, o1: bv8, o2: bv8, v: bv16)
    requires s.Ports? && o1 % 2 == 0 && o2 % 2 == 0 && o1 != o2
    ensures Word(WithWord(s, bus, dev, fn, o1, v), bus, dev, fn, o2) == Word(s, bus, dev, fn, o2)
  {
    DwordBaseAgrees(o2);
    if o1 - o1 % 4 == o2 - o2 % 4 {
      SameDwordOtherHalf(o1, o2);
      PortsWordFrameSameDword(s, bus, dev, fn, o1, o2, v);
    } else {
      DistinctAddressWords(bus, dev, fn, o1 - o1 % 4, o2 - o2 % 4);
    }
  }

  lemma PortsWordFrameSameDword(s: Space, bus: bv8, dev: bv8, fn: bv8, o1: bv8, o2: bv8, v: bv16)
    requires s.Ports? && o1 % 2 == 0 && o2 % 2 == 0
    requires o1 - o1 % 4 == o2 / 4 * 4 && (o1 % 4 == 0) != (o2 % 4 == 0)
    ensures Word(WithWord(s, bus, dev, fn, o1, v), bus, dev, fn, o2) == Word(s, bus, dev, fn, o2)
  {
    MergeKeepsOtherHalf(PortValue(s.data, AddressWord(bus, dev, fn, o1 - o1 % 4)), o1, o2, v);
  }

  /** Two different words in one dword are its two halves. */
  lemma SameDwordOtherHalf(o1: bv8, o2: bv8)
    requires o1 % 2 == 0 && o2 % 2 == 0 && o1 != o2 && o1 - o1 % 4 == o2 - o2 % 4
    ensures (o1 % 4 == 0) != (o2 % 4 == 0)
  {
  }

  lemma MappedWordFrame(s: Space, bus: bv8, dev: bv8, fn: bv8, o1: bv8, o2: bv8, v: bv16)
    requires s.Mapped? && InBounds(s, bus, dev, fn, o1, 2) && InBounds(s, bus, dev, fn, o2, 2)
    requires o1 % 2 == 0 && o2 % 2 == 0
    requires var i := Chunk(s, bus, dev, fn, o1, 2); var j := Chunk(s, bus, dev, fn, o2, 2);
      i + 2 <= j || j + 2 <= i
    ensures InBounds(WithWord(s, bus, dev, fn, o1, v), bus, dev, fn, o2, 2)
    ensures Word(WithWord(s, bus, dev, fn, o1, v), bus, dev, fn, o2) == Word(s, bus, dev, fn, o2)
  {
    var r := WithWord(s, bus, dev, fn, o1, v);
    var i := Chunk(s, bus, dev, fn, o1, 2);
    var j := Chunk(s, bus, dev, fn, o2, 2);
    assert Chunk(r, bus, dev, fn, o2, 2) == j;
    SpliceElsewhere(s.bytes, i, ToLe16(v), j, 2);
    SameWindowSameWord(r, s, bus, dev, fn, o2);
  }

  /** Two different aligned words occupy disjoint chunks of the window. */
  lemma DistinctWordChunks(s: Space, bus: bv8, dev: bv8, fn: bv8, o1: bv8, o2: bv8)
    requires s.Mapped? && InBounds(s, bus, dev, fn, o1, 2) && InBounds(s, bus, dev, fn, o2, 2)
    requires o1 % 2 == 0 && o2 % 2 == 0 && o1 != o2
    ensures var i := Chunk(s, bus, dev, fn, o1, 2); var j := Chunk(s, bus, dev, fn, o2, 2);
      i + 2 <= j || j + 2 <= i
  {
    Aligned2AsInt(o1);
    Aligned2AsInt(o2);
    ChunkIsEcamOffset(s, bus, dev, fn, o1, 2);
    ChunkIsEcamOffset(s, bus, dev, fn, o2, 2);
    DistinctWords(o1, o2);
  }

  /** Where a word sits in the dword that holds it. */
  lemma WordInDword(o: bv8)
    requires o % 2 == 0
    ensures (o / 4 * 4) % 4 == 0
    ensures o % 4 == 0 ==> (o / 4 * 4) as int == o as int
    ensures o % 4 != 0 ==> (o / 4 * 4) as int + 2 == o as int
  {
  }

  /** `read_u16` agrees with `read_u32`: a word is the half of the enclosing
      dword at its offset, through either mechanism. */
  lemma WordIsHalfOfDword(s: Space, bus: bv8, dev: bv8, fn: bv8, o: bv8)
    requires o % 2 == 0 && InBounds(s, bus, dev, fn, o / 4 * 4, 4)
    ensures (o / 4 * 4) % 4 == 0 && InBounds(s, bus, dev, fn, o, 2)
    ensures Word(s, bus, dev, fn, o) == HalfAt(Dword(s, bus, dev, fn, o / 4 * 4), o)
  {
    WordInDword(o);
    if s.Mapped? {
      MappedWordIsHalfOfDword(s, bus, dev, fn, o);
    }
  }

  lemma MappedWordIsHalfOfDword(s: Space, bus: bv8, dev: bv8, fn: bv8, o: bv8)
    requires s.Mapped? && o % 2 == 0 && (o / 4 * 4) % 4 == 0 && InBounds(s, bus, dev, fn, o / 4 * 4, 4)
    ensures InBounds(s, bus, dev, fn, o, 2)
    ensures Word(s, bus, dev, fn, o) == HalfAt(Dword(s, bus, dev, fn, o / 4 * 4), o)
  {
    var q := o / 4 * 4;
    WordChunkInDwordChunk(s, bus, dev, fn, o);
    var i := Chunk(s, bus, dev, fn, q, 4);
    var k: nat := if o % 4 == 0 then 0 else 2;
    HalfOfWindow(s.bytes, i, k);
    WindowHalfIsHalfAt(s, bus, dev, fn, o, i, k);
  }

  /** The chunk of a word lies at offset 0 or 2 of the chunk of its dword. */
  lemma WordChunkInDwordChunk(s: Space, bus: bv8, dev: bv8, fn: bv8, o: bv8)
    requires s.Mapped? && o % 2 == 0 && (o / 4 * 4) % 4 == 0 && InBounds(s, bus, dev, fn, o / 4 * 4, 4)
    ensures InBounds(s, bus, dev, fn, o, 2)
    ensures Chunk(s, bus, dev, fn, o, 2)
         == Chunk(s, bus, dev, fn, o / 4 * 4, 4) + if o % 4 == 0 then 0 else 2
  {
    var q := o / 4 * 4;
    WordInDword(o);
    Aligned4AsInt(q);
    Aligned2AsInt(o);
    ChunkIsEcamOffset(s, bus, dev, fn, q, 4);
    var i := Chunk(s, bus, dev, fn, q, 4);
    var k: nat := if o % 4 == 0 then 0 else 2;
    EcamOffsetShift(s.mcfgEntry, bus, dev, fn, q, o, k);
    WordChunkBound(EcamOffset(s.mcfgEntry, bus, dev, fn, o), i, k, |s.bytes|);
    ChunkIsEcamOffset(s, bus, dev, fn, o, 2);
  }

  lemma EcamOffsetShift(e: McfgEntry, bus: bv8, dev: bv8, fn: bv8, q: bv8, o: bv8, k: nat)
    requires e.busNumberStart as int <= bus as int && q as int + k == o as int
    ensures EcamOffset(e, bus, dev, fn, o) == EcamOffset(e, bus, dev, fn, q) + k
  {
  }

  lemma WordChunkBound(j: nat, i: nat, k: nat, n: nat)
    requires j == i + k && (k == 0 || k == 2) && i % 4 == 0 && i + 4 <= n
    ensures j / 2 < n / 2
  {
  }

  /** The half of a dword chunk that a word's chunk names is the word. */
  lemma WindowHalfIsHalfAt(s: Space, bus: bv8, dev: bv8, fn: bv8, o: bv8, i: nat, k: nat)
    requires s.Mapped? && o % 2 == 0 && (o / 4 * 4) % 4 == 0 && InBounds(s, bus, dev, fn, o / 4 * 4, 4)
    requires InBounds(s, bus, dev, fn, o, 2) && i == Chunk(s, bus, dev, fn, o / 4 * 4, 4)
    requires k == (if o % 4 == 0 then 0 else 2) && Chunk(s, bus, dev, fn, o, 2) == i + k
    requires FromLe16(s.bytes[i + k..i + k + 2])
          == if k == 0 then Low16(FromLe32(s.bytes[i..i + 4])) else Low16(FromLe32(s.bytes[i..i + 4]) >> 16)
    ensures Word(s, bus, dev, fn, o) == HalfAt(Dword(s, bus, dev, fn, o / 4 * 4), o)
  {
  }

  /** Writing a dword and then writing back what it held leaves a view that
      no read can tell from the first: the restore step of BAR sizing. */
  lemma DwordRestore(s: Space, bus: bv8, dev: bv8, fn: bv8, o: bv8, x: bv32)
    requires o % 4 == 0 && InBounds(s, bus, dev, fn, o, 4)
    ensures InBounds(WithDword(s, bus, dev, fn, o, x), bus, dev, fn, o, 4)
    ensures SameContents(WithDword(WithDword(s, bus, dev, fn, o, x), bus, dev, fn, o, Dword(s, bus, dev, fn, o)), s)
  {
    DwordReadsBack(s, bus, dev, fn, o, x);
    if s.Ports? {
      PortsDwordRestore(s, bus, dev, fn, o, x);
    } else {
      MappedDwordRestore(s, bus, dev, fn, o, x);
    }
  }

  lemma PortsDwordRestore(s: Space, bus: bv8, dev: bv8, fn: bv8, o: bv8, x: bv32)
    requires s.Ports? && o % 4 == 0
    ensures SameContents(WithDword(WithDword(s, bus, dev, fn, o, x), bus, dev, fn, o, Dword(s, bus, dev, fn, o)), s)
  {
    var k := ConfigAddress(AddressWord(bus, dev, fn, o));
    var d := s.data[k := PortValue(s.data, k.word)];
    assert WithDword(WithDword(s, bus, dev, fn, o, x), bus, dev, fn, o, Dword(s, bus, dev, fn, o)) == Ports(d);
    forall a: bv32 ensures PortValue(d, a) == PortValue(s.data, a) {
      if ConfigAddress(a) != k {
        assert (ConfigAddress(a) in d) == (ConfigAddress(a) in s.data);
      }
    }
  }

  lemma MappedDwordRestore(s: Space, bus: bv8, dev: bv8, fn: bv8, o: bv8, x: bv32)
    requires s.Mapped? && o % 4 == 0 && InBounds(s, bus, dev, fn, o, 4)
    requires InBounds(WithDword(s, bus, dev, fn, o, x), bus, dev, fn, o, 4)
    ensures WithDword(WithDword(s, bus, dev, fn, o, x), bus, dev, fn, o, Dword(s, bus, dev, fn, o)) == s
  {
    var i := Chunk(s, bus, dev, fn, o, 4);
    var r1 := WithDword(s, bus, dev, fn, o, x);
    assert Chunk(r1, bus, dev, fn, o, 4) == i;
    assert Dword(s, bus, dev, fn, o) == FromLe32(s.bytes[i..i + 4]);
    SpliceRestore(s.bytes, i, x);
  }

  /** Views with the same contents have the same shape. */
  lemma SameContentsSameShape(s1: Space, s2: Space)
    requires SameContents(s1, s2)
    ensures SameShape(s1, s2) && SameContents(s2, s1)
  {
  }

  lemma SameContentsTransitive(s1: Space, s2: Space, s3: Space)
    requires SameContents(s1, s2) && SameContents(s2, s3)
    ensures SameContents(s1, s3)
  {
  }

  /** Views with the same contents read the same dword everywhere. */
  lemma SameContentsSameDword(s1: Space, s2: Space, bus: bv8, dev: bv8, fn: bv8, off: bv8)
    requires SameContents(s1, s2) && off % 4 == 0 && InBounds(s1, bus, dev, fn, off, 4)
    ensures InBounds(s2, bus, dev, fn, off, 4)
    ensures Dword(s1, bus, dev, fn, off) == Dword(s2, bus, dev, fn, off)
  {
  }

  /** Views with the same contents read the same word everywhere. */
  lemma SameContentsSameWord(s1: Space, s2: Space, bus: bv8, dev: bv8, fn: bv8, off: bv8)
    requires SameContents(s1, s2) && off % 2 == 0 && InBounds(s1, bus, dev, fn, off, 2)
    ensures InBounds(s2, bus, dev, fn, off, 2)
    ensures Word(s1, bus, dev, fn, off) == Word(s2, bus, dev, fn, off)
  {
  }

  /** Every function of every bus of a segment lies inside a window of the
      length `get_phys_range_to_map` gives. */
  lemma EcamOffsetInSegment(e: McfgEntry, bus: bv8, dev: bv8, fn: bv8, off: bv8)
    requires e.busNumberStart as int <= bus as int <= e.busNumberEnd as int
    requires dev as int < 32 && fn as int < 8
    ensures EcamOffset(e, bus, dev, fn, off) < EcamOffset(e, bus, dev, fn, 0) + 0x100
    ensures EcamOffset(e, bus, dev, fn, 0) + 0x100 <= BusCount(e) * BUS_WINDOW
  {
    assert BUS_WINDOW == 0x10_0000;
  }

  /** A window mapped for the whole segment reaches every function on every
      known bus. */
  lemma SegmentWindowReachesFunctions(s: Space, bus: bv8, dev: bv8, fn: bv8)
    requires s.Mapped? && s.mcfgEntry.busNumberStart as int <= s.mcfgEntry.busNumberEnd as int
    requires |s.bytes| == BusCount(s.mcfgEntry) * BUS_WINDOW
    requires s.mcfgEntry.busNumberStart as int <= bus as int <= s.mcfgEntry.busNumberEnd as int
    requires dev as int < 32 && fn as int < 8
    ensures FunctionInBounds(s, bus, dev, fn)
  {
    EcamOffsetInSegment(s.mcfgEntry, bus, dev, fn, 0);
  }

  /** Through the ports, buses `2k` and `2k + 1` read the same registers. */
  lemma PortBusesAlias(s: Space, k: bv8, dev: bv8, fn: bv8, off: bv8)
    requires s.Ports? && k < 128 && off % 4 == 0
    ensures Dword(s, 2 * k, dev, fn, off) == Dword(s, 2 * k + 1, dev, fn, off)
  {
    BusesAlias(k, dev, fn, off);
  }

  /** Writing a dword leaves every word outside it. */
  lemma WordUntouchedByDword(s: Space, bus: bv8, dev: bv8, fn: bv8, o1: bv8, o2: bv8, v: bv32)
    requires o1 % 4 == 0 && o2 % 2 == 0 && o2 / 4 * 4 != o1
    requires InBounds(s, bus, dev, fn, o1, 4) && InBounds(s, bus, dev, fn, o2 / 4 * 4, 4)
    ensures InBounds(s, bus, dev, fn, o2, 2) && InBounds(WithDword(s, bus, dev, fn, o1, v), bus, dev, fn, o2, 2)
    ensures Word(WithDword(s, bus, dev, fn, o1, v), bus, dev, fn, o2) == Word(s, bus, dev, fn, o2)
  {
    WordIsHalfOfDword(s, bus, dev, fn, o2);
    DwordFrame(s, bus, dev, fn, o1, o2 / 4 * 4, v);
    WordIsHalfOfDword(WithDword(s, bus, dev, fn, o1, v), bus, dev, fn, o2);
  }
  /** Writing a dword leaves a word outside it, even one whose own dword
      is not itself known to be readable. */
  lemma WordBesideDword(s: Space, bus: bv8, dev: bv8, fn: bv8, o1: bv8, o2: bv8, v: bv32)
    requires o1 % 4 == 0 && o2 % 2 == 0 && o2 / 4 * 4 != o1
    requires InBounds(s, bus, dev, fn, o1, 4) && InBounds(s, bus, dev, fn, o2, 2)
    ensures InBounds(WithDword(s, bus, dev, fn, o1, v), bus, dev, fn, o2, 2)
    ensures Word(WithDword(s, bus, dev, fn, o1, v), bus, dev, fn, o2) == Word(s, bus, dev, fn, o2)
  {
    if s.Ports? {
      DistinctAddressWords(bus, dev, fn, o1, o2 / 4 * 4);
    } else {
      WordDwordChunksDisjoint(s, bus, dev, fn, o1, o2);
      MappedWordBesideDword(s, bus, dev, fn, o1, o2, v);
    }
  }

  lemma WordDwordChunksDisjoint(s: Space, bus: bv8, dev: bv8, fn: bv8, o1: bv8, o2: bv8)
    requires s.Mapped? && InBounds(s, bus, dev, fn, o1, 4) && InBounds(s, bus, dev, fn, o2, 2)
    requires o1 % 4 == 0 && o2 % 2 == 0 && o2 / 4 * 4 != o1
    ensures var i := Chunk(s, bus, dev, fn, o1, 4); var j := Chunk(s, bus, dev, fn, o2, 2);
      i + 4 <= j || j + 2 <= i
  {
    Aligned4AsInt(o1);
    Aligned2AsInt(o2);
    ChunkIsEcamOffset(s, bus, dev, fn, o1, 4);
    ChunkIsEcamOffset(s, bus, dev, fn, o2, 2);
    DwordBaseAgrees(o2);
    WordOutsideDword(o1, o2);
    EcamOffsetIsPagePlusOffset(s.mcfgEntry, bus, dev, fn, o1);
    EcamOffsetIsPagePlusOffset(s.mcfgEntry, bus, dev, fn, o2);
  }

  lemma MappedWordBesideDword(s: Space, bus: bv8, dev: bv8, fn: bv8, o1: bv8, o2: bv8, v: bv32)
    requires s.Mapped? && InBounds(s, bus, dev, fn, o1, 4) && InBounds(s, bus, dev, fn, o2, 2)
    requires o1 % 4 == 0 && o2 % 2 == 0
    requires var i := Chunk(s, bus, dev, fn, o1, 4); var j := Chunk(s, bus, dev, fn, o2, 2);
      i + 4 <= j || j + 2 <= i
    ensures InBounds(WithDword(s, bus, dev, fn, o1, v), bus, dev, fn, o2, 2)
    ensures Word(WithDword(s, bus, dev, fn, o1, v), bus, dev, fn, o2) == Word(s, bus, dev, fn, o2)
  {
    var r := WithDword(s, bus, dev, fn, o1, v);
    var i := Chunk(s, bus, dev, fn, o1, 4);
    var j := Chunk(s, bus, dev, fn, o2, 2);
    assert Chunk(r, bus, dev, fn, o2, 2) == j;
    SpliceElsewhere(s.bytes, i, ToLe32(v), j, 2);
    SameWindowSameWord(r, s, bus, dev, fn, o2);
  }
}
