/**
 * The MSI-X capability (id 0x11) of a function, as laid out in section 6.8.2
 * of the PCI Local Bus Specification 3.0: message control at `ptr + 0x2`, the
 * table location at `ptr + 0x4` and the pending bit array location at
 * `ptr + 0x8`. Message control sits where it does for MSI and the two
 * locations are the dwords MSI uses for its address, so the register layer
 * of `MsiCap` is shared. The table and the pending bit array live in memory
 * the driver has mapped; here that memory is an array handed in by the
 * caller.
 */
module MsiXCap {
  import opened Wrappers
  import opened Bitfield
  import opened Access
  import opened Functions
  import MsiCap

  /** A `u16` index as the source passes it. */
  type U16 = x: int | 0 <= x < 0x1_0000

  // `MsiXMessageControl`.

  /** `_table_size`: bits 10..=0, the table size minus one. */
  function TableSizeField(m: bv16): bv16 { m & 0x07FF }
  predicate FunctionMask(m: bv16) { m & 0x4000 != 0 }
  predicate Enable(m: bv16) { m & 0x8000 != 0 }
  function SetEnable(m: bv16, on: bool): bv16 { if on then m | 0x8000 else m & 0x7FFF }

  /** `table_size`: the field plus one. The field holds at most 0x7FF, so the
      `u16` addition cannot overflow and the size lies in 1..=2048. */
  function TableSize(m: bv16): (n: bv16)
    ensures n as int == TableSizeField(m) as int + 1
    ensures 1 <= n as int <= 2048
  {
    TableSizeBounded(m);
    TableSizeField(m) + 1
  }

  lemma TableSizeBounded(m: bv16)
    ensures TableSizeField(m) as int <= 0x7FF
    ensures (TableSizeField(m) + 1) as int == TableSizeField(m) as int + 1
  {
  }

  /** The encoding is N-1: a stored 7 is a table of 8 entries, a stored 0
      one entry, a full field 2048. */
  lemma TableSizeExamples()
    ensures TableSize(0x0007) == 8
    ensures TableSize(0x0000) == 1
    ensures TableSize(0xFFFF) == 0x800
  {
  }

  lemma SetEnableReadsBack(m: bv16, on: bool)
    ensures Enable(SetEnable(m, on)) == on
  {
  }

  lemma SetEnableKeepsOtherBits(m: bv16, on: bool)
    ensures SetEnable(m, on) & 0x7FFF == m & 0x7FFF
  {
  }

  /** Enabling or disabling leaves the table size and the function mask. */
  lemma SetEnableKeepsTableSize(m: bv16, on: bool)
    ensures TableSizeField(SetEnable(m, on)) == TableSizeField(m)
  {
  }

  lemma SetEnableKeepsFunctionMask(m: bv16, on: bool)
    ensures FunctionMask(SetEnable(m, on)) == FunctionMask(m)
  {
  }

  // `MsiXLocation`.

  /** `bar_index`: bits 2..=0, as a `u8`. */
  function BarIndex(l: bv32): bv8 { Low8(l & 0x7) }

  /** `offset_in_bar`: bits 31..=3 shifted back into place. */
  function OffsetInBar(l: bv32): bv32 { ((l >> 3) & 0x1FFF_FFFF) << 3 }

  /** The offset is the register with the BAR index cleared. */
  lemma OffsetIsIndexCleared(l: bv32)
    ensures OffsetInBar(l) == l & 0xFFFF_FFF8
  {
  }

  /** The offset is 8-aligned. */
  lemma OffsetIsAligned(l: bv32)
    ensures OffsetInBar(l) % 8 == 0
  {
    OffsetIsIndexCleared(l);
  }

  lemma BarIndexBounded(l: bv32)
    ensures BarIndex(l) <= 7
  {
  }

  /** Offset and index together are the whole register. */
  lemma LocationSplit(l: bv32)
    ensures OffsetInBar(l) | (BarIndex(l) as bv32) == l
  {
    OffsetIsIndexCleared(l);
    assert (l & 0x7) as bv8 as bv32 == l & 0x7;
  }

  // `MsiXTableEntry` and `MsiXVectorControl`.

  /** One 16-byte table entry. */
  datatype MsiXTableEntry = MsiXTableEntry(messageAddress: bv64, messageData: bv32, vectorControl: bv32)

  /** `mask`: bit 0 of vector control; a masked vector sends no message. */
  predicate Mask(v: bv32) { v & 0x1 != 0 }
  function SetMask(v: bv32, on: bool): bv32 { if on then v | 0x1 else v & 0xFFFF_FFFE }

  lemma SetMaskReadsBack(v: bv32, on: bool)
    ensures Mask(SetMask(v, on)) == on
  {
  }

  lemma SetMaskKeepsOtherBits(v: bv32, on: bool)
    ensures SetMask(v, on) & 0xFFFF_FFFE == v & 0xFFFF_FFFE
  {
  }

  // The table.

  /** The table: `table_size` entries at `addr`, read and written in place
      through `entry_mut`. */
  class MsiXTable {
    const addr: nat
    const entries: array<MsiXTableEntry>

    constructor (addr: nat, entries: array<MsiXTableEntry>)
      ensures this.addr == addr && this.entries == entries
    {
      this.addr := addr;
      this.entries := entries;
    }

    /** Reading the entry `entry_mut(index)` points at; an index past the
        table panics. */
    method ReadEntry(index: U16) returns (e: MsiXTableEntry)
      requires index < entries.Length
      ensures e == entries[index]
    {
      e := entries[index];
    }

    /** Writing the entry `entry_mut(index)` points at; no other entry changes. */
    method WriteEntry(index: U16, e: MsiXTableEntry)
      requires index < entries.Length
      modifies entries
      ensures entries[..] == old(entries[..])[index := e]
    {
      entries[index] := e;
    }

    /** Setting or clearing the mask of one entry through `entry_mut`; the
        rest of the entry and every other entry stay as they were. */
    method SetEntryMask(index: U16, on: bool)
      requires index < entries.Length
      modifies entries
      ensures entries[..] == old(entries[..])[index := old(entries[index]).(vectorControl := SetMask(old(entries[index]).vectorControl, on))]
      ensures Mask(entries[index].vectorControl) == on
    {
      var e := ReadEntry(index);
      SetMaskReadsBack(e.vectorControl, on);
      WriteEntry(index, e.(vectorControl := SetMask(e.vectorControl, on)));
    }
  }

  // The pending bit array.

  /** Bit `j` of a `u64`. */
  predicate Bit(w: bv64, j: nat)
    requires j < 64
  {
    (w >> j) & 1 != 0
  }

  /** Bits `j..64` of one `u64`, least significant first. */
  function BitsFrom(w: bv64, j: nat): (b: seq<bool>)
    requires j <= 64
    ensures |b| == 64 - j
    decreases 64 - j
  {
    if j == 64 then [] else [Bit(w, j)] + BitsFrom(w, j + 1)
  }

  /** The bits of one `u64`, least significant first. */
  function WordBits(w: bv64): (b: seq<bool>)
    ensures |b| == 64
  {
    BitsFrom(w, 0)
  }

  /** Element `k` of `BitsFrom(w, j)` is bit `j + k`. */
  lemma {:induction false} BitsFromIndex(w: bv64, j: nat, k: nat)
    requires j + k < 64
    ensures BitsFrom(w, j)[k] == Bit(w, j + k)
    decreases k
  {
    if k > 0 {
      BitsFromIndex(w, j + 1, k - 1);
    }
  }

  /** The array read as one bit string: bit `64 * k + j` is bit `j` of word `k`. */
  function PendingBits(words: seq<bv64>): (b: seq<bool>)
    ensures |b| == 64 * |words|
  {
    if |words| == 0 then [] else WordBits(words[0]) + PendingBits(words[1..])
  }

  /** Bit `e` of the bit string is bit `e % 64` of word `e / 64`. */
  lemma {:induction false} PendingBitIsWordBit(words: seq<bv64>, e: nat)
    requires e < 64 * |words|
    ensures PendingBits(words)[e] == Bit(words[e / 64], e % 64)
  {
    if e < 64 {
      BitsFromIndex(words[0], 0, e);
      assert PendingBits(words)[e] == WordBits(words[0])[e];
    } else {
      PendingBitIsWordBit(words[1..], e - 64);
      assert (e - 64) / 64 == e / 64 - 1 && (e - 64) % 64 == e % 64;
      assert PendingBits(words)[e] == PendingBits(words[1..])[e - 64];
    }
  }

  /** The number of `u64` words `new` makes the array: `table_size`
      rounded up to a multiple of `size_of::<u64>()`, which is 8. */
  function PbaLength(tableSize: bv16): (n: nat)
    ensures n * 8 >= tableSize as int && (n - 1) * 8 < tableSize as int
  {
    (tableSize as int + 7) / 8
  }

  /** Every entry of the table has its word in the array. */
  lemma PbaCoversTable(tableSize: bv16, e: U16)
    requires e < tableSize as int
    ensures e / 64 < PbaLength(tableSize)
    ensures 64 * PbaLength(tableSize) > e
  {
  }

  /** The array is at least the `ceil(table_size / 64)` words the pending bits
      need; beyond 8 entries it is longer than that. */
  lemma PbaLengthBounds(tableSize: bv16)
    ensures (tableSize as int + 63) / 64 <= PbaLength(tableSize)
    ensures tableSize as int > 8 ==> (tableSize as int + 63) / 64 < PbaLength(tableSize)
  {
  }

  /** The pending bit array: read-only words at `addr`. */
  class MsiXPendingBitArray {
    const addr: nat
    const words: array<bv64>

    constructor (addr: nat, words: array<bv64>)
      ensures this.addr == addr && this.words == words
    {
      this.addr := addr;
      this.words := words;
    }

    /** `is_pending`: bit `entry % 64` of word `entry / 64`, that is bit
        `entry` of the whole array; a word past the array panics. */
    method IsPending(entry: U16) returns (p: bool)
      requires entry / 64 < words.Length
      ensures p == PendingBits(words[..])[entry]
    {
      var u64Index := entry / 64;
      var bitIndex := entry % 64;
      p := (words[u64Index] >> bitIndex) & 1 != 0;
      PendingBitIsWordBit(words[..], entry);
    }
  }

  /** Entry 65 is bit 1 of word 1. */
  lemma PendingEntry65(words: seq<bv64>)
    requires |words| >= 2
    ensures PendingBits(words)[65] == Bit(words[1], 1)
  {
    PendingBitIsWordBit(words, 65);
  }

  // The registers in configuration space.

  /** The table location, the dword at `ptr + 0x4`. */
  function TableLocation(s: Space, bus: bv8, dev: bv8, fn: bv8, ptr: bv8): bv32
    requires MsiCap.AddrReachable(s, bus, dev, fn, ptr)
  {
    Dword(s, bus, dev, fn, ptr + 0x4)
  }

  /** The pending bit array location, the dword at `ptr + 0x8`. */
  function PbaLocation(s: Space, bus: bv8, dev: bv8, fn: bv8, ptr: bv8): bv32
    requires MsiCap.UpperAddrReachable(s, bus, dev, fn, ptr)
  {
    Dword(s, bus, dev, fn, ptr + 0x8)
  }

  /** An MSI-X structure at `ptr` of one function. */
  datatype MsiX = MsiX(pci: PciAccess, bus: bv8, dev: bv8, fn: bv8, ptr: bv8)
  {
    function View(): Space
      reads pci, pci.mem
    {
      pci.Space()
    }

    method MessageControl() returns (m: bv16)
      requires MsiCap.ControlReachable(View(), bus, dev, fn, ptr)
      modifies pci
      ensures View() == old(View())
      ensures m == MsiCap.Control(View(), bus, dev, fn, ptr)
    {
      m := pci.ReadU16(bus, dev, fn, ptr + 0x2);
    }

    method SetMessageControl(m: bv16)
      requires MsiCap.ControlReachable(View(), bus, dev, fn, ptr)
      modifies pci, pci.mem
      ensures View() == MsiCap.WithControl(old(View()), bus, dev, fn, ptr, m)
    {
      pci.WriteU16(bus, dev, fn, ptr + 0x2, m);
    }

    method GetTableLocation() returns (l: bv32)
      requires MsiCap.AddrReachable(View(), bus, dev, fn, ptr)
      modifies pci
      ensures View() == old(View())
      ensures l == TableLocation(View(), bus, dev, fn, ptr)
    {
      l := pci.ReadU32(bus, dev, fn, ptr + 0x4);
    }

    method GetPbaLocation() returns (l: bv32)
      requires MsiCap.UpperAddrReachable(View(), bus, dev, fn, ptr)
      modifies pci
      ensures View() == old(View())
      ensures l == PbaLocation(View(), bus, dev, fn, ptr)
    {
      l := pci.ReadU32(bus, dev, fn, ptr + 0x8);
    }

    /**
     * `table`: the table starts `offset_in_bar` bytes into the BAR mapped at
     * `barVirtAddr` (a non-zero `usize`; the `checked_add` panics on
     * overflow) and has `table_size` entries. `memory` stands for the
     * entries found there, which the caller promises are mapped.
     */
    method Table(barVirtAddr: nat, memory: array<MsiXTableEntry>) returns (t: MsiXTable)
      requires MsiCap.ControlReachable(View(), bus, dev, fn, ptr) && MsiCap.AddrReachable(View(), bus, dev, fn, ptr)
      requires 0 < barVirtAddr < 0x1_0000_0000_0000_0000
      requires barVirtAddr + OffsetInBar(TableLocation(View(), bus, dev, fn, ptr)) as int < 0x1_0000_0000_0000_0000
      requires memory.Length == TableSize(MsiCap.Control(View(), bus, dev, fn, ptr)) as int
      modifies pci
      ensures View() == old(View())
      ensures fresh(t)
      ensures t.addr == barVirtAddr + OffsetInBar(TableLocation(View(), bus, dev, fn, ptr)) as int
      ensures t.entries == memory
      ensures t.entries.Length == TableSize(MsiCap.Control(View(), bus, dev, fn, ptr)) as int
    {
      var location := GetTableLocation();
      var tableAddr := barVirtAddr + OffsetInBar(location) as int;
      var control := MessageControl();
      t := new MsiXTable(tableAddr, memory);
    }

    /**
     * `pending_bit_array`: as `table`, at `offset_in_bar` of the PBA
     * location, with `table_size` rounded up to a multiple of 8 words.
     */
    method PendingBitArray(barVirtAddr: nat, memory: array<bv64>) returns (a: MsiXPendingBitArray)
      requires MsiCap.ControlReachable(View(), bus, dev, fn, ptr) && MsiCap.UpperAddrReachable(View(), bus, dev, fn, ptr)
      requires 0 < barVirtAddr < 0x1_0000_0000_0000_0000
      requires barVirtAddr + OffsetInBar(PbaLocation(View(), bus, dev, fn, ptr)) as int < 0x1_0000_0000_0000_0000
      requires memory.Length == PbaLength(TableSize(MsiCap.Control(View(), bus, dev, fn, ptr)))
      modifies pci
      ensures View() == old(View())
      ensures fresh(a)
      ensures a.addr == barVirtAddr + OffsetInBar(PbaLocation(View(), bus, dev, fn, ptr)) as int
      ensures a.words == memory
      ensures a.words.Length == PbaLength(TableSize(MsiCap.Control(View(), bus, dev, fn, ptr)))
    {
      var location := GetPbaLocation();
      var pbaAddr := barVirtAddr + OffsetInBar(location) as int;
      var control := MessageControl();
      a := new MsiXPendingBitArray(pbaAddr, memory);
    }
  }

  /**
   * `MsiX::find`: `None` for an unknown header type; otherwise the MSI-X view
   * at the first walked capability with id 0x11, or `Some(None)` if there is
   * none.
   */
  method Find(f: PciFunction) returns (r: Option<Option<MsiX>>)
    requires CapabilitiesReadable(f.View(), f.bus, f.dev, f.fn)
    modifies f.pci
    ensures f.View() == old(f.View())
    ensures r.None? <==> FindCapability(f.View(), f.bus, f.dev, f.fn, 0x11).None?
    ensures r.Some? ==> (r.value.Some? <==> FindCapability(f.View(), f.bus, f.dev, f.fn, 0x11).value.Some?)
    ensures r.Some? && r.value.Some? ==>
      r.value.value == MsiX(f.pci, f.bus, f.dev, f.fn, FindCapability(f.View(), f.bus, f.dev, f.fn, 0x11).value.value.ptrToSelf)
  {
    var caps := f.ReadCapabilities();
    if caps.None? {
      return None;
    }
    var found := caps.value.Find(0x11);
    match found
    case None =>
      r := Some(None);
    case Some(capability) =>
      r := Some(Some(MsiX(f.pci, f.bus, f.dev, f.fn, capability.ptrToSelf)));
  }
}
