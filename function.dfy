/**
 * One function of one device (`PciFunction`): its identification registers,
 * its header type and the number of BARs that layout has, BAR sizing, the
 * interrupt register and the command register. Every accessor goes through
 * the transport, so each is a method that names the transport in its
 * `modifies` clause and says what it read or wrote in terms of `Space`.
 */
module Functions {
  import opened Wrappers
  import opened Bitfield
  import opened Access
  import opened HeaderTypes
  import opened Bar
  import opened Caps

  /** The header type the byte at 0xE names, when it is one of the three. */
  function HeaderTypeOf(s: Space, bus: bv8, dev: bv8, fn: bv8): Option<HeaderType>
    requires InBounds(s, bus, dev, fn, 0xE, 2)
  {
    TryFromPrimitive(HeaderTypeField(Low8Of16(Word(s, bus, dev, fn, 0xE))))
  }

  /** `max_bars` for a known layout. */
  function MaxBarsFor(h: HeaderType): bv8
  {
    match h
    case GeneralDevice => 6
    case PciToPciBridge => 2
    case PciToCardBusBridge => 0
  }

  /** Where each layout keeps its capabilities pointer. */
  function CapabilitiesPointerFor(h: HeaderType): bv8
  {
    match h
    case GeneralDevice => 0x34
    case PciToPciBridge => 0x34
    case PciToCardBusBridge => 0x14
  }

  /** By header-type field: 0, 1 and 2 have 6, 2 and 0 BARs and keep the
      capabilities pointer at 0x34, 0x34 and 0x14; every other value is unknown. */
  lemma LayoutsByField(f: bv8)
    ensures f == 0 ==> (TryFromPrimitive(f).Some? && MaxBarsFor(TryFromPrimitive(f).value) == 6
      && CapabilitiesPointerFor(TryFromPrimitive(f).value) == 0x34)
    ensures f == 1 ==> (TryFromPrimitive(f).Some? && MaxBarsFor(TryFromPrimitive(f).value) == 2
      && CapabilitiesPointerFor(TryFromPrimitive(f).value) == 0x34)
    ensures f == 2 ==> (TryFromPrimitive(f).Some? && MaxBarsFor(TryFromPrimitive(f).value) == 0
      && CapabilitiesPointerFor(TryFromPrimitive(f).value) == 0x14)
    ensures f > 2 ==> TryFromPrimitive(f).None?
  {
  }

  /** `0x10 + 4 * bar_index`: BAR `i` of the header. */
  function BarOffset(i: bv8): bv8
    requires i <= 6
  {
    0x10 + 4 * i
  }

  /** The BARs a layout has, and the one after the last (read for a 64-bit
      BAR in the last slot), lie between 0x10 and 0x28, aligned, below the
      capabilities pointer. */
  lemma BarsBelowCapabilitiesPointer(h: HeaderType, i: bv8)
    requires i < MaxBarsFor(h)
    ensures BarOffset(i) % 4 == 0 && BarOffset(i + 1) % 4 == 0
    ensures 0x10 <= BarOffset(i) < BarOffset(i + 1) <= 0x28
    ensures BarOffset(i + 1) <= CapabilitiesPointerFor(h)
  {
  }

  // Decoding a sized BAR.

  /** `(!(mask & !0b1111)).wrapping_add(1)`: the size of a 32-bit memory BAR
      from its answer to the all-ones write. */
  function MemorySize32(mask: bv32): bv32 { !(mask & 0xFFFF_FFF0) + 1 }

  /** `(!(mask & !0b11)).wrapping_add(1)`: the size of an I/O BAR. */
  function IoSize(mask: bv32): bv32 { !(mask & 0xFFFF_FFFC) + 1 }

  /** `lo as u64 | (hi as u64) << 32`. */
  function Combine64(lo: bv32, hi: bv32): bv64 { (lo as bv64) | ((hi as bv64) << 32) }

  /** `(!combined).wrapping_add(1)`: the size of a 64-bit memory BAR from
      the answers of both halves, combined with the flag bits cleared. */
  function MemorySize64(combined: bv64): bv64 { !combined + 1 }

  /** A BAR the decoder accepts: an I/O BAR, or a memory BAR whose type is
      32-bit (0) or 64-bit (2); types 1 and 3 reach `unreachable!`. */
  predicate Decodable(raw: bv32)
  {
    BarType(raw) == 1 || MemoryType(raw) == 0 || MemoryType(raw) == 2
  }

  /** A 64-bit memory BAR, which takes the next slot too. */
  predicate Is64Bit(raw: bv32)
  {
    BarType(raw) == 0 && MemoryType(raw) == 2
  }

  /** What `read_bar_with_size` builds from the BAR value `raw`, the answer
      `size` to the all-ones write and, for a 64-bit BAR, the same two for
      the next slot. */
  function DecodeBar(raw: bv32, size: bv32, nextRaw: bv32, nextSize: bv32): BarWithSize
    requires Decodable(raw)
  {
    if BarType(raw) == 0 then
      Memory(MemoryBarInfo(
        if MemoryType(raw) == 0 then
          U32(MemoryBarAddrAndSizeU32(raw & 0xFFFF_FFF0, MemorySize32(size)))
        else
          U64(MemoryBarAddrAndSizeU64(Combine64(raw & 0xFFFF_FFF0, nextRaw), MemorySize64(Combine64(size & 0xFFFF_FFF0, nextSize)))),
        Prefetchable(raw)))
    else
      Io(IoBarInfo(IoAddr(raw), IoSize(size)))
  }

  /** The variant follows the type bits: I/O for bit 0 set, a 64-bit memory
      BAR (two slots) for type 2, a 32-bit one (one slot) for type 0. */
  lemma DecodeBarKind(raw: bv32, size: bv32, nextRaw: bv32, nextSize: bv32)
    requires Decodable(raw)
    ensures DecodeBar(raw, size, nextRaw, nextSize).Io? <==> BarType(raw) == 1
    ensures SlotsLen(DecodeBar(raw, size, nextRaw, nextSize)) == if Is64Bit(raw) then 2 else 1
    ensures DecodeBar(raw, size, nextRaw, nextSize).Memory? ==>
      DecodeBar(raw, size, nextRaw, nextSize).memory.prefetchable == Prefetchable(raw)
  {
    BarTypeIsOneBit(raw);
  }

  /** The size is the two's complement of the answer with its flag bits
      cleared: adding the two wraps to zero. */
  lemma MemorySize32Negates(mask: bv32)
    ensures MemorySize32(mask) + (mask & 0xFFFF_FFF0) == 0
  {
  }

  lemma IoSizeNegates(mask: bv32)
    ensures IoSize(mask) + (mask & 0xFFFF_FFFC) == 0
  {
  }

  lemma MemorySize64Negates(combined: bv64)
    ensures MemorySize64(combined) + combined == 0
  {
  }

  /** The two halves of a combined value are the halves it was built from. */
  lemma Combine64Low(lo: bv32, hi: bv32)
    ensures Low32(Combine64(lo, hi)) == lo
  {
  }

  lemma Combine64High(lo: bv32, hi: bv32)
    ensures Low32(Combine64(lo, hi) >> 32) == hi
  {
  }

  /** A memory address has its four flag bits cleared and keeps the rest. */
  lemma MemoryAddrClearsFlags(raw: bv32)
    ensures (raw & 0xFFFF_FFF0) & 0xF == 0
    ensures (raw & 0xFFFF_FFF0) | (raw & 0xF) == raw
  {
  }

  /** Worked sizes: a 4 KiB memory BAR answers 0xFFFF_F000, and so does the
      low half of a 4 KiB 64-bit one whose high half answers all ones. */
  lemma SizeExamples()
    ensures MemorySize32(0xFFFF_F000) == 0x1000
    ensures MemorySize64(Combine64(0xFFFF_F000, 0xFFFF_FFFF)) == 0x1000
  {
  }

  /** An I/O BAR at 0xC000 with four ports. */
  lemma IoBarExample()
    ensures DecodeBar(0xC001, 0xFFFF_FFFC, 0, 0) == Io(IoBarInfo(0xC000, 4))
  {
  }

  /** What `read_bar_with_size` needs to run without a panic: the header
      byte can be read; for a known layout the index is below `max_bars`
      and the BAR can be read; a present memory BAR has type 0 or 2, and a
      64-bit one's next slot can be read. */
  predicate ProbeAllowed(s: Space, bus: bv8, dev: bv8, fn: bv8, i: bv8)
  {
    InBounds(s, bus, dev, fn, 0xE, 2)
    && (HeaderTypeOf(s, bus, dev, fn).Some? ==>
          i < MaxBarsFor(HeaderTypeOf(s, bus, dev, fn).value)
          && InBounds(s, bus, dev, fn, BarOffset(i), 4)
          && (Dword(s, bus, dev, fn, BarOffset(i)) != 0 ==>
                Decodable(Dword(s, bus, dev, fn, BarOffset(i)))
                && (Is64Bit(Dword(s, bus, dev, fn, BarOffset(i))) ==> InBounds(s, bus, dev, fn, BarOffset(i + 1), 4))))
  }

  /** The result of `read_bar_with_size` on a view: `None` for an unknown
      layout, `Some(None)` for a zero BAR, the decoded BAR otherwise. */
  function BarProbe(s: Space, bus: bv8, dev: bv8, fn: bv8, i: bv8, size: bv32, nextSize: bv32)
    : (r: Option<Option<BarWithSize>>)
    requires ProbeAllowed(s, bus, dev, fn, i)
    ensures r.None? <==> HeaderTypeOf(s, bus, dev, fn).None?
    ensures r == Some(None) <==>
      HeaderTypeOf(s, bus, dev, fn).Some? && Dword(s, bus, dev, fn, BarOffset(i)) == 0
  {
    match HeaderTypeOf(s, bus, dev, fn)
    case None => None
    case Some(_) =>
      var raw := Dword(s, bus, dev, fn, BarOffset(i));
      if raw == 0 then Some(None)
      else if Is64Bit(raw) then
        Some(Some(DecodeBar(raw, size, Dword(s, bus, dev, fn, BarOffset(i + 1)), nextSize)))
      else
        Some(Some(DecodeBar(raw, size, 0, 0)))
  }

  /** Two views no read can tell apart give the same probe result, so a
      second `read_bar_with_size` right after the first (which leaves such
      a view) reports the same BAR, address and size for the same answers. */
  lemma BarProbeSameContents(s1: Space, s2: Space, bus: bv8, dev: bv8, fn: bv8, i: bv8, size: bv32, nextSize: bv32)
    requires SameContents(s1, s2) && ProbeAllowed(s1, bus, dev, fn, i)
    ensures ProbeAllowed(s2, bus, dev, fn, i)
    ensures BarProbe(s2, bus, dev, fn, i, size, nextSize) == BarProbe(s1, bus, dev, fn, i, size, nextSize)
  {
    ProbeAllowedSameContents(s1, s2, bus, dev, fn, i);
    if HeaderTypeOf(s1, bus, dev, fn).Some? {
      var raw := Dword(s1, bus, dev, fn, BarOffset(i));
      if raw != 0 && Is64Bit(raw) {
        SameContentsSameDword(s1, s2, bus, dev, fn, BarOffset(i + 1));
      }
    }
  }

  /** The probe's precondition and the registers it first reads carry over
      between views with the same contents. */
  lemma ProbeAllowedSameContents(s1: Space, s2: Space, bus: bv8, dev: bv8, fn: bv8, i: bv8)
    requires SameContents(s1, s2) && ProbeAllowed(s1, bus, dev, fn, i)
    ensures ProbeAllowed(s2, bus, dev, fn, i)
    ensures HeaderTypeOf(s2, bus, dev, fn) == HeaderTypeOf(s1, bus, dev, fn)
    ensures HeaderTypeOf(s1, bus, dev, fn).Some? ==>
      Dword(s2, bus, dev, fn, BarOffset(i)) == Dword(s1, bus, dev, fn, BarOffset(i))
  {
    HeaderTypeSameContents(s1, s2, bus, dev, fn);
    if HeaderTypeOf(s1, bus, dev, fn).Some? {
      SameContentsSameDword(s1, s2, bus, dev, fn, BarOffset(i));
      var raw := Dword(s1, bus, dev, fn, BarOffset(i));
      if raw != 0 && Is64Bit(raw) {
        SameContentsSameShape(s1, s2);
        SameShapeInBounds(s1, s2, bus, dev, fn, BarOffset(i + 1), 4);
      }
    }
  }

  /** Views with the same contents have the same header type. */
  lemma HeaderTypeSameContents(s1: Space, s2: Space, bus: bv8, dev: bv8, fn: bv8)
    requires SameContents(s1, s2) && InBounds(s1, bus, dev, fn, 0xE, 2)
    ensures InBounds(s2, bus, dev, fn, 0xE, 2)
    ensures HeaderTypeOf(s2, bus, dev, fn) == HeaderTypeOf(s1, bus, dev, fn)
  {
    SameContentsSameWord(s1, s2, bus, dev, fn, 0xE);
  }

  // The interrupt register.

  /** `InterruptInfo`: pin and line. */
  datatype InterruptInfo = InterruptInfo(interruptPin: bv8, interruptLine: bv8)

  /** Pin is bits 15..=8 and line bits 7..=0 of the dword at 0x3C. */
  function InterruptInfoOf(reg: bv32): InterruptInfo
  {
    InterruptInfo(Low8(reg >> 8), Low8(reg))
  }

  /** `current_reg & !0xFF | interrupt_line as u32`. */
  function WithInterruptLine(reg: bv32, line: bv8): bv32
  {
    (reg & 0xFFFF_FF00) | (line as bv32)
  }

  /** The new line reads back and the pin is kept ... */
  lemma InterruptLineReadsBack(reg: bv32, line: bv8)
    ensures InterruptInfoOf(WithInterruptLine(reg, line)) == InterruptInfo(InterruptInfoOf(reg).interruptPin, line)
  {
  }

  /** ... and only the low byte of the register changes. */
  lemma InterruptLineKeepsUpperBytes(reg: bv32, line: bv8)
    ensures WithInterruptLine(reg, line) & 0xFFFF_FF00 == reg & 0xFFFF_FF00
  {
  }

  /** A function of a device on a bus, over the transport. */
  datatype PciFunction = PciFunction(pci: PciAccess, bus: bv8, dev: bv8, fn: bv8)
  {
    /** The configuration space this function sees. */
    function View(): Space
      reads pci, pci.mem
    {
      pci.Space()
    }

    /** `vendor_id`: the word at 0x0. */
    method VendorId() returns (v: bv16)
      requires InBounds(View(), bus, dev, fn, 0x0, 2)
      modifies pci
      ensures View() == old(View())
      ensures v == Word(View(), bus, dev, fn, 0x0)
    {
      v := pci.ReadU16(bus, dev, fn, 0x0);
    }

    /** `device_id`: the word at 0x2. */
    method DeviceId() returns (v: bv16)
      requires InBounds(View(), bus, dev, fn, 0x2, 2)
      modifies pci
      ensures View() == old(View())
      ensures v == Word(View(), bus, dev, fn, 0x2)
    {
      v := pci.ReadU16(bus, dev, fn, 0x2);
    }

    /** `class_code`: the high byte of the word at 0xA. */
    method ClassCode() returns (v: bv8)
      requires InBounds(View(), bus, dev, fn, 0xA, 2)
      modifies pci
      ensures View() == old(View())
      ensures v == Low8Of16(Word(View(), bus, dev, fn, 0xA) >> 8)
    {
      var w := pci.ReadU16(bus, dev, fn, 0xA);
      v := Low8Of16(w >> 8);
    }

    /** `sub_class`: the low byte of the word at 0xA. */
    method SubClass() returns (v: bv8)
      requires InBounds(View(), bus, dev, fn, 0xA, 2)
      modifies pci
      ensures View() == old(View())
      ensures v == Low8Of16(Word(View(), bus, dev, fn, 0xA))
    {
      var w := pci.ReadU16(bus, dev, fn, 0xA);
      v := Low8Of16(w);
    }

    /** `prog_if`: the high byte of the word at 0x8. */
    method ProgIf() returns (v: bv8)
      requires InBounds(View(), bus, dev, fn, 0x8, 2)
      modifies pci
      ensures View() == old(View())
      ensures v == Low8Of16(Word(View(), bus, dev, fn, 0x8) >> 8)
    {
      var w := pci.ReadU16(bus, dev, fn, 0x8);
      v := Low8Of16(w >> 8);
    }

    /** `header_type_byte`: the low byte of the word at 0xE. */
    method HeaderTypeByte() returns (b: bv8)
      requires InBounds(View(), bus, dev, fn, 0xE, 2)
      modifies pci
      ensures View() == old(View())
      ensures b == Low8Of16(Word(View(), bus, dev, fn, 0xE))
    {
      var w := pci.ReadU16(bus, dev, fn, 0xE);
      b := Low8Of16(w);
    }

    /** `header_type`: the layout, or `None` when the field is unknown. */
    method ReadHeaderType() returns (h: Option<HeaderType>)
      requires InBounds(View(), bus, dev, fn, 0xE, 2)
      modifies pci
      ensures View() == old(View())
      ensures h == HeaderTypeOf(View(), bus, dev, fn)
      ensures h.Some? <==> HeaderTypeField(Low8Of16(Word(View(), bus, dev, fn, 0xE))) <= 2
    {
      var b := HeaderTypeByte();
      h := TryFromPrimitive(HeaderTypeField(b));
    }

    /** `max_bars`. */
    method MaxBars() returns (n: Option<bv8>)
      requires InBounds(View(), bus, dev, fn, 0xE, 2)
      modifies pci
      ensures View() == old(View())
      ensures n.None? <==> HeaderTypeOf(View(), bus, dev, fn).None?
      ensures n.Some? ==> n.value == MaxBarsFor(HeaderTypeOf(View(), bus, dev, fn).value) && n.value <= 6
    {
      var h := ReadHeaderType();
      if h.None? {
        return None;
      }
      n := Some(MaxBarsFor(h.value));
    }

    /**
     * `read_bar_with_size`: read the BAR; if it is zero report it absent;
     * otherwise write all ones, read the answer, write the value back, and
     * for a 64-bit BAR do the same with the next slot. The answers are the
     * device's own behaviour: `sizeAnswer` and `nextSizeAnswer` stand for
     * what the two reads after the all-ones writes return.
     */
    method ReadBarWithSize(barIndex: bv8, sizeAnswer: bv32, nextSizeAnswer: bv32)
      returns (r: Option<Option<BarWithSize>>)
      requires ProbeAllowed(View(), bus, dev, fn, barIndex)
      modifies pci, pci.mem
      ensures r == BarProbe(old(View()), bus, dev, fn, barIndex, sizeAnswer, nextSizeAnswer)
      ensures SameContents(View(), old(View()))
      ensures (r.None? || r == Some(None)) ==> View() == old(View())
    {
      ghost var s0 := View();
      var maxBars := MaxBars();
      if maxBars.None? {
        return None;
      }
      var off := BarOffset(barIndex);
      var raw := pci.ReadU32(bus, dev, fn, off);
      if raw == 0 {
        return Some(None);
      }
      SizeOneSlot(off, raw);
      var rawSize := sizeAnswer;
      if Is64Bit(raw) {
        var nextRaw := SizeUpperSlot(s0, barIndex + 1);
        r := Some(Some(DecodeBar(raw, rawSize, nextRaw, nextSizeAnswer)));
      } else {
        r := Some(Some(DecodeBar(raw, rawSize, 0, 0)));
      }
    }

    /** The second slot of a 64-bit BAR, probed after the first was
        restored: it reads as it did in the view `s0` before the probe. */
    method SizeUpperSlot(ghost s0: Space, i: bv8) returns (nextRaw: bv32)
      requires i <= 6 && SameContents(View(), s0) && InBounds(s0, bus, dev, fn, BarOffset(i), 4)
      modifies pci, pci.mem
      ensures nextRaw == Dword(s0, bus, dev, fn, BarOffset(i))
      ensures SameContents(View(), s0)
    {
      ghost var s1 := View();
      SameContentsSameShape(s1, s0);
      SameContentsSameDword(s0, s1, bus, dev, fn, BarOffset(i));
      var nextOff := BarOffset(i);
      nextRaw := pci.ReadU32(bus, dev, fn, nextOff);
      SizeOneSlot(nextOff, nextRaw);
      SameContentsTransitive(View(), s1, s0);
    }

    /** One slot of the probe: write all ones, read the device's answer,
        write `raw` back. The read is kept for its effect on the address
        latch; what the device answers is not a function of the view, so
        `ReadBarWithSize` takes it as its `sizeAnswer` and `nextSizeAnswer`
        parameters. */
    method SizeOneSlot(off: bv8, raw: bv32)
      requires off % 4 == 0 && InBounds(View(), bus, dev, fn, off, 4)
      requires raw == Dword(View(), bus, dev, fn, off)
      modifies pci, pci.mem
      ensures SameContents(View(), old(View()))
    {
      ghost var s0 := View();
      pci.WriteU32(bus, dev, fn, off, 0xFFFF_FFFF);
      DwordRestore(s0, bus, dev, fn, off, 0xFFFF_FFFF);
      var allOnesRead := pci.ReadU32(bus, dev, fn, off);
      pci.WriteU32(bus, dev, fn, off, raw);
    }

    /** `interrupt_info`: pin and line from the dword at 0x3C. */
    method ReadInterruptInfo() returns (r: Option<InterruptInfo>)
      requires InBounds(View(), bus, dev, fn, 0xE, 2)
      requires HeaderTypeOf(View(), bus, dev, fn).Some? ==> InBounds(View(), bus, dev, fn, 0x3C, 4)
      modifies pci
      ensures View() == old(View())
      ensures r.None? <==> HeaderTypeOf(View(), bus, dev, fn).None?
      ensures r.Some? ==> r.value == InterruptInfoOf(Dword(View(), bus, dev, fn, 0x3C))
    {
      var h := ReadHeaderType();
      if h.None? {
        return None;
      }
      var off := InterruptRegAddr(h.value);
      var reg := pci.ReadU32(bus, dev, fn, off);
      r := Some(InterruptInfoOf(reg));
    }

    /** `set_interrupt_line`: replace the low byte of the dword at 0x3C. */
    method SetInterruptLine(line: bv8) returns (r: Option<()>)
      requires InBounds(View(), bus, dev, fn, 0xE, 2)
      requires HeaderTypeOf(View(), bus, dev, fn).Some? ==> InBounds(View(), bus, dev, fn, 0x3C, 4)
      modifies pci, pci.mem
      ensures r.None? <==> HeaderTypeOf(old(View()), bus, dev, fn).None?
      ensures r.None? ==> View() == old(View())
      ensures r.Some? ==> View() == WithDword(old(View()), bus, dev, fn, 0x3C,
        WithInterruptLine(Dword(old(View()), bus, dev, fn, 0x3C), line))
    {
      var h := ReadHeaderType();
      if h.None? {
        return None;
      }
      var off := InterruptRegAddr(h.value);
      var current := pci.ReadU32(bus, dev, fn, off);
      pci.WriteU32(bus, dev, fn, off, WithInterruptLine(current, line));
      r := Some(());
    }

    /** `capabilities`: the iterator, starting at the low byte of the dword
        at the layout's capabilities pointer. */
    method ReadCapabilities() returns (r: Option<Capabilities>)
      requires InBounds(View(), bus, dev, fn, 0xE, 2)
      requires HeaderTypeOf(View(), bus, dev, fn).Some? ==>
        InBounds(View(), bus, dev, fn, CapabilitiesPointerFor(HeaderTypeOf(View(), bus, dev, fn).value), 4)
      modifies pci
      ensures View() == old(View())
      ensures r.None? <==> CapabilitiesStart(View(), bus, dev, fn).None?
      ensures r.Some? ==> fresh(r.value)
      ensures r.Some? ==> r.value.pci == pci && r.value.bus == bus && r.value.dev == dev && r.value.fn == fn
      ensures r.Some? ==> r.value.ptr == CapabilitiesStart(View(), bus, dev, fn).value
    {
      var h := ReadHeaderType();
      if h.None? {
        return None;
      }
      var off := CapabilitiesPointerFor(h.value);
      var reg := pci.ReadU32(bus, dev, fn, off);
      var caps := new Capabilities(pci, bus, dev, fn, Low8(reg));
      r := Some(caps);
    }

    /** `command`: the word at 0x4. */
    method Command() returns (c: bv16)
      requires InBounds(View(), bus, dev, fn, 0x4, 2)
      modifies pci
      ensures View() == old(View())
      ensures c == Word(View(), bus, dev, fn, 0x4)
    {
      c := pci.ReadU16(bus, dev, fn, 0x4);
    }

    /** `set_command`: store the word at 0x4. */
    method SetCommand(c: bv16)
      requires InBounds(View(), bus, dev, fn, 0x4, 2)
      modifies pci, pci.mem
      ensures View() == WithWord(old(View()), bus, dev, fn, 0x4, c)
    {
      pci.WriteU16(bus, dev, fn, 0x4, c);
    }
  }

  /** Where `capabilities` starts: the low byte of the dword at the layout's
      capabilities pointer, or `None` for an unknown layout. */
  function CapabilitiesStart(s: Space, bus: bv8, dev: bv8, fn: bv8): (p: Option<bv8>)
    requires InBounds(s, bus, dev, fn, 0xE, 2)
    requires HeaderTypeOf(s, bus, dev, fn).Some? ==>
      InBounds(s, bus, dev, fn, CapabilitiesPointerFor(HeaderTypeOf(s, bus, dev, fn).value), 4)
    ensures p.None? <==> HeaderTypeOf(s, bus, dev, fn).None?
  {
    match HeaderTypeOf(s, bus, dev, fn)
    case None => None
    case Some(h) => Some(Low8(Dword(s, bus, dev, fn, CapabilitiesPointerFor(h))))
  }

  /** The capability walk of a function can run without a panic: the
      header-type word and the list pointer can be read, and the first node
      pointer is zero or readable. */
  predicate CapabilitiesReadable(s: Space, bus: bv8, dev: bv8, fn: bv8)
  {
    InBounds(s, bus, dev, fn, 0xE, 2) &&
    (HeaderTypeOf(s, bus, dev, fn).Some? ==>
      InBounds(s, bus, dev, fn, CapabilitiesPointerFor(HeaderTypeOf(s, bus, dev, fn).value), 4) &&
      Readable(s, bus, dev, fn, CapabilitiesStart(s, bus, dev, fn).value))
  }

  /**
   * What `capabilities()?.find(|c| c.id == id)` gives: `None` for an unknown
   * header type, else the first walked node with the id. Since the walk
   * yields at most one node, a node is found exactly when the first pointer
   * is nonzero and the dword there has the id in its low byte.
   */
  function FindCapability(s: Space, bus: bv8, dev: bv8, fn: bv8, id: bv8): (r: Option<Option<Capability>>)
    requires CapabilitiesReadable(s, bus, dev, fn)
    ensures r.None? <==> HeaderTypeOf(s, bus, dev, fn).None?
    ensures r.Some? ==> var p := CapabilitiesStart(s, bus, dev, fn).value;
      (r.value.Some? <==> p != 0 && Low8(Dword(s, bus, dev, fn, p)) == id)
    ensures r.Some? && r.value.Some? ==>
      r.value.value.id == id && r.value.value.ptrToSelf == CapabilitiesStart(s, bus, dev, fn).value
  {
    match CapabilitiesStart(s, bus, dev, fn)
    case None => None
    case Some(p) =>
      FindInWalk(s, bus, dev, fn, p, id);
      Some(FindId(Walk(s, bus, dev, fn, p), id))
  }

  // How the views relate.

  /** The identification registers through `read_u16` are the bytes of the
      first dword through `read_u32`: vendor id the low half, device id the
      high half. */
  lemma IdsAreHalvesOfDword0(s: Space, bus: bv8, dev: bv8, fn: bv8)
    requires InBounds(s, bus, dev, fn, 0x0, 4)
    ensures InBounds(s, bus, dev, fn, 0x0, 2) && InBounds(s, bus, dev, fn, 0x2, 2)
    ensures Word(s, bus, dev, fn, 0x0) == Low16(Dword(s, bus, dev, fn, 0x0))
    ensures Word(s, bus, dev, fn, 0x2) == Low16(Dword(s, bus, dev, fn, 0x0) >> 16)
  {
    WordIsHalfOfDword(s, bus, dev, fn, 0x0);
    WordIsHalfOfDword(s, bus, dev, fn, 0x2);
  }

  /** Prog-if is byte 0x9: bits 15..=8 of the dword at 0x8. */
  lemma ProgIfOfDword8(s: Space, bus: bv8, dev: bv8, fn: bv8)
    requires InBounds(s, bus, dev, fn, 0x8, 4)
    ensures InBounds(s, bus, dev, fn, 0x8, 2)
    ensures Low8Of16(Word(s, bus, dev, fn, 0x8) >> 8) == Low8(Dword(s, bus, dev, fn, 0x8) >> 8)
  {
    WordIsHalfOfDword(s, bus, dev, fn, 0x8);
    HighByteOfLow16(Dword(s, bus, dev, fn, 0x8));
  }

  /** Sub-class is byte 0xA: bits 23..=16 of the dword at 0x8. */
  lemma SubClassOfDword8(s: Space, bus: bv8, dev: bv8, fn: bv8)
    requires InBounds(s, bus, dev, fn, 0x8, 4)
    ensures InBounds(s, bus, dev, fn, 0xA, 2)
    ensures Low8Of16(Word(s, bus, dev, fn, 0xA)) == Low8(Dword(s, bus, dev, fn, 0x8) >> 16)
  {
    WordIsHalfOfDword(s, bus, dev, fn, 0xA);
    Low8OfLow16(Dword(s, bus, dev, fn, 0x8) >> 16);
  }

  /** Class code is byte 0xB: bits 31..=24 of the dword at 0x8. */
  lemma ClassCodeOfDword8(s: Space, bus: bv8, dev: bv8, fn: bv8)
    requires InBounds(s, bus, dev, fn, 0x8, 4)
    ensures InBounds(s, bus, dev, fn, 0xA, 2)
    ensures Low8Of16(Word(s, bus, dev, fn, 0xA) >> 8) == Low8(Dword(s, bus, dev, fn, 0x8) >> 24)
  {
    WordIsHalfOfDword(s, bus, dev, fn, 0xA);
    var d := Dword(s, bus, dev, fn, 0x8);
    HighByteOfLow16(d >> 16);
    ShiftsCompose(d);
  }

  lemma ShiftsCompose(d: bv32)
    ensures Low8((d >> 16) >> 8) == Low8(d >> 24)
  {
  }

  /** The header-type byte the function reads with `read_u16` at 0xE is the
      byte the bus reads as `(read_u32(0xC) >> 16) as u8`. */
  lemma HeaderByteOfDwordC(s: Space, bus: bv8, dev: bv8, fn: bv8)
    requires InBounds(s, bus, dev, fn, 0xC, 4)
    ensures InBounds(s, bus, dev, fn, 0xE, 2)
    ensures Low8Of16(Word(s, bus, dev, fn, 0xE)) == Low8(Dword(s, bus, dev, fn, 0xC) >> 16)
  {
    WordIsHalfOfDword(s, bus, dev, fn, 0xE);
    Low8OfLow16(Dword(s, bus, dev, fn, 0xC) >> 16);
  }

  /** After `set_interrupt_line`, `interrupt_info` reports the new line and
      the old pin, and the header type is unchanged. */
  lemma SetInterruptLineThenRead(s: Space, bus: bv8, dev: bv8, fn: bv8, line: bv8)
    requires InBounds(s, bus, dev, fn, 0xC, 4) && InBounds(s, bus, dev, fn, 0x3C, 4)
    ensures InBounds(s, bus, dev, fn, 0xE, 2)
    ensures var r := WithDword(s, bus, dev, fn, 0x3C, WithInterruptLine(Dword(s, bus, dev, fn, 0x3C), line));
      InBounds(r, bus, dev, fn, 0x3C, 4) && InBounds(r, bus, dev, fn, 0xE, 2)
      && InterruptInfoOf(Dword(r, bus, dev, fn, 0x3C))
         == InterruptInfo(InterruptInfoOf(Dword(s, bus, dev, fn, 0x3C)).interruptPin, line)
      && HeaderTypeOf(r, bus, dev, fn) == HeaderTypeOf(s, bus, dev, fn)
  {
    var v := WithInterruptLine(Dword(s, bus, dev, fn, 0x3C), line);
    DwordReadsBack(s, bus, dev, fn, 0x3C, v);
    InterruptLineReadsBack(Dword(s, bus, dev, fn, 0x3C), line);
    WordUntouchedByDword(s, bus, dev, fn, 0x3C, 0xE, v);
  }

  /** After `set_command`, `command` reads the value written and the status
      word beside it at 0x6 is unchanged. */
  lemma SetCommandThenRead(s: Space, bus: bv8, dev: bv8, fn: bv8, c: bv16)
    requires InBounds(s, bus, dev, fn, 0x4, 2) && InBounds(s, bus, dev, fn, 0x6, 2)
    ensures InBounds(WithWord(s, bus, dev, fn, 0x4, c), bus, dev, fn, 0x4, 2)
    ensures InBounds(WithWord(s, bus, dev, fn, 0x4, c), bus, dev, fn, 0x6, 2)
    ensures Word(WithWord(s, bus, dev, fn, 0x4, c), bus, dev, fn, 0x4) == c
    ensures Word(WithWord(s, bus, dev, fn, 0x4, c), bus, dev, fn, 0x6) == Word(s, bus, dev, fn, 0x6)
  {
    WordReadsBack(s, bus, dev, fn, 0x4, c);
    WordFrame(s, bus, dev, fn, 0x4, 0x6, c);
  }
}
