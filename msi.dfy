/**
 * The MSI capability (id 0x5) of a function, as laid out in section 6.8.1 of
 * the PCI Local Bus Specification 3.0: message control at `ptr + 0x2`, the
 * message address at `ptr + 0x4` (and its upper half at `ptr + 0x8` when
 * 64-bit addresses are supported), then the message data right after the
 * address. Every `ptr + k` is `u8` addition; its overflow is a panic, so the
 * accessors require it not to happen (`Fits`).
 */
module MsiCap {
  import opened Wrappers
  import opened Bitfield
  import opened Access
  import opened Caps
  import opened Functions

  // `MessageControlRegister`.

  predicate PerMessageMasking(m: bv16) { m & 0x0100 != 0 }
  predicate Supports64BitAddresses(m: bv16) { m & 0x0080 != 0 }
  function MultipleMessageEnable(m: bv16): bv8 { Low8Of16((m >> 4) & 0x7) }
  function SetMultipleMessageEnable(m: bv16, v: bv8): bv16 { (m & 0xFF8F) | (((v as bv16) << 4) & 0x0070) }
  function MultipleMessageCapable(m: bv16): bv8 { Low8Of16((m >> 1) & 0x7) }
  predicate Enable(m: bv16) { m & 0x0001 != 0 }
  function SetEnable(m: bv16, on: bool): bv16 { if on then m | 0x0001 else m & 0xFFFE }

  /** The setter stores the low three bits of its argument. */
  lemma SetMultipleMessageEnableReadsBack(m: bv16, v: bv8)
    ensures MultipleMessageEnable(SetMultipleMessageEnable(m, v)) == v & 0x7
  {
  }

  /** The setter leaves every bit outside 6..=4 as it was. */
  lemma SetMultipleMessageEnableKeepsOtherBits(m: bv16, v: bv8)
    ensures SetMultipleMessageEnable(m, v) & 0xFF8F == m & 0xFF8F
  {
  }

  /** The three-bit fields hold at most 7. */
  lemma MultipleMessageFieldsBounded(m: bv16)
    ensures MultipleMessageEnable(m) <= 7 && MultipleMessageCapable(m) <= 7
  {
  }

  lemma SetEnableReadsBack(m: bv16, on: bool)
    ensures Enable(SetEnable(m, on)) == on
  {
  }

  lemma SetEnableKeepsOtherBits(m: bv16, on: bool)
    ensures SetEnable(m, on) & 0xFFFE == m & 0xFFFE
  {
  }

  /** `get_message_data_offset`: the data register follows the address,
      which is two dwords wide when 64-bit addresses are supported. */
  function DataOffset(m: bv16): (o: bv8)
    ensures o == 0x4 + (if Supports64BitAddresses(m) then 0x8 else 0x4)
  {
    if Supports64BitAddresses(m) then 0xC else 0x8
  }

  // `ApicMsiMessageAddress` (section 12.11.1 of volume 3 of the Intel SDM).

  function FixedValue(a: bv32): bv16 { Low16((a >> 20) & 0xFFF) }
  function SetFixedValue(a: bv32, v: bv16): bv32 { (a & 0x000F_FFFF) | (((v as bv32) << 20) & 0xFFF0_0000) }
  function DestinationId(a: bv32): bv8 { Low8((a >> 12) & 0xFF) }
  function SetDestinationId(a: bv32, v: bv8): bv32 { (a & 0xFFF0_0FFF) | (((v as bv32) << 12) & 0x000F_F000) }
  predicate RedirectionHint(a: bv32) { a & 0x8 != 0 }
  function SetRedirectionHint(a: bv32, on: bool): bv32 { if on then a | 0x8 else a & 0xFFFF_FFF7 }
  predicate DestinationMode(a: bv32) { a & 0x4 != 0 }
  function SetDestinationMode(a: bv32, on: bool): bv32 { if on then a | 0x4 else a & 0xFFFF_FFFB }

  /** `Default`: zero with the fixed value 0xFEE. */
  function DefaultMessageAddress(): bv32 { SetFixedValue(0, 0xFEE) }

  /** The default address is the local APIC's 0xFEE0_0000 with destination 0. */
  lemma DefaultMessageAddressIsApicBase()
    ensures DefaultMessageAddress() == 0xFEE0_0000
    ensures FixedValue(DefaultMessageAddress()) == 0xFEE && DestinationId(DefaultMessageAddress()) == 0
  {
  }

  lemma SetFixedValueReadsBack(a: bv32, v: bv16)
    ensures FixedValue(SetFixedValue(a, v)) == v & 0xFFF
  {
  }

  lemma SetFixedValueKeepsOtherBits(a: bv32, v: bv16)
    ensures SetFixedValue(a, v) & 0x000F_FFFF == a & 0x000F_FFFF
  {
  }

  lemma SetDestinationIdReadsBack(a: bv32, v: bv8)
    ensures DestinationId(SetDestinationId(a, v)) == v
  {
  }

  lemma SetDestinationIdKeepsOtherBits(a: bv32, v: bv8)
    ensures SetDestinationId(a, v) & 0xFFF0_0FFF == a & 0xFFF0_0FFF
  {
  }

  lemma SetRedirectionHintReadsBack(a: bv32, on: bool)
    ensures RedirectionHint(SetRedirectionHint(a, on)) == on
  {
  }

  lemma SetRedirectionHintKeepsOtherBits(a: bv32, on: bool)
    ensures SetRedirectionHint(a, on) & 0xFFFF_FFF7 == a & 0xFFFF_FFF7
  {
  }

  lemma SetDestinationModeReadsBack(a: bv32, on: bool)
    ensures DestinationMode(SetDestinationMode(a, on)) == on
  {
  }

  lemma SetDestinationModeKeepsOtherBits(a: bv32, on: bool)
    ensures SetDestinationMode(a, on) & 0xFFFF_FFFB == a & 0xFFFF_FFFB
  {
  }

  // `ApicMsiMessageData` (section 12.11.2 of volume 3 of the Intel SDM).

  predicate TriggerMode(d: bv16) { d & 0x8000 != 0 }
  function SetTriggerMode(d: bv16, on: bool): bv16 { if on then d | 0x8000 else d & 0x7FFF }
  predicate TriggerModeLevel(d: bv16) { d & 0x4000 != 0 }
  function SetTriggerModeLevel(d: bv16, on: bool): bv16 { if on then d | 0x4000 else d & 0xBFFF }
  function DeliveryMode(d: bv16): bv8 { Low8Of16((d >> 8) & 0x7) }
  function SetDeliveryMode(d: bv16, v: bv8): bv16 { (d & 0xF8FF) | (((v as bv16) << 8) & 0x0700) }
  function Vector(d: bv16): bv8 { Low8Of16(d & 0xFF) }
  function SetVector(d: bv16, v: bv8): bv16 { (d & 0xFF00) | ((v as bv16) & 0x00FF) }

  lemma SetTriggerModeReadsBack(d: bv16, on: bool)
    ensures TriggerMode(SetTriggerMode(d, on)) == on
  {
  }

  lemma SetTriggerModeKeepsOtherBits(d: bv16, on: bool)
    ensures SetTriggerMode(d, on) & 0x7FFF == d & 0x7FFF
  {
  }

  lemma SetTriggerModeLevelReadsBack(d: bv16, on: bool)
    ensures TriggerModeLevel(SetTriggerModeLevel(d, on)) == on
  {
  }

  lemma SetTriggerModeLevelKeepsOtherBits(d: bv16, on: bool)
    ensures SetTriggerModeLevel(d, on) & 0xBFFF == d & 0xBFFF
  {
  }

  lemma SetDeliveryModeReadsBack(d: bv16, v: bv8)
    ensures DeliveryMode(SetDeliveryMode(d, v)) == v & 0x7
  {
  }

  lemma SetDeliveryModeKeepsOtherBits(d: bv16, v: bv8)
    ensures SetDeliveryMode(d, v) & 0xF8FF == d & 0xF8FF
  {
  }

  lemma SetVectorReadsBack(d: bv16, v: bv8)
    ensures Vector(SetVector(d, v)) == v
  {
  }

  lemma SetVectorKeepsOtherBits(d: bv16, v: bv8)
    ensures SetVector(d, v) & 0xFF00 == d & 0xFF00
  {
  }

  // The registers in configuration space.

  /** `ptr + k` does not overflow a `u8`. */
  predicate Fits(ptr: bv8, k: bv8) { ptr <= 0xFF - k }

  /** Message control can be read and written. */
  predicate ControlReachable(s: Space, bus: bv8, dev: bv8, fn: bv8, ptr: bv8)
  {
    Fits(ptr, 0x2) && (ptr + 0x2) % 2 == 0 && InBounds(s, bus, dev, fn, ptr + 0x2, 2)
  }

  /** The low address dword can be read and written. */
  predicate AddrReachable(s: Space, bus: bv8, dev: bv8, fn: bv8, ptr: bv8)
  {
    Fits(ptr, 0x4) && (ptr + 0x4) % 4 == 0 && InBounds(s, bus, dev, fn, ptr + 0x4, 4)
  }

  /** The upper address dword can be read and written. */
  predicate UpperAddrReachable(s: Space, bus: bv8, dev: bv8, fn: bv8, ptr: bv8)
  {
    Fits(ptr, 0x8) && (ptr + 0x8) % 4 == 0 && InBounds(s, bus, dev, fn, ptr + 0x8, 4)
  }

  /** The data word, placed as message control `m` says, can be read and written. */
  predicate DataReachableFor(s: Space, bus: bv8, dev: bv8, fn: bv8, ptr: bv8, m: bv16)
  {
    Fits(ptr, DataOffset(m)) && (ptr + DataOffset(m)) % 2 == 0 &&
    InBounds(s, bus, dev, fn, ptr + DataOffset(m), 2)
  }

  /** Which registers can be reached depends only on the shape of the space. */
  lemma ControlReachableIsShape(s1: Space, s2: Space, bus: bv8, dev: bv8, fn: bv8, ptr: bv8)
    requires SameShape(s1, s2) && ControlReachable(s1, bus, dev, fn, ptr)
    ensures ControlReachable(s2, bus, dev, fn, ptr)
  {
    SameShapeInBounds(s1, s2, bus, dev, fn, ptr + 0x2, 2);
  }

  lemma AddrReachableIsShape(s1: Space, s2: Space, bus: bv8, dev: bv8, fn: bv8, ptr: bv8)
    requires SameShape(s1, s2) && AddrReachable(s1, bus, dev, fn, ptr)
    ensures AddrReachable(s2, bus, dev, fn, ptr)
  {
    SameShapeInBounds(s1, s2, bus, dev, fn, ptr + 0x4, 4);
  }

  lemma UpperAddrReachableIsShape(s1: Space, s2: Space, bus: bv8, dev: bv8, fn: bv8, ptr: bv8)
    requires SameShape(s1, s2) && UpperAddrReachable(s1, bus, dev, fn, ptr)
    ensures UpperAddrReachable(s2, bus, dev, fn, ptr)
  {
    SameShapeInBounds(s1, s2, bus, dev, fn, ptr + 0x8, 4);
  }

  /** Message control, the word at `ptr + 0x2`. */
  function Control(s: Space, bus: bv8, dev: bv8, fn: bv8, ptr: bv8): bv16
    requires ControlReachable(s, bus, dev, fn, ptr)
  {
    Word(s, bus, dev, fn, ptr + 0x2)
  }

  function WithControl(s: Space, bus: bv8, dev: bv8, fn: bv8, ptr: bv8, m: bv16): (r: Space)
    requires ControlReachable(s, bus, dev, fn, ptr)
    ensures SameShape(s, r)
  {
    WithWord(s, bus, dev, fn, ptr + 0x2, m)
  }

  /** The low address dword, at `ptr + 0x4`. */
  function AddrLow(s: Space, bus: bv8, dev: bv8, fn: bv8, ptr: bv8): bv32
    requires AddrReachable(s, bus, dev, fn, ptr)
  {
    Dword(s, bus, dev, fn, ptr + 0x4)
  }

  function WithAddrLow(s: Space, bus: bv8, dev: bv8, fn: bv8, ptr: bv8, x: bv32): (r: Space)
    requires AddrReachable(s, bus, dev, fn, ptr)
    ensures SameShape(s, r)
  {
    WithDword(s, bus, dev, fn, ptr + 0x4, x)
  }

  /** The upper address dword, at `ptr + 0x8`. */
  function AddrHigh(s: Space, bus: bv8, dev: bv8, fn: bv8, ptr: bv8): bv32
    requires UpperAddrReachable(s, bus, dev, fn, ptr)
  {
    Dword(s, bus, dev, fn, ptr + 0x8)
  }

  function WithAddrHigh(s: Space, bus: bv8, dev: bv8, fn: bv8, ptr: bv8, x: bv32): (r: Space)
    requires UpperAddrReachable(s, bus, dev, fn, ptr)
    ensures SameShape(s, r)
  {
    WithDword(s, bus, dev, fn, ptr + 0x8, x)
  }

  /** The data word can be read and written at the offset message control gives. */
  predicate DataReachable(s: Space, bus: bv8, dev: bv8, fn: bv8, ptr: bv8)
  {
    ControlReachable(s, bus, dev, fn, ptr) &&
    DataReachableFor(s, bus, dev, fn, ptr, Control(s, bus, dev, fn, ptr))
  }

  /** The data word where message control `m` puts it. */
  function DataFor(s: Space, bus: bv8, dev: bv8, fn: bv8, ptr: bv8, m: bv16): bv16
    requires DataReachableFor(s, bus, dev, fn, ptr, m)
  {
    Word(s, bus, dev, fn, ptr + DataOffset(m))
  }

  function WithDataFor(s: Space, bus: bv8, dev: bv8, fn: bv8, ptr: bv8, m: bv16, d: bv16): (r: Space)
    requires DataReachableFor(s, bus, dev, fn, ptr, m)
    ensures SameShape(s, r)
  {
    WithWord(s, bus, dev, fn, ptr + DataOffset(m), d)
  }

  /** Message data, at the offset message control gives. */
  function Data(s: Space, bus: bv8, dev: bv8, fn: bv8, ptr: bv8): bv16
    requires DataReachable(s, bus, dev, fn, ptr)
  {
    DataFor(s, bus, dev, fn, ptr, Control(s, bus, dev, fn, ptr))
  }

  function WithData(s: Space, bus: bv8, dev: bv8, fn: bv8, ptr: bv8, d: bv16): (r: Space)
    requires DataReachable(s, bus, dev, fn, ptr)
    ensures SameShape(s, r)
  {
    WithDataFor(s, bus, dev, fn, ptr, Control(s, bus, dev, fn, ptr), d)
  }

  /** The address `get_message_addr_u64` assembles from the two dwords. */
  function MessageAddrU64(s: Space, bus: bv8, dev: bv8, fn: bv8, ptr: bv8): bv64
    requires AddrReachable(s, bus, dev, fn, ptr) && UpperAddrReachable(s, bus, dev, fn, ptr)
  {
    Combine64(AddrLow(s, bus, dev, fn, ptr), AddrHigh(s, bus, dev, fn, ptr))
  }

  /** The space after `set_message_addr_u64(a)`: low half, then high half. */
  function WithMessageAddrU64(s: Space, bus: bv8, dev: bv8, fn: bv8, ptr: bv8, a: bv64): (r: Space)
    requires AddrReachable(s, bus, dev, fn, ptr) && UpperAddrReachable(s, bus, dev, fn, ptr)
    ensures SameShape(s, r)
  {
    var s1 := WithAddrLow(s, bus, dev, fn, ptr, Low32(a));
    UpperAddrReachableIsShape(s, s1, bus, dev, fn, ptr);
    WithAddrHigh(s1, bus, dev, fn, ptr, Low32(a >> 32))
  }

  /** The space after `set_message_addr(a)`: with 64-bit support the upper
      half is cleared as well. */
  function WithMessageAddr(s: Space, bus: bv8, dev: bv8, fn: bv8, ptr: bv8, a: bv32): (r: Space)
    requires ControlReachable(s, bus, dev, fn, ptr) && AddrReachable(s, bus, dev, fn, ptr)
    requires Supports64BitAddresses(Control(s, bus, dev, fn, ptr)) ==> UpperAddrReachable(s, bus, dev, fn, ptr)
    ensures SameShape(s, r)
  {
    var s1 := WithAddrLow(s, bus, dev, fn, ptr, a);
    if Supports64BitAddresses(Control(s, bus, dev, fn, ptr)) then
      UpperAddrReachableIsShape(s, s1, bus, dev, fn, ptr);
      WithAddrHigh(s1, bus, dev, fn, ptr, 0)
    else
      s1
  }

  // How the registers relate.

  /** After `set_message_control(m)` message control reads `m`. */
  lemma ControlReadsBack(s: Space, bus: bv8, dev: bv8, fn: bv8, ptr: bv8, m: bv16)
    requires ControlReachable(s, bus, dev, fn, ptr)
    ensures ControlReachable(WithControl(s, bus, dev, fn, ptr, m), bus, dev, fn, ptr)
    ensures Control(WithControl(s, bus, dev, fn, ptr, m), bus, dev, fn, ptr) == m
  {
    WordReadsBack(s, bus, dev, fn, ptr + 0x2, m);
  }

  lemma AddrLowReadsBack(s: Space, bus: bv8, dev: bv8, fn: bv8, ptr: bv8, x: bv32)
    requires AddrReachable(s, bus, dev, fn, ptr)
    ensures AddrReachable(WithAddrLow(s, bus, dev, fn, ptr, x), bus, dev, fn, ptr)
    ensures AddrLow(WithAddrLow(s, bus, dev, fn, ptr, x), bus, dev, fn, ptr) == x
  {
    DwordReadsBack(s, bus, dev, fn, ptr + 0x4, x);
  }

  lemma AddrHighReadsBack(s: Space, bus: bv8, dev: bv8, fn: bv8, ptr: bv8, x: bv32)
    requires UpperAddrReachable(s, bus, dev, fn, ptr)
    ensures UpperAddrReachable(WithAddrHigh(s, bus, dev, fn, ptr, x), bus, dev, fn, ptr)
    ensures AddrHigh(WithAddrHigh(s, bus, dev, fn, ptr, x), bus, dev, fn, ptr) == x
  {
    DwordReadsBack(s, bus, dev, fn, ptr + 0x8, x);
  }

  /** Writing the low address dword leaves the upper one. */
  lemma AddrLowKeepsHigh(s: Space, bus: bv8, dev: bv8, fn: bv8, ptr: bv8, x: bv32)
    requires AddrReachable(s, bus, dev, fn, ptr) && UpperAddrReachable(s, bus, dev, fn, ptr)
    ensures UpperAddrReachable(WithAddrLow(s, bus, dev, fn, ptr, x), bus, dev, fn, ptr)
    ensures AddrHigh(WithAddrLow(s, bus, dev, fn, ptr, x), bus, dev, fn, ptr) == AddrHigh(s, bus, dev, fn, ptr)
  {
    DwordFrame(s, bus, dev, fn, ptr + 0x4, ptr + 0x8, x);
  }

  /** Writing the upper address dword leaves the low one. */
  lemma AddrHighKeepsLow(s: Space, bus: bv8, dev: bv8, fn: bv8, ptr: bv8, x: bv32)
    requires AddrReachable(s, bus, dev, fn, ptr) && UpperAddrReachable(s, bus, dev, fn, ptr)
    ensures AddrReachable(WithAddrHigh(s, bus, dev, fn, ptr, x), bus, dev, fn, ptr)
    ensures AddrLow(WithAddrHigh(s, bus, dev, fn, ptr, x), bus, dev, fn, ptr) == AddrLow(s, bus, dev, fn, ptr)
  {
    DwordFrame(s, bus, dev, fn, ptr + 0x8, ptr + 0x4, x);
  }

  /** Writing the low address dword leaves message control. */
  lemma AddrLowKeepsControl(s: Space, bus: bv8, dev: bv8, fn: bv8, ptr: bv8, x: bv32)
    requires ControlReachable(s, bus, dev, fn, ptr) && AddrReachable(s, bus, dev, fn, ptr)
    ensures ControlReachable(WithAddrLow(s, bus, dev, fn, ptr, x), bus, dev, fn, ptr)
    ensures Control(WithAddrLow(s, bus, dev, fn, ptr, x), bus, dev, fn, ptr) == Control(s, bus, dev, fn, ptr)
  {
    assert (ptr + 0x2) / 4 * 4 != ptr + 0x4;
    WordBesideDword(s, bus, dev, fn, ptr + 0x4, ptr + 0x2, x);
  }

  /** Writing the upper address dword leaves message control. */
  lemma AddrHighKeepsControl(s: Space, bus: bv8, dev: bv8, fn: bv8, ptr: bv8, x: bv32)
    requires ControlReachable(s, bus, dev, fn, ptr) && UpperAddrReachable(s, bus, dev, fn, ptr)
    ensures ControlReachable(WithAddrHigh(s, bus, dev, fn, ptr, x), bus, dev, fn, ptr)
    ensures Control(WithAddrHigh(s, bus, dev, fn, ptr, x), bus, dev, fn, ptr) == Control(s, bus, dev, fn, ptr)
  {
    assert (ptr + 0x2) / 4 * 4 != ptr + 0x8;
    WordBesideDword(s, bus, dev, fn, ptr + 0x8, ptr + 0x2, x);
  }

  /** Splitting a 64-bit value into dwords and combining them gives it back. */
  lemma SplitCombine64(a: bv64)
    ensures Combine64(Low32(a), Low32(a >> 32)) == a
  {
  }

  /** A 32-bit value with a zero upper half is its zero extension. */
  lemma CombineZeroHigh(lo: bv32)
    ensures Combine64(lo, 0) == lo as bv64
  {
  }

  /** `set_message_addr_u64(a)` then `get_message_addr_u64()` gives `a`. */
  lemma MessageAddrU64RoundTrip(s: Space, bus: bv8, dev: bv8, fn: bv8, ptr: bv8, a: bv64)
    requires AddrReachable(s, bus, dev, fn, ptr) && UpperAddrReachable(s, bus, dev, fn, ptr)
    ensures AddrReachable(WithMessageAddrU64(s, bus, dev, fn, ptr, a), bus, dev, fn, ptr)
    ensures UpperAddrReachable(WithMessageAddrU64(s, bus, dev, fn, ptr, a), bus, dev, fn, ptr)
    ensures MessageAddrU64(WithMessageAddrU64(s, bus, dev, fn, ptr, a), bus, dev, fn, ptr) == a
  {
    var s1 := WithAddrLow(s, bus, dev, fn, ptr, Low32(a));
    UpperAddrReachableIsShape(s, s1, bus, dev, fn, ptr);
    AddrLowReadsBack(s, bus, dev, fn, ptr, Low32(a));
    AddrHighReadsBack(s1, bus, dev, fn, ptr, Low32(a >> 32));
    AddrHighKeepsLow(s1, bus, dev, fn, ptr, Low32(a >> 32));
    SplitCombine64(a);
  }

  /** `set_message_addr_u64` leaves message control. */
  lemma MessageAddrU64KeepsControl(s: Space, bus: bv8, dev: bv8, fn: bv8, ptr: bv8, a: bv64)
    requires ControlReachable(s, bus, dev, fn, ptr)
    requires AddrReachable(s, bus, dev, fn, ptr) && UpperAddrReachable(s, bus, dev, fn, ptr)
    ensures ControlReachable(WithMessageAddrU64(s, bus, dev, fn, ptr, a), bus, dev, fn, ptr)
    ensures Control(WithMessageAddrU64(s, bus, dev, fn, ptr, a), bus, dev, fn, ptr) == Control(s, bus, dev, fn, ptr)
  {
    var s1 := WithAddrLow(s, bus, dev, fn, ptr, Low32(a));
    UpperAddrReachableIsShape(s, s1, bus, dev, fn, ptr);
    AddrLowKeepsControl(s, bus, dev, fn, ptr, Low32(a));
    AddrHighKeepsControl(s1, bus, dev, fn, ptr, Low32(a >> 32));
  }

  /** With 64-bit support, `set_message_addr(a)` is `set_message_addr_u64`
      of `a` zero-extended. */
  lemma MessageAddrIsZeroExtended(s: Space, bus: bv8, dev: bv8, fn: bv8, ptr: bv8, a: bv32)
    requires ControlReachable(s, bus, dev, fn, ptr) && AddrReachable(s, bus, dev, fn, ptr)
    requires UpperAddrReachable(s, bus, dev, fn, ptr)
    requires Supports64BitAddresses(Control(s, bus, dev, fn, ptr))
    ensures WithMessageAddr(s, bus, dev, fn, ptr, a) == WithMessageAddrU64(s, bus, dev, fn, ptr, a as bv64)
  {
    assert Low32(a as bv64) == a;
    assert Low32((a as bv64) >> 32) == 0;
  }

  /**
   * After `set_message_addr(a)` on a function with 64-bit support, message
   * control is as it was and the whole address reads as `a` zero-extended.
   */
  lemma MessageAddrThenRead64(s: Space, bus: bv8, dev: bv8, fn: bv8, ptr: bv8, a: bv32)
    requires ControlReachable(s, bus, dev, fn, ptr) && AddrReachable(s, bus, dev, fn, ptr)
    requires UpperAddrReachable(s, bus, dev, fn, ptr)
    requires Supports64BitAddresses(Control(s, bus, dev, fn, ptr))
    ensures var s' := WithMessageAddr(s, bus, dev, fn, ptr, a);
      ControlReachable(s', bus, dev, fn, ptr) && AddrReachable(s', bus, dev, fn, ptr) &&
      UpperAddrReachable(s', bus, dev, fn, ptr) &&
      Control(s', bus, dev, fn, ptr) == Control(s, bus, dev, fn, ptr) &&
      MessageAddrU64(s', bus, dev, fn, ptr) == a as bv64
  {
    MessageAddrIsZeroExtended(s, bus, dev, fn, ptr, a);
    MessageAddrU64RoundTrip(s, bus, dev, fn, ptr, a as bv64);
    MessageAddrU64KeepsControl(s, bus, dev, fn, ptr, a as bv64);
  }

  /**
   * After `set_message_addr(a)` on a function without 64-bit support, message
   * control is as it was, the low dword reads `a` and the dword at
   * `ptr + 0x8` is untouched.
   */
  lemma MessageAddrThenRead32(s: Space, bus: bv8, dev: bv8, fn: bv8, ptr: bv8, a: bv32)
    requires ControlReachable(s, bus, dev, fn, ptr) && AddrReachable(s, bus, dev, fn, ptr)
    requires UpperAddrReachable(s, bus, dev, fn, ptr)
    requires !Supports64BitAddresses(Control(s, bus, dev, fn, ptr))
    ensures var s' := WithMessageAddr(s, bus, dev, fn, ptr, a);
      ControlReachable(s', bus, dev, fn, ptr) && AddrReachable(s', bus, dev, fn, ptr) &&
      UpperAddrReachable(s', bus, dev, fn, ptr) &&
      Control(s', bus, dev, fn, ptr) == Control(s, bus, dev, fn, ptr) &&
      AddrLow(s', bus, dev, fn, ptr) == a &&
      AddrHigh(s', bus, dev, fn, ptr) == AddrHigh(s, bus, dev, fn, ptr)
  {
    AddrLowReadsBack(s, bus, dev, fn, ptr, a);
    AddrLowKeepsHigh(s, bus, dev, fn, ptr, a);
    AddrLowKeepsControl(s, bus, dev, fn, ptr, a);
  }

  /**
   * `set_message_data(d)` then `get_message_data()` gives `d`: the write
   * lands at the data offset and leaves message control, and with it the
   * offset the read uses, as it was.
   */
  lemma MessageDataRoundTrip(s: Space, bus: bv8, dev: bv8, fn: bv8, ptr: bv8, d: bv16)
    requires DataReachable(s, bus, dev, fn, ptr)
    ensures ControlReachable(WithData(s, bus, dev, fn, ptr, d), bus, dev, fn, ptr)
    ensures Control(WithData(s, bus, dev, fn, ptr, d), bus, dev, fn, ptr) == Control(s, bus, dev, fn, ptr)
    ensures DataReachable(WithData(s, bus, dev, fn, ptr, d), bus, dev, fn, ptr)
    ensures Data(WithData(s, bus, dev, fn, ptr, d), bus, dev, fn, ptr) == d
  {
    DataWriteKeepsControl(s, bus, dev, fn, ptr, d);
    DataWriteReadsBack(s, bus, dev, fn, ptr, d);
  }

  /** Writing message data leaves message control. */
  lemma DataWriteKeepsControl(s: Space, bus: bv8, dev: bv8, fn: bv8, ptr: bv8, d: bv16)
    requires DataReachable(s, bus, dev, fn, ptr)
    ensures ControlReachable(WithData(s, bus, dev, fn, ptr, d), bus, dev, fn, ptr)
    ensures Control(WithData(s, bus, dev, fn, ptr, d), bus, dev, fn, ptr) == Control(s, bus, dev, fn, ptr)
  {
    DataForKeepsControl(s, bus, dev, fn, ptr, Control(s, bus, dev, fn, ptr), d);
  }

  /** A word written where some message control `m` puts the data register
      leaves the word at message control, whatever `m` is. */
  lemma DataForKeepsControl(s: Space, bus: bv8, dev: bv8, fn: bv8, ptr: bv8, m: bv16, d: bv16)
    requires ControlReachable(s, bus, dev, fn, ptr) && DataReachableFor(s, bus, dev, fn, ptr, m)
    ensures ControlReachable(WithDataFor(s, bus, dev, fn, ptr, m, d), bus, dev, fn, ptr)
    ensures Control(WithDataFor(s, bus, dev, fn, ptr, m, d), bus, dev, fn, ptr) == Control(s, bus, dev, fn, ptr)
  {
    var o := ptr + DataOffset(m);
    DataIsNotControl(ptr, m);
    ControlReachableIsShape(s, WithWord(s, bus, dev, fn, o, d), bus, dev, fn, ptr);
    WordFrame(s, bus, dev, fn, o, ptr + 0x2, d);
  }

  /** The data register is never message control. */
  lemma DataIsNotControl(ptr: bv8, m: bv16)
    ensures ptr + DataOffset(m) != ptr + 0x2
  {
  }

  /** Message data reads back at the offset the old message control gave. */
  lemma DataWriteReadsBack(s: Space, bus: bv8, dev: bv8, fn: bv8, ptr: bv8, d: bv16)
    requires DataReachable(s, bus, dev, fn, ptr)
    ensures DataReachableFor(WithData(s, bus, dev, fn, ptr, d), bus, dev, fn, ptr, Control(s, bus, dev, fn, ptr))
    ensures DataFor(WithData(s, bus, dev, fn, ptr, d), bus, dev, fn, ptr, Control(s, bus, dev, fn, ptr)) == d
  {
    DataForReadsBack(s, bus, dev, fn, ptr, Control(s, bus, dev, fn, ptr), d);
  }

  /** A data word written where `m` puts it reads back there. */
  lemma DataForReadsBack(s: Space, bus: bv8, dev: bv8, fn: bv8, ptr: bv8, m: bv16, d: bv16)
    requires DataReachableFor(s, bus, dev, fn, ptr, m)
    ensures DataReachableFor(WithDataFor(s, bus, dev, fn, ptr, m, d), bus, dev, fn, ptr, m)
    ensures DataFor(WithDataFor(s, bus, dev, fn, ptr, m, d), bus, dev, fn, ptr, m) == d
  {
    WordReadsBack(s, bus, dev, fn, ptr + DataOffset(m), d);
  }

  /** An MSI structure at `ptr` of one function. */
  datatype Msi = Msi(pci: PciAccess, bus: bv8, dev: bv8, fn: bv8, ptr: bv8)
  {
    function View(): Space
      reads pci, pci.mem
    {
      pci.Space()
    }

    method GetMessageControl() returns (m: bv16)
      requires ControlReachable(View(), bus, dev, fn, ptr)
      modifies pci
      ensures View() == old(View())
      ensures m == Control(View(), bus, dev, fn, ptr)
    {
      m := pci.ReadU16(bus, dev, fn, ptr + 0x2);
    }

    method SetMessageControl(m: bv16)
      requires ControlReachable(View(), bus, dev, fn, ptr)
      modifies pci, pci.mem
      ensures View() == WithControl(old(View()), bus, dev, fn, ptr, m)
    {
      pci.WriteU16(bus, dev, fn, ptr + 0x2, m);
    }

    method GetMessageAddrU32() returns (a: bv32)
      requires AddrReachable(View(), bus, dev, fn, ptr)
      modifies pci
      ensures View() == old(View())
      ensures a == AddrLow(View(), bus, dev, fn, ptr)
    {
      a := pci.ReadU32(bus, dev, fn, ptr + 0x4);
    }

    method SetMessageAddrU32(a: bv32)
      requires AddrReachable(View(), bus, dev, fn, ptr)
      modifies pci, pci.mem
      ensures View() == WithAddrLow(old(View()), bus, dev, fn, ptr, a)
    {
      pci.WriteU32(bus, dev, fn, ptr + 0x4, a);
    }

    method GetMessageAddrU64() returns (a: bv64)
      requires AddrReachable(View(), bus, dev, fn, ptr) && UpperAddrReachable(View(), bus, dev, fn, ptr)
      modifies pci
      ensures View() == old(View())
      ensures a == MessageAddrU64(View(), bus, dev, fn, ptr)
    {
      var low := pci.ReadU32(bus, dev, fn, ptr + 0x4);
      var high := pci.ReadU32(bus, dev, fn, ptr + 0x8);
      a := Combine64(low, high);
    }

    method SetMessageAddrU64(a: bv64)
      requires AddrReachable(View(), bus, dev, fn, ptr) && UpperAddrReachable(View(), bus, dev, fn, ptr)
      modifies pci, pci.mem
      ensures View() == WithMessageAddrU64(old(View()), bus, dev, fn, ptr, a)
    {
      ghost var s := View();
      pci.WriteU32(bus, dev, fn, ptr + 0x4, Low32(a));
      UpperAddrReachableIsShape(s, View(), bus, dev, fn, ptr);
      pci.WriteU32(bus, dev, fn, ptr + 0x8, Low32(a >> 32));
    }

    method SetMessageAddr(a: bv32)
      requires ControlReachable(View(), bus, dev, fn, ptr) && AddrReachable(View(), bus, dev, fn, ptr)
      requires Supports64BitAddresses(Control(View(), bus, dev, fn, ptr)) ==>
        UpperAddrReachable(View(), bus, dev, fn, ptr)
      modifies pci, pci.mem
      ensures View() == WithMessageAddr(old(View()), bus, dev, fn, ptr, a)
    {
      ghost var s := View();
      var m := GetMessageControl();
      if Supports64BitAddresses(m) {
        SetMessageAddrU32(a);
        UpperAddrReachableIsShape(s, View(), bus, dev, fn, ptr);
        pci.WriteU32(bus, dev, fn, ptr + 0x8, 0);
      } else {
        SetMessageAddrU32(a);
      }
    }

    /** `get_message_data_offset`. */
    method MessageDataOffset() returns (o: bv8)
      requires ControlReachable(View(), bus, dev, fn, ptr)
      modifies pci
      ensures View() == old(View())
      ensures o == DataOffset(Control(View(), bus, dev, fn, ptr))
    {
      var m := GetMessageControl();
      if Supports64BitAddresses(m) {
        o := 0xC;
      } else {
        o := 0x8;
      }
    }

    method GetMessageData() returns (d: bv16)
      requires DataReachable(View(), bus, dev, fn, ptr)
      modifies pci
      ensures View() == old(View())
      ensures d == Data(View(), bus, dev, fn, ptr)
    {
      var o := MessageDataOffset();
      d := pci.ReadU16(bus, dev, fn, ptr + o);
    }

    method SetMessageData(d: bv16)
      requires DataReachable(View(), bus, dev, fn, ptr)
      modifies pci, pci.mem
      ensures View() == WithData(old(View()), bus, dev, fn, ptr, d)
    {
      var o := MessageDataOffset();
      pci.WriteU16(bus, dev, fn, ptr + o, d);
    }
  }

  /**
   * `Msi::find`: `None` for an unknown header type; otherwise the MSI view at
   * the first walked capability with id 0x5, or `Some(None)` if there is none.
   */
  method Find(f: PciFunction) returns (r: Option<Option<Msi>>)
    requires CapabilitiesReadable(f.View(), f.bus, f.dev, f.fn)
    modifies f.pci
    ensures f.View() == old(f.View())
    ensures r.None? <==> FindCapability(f.View(), f.bus, f.dev, f.fn, 0x5).None?
    ensures r.Some? ==> (r.value.Some? <==> FindCapability(f.View(), f.bus, f.dev, f.fn, 0x5).value.Some?)
    ensures r.Some? && r.value.Some? ==>
      r.value.value == Msi(f.pci, f.bus, f.dev, f.fn, FindCapability(f.View(), f.bus, f.dev, f.fn, 0x5).value.value.ptrToSelf)
  {
    var caps := f.ReadCapabilities();
    if caps.None? {
      return None;
    }
    var found := caps.value.Find(0x5);
    match found
    case None =>
      r := Some(None);
    case Some(capability) =>
      r := Some(Some(Msi(f.pci, f.bus, f.dev, f.fn, capability.ptrToSelf)));
  }
}
