# PCI configuration access, modelled in Dafny

This project models the core of a small bare-metal crate that enumerates and
configures PCI and PCI Express functions. It covers these pieces:

- **The configuration-space transport `PciAccess`** (module `Access`, class
  `Access.PciAccess`). The legacy variant uses Configuration Mechanism #1 from
  section 3.2.2.3.2 of the PCI Local Bus Specification 3.0. It is a latch that
  holds the last address word written to CONFIG_ADDRESS, and a map from address
  word to the dword that CONFIG_DATA shows. The ECAM variant (section 7.2.2 of
  the PCI Express Base Specification) is an array of bytes mapped for one MCFG
  entry. The pure view `Space` and the functions `Dword`, `Word`, `WithDword`
  and `WithWord` specify what the four accessors read and write. Every accessor
  method is tied to one of these functions.
- **The probing hierarchy**: bus (`Buses`), device (`Devices`) and function
  (`Functions`). A vendor id of 0xFFFF means that nothing is present.
- **The function registers**: header type, BAR count, the write-all-ones,
  read, restore BAR sizing probe, interrupt pin and line, the command register,
  and the capability-list head.
- **The capability iterator** (`Caps.Capabilities`), a class with a mutable
  `ptr` field.
- **The MSI configurator** (`MsiCap`) and **the MSI-X configurator**
  (`MsiXCap`). MSI-X includes the mapped table and the pending bit array.
- **The pure bit-layout modules**: `Bar`, `Command`, `HeaderTypes`,
  `PciConfig` and `PhysRange`.

Each `bitfield!` accessor has the macro's usual meaning. A field `msb..lsb` is
read as `(x >> lsb) & mask` and set by clearing its bits and OR-ing in the
shifted, masked value. Integers of a fixed width are bit-vectors (`bv8`,
`bv16`, `bv32`, `bv64`), so Rust's wrapping arithmetic and `as` truncations
behave the same way here. The model turns each panic into a precondition:
`assert!`, a `u8` subtraction or addition that would overflow, an index out of
bounds, `unreachable!`, and `expect` on `checked_add`. Each `None` or
`Some(None)` result is modelled with an `Option`.

## Behaviour as written

The model follows the code as it is written, including two places where it
departs from the PCI specification.

- **The capability walk stops after one node.** The next pointer is computed
  as `(reg << 8) as u8`, the low byte of the dword shifted left by eight, and
  that is 0 for every dword (src/capabilities.rs:26). So the iterator yields at
  most one capability. MSI and MSI-X are found only when they are the first
  capability in the list. See `Caps.NextPtrIsZero`, `Caps.Walk`,
  `Caps.FindInWalk` and `Functions.FindCapability`.
- **Even and odd bus numbers share an address word.** `PciConfig` declares the
  bus field as bits 23..=15, which overlaps bit 15 of the device field. The
  transport sets the bus first and the device second. As a result, the address
  word holds bus bits 7..=1 in bits 22..=16, and bus bit 0 is lost. Buses 2k
  and 2k+1 therefore select the same registers through the legacy ports
  (`PciConfig.AddressWordLayout`, `PciConfig.BusesAlias`,
  `Access.PortBusesAlias`). Section 3.2.2.3.2 puts the bus in bits 23..=16.
  For bus 0 the two layouts agree (`PciConfig.AddressWordBusZero`).

## Model

| member | source | states |
|---|---|---|
| `Access.PciAccess.NewPci` | src/pci_access.rs:30-35 | the legacy transport starts over the given port registers, with no mapped window |
| `Access.PciAccess.NewPcie` | src/pci_access.rs:39-44 | the ECAM transport keeps the MCFG entry and views the caller's mapped bytes |
| `Access.PciAccess.KnownBuses` | src/pci_access.rs:46-51 | the legacy transport knows only bus 0; ECAM knows exactly the buses from bus_number_start to bus_number_end, inclusive |
| `Access.PciAccess.ReadU32` | src/pci_access.rs:60-100 | requires a 4-aligned offset (under ECAM also dev < 32 and fn < 8, see Left out); the legacy variant latches the packed address word; the result is the dword at the register, decoded little-endian under ECAM; configuration space does not change |
| `Access.PciAccess.ReadU16` | src/pci_access.rs:102-143 | requires a 2-aligned offset (under ECAM also dev < 32 and fn < 8); the legacy variant latches the word for offset rounded down to a multiple of 4 and shifts the right half out; ECAM reads two little-endian bytes; nothing changes |
| `Access.PciAccess.WriteU32` | src/pci_access.rs:145-185 | requires a 4-aligned offset (under ECAM also dev < 32 and fn < 8); the new space stores the value at that register: the port map entry for the legacy variant, the four `to_le_bytes` under ECAM |
| `Access.PciAccess.WriteU16` | src/pci_access.rs:187-235 | requires a 2-aligned offset (under ECAM also dev < 32 and fn < 8); the legacy variant is a read-modify-write of the enclosing dword; ECAM stores the two bytes directly |
| `Access.EcamOffsetOrIsSum` | src/pci_access.rs:84-93 | for dev < 32 and fn < 8, the OR of `(bus-start)<<20`, `dev<<15`, `fn<<12` and `off` equals their sum, which is the model's `EcamOffset` |
| `Access.DwordReadsBack` | src/pci_access.rs:158-183 | for both variants, `write_u32` followed by `read_u32` at the same register returns the value written |
| `Access.WordReadsBack` | src/pci_access.rs:199-233 | for both variants, `write_u16` followed by `read_u16` at the same register returns the value written |
| `Access.DwordFrame` | src/pci_access.rs:158-183 | writing one dword leaves every other aligned dword of the function as it was |
| `Access.WordFrame` | src/pci_access.rs:199-233 | writing one word leaves every other word of the function, including the other half of the same dword under the legacy read-modify-write |
| `Access.MergeThenHalf` | src/pci_access.rs:209-216 | after `(reg & !(0xFFFF << k)) \| (v << k)`, the half at k reads as v |
| `Access.MergeKeepsOtherHalf` | src/pci_access.rs:209-216 | the merge leaves the other 16-bit half of the dword unchanged |
| `Access.WordIsHalfOfDword` | src/pci_access.rs:113-141 | for both variants, `read_u16` at `off` returns bits `8*(off%4)` and up of the dword at `off` rounded down to a multiple of 4 |
| `Access.DistinctAddressWords` | src/pci_access.rs:73-80 | two different offsets of one function pack to different address words |
| `Access.DwordRestore` | src/function.rs:94-113 | writing any value over a dword and then writing back the old value leaves a space that no read can tell from the original |
| `Access.SameContentsSameDword` | src/pci_access.rs:60-100 | two spaces with the same contents return the same dword from every register |
| `Access.SameContentsSameWord` | src/pci_access.rs:102-143 | two spaces with the same contents return the same word from every register |
| `Access.WordBesideDword` | src/pci_access.rs:158-183 | writing a dword leaves every 16-bit register outside it unchanged |
| `Access.WordUntouchedByDword` | src/pci_access.rs:158-183 | the same, stated through the dword that holds the word |
| `Access.EcamOffsetInSegment` | src/get_phys_range_to_map.rs:7-11 | for a bus from start to end, dev < 32, fn < 8 and any offset, the ECAM offset lies inside the `n_buses << 20` bytes that `get_phys_range_to_map` gives |
| `Access.SegmentWindowReachesFunctions` | src/pci_access.rs:84-96 | a window mapped for the whole segment reaches all 256 bytes of every function on every known bus |
| `Access.PortBusesAlias` | src/pci_access.rs:73-81 | through the ports, buses 2k and 2k+1 read the same dword |
| `Bytes.Le32RoundTrip` | src/pci_access.rs:182 | decoding the `to_le_bytes` of a u32 gives it back |
| `Bytes.Le32RoundTripBytes` | src/pci_access.rs:97 | encoding `from_le_bytes` of four bytes gives the bytes back |
| `Bytes.Le16RoundTrip` | src/pci_access.rs:232 | decoding the `to_le_bytes` of a u16 gives it back |
| `Bytes.Le16RoundTripBytes` | src/pci_access.rs:140 | encoding `from_le_bytes` of two bytes gives the bytes back |
| `Bytes.HalfOfWindow` | src/pci_access.rs:126-141 | the two bytes at offset 0 or 2 of a dword's window decode to the low or the high half of that dword |
| `Bytes.SpliceElsewhere` | src/pci_access.rs:219-233 | an ECAM store changes only the bytes at its own chunk; every byte outside it is unchanged |
| `Bytes.SpliceRestore` | src/pci_access.rs:172-182 | storing a dword over four bytes and then storing their old value restores the window exactly |
| `Bytes.SpliceTwice` | src/pci_access.rs:172-182 | a second store over the same bytes overrides the first |
| `Bytes.SpliceFourBytes` | src/pci_access.rs:182 | storing a `[u8; 4]` chunk updates exactly its four bytes, in order |
| `Bytes.SpliceTwoBytes` | src/pci_access.rs:232 | storing a `[u8; 2]` chunk updates exactly its two bytes, in order |
| `PciConfig.AddressWord` | src/pci_access.rs:73-78 | the packed word always has the enable bit set and bits 30..=23 clear |
| `PciConfig.SetEnableWritesOnlyBit31` | src/pci_config.rs:7 | enable is bit 31; the setter changes no other bit |
| `PciConfig.SetBusNumberWritesOnlyItsField` | src/pci_config.rs:8 | the bus field is bits 23..=15; the setter writes only those bits and never sets bit 23 |
| `PciConfig.SetDeviceNumberWritesOnlyItsField` | src/pci_config.rs:9 | device is bits 15..=11; the setter masks the value to 5 bits and changes no other bit |
| `PciConfig.SetFunctionNumberWritesOnlyItsField` | src/pci_config.rs:10 | function is bits 10..=8; the setter masks the value to 3 bits and changes no other bit |
| `PciConfig.SetRegisterOffsetWritesOnlyItsField` | src/pci_config.rs:11 | register offset is bits 7..=0; the setter changes no other bit |
| `PciConfig.AddressWordFields` | src/pci_config.rs:8-11 | the packed word holds dev & 0x1F, fn & 7 and off in their fields, and bus bits 7..=1 in bits 22..=16 |
| `PciConfig.AddressWordBusZero` | src/pci_config.rs:7-11 | for bus 0, dev < 32 and fn < 8, the word is `0x80000000 \| dev<<11 \| fn<<8 \| off` |
| `PciConfig.AddressWordLayout` | src/pci_config.rs:8-11 | the whole word: enable, bus >> 1 at bit 16, the device at bit 11, the function at bit 8, the offset |
| `PciConfig.AddressWordEquality` | src/pci_config.rs:8-11 | two addresses pack to the same word exactly when they agree on bus bits 7..=1, the low 5 device bits, the low 3 function bits and the offset |
| `PciConfig.BusesAlias` | src/pci_config.rs:8-9 | buses 2k and 2k+1 pack to the same word |
| `PhysRange.BusCount` | src/get_phys_range_to_map.rs:7 | requires start <= end, since the u8 subtraction must not underflow; the count is end - start + 1, between 1 and 256 |
| `PhysRange.GetPhysRangeToMap` | src/get_phys_range_to_map.rs:6-12 | the range starts at `base + (start << 20)`; its length is `n_buses << 20`, a multiple of 1 MiB between 1 MiB and 256 MiB, and it ends where bus end + 1 would start |
| `HeaderTypes.TryFromPrimitive` | src/header_type.rs:12-18 | the conversion succeeds exactly for 0, 1 and 2, and gives the variant with that discriminant |
| `HeaderTypes.InterruptRegAddr` | src/header_type.rs:21-23 | the interrupt register is at 0x3C for every header type |
| `HeaderTypes.FieldsPartitionTheByte` | src/header_type.rs:8-9 | header_type is at most 0x7F and ignores bit 7; multi_function is bit 7 alone |
| `HeaderTypes.DiscriminantRoundTrip` | src/header_type.rs:12-18 | every header type converts back from its own discriminant |
| `HeaderTypes.MultiFunctionByteDecodes` | src/header_type.rs:4-18 | byte 0x80 is a multi-function general device; byte 0x01 is a single-function PCI-to-PCI bridge |
| `Command.SetIoSpaceReadsBack` | src/command.rs:6 | io_space is bit 0 and reads back as it was set |
| `Command.SetIoSpaceKeepsOtherBits` | src/command.rs:6 | set_io_space leaves the other 15 bits |
| `Command.SetMemorySpaceReadsBack` | src/command.rs:7 | memory_space is bit 1 and reads back as it was set |
| `Command.SetMemorySpaceKeepsOtherBits` | src/command.rs:7 | set_memory_space leaves the other 15 bits |
| `Command.SetBusMasterReadsBack` | src/command.rs:8 | bus_master is bit 2 and reads back as it was set |
| `Command.SetBusMasterKeepsOtherBits` | src/command.rs:8 | set_bus_master leaves the other 15 bits |
| `Command.SetParityErrorResponseReadsBack` | src/command.rs:12 | parity_error_response is bit 6 and reads back as it was set |
| `Command.SetParityErrorResponseKeepsOtherBits` | src/command.rs:12 | its setter leaves the other 15 bits |
| `Command.SetSerrEnableReadsBack` | src/command.rs:14 | serr_enable is bit 8 and reads back as it was set |
| `Command.SetSerrEnableKeepsOtherBits` | src/command.rs:14 | its setter leaves the other 15 bits |
| `Command.SetInterruptDisableReadsBack` | src/command.rs:16 | interrupt_disable is bit 10 and reads back as it was set |
| `Command.SetInterruptDisableKeepsOtherBits` | src/command.rs:16 | its setter leaves the other 15 bits, so the read-only bits 3, 4, 5 and 9 and the reserved bits 7 and 11..=15 never change |
| `Command.SetBusMasterIdempotent` | src/command.rs:8 | setting bus_master to its current value changes nothing, and setting it to the same value (true or false) twice equals setting it once |
| `Bar.BarTypeIsOneBit` | src/bar.rs:9 | bar_type is the single bit 0 |
| `Bar.MemoryTypeIsTwoBits` | src/bar.rs:17 | `_type` is bits 2..=1, at most 3 |
| `Bar.IoAddrAligned` | src/bar.rs:26-29 | `IoSpaceBar::addr` has its low 2 bits clear |
| `Bar.IoAddrKeepsUpperBits` | src/bar.rs:26-29 | it keeps every other bit of the register |
| `Bar.AddrU64` | src/bar.rs:60-65 | zero-extends the U32 address and returns the U64 address unchanged |
| `Bar.SizeU64` | src/bar.rs:68-73 | zero-extends the U32 size and returns the U64 size unchanged |
| `Bar.AddrAndSizeU64` | src/bar.rs:75-83 | agrees field by field with `addr_u64` and `size_u64` |
| `Bar.SlotsLen` | src/bar.rs:111-119 | is 2 exactly for a 64-bit memory BAR and 1 otherwise |
| `Functions.LayoutsByField` | src/function.rs:72-78 | header type 0, 1 and 2 have 6, 2 and 0 BARs, and their capability head is at 0x34, 0x34 and 0x14 (src/function.rs:184-188); every other value is unknown |
| `Functions.BarsBelowCapabilitiesPointer` | src/function.rs:84 | for an index below max_bars, the BAR offset and the next slot's offset are 4-aligned, lie within 0x10..=0x28, and sit below the capability head |
| `Functions.DecodeBarKind` | src/function.rs:114-164 | the decoded BAR is I/O exactly when bit 0 is set; it takes 2 slots exactly for memory type 0b10; its prefetchable flag is bit 3 |
| `Functions.MemoryAddrClearsFlags` | src/function.rs:118 | a memory address is `raw & !0xF`: the low 4 flag bits are cleared and the rest kept |
| `Functions.MemorySize32Negates` | src/function.rs:119 | the 32-bit size is the wrapping two's complement of `mask & !0xF` |
| `Functions.IoSizeNegates` | src/function.rs:162 | the I/O size is the wrapping two's complement of `mask & !0b11` |
| `Functions.MemorySize64Negates` | src/function.rs:151-152 | the 64-bit size is the wrapping two's complement of the combined mask |
| `Functions.Combine64Low` | src/function.rs:150 | the low half of `lo \| hi << 32` is lo |
| `Functions.Combine64High` | src/function.rs:150 | the high half of `lo \| hi << 32` is hi |
| `Functions.SizeExamples` | src/function.rs:117-153 | a mask of 0xFFFFF000 gives size 0x1000; a combined mask of 0xFFFFFFFF_FFFFF000 gives 0x1000 |
| `Functions.IoBarExample` | src/function.rs:159-163 | raw 0xC001 with mask 0xFFFFFFFC decodes as I/O at 0xC000 with size 4 |
| `Functions.BarProbe` | src/function.rs:82-93 | None exactly for an unknown header type; Some(None) exactly when the BAR reads 0 |
| `Functions.BarProbeSameContents` | src/function.rs:82-165 | two views that no read can tell apart give the same probe result; since a probe leaves such a view, a second `read_bar_with_size` reports the same BAR, address and size for the same device answers |
| `Functions.CapabilitiesStart` | src/function.rs:183-198 | None exactly for an unknown header type |
| `Functions.FindCapability` | src/msi.rs:16-31 | None for an unknown header type; otherwise a node is found exactly when the head pointer is nonzero and the low byte there is the id; the node found has that id and points at the head |
| `Functions.InterruptLineReadsBack` | src/function.rs:209-226 | after replacing the line, `interrupt_info` gives the old pin (bits 15..=8) and the new line (bits 7..=0) |
| `Functions.InterruptLineKeepsUpperBytes` | src/function.rs:217 | `reg & !0xFF \| line` changes only the low byte |
| `Functions.PciFunction.VendorId` | src/function.rs:12-19 | is the word at 0x0; nothing changes |
| `Functions.PciFunction.DeviceId` | src/function.rs:21-28 | is the word at 0x2; nothing changes |
| `Functions.PciFunction.ClassCode` | src/function.rs:30-37 | is the high byte of the word at 0xA |
| `Functions.PciFunction.SubClass` | src/function.rs:39-46 | is the low byte of the word at 0xA |
| `Functions.PciFunction.ProgIf` | src/function.rs:48-55 | is the high byte of the word at 0x8 |
| `Functions.PciFunction.HeaderTypeByte` | src/function.rs:57-64 | is the low byte of the word at 0xE |
| `Functions.PciFunction.ReadHeaderType` | src/function.rs:67-69 | is Some exactly when bits 6..=0 of that byte are at most 2 |
| `Functions.PciFunction.MaxBars` | src/function.rs:72-78 | None exactly for an unknown header type, otherwise the per-layout count, at most 6 |
| `Functions.PciFunction.ReadBarWithSize` | src/function.rs:82-165 | returns the decoded probe for the device's answers to the all-ones writes; the probe leaves configuration space indistinguishable from before; None or Some(None) leaves it untouched |
| `Functions.PciFunction.SizeOneSlot` | src/function.rs:94-113 | write all ones, read (kept for the latch; the device's answer is a parameter of `ReadBarWithSize`), write back: no register ends up changed |
| `Functions.PciFunction.SizeUpperSlot` | src/function.rs:121-148 | the second slot of a 64-bit BAR reads its pre-probe value and is restored as well |
| `Functions.PciFunction.ReadInterruptInfo` | src/function.rs:168-180 | 0x3C need be readable only for a known header type; None for an unknown one; otherwise pin and line from the dword at 0x3C |
| `Functions.PciFunction.SetInterruptLine` | src/function.rs:209-226 | 0x3C need be readable only for a known header type; None for an unknown one, with nothing written; otherwise the dword at 0x3C becomes `old & !0xFF \| line` and nothing else changes |
| `Functions.PciFunction.ReadCapabilities` | src/function.rs:183-201 | None for an unknown header type; otherwise a fresh iterator on this function whose pointer is the low byte of the dword at the capability head |
| `Functions.PciFunction.Command` | src/function.rs:236-243 | is the word at 0x4 |
| `Functions.PciFunction.SetCommand` | src/function.rs:245-253 | stores the word at 0x4 |
| `Functions.IdsAreHalvesOfDword0` | src/function.rs:12-28 | vendor id and device id are the low and the high half of the dword at 0x0 |
| `Functions.ProgIfOfDword8` | src/function.rs:48-55 | prog-if is bits 15..=8 of the dword at 0x8 |
| `Functions.SubClassOfDword8` | src/function.rs:39-46 | sub-class is bits 23..=16 of the dword at 0x8 |
| `Functions.ClassCodeOfDword8` | src/function.rs:30-37 | class code is bits 31..=24 of the dword at 0x8 |
| `Functions.HeaderByteOfDwordC` | src/function.rs:57-64 | the header byte read with `read_u16(0xE)` is the byte the bus takes as `read_u32(0xC) >> 16` |
| `Functions.SetInterruptLineThenRead` | src/function.rs:209-226 | after `set_interrupt_line`, `interrupt_info` gives the new line and the old pin, and the header type is unchanged |
| `Functions.SetCommandThenRead` | src/function.rs:236-253 | after `set_command(c)`, `command()` returns c and the status word at 0x6 is unchanged |
| `Buses.Bus` | src/pci_access.rs:53-58 | the bus handle keeps the transport and the bus number |
| `Buses.PciBus.Device` | src/bus.rs:9-27 | requires d < 32; nothing is written; None exactly when the low half of the dword at 0x0 is 0xFFFF, and the legacy latch then holds the address of that register; otherwise the device has this bus, number d, and the multi-function bit of the byte at 0xE |
| `Buses.BusAndFunctionZeroAgree` | src/bus.rs:11-16 | the vendor id the bus reads is the word `function(0)` reads, and the multi-function flag comes from the same header byte |
| `Buses.MultiFunctionIsBit23` | src/bus.rs:13-16 | multi-function is bit 23 of the dword at 0xC |
| `Devices.PciDevice.PossibleFunctions` | src/device.rs:13-15 | is 0..=7 when multi_function is set and 0..=0 otherwise |
| `Devices.PciDevice.Function` | src/device.rs:17-32 | requires n <= 7; None exactly when the word at 0x0 of (bus, dev, n) is 0xFFFF; otherwise the function has this device's bus and device numbers and number n, whatever multi_function says |
| `Caps.NextPtrIsZero` | src/capabilities.rs:23-27 | the node has ptr_to_self = the pointer and id = the low byte, and next_ptr = `(reg << 8) as u8` is 0 for every dword |
| `Caps.Walk` | src/capabilities.rs:13-30 | the walk from a pointer yields one node if the pointer is nonzero and none if it is zero |
| `Caps.FindId` | src/msi.rs:17-20 | `Iterator::find` returns the first node with the id, or None when no node has it |
| `Caps.FindInWalk` | src/capabilities.rs:14-28 | a walk finds an id exactly when the pointer is nonzero and the dword there has the id in its low byte |
| `Caps.Capabilities.constructor` | src/function.rs:189-200 | the iterator starts on the given function at the given pointer |
| `Caps.Capabilities.Next` | src/capabilities.rs:13-30 | with ptr 0 it returns None and ptr stays 0; otherwise it returns the node at ptr and sets ptr to its next_ptr, which is 0; no register is written |
| `Caps.Capabilities.Find` | src/msi.rs:17-20 | steps the iterator until a node with the id appears or it is exhausted, and returns the first match among the remaining nodes |
| `MsiCap.SetMultipleMessageEnableReadsBack` | src/msi.rs:189 | multiple_message_enable is bits 6..=4; its setter stores the low 3 bits |
| `MsiCap.SetMultipleMessageEnableKeepsOtherBits` | src/msi.rs:189 | its setter leaves every bit outside 6..=4 |
| `MsiCap.MultipleMessageFieldsBounded` | src/msi.rs:189-190 | multiple_message_enable (bits 6..=4) and multiple_message_capable (bits 3..=1) are at most 7 |
| `MsiCap.SetEnableReadsBack` | src/msi.rs:191 | enable is bit 0 and reads back as it was set |
| `MsiCap.SetEnableKeepsOtherBits` | src/msi.rs:191 | its setter leaves the other 15 bits |
| `MsiCap.DataOffset` | src/msi.rs:138-144 | message data follows the address: at 0xC when bit 7 of message control is set, else at 0x8 |
| `MsiCap.DefaultMessageAddressIsApicBase` | src/msi.rs:216-222 | the default address is 0xFEE00000, with fixed_value 0xFEE in bits 31..=20 and destination 0 |
| `MsiCap.SetFixedValueReadsBack` | src/msi.rs:201 | fixed_value is bits 31..=20 and reads back as set, masked to 12 bits |
| `MsiCap.SetFixedValueKeepsOtherBits` | src/msi.rs:201 | its setter leaves bits 19..=0 |
| `MsiCap.SetDestinationIdReadsBack` | src/msi.rs:205 | destination_id is bits 19..=12 and reads back as set |
| `MsiCap.SetDestinationIdKeepsOtherBits` | src/msi.rs:205 | its setter leaves every other bit |
| `MsiCap.SetRedirectionHintReadsBack` | src/msi.rs:209 | redirection_hint is bit 3 and reads back as set |
| `MsiCap.SetRedirectionHintKeepsOtherBits` | src/msi.rs:209 | its setter leaves every other bit |
| `MsiCap.SetDestinationModeReadsBack` | src/msi.rs:213 | destination_mode is bit 2 and reads back as set |
| `MsiCap.SetDestinationModeKeepsOtherBits` | src/msi.rs:213 | its setter leaves every other bit |
| `MsiCap.SetTriggerModeReadsBack` | src/msi.rs:229 | trigger_mode is bit 15 and reads back as set |
| `MsiCap.SetTriggerModeKeepsOtherBits` | src/msi.rs:229 | its setter leaves every other bit |
| `MsiCap.SetTriggerModeLevelReadsBack` | src/msi.rs:230 | trigger_mode_level is bit 14 and reads back as set |
| `MsiCap.SetTriggerModeLevelKeepsOtherBits` | src/msi.rs:230 | its setter leaves every other bit |
| `MsiCap.SetDeliveryModeReadsBack` | src/msi.rs:231 | delivery_mode is bits 10..=8 and reads back as set, masked to 3 bits |
| `MsiCap.SetDeliveryModeKeepsOtherBits` | src/msi.rs:231 | its setter leaves every other bit |
| `MsiCap.SetVectorReadsBack` | src/msi.rs:232 | vector is bits 7..=0 and reads back as set |
| `MsiCap.SetVectorKeepsOtherBits` | src/msi.rs:232 | its setter leaves bits 15..=8 |
| `MsiCap.ControlReadsBack` | src/msi.rs:33-50 | `set_message_control(m)` followed by `get_message_control()` returns m |
| `MsiCap.AddrLowReadsBack` | src/msi.rs:53-71 | `set_message_addr_u32(a)` followed by `get_message_addr_u32()` returns a |
| `MsiCap.AddrHighReadsBack` | src/msi.rs:101-107 | the dword written at ptr+8 reads back |
| `MsiCap.AddrLowKeepsHigh` | src/msi.rs:63-71 | writing ptr+4 leaves ptr+8 unchanged |
| `MsiCap.AddrHighKeepsLow` | src/msi.rs:101-107 | writing ptr+8 leaves ptr+4 unchanged |
| `MsiCap.AddrLowKeepsControl` | src/msi.rs:63-71 | writing the address leaves message control unchanged |
| `MsiCap.AddrHighKeepsControl` | src/msi.rs:101-107 | writing the upper address leaves message control unchanged |
| `MsiCap.SplitCombine64` | src/msi.rs:88-106 | `low \| high << 32` of `addr as u32` and `(addr >> 32) as u32` is addr |
| `MsiCap.CombineZeroHigh` | src/msi.rs:88 | a zero high dword makes the combined address the zero extension of the low one |
| `MsiCap.MessageAddrU64RoundTrip` | src/msi.rs:75-108 | `set_message_addr_u64(a)` followed by `get_message_addr_u64()` returns a |
| `MsiCap.MessageAddrU64KeepsControl` | src/msi.rs:93-108 | `set_message_addr_u64` leaves message control unchanged |
| `MsiCap.MessageAddrIsZeroExtended` | src/msi.rs:111-127 | with 64-bit support, `set_message_addr(a)` writes a at ptr+4 and 0 at ptr+8, the same as `set_message_addr_u64(a as u64)` |
| `MsiCap.MessageAddrThenRead64` | src/msi.rs:111-127 | with 64-bit support, after `set_message_addr(a)` the 64-bit address reads as a zero-extended, and message control is unchanged |
| `MsiCap.MessageAddrThenRead32` | src/msi.rs:127-135 | without 64-bit support, after `set_message_addr(a)` ptr+4 reads a, ptr+8 is unchanged, and so is message control |
| `MsiCap.MessageDataRoundTrip` | src/msi.rs:146-169 | `set_message_data(d)` followed by `get_message_data()` returns d, and message control (which picks the offset) is unchanged |
| `MsiCap.DataForReadsBack` | src/msi.rs:160-169 | a data word written at the offset that message control gives reads back there |
| `MsiCap.DataWriteReadsBack` | src/msi.rs:160-169 | after `set_message_data(d)`, the word at the offset the old message control gave is d |
| `MsiCap.DataWriteKeepsControl` | src/msi.rs:160-169 | `set_message_data` leaves message control unchanged |
| `MsiCap.DataForKeepsControl` | src/msi.rs:138-169 | a word written at the data offset of any message control value leaves the message control register |
| `MsiCap.DataIsNotControl` | src/msi.rs:138-144 | the data register is never the message control register |
| `MsiCap.Msi.GetMessageControl` | src/msi.rs:33-40 | is the word at ptr+2 |
| `MsiCap.Msi.SetMessageControl` | src/msi.rs:42-50 | stores the word at ptr+2 |
| `MsiCap.Msi.GetMessageAddrU32` | src/msi.rs:53-60 | is the dword at ptr+4 |
| `MsiCap.Msi.SetMessageAddrU32` | src/msi.rs:63-71 | stores the dword at ptr+4 |
| `MsiCap.Msi.GetMessageAddrU64` | src/msi.rs:75-89 | combines the dwords at ptr+4 (low) and ptr+8 (high) |
| `MsiCap.Msi.SetMessageAddrU64` | src/msi.rs:93-108 | stores the low dword at ptr+4, then the high dword at ptr+8 |
| `MsiCap.Msi.SetMessageAddr` | src/msi.rs:111-136 | the new space is `WithMessageAddr`: ptr+4 becomes a, and ptr+8 becomes 0 only when 64-bit addresses are supported |
| `MsiCap.Msi.MessageDataOffset` | src/msi.rs:138-144 | is 0xC or 0x8, from bit 7 of message control |
| `MsiCap.Msi.GetMessageData` | src/msi.rs:146-154 | is the word at ptr + data offset |
| `MsiCap.Msi.SetMessageData` | src/msi.rs:160-169 | stores the word at ptr + data offset |
| `MsiCap.Find` | src/msi.rs:16-31 | None for an unknown header type; otherwise the view at the first capability with id 0x5, or Some(None) when no yielded capability has that id |
| `MsiXCap.TableSize` | src/msi_x.rs:129-131 | table_size is bits 10..=0 plus 1, so it lies in 1..=2048 and the u16 addition cannot overflow |
| `MsiXCap.TableSizeBounded` | src/msi_x.rs:123 | the field is at most 0x7FF |
| `MsiXCap.TableSizeExamples` | src/msi_x.rs:122-131 | a field of 7 gives 8, 0 gives 1, and a full field gives 2048 |
| `MsiXCap.SetEnableReadsBack` | src/msi_x.rs:125 | enable is bit 15 and reads back as set |
| `MsiXCap.SetEnableKeepsOtherBits` | src/msi_x.rs:125 | `set_enable` changes only bit 15 |
| `MsiXCap.SetEnableKeepsTableSize` | src/msi_x.rs:123-125 | enabling leaves the table size field |
| `MsiXCap.SetEnableKeepsFunctionMask` | src/msi_x.rs:124-125 | enabling leaves function_mask (bit 14) |
| `MsiXCap.OffsetIsIndexCleared` | src/msi_x.rs:143-153 | offset_in_bar is `loc & !7` |
| `MsiXCap.OffsetIsAligned` | src/msi_x.rs:151-153 | offset_in_bar is a multiple of 8 |
| `MsiXCap.BarIndexBounded` | src/msi_x.rs:147 | bar_index is `loc & 7`, at most 7 |
| `MsiXCap.LocationSplit` | src/msi_x.rs:141-153 | offset and BAR index together make up the whole register |
| `MsiXCap.SetMaskReadsBack` | src/msi_x.rs:175 | mask is bit 0 of vector control and reads back as set |
| `MsiXCap.SetMaskKeepsOtherBits` | src/msi_x.rs:175 | its setter leaves the other 31 bits |
| `MsiXCap.MsiXTable.constructor` | src/msi_x.rs:183-194 | the table views the given entries at the given address |
| `MsiXCap.MsiXTable.ReadEntry` | src/msi_x.rs:196-198 | requires index < table size; returns that entry |
| `MsiXCap.MsiXTable.WriteEntry` | src/msi_x.rs:196-198 | requires index < table size; replaces that entry and no other |
| `MsiXCap.MsiXTable.SetEntryMask` | src/msi_x.rs:196-198 | masks or unmasks one entry through `entry_mut`; the rest of that entry and every other entry are unchanged |
| `MsiXCap.PendingBitIsWordBit` | src/msi_x.rs:233-237 | bit e of the array is bit e % 64 of word e / 64 |
| `MsiXCap.PbaLength` | src/msi_x.rs:225 | the PBA has ceil(table_size / 8) u64 words (divisor 8, not 64) |
| `MsiXCap.PbaCoversTable` | src/msi_x.rs:225-237 | for every e < table_size, word e / 64 lies within the array |
| `MsiXCap.PbaLengthBounds` | src/msi_x.rs:225 | the array is at least ceil(table_size / 64) words, and longer than that once table_size > 8 |
| `MsiXCap.MsiXPendingBitArray.constructor` | src/msi_x.rs:220-231 | the array views the given words at the given address |
| `MsiXCap.MsiXPendingBitArray.IsPending` | src/msi_x.rs:233-237 | requires word e / 64 in the array; returns bit e of the bit string, which is bit e % 64 of word e / 64 |
| `MsiXCap.PendingEntry65` | src/msi_x.rs:233-237 | entry 65 is bit 1 of word 1 |
| `MsiXCap.MsiX.MessageControl` | src/msi_x.rs:43-50 | is the word at ptr+2 |
| `MsiXCap.MsiX.SetMessageControl` | src/msi_x.rs:52-60 | stores the word at ptr+2 |
| `MsiXCap.MsiX.GetTableLocation` | src/msi_x.rs:62-69 | is the dword at ptr+4 |
| `MsiXCap.MsiX.GetPbaLocation` | src/msi_x.rs:72-79 | is the dword at ptr+8 |
| `MsiXCap.MsiX.Table` | src/msi_x.rs:88-94 | requires a nonzero `bar_virt_addr` and that `bar_virt_addr + offset_in_bar` does not overflow a usize; the table lives at that address and has table_size entries |
| `MsiXCap.MsiX.PendingBitArray` | src/msi_x.rs:103-112 | same, at the PBA location's offset, with ceil(table_size / 8) words |
| `MsiXCap.Find` | src/msi_x.rs:24-39 | None for an unknown header type; otherwise the view at the first capability with id 0x11, or Some(None) when none has it |

## Left out

- Access.PciAccess.ReadU32, Access.PciAccess.ReadU16, Access.PciAccess.WriteU32,
  Access.PciAccess.WriteU16: under ECAM these require dev < 32 and fn < 8. The
  source does not check these bounds. It ORs the shifted fields together, and
  larger values would overlap. The model states the offset as a sum, which
  equals the OR only within these bounds (`Access.EcamOffsetOrIsSum`). Every
  caller in the crate stays within them: `PciBus::device` asserts d < 32 and
  `PciDevice::function` asserts n <= 7.
- Port I/O and volatile access. The ports are a latch plus a map, and mapped
  memory is a plain array. Memory ordering, caching and compiler reordering of
  volatile accesses are not modelled.
- Device behaviour during BAR sizing. What a BAR returns after the all-ones
  write is a parameter of `ReadBarWithSize`. The model does not derive it from
  the device.
- Concurrency. The model is single-threaded, so it does not capture that the
  BAR probe and the legacy 16-bit read-modify-write are not atomic.
- `Functions.PciFunction.ReadBarWithSize`: the restored state is stated as
  "every register reads the same" (`SameContents`), not as equality of the
  port map. A port key that was absent before the probe is present afterwards,
  with the value that an absent key already reads as.
- Parsing of the ACPI MCFG entry and the `PhysAddr` type. The entry's three
  fields are inputs. The canonical-address check and the u64 additions in
  `get_phys_range_to_map` become preconditions, so the arithmetic is done on
  unbounded integers.
- The `unsafe` constructor contracts (`new_pci`, `new_pcie`, `MsiXTable::new`,
  `MsiXPendingBitArray::new`). Whether the caller mapped the right memory
  cannot be expressed. The model takes the mapped window, table and array as
  arrays, and sizes the table and PBA arrays by preconditions.
- `NonNull` and `NonZero`. The `expect("ptr is not null")` calls cannot fail
  because the address is nonzero. Lifetimes and borrows are not modelled.
- `PciFunction::msi` and `PciFunction::msi_x` (src/function.rs:228-234). They
  only delegate, and Dafny modules cannot import each other in a cycle, so they
  are modelled by `MsiCap.Find` and `MsiXCap.Find` alone.
- `Debug` implementations and `#[deprecated]` attributes.
- src/lib.rs, which holds only module declarations and re-exports.
