/** The header-type byte at offset 0xE and the three header layouts. */
module HeaderTypes {
  import opened Wrappers

  /** `HeaderTypeByte::multi_function`: bit 7. */
  predicate MultiFunction(b: bv8) { (b >> 7) & 1 == 1 }

  /** `HeaderTypeByte::header_type`: bits 6..=0. */
  function HeaderTypeField(b: bv8): bv8 { b & 0x7F }

  datatype HeaderType = GeneralDevice | PciToPciBridge | PciToCardBusBridge

  /** The `#[repr(u8)]` discriminants. */
  function Discriminant(h: HeaderType): bv8
  {
    match h
    case GeneralDevice => 0x0
    case PciToPciBridge => 0x1
    case PciToCardBusBridge => 0x2
  }

  /** `TryFromPrimitive`: succeeds exactly on the three discriminants. */
  function TryFromPrimitive(v: bv8): (r: Option<HeaderType>)
    ensures r.Some? <==> v <= 2
    ensures r.Some? ==> Discriminant(r.value) == v
  {
    if v == 0x0 then Some(GeneralDevice)
    else if v == 0x1 then Some(PciToPciBridge)
    else if v == 0x2 then Some(PciToCardBusBridge)
    else None
  }

  /** The register holding interrupt pin and line; the same for every layout. */
  function InterruptRegAddr(h: HeaderType): (off: bv8)
    ensures off == 0x3C
  {
    0x3C
  }

  /** The two fields split the byte: the type is at most 0x7F, does not see
      bit 7, and the multi-function flag is bit 7 alone. */
  lemma FieldsPartitionTheByte(b: bv8)
    ensures HeaderTypeField(b) <= 0x7F
    ensures HeaderTypeField(b) == HeaderTypeField(b ^ 0x80)
    ensures MultiFunction(b) <==> b >= 0x80
    ensures MultiFunction(b) != MultiFunction(b ^ 0x80)
  {
  }

  /** Converting a header type to its discriminant and back is the identity. */
  lemma DiscriminantRoundTrip(h: HeaderType)
    ensures TryFromPrimitive(Discriminant(h)) == Some(h)
  {
  }

  /** A multi-function general device (0x80) still decodes as a general device. */
  lemma MultiFunctionByteDecodes()
    ensures MultiFunction(0x80) && TryFromPrimitive(HeaderTypeField(0x80)) == Some(GeneralDevice)
    ensures !MultiFunction(0x01) && TryFromPrimitive(HeaderTypeField(0x01)) == Some(PciToPciBridge)
  {
  }
}
