/** Tagged 64-bit addresses: region bits above slot bits above an offset.

    The three fields do not overlap, so the driver's shifts, masks and ors are written
    here as the multiplications, remainders and sums they amount to. */
module Addresses {
  import opened Wrappers
  import opened Arithmetic

  const OFFSET_SPAN := 0x1000_0000_0000
  const SLOT_SPAN := 0x1_0000
  const MAX_SLOTS := SLOT_SPAN - 1

  datatype Region = Global | Local | Mutable | Invocation | Builtin | Constant {
    function Bits(): nat {
      match this
      case Global => 1
      case Local => 2
      case Mutable => 3
      case Invocation => 4
      case Builtin => 5
      case Constant => 6
    }
  }

  function FromBits(bits: nat): Option<Region> {
    match bits
    case 1 => Some(Global)
    case 2 => Some(Local)
    case 3 => Some(Mutable)
    case 4 => Some(Invocation)
    case 5 => Some(Builtin)
    case 6 => Some(Constant)
    case _ => None
  }

  datatype Place = Place(region: Option<Region>, slot: nat, offset: nat)

  function Encode(region: Option<Region>, slot: nat, offset: nat): nat {
    ((if region.Some? then region.value.Bits() else 0) * SLOT_SPAN + slot % SLOT_SPAN) * OFFSET_SPAN
    + offset % OFFSET_SPAN
  }

  function Decode(address: nat): Place {
    Place(FromBits(address / OFFSET_SPAN / SLOT_SPAN), address / OFFSET_SPAN % SLOT_SPAN, address % OFFSET_SPAN)
  }

  function RegionOf(address: nat): Option<Region> { Decode(address).region }

  /** An address decodes to the place it was made from, and moving it inside its slot only
      moves the offset. */
  lemma DecodeEncode(region: Option<Region>, slot: nat, offset: nat, moved: nat)
    requires slot < 0x1_0000 && offset + moved < 0x1000_0000_0000
    ensures Decode(Encode(region, slot, offset) + moved) == Place(region, slot, offset + moved)
    ensures Encode(region, slot, offset) + moved < 0x1_0000_0000_0000_0000
  {
    var bits := if region.Some? then region.value.Bits() else 0;
    DivModUnique(OFFSET_SPAN, bits * SLOT_SPAN + slot, offset + moved);
    DivModUnique(SLOT_SPAN, bits, slot);
  }

  /** Four bits of region above sixteen of slot above forty-four of offset. */
  lemma FieldsOfAddress(region: Region, slot: nat, offset: nat)
    requires slot < 0x1_0000 && offset < 0x1000_0000_0000
    ensures Encode(Some(region), slot, offset) == RegionNumber(region) * 0x1000_0000_0000_0000 + slot * 0x1000_0000_0000 + offset
    ensures RegionOf(Encode(Some(region), slot, offset)) == Some(region)
    ensures Encode(None, slot, offset) == slot * 0x1000_0000_0000 + offset && RegionOf(Encode(None, slot, offset)) == None
  {
    DecodeEncode(Some(region), slot, offset, 0);
    DecodeEncode(None, slot, offset, 0);
  }

  function RegionNumber(region: Region): nat {
    if region.Global? then 1 else if region.Local? then 2 else if region.Mutable? then 3
    else if region.Invocation? then 4 else if region.Builtin? then 5 else 6
  }

  /** Two addresses of the same known region agree only if slot and offset agree. */
  lemma EncodeDecode(address: nat)
    requires RegionOf(address).Some?
    ensures var at := Decode(address); Encode(at.region, at.slot, at.offset) == address
  {
    DivMod(address, OFFSET_SPAN);
    DivMod(address / OFFSET_SPAN, SLOT_SPAN);
  }
}
