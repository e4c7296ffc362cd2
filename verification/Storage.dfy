/** Byte storage handed out in slots, addressed through tagged addresses. */
module Storage {
  import opened Wrappers
  import opened Arithmetic
  import opened Addresses
  import opened Bytes

  datatype Invalid = Null | Unmapped | Overrun

  datatype Entry = Entry(size: nat, ptr: nat) {
    function End(): nat { ptr + size }
  }

  // ----- the slot table

  /** Slots lie one after the other inside the bytes, in slot order, without overlap. */
  ghost predicate Tiled(entries: seq<Entry>, length: nat) {
    && |entries| <= MAX_SLOTS
    && (forall i, j :: 0 <= i < j < |entries| ==> entries[i].End() <= entries[j].ptr)
    && (forall i :: 0 <= i < |entries| ==> entries[i].End() <= length)
  }

  /** Where the next slot of this alignment starts. */
  function NextSlot(length: nat, size: nat, alignment: nat): Entry { Entry(size, AlignUp(length, alignment)) }

  /** How many bytes stay once the slots from `watermark` on are gone. */
  function LengthAt(entries: seq<Entry>, length: nat, watermark: nat): nat {
    if watermark < |entries| then entries[watermark].ptr else length
  }

  function EntriesAt(entries: seq<Entry>, watermark: nat): seq<Entry> {
    if watermark < |entries| then entries[..watermark] else entries
  }

  /** The slot that an access of `size` bytes touches, or why it touches none. */
  function Lookup(region: Region, sizes: seq<nat>, address: nat, size: nat): Result<nat, Invalid> {
    var at := Decode(address);
    if at.region == None && at.slot == 0 then Failure(Null)
    else if at.region != Some(region) || at.slot == 0 then Failure(Unmapped)
    else if at.slot - 1 >= |sizes| then Failure(Unmapped)
    else if at.offset + size > sizes[at.slot - 1] then Failure(Overrun)
    else Success(at.slot - 1)
  }

  /** A new slot starts at the first multiple of its alignment past everything before it. */
  lemma NewSlotIsAligned(length: nat, size: nat, alignment: nat)
    ensures var slot := NextSlot(length, size, alignment);
            && slot.size == size && length <= slot.ptr && (alignment <= 1 ==> slot.ptr == length)
            && (alignment > 0 ==> slot.ptr % alignment == 0 && slot.ptr < length + alignment)
  {
  }

  /** An access is let through exactly when it lies inside a live slot of its region; the low
      addresses are null. */
  lemma AccessesInsideSlots(region: Region, sizes: seq<nat>, slot: nat, offset: nat, size: nat)
    requires slot < 0x1_0000 && offset < 0x1000_0000_0000
    ensures var at := Lookup(region, sizes, Encode(Some(region), slot, offset), size);
            if slot == 0 || slot > |sizes| then at == Failure(Unmapped)
            else if offset + size > sizes[slot - 1] then at == Failure(Overrun)
            else at == Success(slot - 1)
    ensures Lookup(region, sizes, offset, size) == Failure(Null)
    ensures forall other :: other != region ==> Lookup(region, sizes, Encode(Some(other), slot, offset), size) == Failure(Unmapped)
  {
    DecodeEncode(Some(region), slot, offset, 0);
    DecodeEncode(None, 0, offset, 0);
    forall other | other != region ensures Lookup(region, sizes, Encode(Some(other), slot, offset), size) == Failure(Unmapped) {
      DecodeEncode(Some(other), slot, offset, 0);
    }
  }

  lemma TruncateTiles(entries: seq<Entry>, length: nat, watermark: nat)
    requires Tiled(entries, length)
    ensures Tiled(EntriesAt(entries, watermark), LengthAt(entries, length, watermark))
  {
  }

  /** The bytes of two accesses to different live slots never meet, and lie inside the storage. */
  lemma LiveSpansApart(entries: seq<Entry>, length: nat, i: nat, offset: nat, size: nat, j: nat, at: nat, extent: nat)
    requires Tiled(entries, length) && i < j < |entries|
    requires offset + size <= entries[i].size && at + extent <= entries[j].size
    ensures entries[i].ptr + offset + size <= entries[j].ptr + at
    ensures entries[j].ptr + at + extent <= length
  {
    assert entries[i].End() <= entries[j].ptr && entries[j].End() <= length;
  }

  lemma PrefixSlice(bytes: seq<byte>, length: nat, low: nat, high: nat)
    requires low <= high <= length <= |bytes|
    ensures bytes[..length][low..high] == bytes[low..high]
  {
  }

  // ----- memory seen as independent blocks, one a slot

  type Block = seq<byte>

  function Sizes(blocks: seq<Block>): (s: seq<nat>)
    ensures |s| == |blocks| && forall i :: 0 <= i < |s| ==> s[i] == |blocks[i]|
  {
    seq(|blocks|, i requires 0 <= i < |blocks| => |blocks[i]|)
  }

  function Load(region: Region, blocks: seq<Block>, address: nat, size: nat): Result<Block, Invalid> {
    match Lookup(region, Sizes(blocks), address, size)
    case Failure(reason) => Failure(reason)
    case Success(slot) => Success(blocks[slot][Decode(address).offset..Decode(address).offset + size])
  }

  /** The blocks once `data` is stored at an address; a refused store changes nothing. */
  function Stored(region: Region, blocks: seq<Block>, address: nat, data: Block): seq<Block> {
    match Lookup(region, Sizes(blocks), address, |data|)
    case Failure(_) => blocks
    case Success(slot) => blocks[slot := Spliced(blocks[slot], Decode(address).offset, data)]
  }

  function Zeros(size: nat): Block { seq(size, _ => 0) }

  predicate Apart(a: nat, size: nat, b: nat, length: nat) {
    var (p, q) := (Decode(a), Decode(b));
    p.slot != q.slot || p.offset + size <= q.offset || q.offset + length <= p.offset
  }

  /** A store is read back, and every access that does not touch the bytes it wrote,
      valid or not, sees what it saw before. */
  lemma StoreThenLoad(region: Region, blocks: seq<Block>, address: nat, data: Block, other: nat, size: nat)
    ensures var after := Stored(region, blocks, address, data);
            && (Lookup(region, Sizes(blocks), address, |data|).Success? ==>
                  Load(region, after, address, |data|) == Success(data))
            && (Apart(address, |data|, other, size) ==>
                  Load(region, after, other, size) == Load(region, blocks, other, size))
  {
    var after := Stored(region, blocks, address, data);
    match Lookup(region, Sizes(blocks), address, |data|) {
      case Failure(_) =>
      case Success(slot) =>
        assert Sizes(after) == Sizes(blocks);
        var offset := Decode(address).offset;
        assert after[slot][offset..offset + |data|] == data;
        if Apart(address, |data|, other, size) && Lookup(region, Sizes(blocks), other, size) == Success(slot) {
          var at := Decode(other).offset;
          assert after[slot][at..at + size] == blocks[slot][at..at + size];
        }
    }
  }

  /** New memory reads as zero at every offset, and older memory reads as before. */
  lemma AllocateThenLoad(region: Region, blocks: seq<Block>, room: nat, offset: nat, address: nat, size: nat)
    requires |blocks| < MAX_SLOTS
    ensures var after := blocks + [Zeros(room)];
            && (offset + size <= room && offset < OFFSET_SPAN ==>
                  Load(region, after, Encode(Some(region), |after|, 0) + offset, size) == Success(Zeros(size)))
            && (Load(region, blocks, address, size).Success? ==>
                  Load(region, after, address, size) == Load(region, blocks, address, size))
  {
    var after := blocks + [Zeros(room)];
    assert Sizes(after) == Sizes(blocks) + [room];
    if offset + size <= room && offset < OFFSET_SPAN {
      DecodeEncode(Some(region), |after|, 0, offset);
      assert Zeros(room)[offset..offset + size] == Zeros(size);
    }
  }

  lemma SliceOfSlice(bytes: seq<byte>, low: nat, high: nat, offset: nat, size: nat)
    requires low <= high <= |bytes| && low + offset + size <= high
    ensures bytes[low..high][offset..offset + size] == bytes[low + offset..low + offset + size]
  {
    var (part, whole) := (bytes[low..high][offset..offset + size], bytes[low + offset..low + offset + size]);
    forall i | 0 <= i < size ensures part[i] == whole[i] {
      assert part[i] == bytes[low..high][offset + i];
    }
    assert part == whole;
  }

  /** The driver's representation: one byte vector shared by all slots. */
  class Storage {
    const region: Region
    var entries: seq<Entry>
    var bytes: seq<byte>

    ghost predicate Valid()
      reads this
    {
      Tiled(entries, |bytes|)
    }

    /** The contents of every slot, with the shared representation out of sight. */
    ghost function Blocks(): seq<Block>
      requires Valid()
      reads this
    {
      seq(|entries|, i requires 0 <= i < |entries| reads this requires Valid() =>
        bytes[entries[i].ptr..entries[i].End()])
    }

    constructor (region: Region)
      ensures Valid() && this.region == region && Blocks() == []
    {
      this.region := region;
      entries := [];
      bytes := [];
    }

    function Watermark(): nat
      reads this
    {
      |entries|
    }

    method Allocate(size: nat, alignment: nat) returns (address: Option<nat>)
      requires Valid()
      modifies this
      ensures Valid()
      ensures address.None? <==> old(|entries|) == MAX_SLOTS
      ensures address.None? ==> entries == old(entries) && bytes == old(bytes)
      ensures address.Some? ==>
                && entries == old(entries) + [NextSlot(old(|bytes|), size, alignment)]
                && |bytes| == NextSlot(old(|bytes|), size, alignment).End()
                && Blocks() == old(Blocks()) + [Zeros(size)]
                && address.value == Encode(Some(region), |entries|, 0)
    {
      if |entries| >= MAX_SLOTS {
        return None;
      }
      var entry := NextSlot(|bytes|, size, alignment);
      ghost var (before, was) := (Blocks(), bytes);
      entries := entries + [entry];
      bytes := bytes + Zeros(entry.End() - |bytes|);
      assert bytes[entry.ptr..entry.End()] == Zeros(size);
      forall i | 0 <= i < |before| ensures Blocks()[i] == before[i] {
        assert bytes[entries[i].ptr..entries[i].End()] == was[entries[i].ptr..entries[i].End()];
      }
      assert Blocks() == before + [Zeros(size)];
      address := Some(Encode(Some(region), |entries|, 0));
    }

    method Read(address: nat, size: nat) returns (result: Result<Block, Invalid>)
      requires Valid()
      ensures result == Load(region, Blocks(), address, size)
    {
      var slot := Lookup(region, seq(|entries|, i requires 0 <= i < |entries| reads this => entries[i].size), address, size);
      assert Sizes(Blocks()) == seq(|entries|, i requires 0 <= i < |entries| reads this => entries[i].size);
      match slot {
        case Failure(reason) => result := Failure(reason);
        case Success(at) =>
          var within := entries[at].ptr + Decode(address).offset;
          result := Success(bytes[within..within + size]);
          SliceOfSlice(bytes, entries[at].ptr, entries[at].End(), Decode(address).offset, size);
      }
    }

    /** Hands out the bytes of an access to be overwritten with `data`. */
    method Write(address: nat, data: Block) returns (result: Result<(), Invalid>)
      requires Valid()
      modifies `bytes
      ensures Valid() && |bytes| == old(|bytes|)
      ensures Blocks() == Stored(region, old(Blocks()), address, data)
      ensures result == match Lookup(region, Sizes(old(Blocks())), address, |data|)
                        case Failure(reason) => Failure(reason)
                        case Success(_) => Success(())
    {
      ghost var before := Blocks();
      assert Sizes(before) == seq(|entries|, i requires 0 <= i < |entries| reads this => entries[i].size);
      var slot := Lookup(region, seq(|entries|, i requires 0 <= i < |entries| reads this => entries[i].size), address, |data|);
      match slot {
        case Failure(reason) => result := Failure(reason);
        case Success(at) =>
          var within := entries[at].ptr + Decode(address).offset;
          ghost var was := bytes;
          bytes := Spliced(bytes, within, data);
          result := Success(());
          forall i | 0 <= i < |entries|
            ensures bytes[entries[i].ptr..entries[i].End()] == Stored(region, before, address, data)[i]
          {
            if i == at {
              SplicedInside(was, within, data, entries[i].ptr, entries[i].End());
            } else {
              assert entries[i].End() <= entries[at].ptr || entries[at].End() <= entries[i].ptr;
              SplicedBeside(was, within, data, entries[i].ptr, entries[i].End());
            }
          }
          assert Blocks() == Stored(region, before, address, data);
      }
    }

    /** Fills every byte with zero, as the local storage is before each group. */
    method Zero()
      requires Valid()
      modifies `bytes
      ensures Valid() && |bytes| == old(|bytes|)
      ensures Sizes(Blocks()) == Sizes(old(Blocks()))
      ensures forall i :: 0 <= i < |Blocks()| ==> Blocks()[i] == Zeros(|Blocks()[i]|)
    {
      bytes := Zeros(|bytes|);
    }

    method Truncate(watermark: nat)
      requires Valid()
      modifies this
      ensures Valid()
      ensures entries == EntriesAt(old(entries), watermark)
      ensures |bytes| == LengthAt(old(entries), old(|bytes|), watermark)
      ensures Blocks() == old(Blocks())[..|entries|]
    {
      ghost var (before, was) := (Blocks(), bytes);
      if watermark < |entries| {
        var ptr := entries[watermark].ptr;
        bytes := bytes[..ptr];
        entries := entries[..watermark];
      }
      forall i | 0 <= i < |entries| ensures Blocks()[i] == before[i] {
        assert bytes == was[..|bytes|] && entries[i].End() <= |bytes|;
        PrefixSlice(was, |bytes|, entries[i].ptr, entries[i].End());
      }
    }
  }
}
