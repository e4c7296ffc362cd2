/** Encoding and decoding undo each other, and encoding keeps padding. */
module CodecLaws {
  import opened Arithmetic
  import opened Bytes
  import opened Wrappers
  import opened TypeLayout
  import opened LayoutTable
  import opened Codec

  lemma WordRoundTrips(destination: seq<byte>, bits: nat, size: nat)
    requires size <= 8 && size <= |destination| && bits < Pow2(8 * size)
    ensures Put(destination, bits, size).error.None? && Got(Put(destination, bits, size).bytes, size) == Success(bits)
  {
    BytesHold(bits, size);
    assert Put(destination, bits, size).bytes[..size] == ToBytes(bits, size);
  }

  lemma BitsFit(bits: nat, width: nat)
    requires bits < Pow2(width) && width <= 64
    ensures BytesFor(width) <= 8 && bits < Pow2(8 * BytesFor(width)) && Mask(bits, width) == bits
  {
    Pow2Grows(width, 8 * BytesFor(width));
    DivModUnique(Pow2(width), 0, bits);
  }

  /** Decoding looks only at the members it decodes. */
  lemma {:induction false} DecodeFrame(m: Module, rank: nat -> nat, id: nat, a: seq<byte>, b: seq<byte>, count: nat, limit: nat)
    requires Acyclic(m.types, rank) && |a| == |b| && limit <= |a| && a[..limit] == b[..limit]
    requires forall i: nat :: i < count ==> SlotOf(m, id, i).Success? && SlotOf(m, id, i).value.end <= limit
    ensures DecodedUpTo(m, rank, id, a, count) == DecodedUpTo(m, rank, id, b, count)
    decreases count
  {
    if count > 0 {
      DecodeFrame(m, rank, id, a, b, count - 1, limit);
      var slot := SlotOf(m, id, count - 1).value;
      assert a[slot.offset..slot.end] == a[..limit][slot.offset..slot.end];
      assert b[slot.offset..slot.end] == b[..limit][slot.offset..slot.end];
    }
  }

  /** Decoding what was encoded gives the value back, whatever the bytes were before, for
      every type that is no part of itself and any destination of the type's size. */
  lemma {:induction false} RoundTrip(m: Module, rank: nat -> nat, id: nat, v: Value, destination: seq<byte>)
    requires Laid(m, rank) && LayoutOf(m.types, rank, id).Success? && HasType(m, id, v)
    requires |destination| == LayoutOf(m.types, rank, id).value.size
    ensures Encoded(m, id, v, destination).error.None?
    ensures Decoded(m, rank, id, Encoded(m, id, v, destination).bytes) == Success(v)
    decreases v, if v.Composite? then |v.members| + 1 else 0
  {
    match v
    case Nothing =>
    case Flag(flag) => assert ToBytes(if flag then 1 else 0, 1)[0] == if flag then 1 else 0;
    case Bits(bits, width) =>
      BitsFit(bits, width);
      WordRoundTrips(destination, bits, BytesFor(width));
    case Address(address, _) => WordRoundTrips(destination, address, 8);
    case Composite(members) =>
      MembersRoundTrip(m, rank, id, v, |members|, destination);
      assert members[..|members|] == members;
  }

  lemma {:induction false} MembersRoundTrip(m: Module, rank: nat -> nat, id: nat, v: Value, count: nat, destination: seq<byte>)
    requires Laid(m, rank) && LayoutOf(m.types, rank, id).Success? && HasType(m, id, v)
    requires v.Composite? && count <= |v.members| && |destination| == LayoutOf(m.types, rank, id).value.size
    ensures EncodedUpTo(m, id, v, count, destination).error.None?
    ensures DecodedUpTo(m, rank, id, EncodedUpTo(m, id, v, count, destination).bytes, count) == Success(v.members[..count])
    decreases v, count
  {
    if count > 0 {
      MembersRoundTrip(m, rank, id, v, count - 1, destination);
      MemberRoundTrips(m, rank, id, v, count - 1, EncodedUpTo(m, id, v, count - 1, destination).bytes);
    }
  }

  lemma MemberRoundTrips(m: Module, rank: nat -> nat, id: nat, v: Value, index: nat, before: seq<byte>)
    requires Laid(m, rank) && LayoutOf(m.types, rank, id).Success? && HasType(m, id, v)
    requires v.Composite? && index < |v.members| && |before| == LayoutOf(m.types, rank, id).value.size
    requires DecodedUpTo(m, rank, id, before, index) == Success(v.members[..index])
    ensures EncodedMember(m, id, v, index, before).error.None?
    ensures DecodedUpTo(m, rank, id, EncodedMember(m, id, v, index, before).bytes, index + 1) == Success(v.members[..index + 1])
    decreases v, index
  {
    SlotFits(m, rank, id, index);
    var slot := SlotOf(m, id, index).value;
    RoundTrip(m, rank, slot.kind, v.members[index], before[slot.offset..slot.end]);
    var part := Encoded(m, slot.kind, v.members[index], before[slot.offset..slot.end]).bytes;
    MemberDecodes(m, rank, id, v.members, index, before, part, Spliced(before, slot.offset, part));
  }

  /** A member written into its slot is decoded after those before it. */
  lemma MemberDecodes(m: Module, rank: nat -> nat, id: nat, members: seq<Value>, last: nat, before: seq<byte>,
                      part: seq<byte>, after: seq<byte>)
    requires Laid(m, rank) && LayoutOf(m.types, rank, id).Success? && last < CountOf(m.types.At(id).value) && last < |members|
    requires SlotOf(m, id, last).Success? && SlotOf(m, id, last).value.end <= |before|
    requires SlotOf(m, id, last).value.offset + |part| == SlotOf(m, id, last).value.end
    requires after == Spliced(before, SlotOf(m, id, last).value.offset, part)
    requires DecodedUpTo(m, rank, id, before, last) == Success(members[..last])
    requires Decoded(m, rank, SlotOf(m, id, last).value.kind, part) == Success(members[last])
    ensures DecodedUpTo(m, rank, id, after, last + 1) == Success(members[..last + 1])
  {
    var slot := SlotOf(m, id, last).value;
    WrittenStretch(before, slot.offset, part);
    SlotsBefore(m, rank, id, last);
    DecodeFrame(m, rank, id, before, after, last, slot.offset);
    DecodedNext(m, rank, id, after, members, last);
  }

  lemma WrittenStretch(before: seq<byte>, at: nat, part: seq<byte>)
    requires at + |part| <= |before|
    ensures Spliced(before, at, part)[..at] == before[..at] && Spliced(before, at, part)[at..at + |part|] == part
  {
  }

  lemma SlotsBefore(m: Module, rank: nat -> nat, id: nat, last: nat)
    requires Laid(m, rank) && LayoutOf(m.types, rank, id).Success? && last < CountOf(m.types.At(id).value)
    ensures SlotOf(m, id, last).Success?
    ensures forall i: nat :: i < last ==> SlotOf(m, id, i).Success? && SlotOf(m, id, i).value.end <= SlotOf(m, id, last).value.offset
  {
    SlotFits(m, rank, id, last);
    forall i: nat | i < last
      ensures SlotOf(m, id, i).Success? && SlotOf(m, id, i).value.end <= SlotOf(m, id, last).value.offset
    {
      SlotFits(m, rank, id, i);
      SlotsApart(m, rank, id, i, last);
    }
  }

  lemma DecodedNext(m: Module, rank: nat -> nat, id: nat, source: seq<byte>, members: seq<Value>, last: nat)
    requires Acyclic(m.types, rank) && last < |members|
    requires DecodedUpTo(m, rank, id, source, last) == Success(members[..last])
    requires SlotOf(m, id, last).Success? && SlotOf(m, id, last).value.end <= |source|
    requires Decoded(m, rank, SlotOf(m, id, last).value.kind,
                     source[SlotOf(m, id, last).value.offset..SlotOf(m, id, last).value.end]) == Success(members[last])
    ensures DecodedUpTo(m, rank, id, source, last + 1) == Success(members[..last + 1])
  {
    assert members[..last + 1] == members[..last] + [members[last]];
  }

  // ----- too few bytes

  /** What has no members is written, and read, whole or not at all. */
  lemma TooShort(m: Module, rank: nat -> nat, id: nat, v: Value, bytes: seq<byte>)
    requires Laid(m, rank) && LayoutOf(m.types, rank, id).Success? && HasType(m, id, v)
    requires !v.Composite? && |bytes| < LayoutOf(m.types, rank, id).value.size
    ensures Encoded(m, id, v, bytes) == Written(bytes, Some(NotEnoughBytes))
    ensures Decoded(m, rank, id, bytes) == Failure(NotEnoughBytes)
  {
  }

  ghost predicate Cramped(m: Module, id: nat, i: nat, length: nat) {
    SlotOf(m, id, i).Success? && length < SlotOf(m, id, i).value.end
  }

  /** The first members have room. */
  ghost predicate Roomy(m: Module, id: nat, count: nat, length: nat) {
    forall i: nat :: i < count ==> !Cramped(m, id, i, length)
  }

  function Shortage(fits: bool): Option<Failed> { if fits then None else Some(NotEnoughBytes) }

  /** And what has members is written unless the slot of one of them sticks out; the padding
      after the last one need not be there. */
  lemma {:induction false} TooShortForMembers(m: Module, rank: nat -> nat, id: nat, v: Value, count: nat, destination: seq<byte>)
    requires Laid(m, rank) && LayoutOf(m.types, rank, id).Success? && HasType(m, id, v)
    requires v.Composite? && count <= |v.members|
    ensures EncodedUpTo(m, id, v, count, destination).error == Shortage(Roomy(m, id, count, |destination|))
    decreases count
  {
    if count > 0 {
      TooShortForMembers(m, rank, id, v, count - 1, destination);
      RoomForOneMore(m, id, count, |destination|);
      OneMoreTooShort(m, rank, id, v, count, destination, Roomy(m, id, count - 1, |destination|));
    }
  }

  lemma RoomForOneMore(m: Module, id: nat, count: nat, length: nat)
    requires count > 0
    ensures Roomy(m, id, count, length) <==> Roomy(m, id, count - 1, length) && !Cramped(m, id, count - 1, length)
  {
  }

  lemma OneMoreTooShort(m: Module, rank: nat -> nat, id: nat, v: Value, count: nat, destination: seq<byte>, fits: bool)
    requires Laid(m, rank) && LayoutOf(m.types, rank, id).Success? && HasType(m, id, v)
    requires v.Composite? && 0 < count <= |v.members|
    requires EncodedUpTo(m, id, v, count - 1, destination).error == Shortage(fits)
    ensures EncodedUpTo(m, id, v, count, destination).error == Shortage(fits && !Cramped(m, id, count - 1, |destination|))
  {
    MemberTooShort(m, rank, id, v, count - 1, EncodedUpTo(m, id, v, count - 1, destination).bytes);
    NextShortage(m, id, v, count, destination, fits, !Cramped(m, id, count - 1, |destination|));
  }

  lemma NextShortage(m: Module, id: nat, v: Value, count: nat, destination: seq<byte>, fits: bool, room: bool)
    requires v.Composite? && 0 < count <= |v.members|
    requires EncodedUpTo(m, id, v, count - 1, destination).error == Shortage(fits)
    requires EncodedMember(m, id, v, count - 1, EncodedUpTo(m, id, v, count - 1, destination).bytes).error == Shortage(room)
    ensures EncodedUpTo(m, id, v, count, destination).error == Shortage(fits && room)
  {
  }

  lemma MemberTooShort(m: Module, rank: nat -> nat, id: nat, v: Value, index: nat, before: seq<byte>)
    requires Laid(m, rank) && LayoutOf(m.types, rank, id).Success? && HasType(m, id, v)
    requires v.Composite? && index < |v.members|
    ensures EncodedMember(m, id, v, index, before).error
         == if Cramped(m, id, index, |before|) then Some(NotEnoughBytes) else None
  {
    SlotFits(m, rank, id, index);
    var slot := SlotOf(m, id, index).value;
    if slot.end <= |before| {
      RoundTrip(m, rank, slot.kind, v.members[index], before[slot.offset..slot.end]);
    }
  }

  // ----- where the bytes are

  /** A member lies where the layout puts it. */
  lemma SlotIsMember(m: Module, rank: nat -> nat, id: nat, index: nat)
    requires Laid(m, rank) && LayoutOf(m.types, rank, id).Success? && HasMember(m.types, id, index)
    ensures SlotOf(m, id, index).Success?
    ensures (SlotOf(m, id, index).value.kind, SlotOf(m, id, index).value.offset) == Member(m.types, rank, id, index)
  {
    SlotFits(m, rank, id, index);
  }

  /** What no member made of members is written as: its number, low byte first. */
  lemma ScalarBytes(m: Module, rank: nat -> nat, id: nat, v: Value, destination: seq<byte>, k: nat)
    requires Laid(m, rank) && LayoutOf(m.types, rank, id).Success? && HasType(m, id, v)
    requires k < |destination| == LayoutOf(m.types, rank, id).value.size
    ensures var bytes := Encoded(m, id, v, destination).bytes;
            match v
            case Nothing => true
            case Flag(flag) => bytes[k] == if flag then 1 else 0
            case Bits(bits, _) => bytes[k] == bits / Pow2(8 * k) % 256
            case Address(address, _) => bytes[k] == address / Pow2(8 * k) % 256
            case Composite(_) => true
  {
    match v
    case Bits(bits, width) =>
      if k < BytesFor(width) {
        LowByteFirst(bits, BytesFor(width), k);
      }
    case Address(address, _) => LowByteFirst(address, 8, k);
    case _ =>
  }

  /** One member, spliced into its slot. */
  predicate Writes(m: Module, id: nat, v: Value, i: nat, before: seq<byte>, part: seq<byte>, after: seq<byte>) {
    && v.Composite? && i < |v.members| && SlotOf(m, id, i).Success?
    && var Slot(kind, offset, end) := SlotOf(m, id, i).value;
    && offset <= end <= |before| && part == Encoded(m, kind, v.members[i], before[offset..end]).bytes
    && after == Spliced(before, offset, part)
  }

  /** The bytes as each member leaves them. */
  predicate Stages(m: Module, id: nat, v: Value, bytes: seq<seq<byte>>, parts: seq<seq<byte>>) {
    |bytes| == |parts| + 1 && forall i :: 0 <= i < |parts| ==> Writes(m, id, v, i, bytes[i], parts[i], bytes[i + 1])
  }

  lemma {:induction false} EncodedInStages(m: Module, id: nat, v: Value, count: nat, destination: seq<byte>)
    returns (bytes: seq<seq<byte>>, parts: seq<seq<byte>>)
    requires v.Composite? && count <= |v.members| && EncodedUpTo(m, id, v, count, destination).error.None?
    ensures Stages(m, id, v, bytes, parts) && |parts| == count
    ensures bytes[0] == destination && bytes[count] == EncodedUpTo(m, id, v, count, destination).bytes
    decreases count
  {
    if count == 0 {
      return [destination], [];
    }
    bytes, parts := EncodedInStages(m, id, v, count - 1, destination);
    var after, part := LastWrites(m, id, v, count, destination, bytes[count - 1]);
    bytes, parts := bytes + [after], parts + [part];
  }

  lemma LastWrites(m: Module, id: nat, v: Value, count: nat, destination: seq<byte>, before: seq<byte>)
    returns (after: seq<byte>, part: seq<byte>)
    requires v.Composite? && 0 < count <= |v.members| && EncodedUpTo(m, id, v, count, destination).error.None?
    requires before == EncodedUpTo(m, id, v, count - 1, destination).bytes
    ensures after == EncodedUpTo(m, id, v, count, destination).bytes && Writes(m, id, v, count - 1, before, part, after)
  {
    var Slot(kind, offset, end) := SlotOf(m, id, count - 1).value;
    after := EncodedUpTo(m, id, v, count, destination).bytes;
    part := Encoded(m, kind, v.members[count - 1], before[offset..end]).bytes;
  }

  /** What is spliced beside a stretch, any number of times, leaves it alone. */
  lemma {:induction false} StretchUntouched(bytes: seq<seq<byte>>, parts: seq<seq<byte>>, at: nat -> nat, low: nat, high: nat,
                                            from: nat, until: nat)
    requires |bytes| == |parts| + 1 && from <= until <= |parts| && low <= high <= |bytes[from]|
    requires forall i :: from <= i < until ==> SplicedApart(bytes[i], at(i), parts[i], bytes[i + 1], low, high)
    ensures |bytes[until]| == |bytes[from]| && bytes[until][low..high] == bytes[from][low..high]
    decreases until
  {
    if from < until {
      StretchUntouched(bytes, parts, at, low, high, from, until - 1);
      assert SplicedApart(bytes[until - 1], at(until - 1), parts[until - 1], bytes[until - 1 + 1], low, high);
      SplicedBeside(bytes[until - 1], at(until - 1), parts[until - 1], low, high);
    }
  }

  predicate SplicedApart(before: seq<byte>, at: nat, part: seq<byte>, after: seq<byte>, low: nat, high: nat) {
    at + |part| <= |before| && after == Spliced(before, at, part) && (high <= at || at + |part| <= low)
  }

  function OffsetOf(m: Module, id: nat, i: nat): nat { if SlotOf(m, id, i).Success? then SlotOf(m, id, i).value.offset else 0 }

  lemma WritesApart(m: Module, rank: nat -> nat, id: nat, v: Value, j: nat, before: seq<byte>, part: seq<byte>, after: seq<byte>,
                    i: nat)
    requires Laid(m, rank) && LayoutOf(m.types, rank, id).Success? && Writes(m, id, v, j, before, part, after)
    requires i != j && i < CountOf(m.types.At(id).value) && j < CountOf(m.types.At(id).value)
    requires SlotOf(m, id, i).Success?
    ensures SplicedApart(before, OffsetOf(m, id, j), part, after, SlotOf(m, id, i).value.offset, SlotOf(m, id, i).value.end)
  {
    if i < j { SlotsApart(m, rank, id, i, j); } else { SlotsApart(m, rank, id, j, i); }
  }

  /** A slot is as it was while only other members are written. */
  lemma SlotUntouched(m: Module, rank: nat -> nat, id: nat, v: Value, bytes: seq<seq<byte>>, parts: seq<seq<byte>>, i: nat,
                      from: nat, until: nat)
    requires Laid(m, rank) && LayoutOf(m.types, rank, id).Success? && Stages(m, id, v, bytes, parts)
    requires |parts| <= CountOf(m.types.At(id).value) && i < CountOf(m.types.At(id).value)
    requires from <= until <= |parts| && (until <= i || i < from)
    requires |bytes[from]| == LayoutOf(m.types, rank, id).value.size
    ensures SlotOf(m, id, i).Success? && SlotOf(m, id, i).value.offset <= SlotOf(m, id, i).value.end <= |bytes[from]|
    ensures |bytes[until]| == |bytes[from]|
    ensures bytes[until][SlotOf(m, id, i).value.offset..SlotOf(m, id, i).value.end]
            == bytes[from][SlotOf(m, id, i).value.offset..SlotOf(m, id, i).value.end]
  {
    SlotFits(m, rank, id, i);
    var (low, high) := (SlotOf(m, id, i).value.offset, SlotOf(m, id, i).value.end);
    var at := (k: nat) => OffsetOf(m, id, k);
    forall k | from <= k < until
      ensures SplicedApart(bytes[k], at(k), parts[k], bytes[k + 1], low, high)
    {
      WritesApart(m, rank, id, v, k, bytes[k], parts[k], bytes[k + 1], i);
    }
    StretchUntouched(bytes, parts, at, low, high, from, until);
  }

  /** And a member of a composite is written in its slot as it would be by itself. */
  lemma MemberBytes(m: Module, rank: nat -> nat, id: nat, v: Value, destination: seq<byte>, i: nat)
    requires Laid(m, rank) && LayoutOf(m.types, rank, id).Success? && HasType(m, id, v)
    requires v.Composite? && i < |v.members| && |destination| == LayoutOf(m.types, rank, id).value.size
    ensures SlotOf(m, id, i).Success? && SlotOf(m, id, i).value.offset <= SlotOf(m, id, i).value.end <= |destination|
    ensures var Slot(kind, offset, end) := SlotOf(m, id, i).value;
            Encoded(m, id, v, destination).bytes[offset..end] == Encoded(m, kind, v.members[i], destination[offset..end]).bytes
  {
    var count := |v.members|;
    MembersRoundTrip(m, rank, id, v, count, destination);
    var bytes, parts := EncodedInStages(m, id, v, count, destination);
    SlotUntouched(m, rank, id, v, bytes, parts, i, 0, i);
    StageHolds(m, id, v, i, bytes[i], parts[i], bytes[i + 1], destination);
    SlotUntouched(m, rank, id, v, bytes, parts, i, i + 1, count);
  }

  lemma StageHolds(m: Module, id: nat, v: Value, i: nat, before: seq<byte>, part: seq<byte>, after: seq<byte>, was: seq<byte>)
    requires Writes(m, id, v, i, before, part, after) && |was| == |before|
    requires before[SlotOf(m, id, i).value.offset..SlotOf(m, id, i).value.end]
             == was[SlotOf(m, id, i).value.offset..SlotOf(m, id, i).value.end]
    ensures |after| == |was|
    ensures var Slot(kind, offset, end) := SlotOf(m, id, i).value;
            after[offset..end] == Encoded(m, kind, v.members[i], was[offset..end]).bytes
  {
    WrittenStretch(before, SlotOf(m, id, i).value.offset, part);
  }

  /** Decoding is laxer than encoding: any byte but zero is true, and bits past a width go. */
  lemma DecodedLoosely(m: Module, rank: nat -> nat, id: nat, source: seq<byte>)
    requires Laid(m, rank) && LayoutOf(m.types, rank, id).Success? && |source| == LayoutOf(m.types, rank, id).value.size
    ensures m.types.At(id).value.Bool? ==> Decoded(m, rank, id, source) == Success(Flag(source[0] != 0))
    ensures forall width :: m.types.At(id).value == Scalar(width) && width < 64 ==>
              Decoded(m, rank, id, source) == Success(Bits(FromBytes(source) % Pow2(width), width))
    ensures forall width :: m.types.At(id).value == Scalar(width) && width == 64 ==>
              Decoded(m, rank, id, source) == Success(Bits(FromBytes(source), 64))
  {
    assert source[..|source|] == source;
  }

  // ----- padding

  /** A byte that holds a part of the value, as opposed to padding. */
  ghost predicate Covers(m: Module, id: nat, v: Value, k: int)
    decreases v, 1
  {
    match v
    case Nothing => false
    case Flag(_) => 0 <= k < 1
    case Bits(_, width) => 0 <= k < BytesFor(width)
    case Address(_, _) => m.LayoutAt(id).Success? && 0 <= k < m.LayoutAt(id).value.size
    case Composite(members) => exists i :: 0 <= i < |members| && MemberCovers(m, id, v, i, k)
  }

  ghost predicate MemberCovers(m: Module, id: nat, v: Value, i: nat, k: int)
    requires v.Composite? && i < |v.members|
    decreases v, 0
  {
    && SlotOf(m, id, i).Success?
    && var slot := SlotOf(m, id, i).value;
       slot.offset <= k < slot.end && Covers(m, slot.kind, v.members[i], k - slot.offset)
  }

  /** Encoding changes no padding byte, whatever the value and however it ends. */
  lemma {:induction false} PaddingKept(m: Module, id: nat, v: Value, destination: seq<byte>, k: nat)
    requires k < |destination| && !Covers(m, id, v, k)
    ensures Encoded(m, id, v, destination).bytes[k] == destination[k]
    decreases v, if v.Composite? then |v.members| + 1 else 0
  {
    if v.Composite? {
      MembersKeep(m, id, v, |v.members|, destination, k);
    }
  }

  lemma {:induction false} MembersKeep(m: Module, id: nat, v: Value, count: nat, destination: seq<byte>, k: nat)
    requires v.Composite? && count <= |v.members| && k < |destination|
    requires forall i :: 0 <= i < count ==> !MemberCovers(m, id, v, i, k)
    ensures EncodedUpTo(m, id, v, count, destination).bytes[k] == destination[k]
    decreases v, count
  {
    if count > 0 {
      var last := count - 1;
      MembersKeep(m, id, v, last, destination, k);
      MemberKeeps(m, id, v, last, EncodedUpTo(m, id, v, last, destination).bytes, k);
    }
  }

  lemma MemberKeeps(m: Module, id: nat, v: Value, index: nat, before: seq<byte>, k: nat)
    requires v.Composite? && index < |v.members| && k < |before| && !MemberCovers(m, id, v, index, k)
    ensures EncodedMember(m, id, v, index, before).bytes[k] == before[k]
    decreases v, 0
  {
    var slot := SlotOf(m, id, index);
    if slot.Success? && slot.value.end <= |before| {
      var Slot(kind, offset, end) := slot.value;
      var part := before[offset..end];
      SplicedAt(before, offset, Encoded(m, kind, v.members[index], part).bytes, k);
      if offset <= k < end {
        PaddingKept(m, kind, v.members[index], part, k - offset);
      }
    }
  }

  // ----- zeroed

  ghost predicate Narrow(types: Types) {
    forall id :: types.At(id).Success? && types.At(id).value.Scalar? ==> types.At(id).value.width <= 64
  }

  predicate Zero(bytes: seq<byte>) { forall i :: 0 <= i < |bytes| ==> bytes[i] == 0 }

  /** The zeroed value of a type is what all-zero bytes decode to. */
  lemma {:induction false} ZeroedIsZeroBytes(m: Module, rank: nat -> nat, id: nat, source: seq<byte>)
    requires Laid(m, rank) && LayoutOf(m.types, rank, id).Success? && Narrow(m.types)
    requires Zero(source) && |source| == LayoutOf(m.types, rank, id).value.size
    ensures Decoded(m, rank, id, source) == Zeroed(m, rank, id) && Zeroed(m, rank, id).Success?
    decreases rank(id), 1, 0
  {
    match m.types.At(id).value
    case Scalar(width) => ZeroBytes(source[..BytesFor(width)]);
    case Pointer(_) => ZeroBytes(source[..8]);
    case Vector(_, count) => ZeroMembers(m, rank, id, source, count);
    case Array(_, count) => ZeroMembers(m, rank, id, source, count);
    case Struct(members) => ZeroMembers(m, rank, id, source, |members|);
    case _ =>
  }

  lemma {:induction false} ZeroMembers(m: Module, rank: nat -> nat, id: nat, source: seq<byte>, count: nat)
    requires Laid(m, rank) && LayoutOf(m.types, rank, id).Success? && Narrow(m.types)
    requires Zero(source) && |source| == LayoutOf(m.types, rank, id).value.size && count <= CountOf(m.types.At(id).value)
    ensures DecodedUpTo(m, rank, id, source, count) == ZeroedUpTo(m, rank, id, count)
    ensures ZeroedUpTo(m, rank, id, count).Success?
    decreases rank(id), 0, count
  {
    if count > 0 {
      ZeroMembers(m, rank, id, source, count - 1);
      SlotFits(m, rank, id, count - 1);
      var slot := SlotOf(m, id, count - 1).value;
      ZeroedIsZeroBytes(m, rank, slot.kind, source[slot.offset..slot.end]);
    }
  }

  // ----- encoding in place

  /** Once a member fails, nothing more is written. */
  lemma {:induction false} Stuck(m: Module, id: nat, v: Value, failed: nat, count: nat, destination: seq<byte>)
    requires v.Composite? && failed <= count <= |v.members| && EncodedUpTo(m, id, v, failed, destination).error.Some?
    ensures EncodedUpTo(m, id, v, count, destination) == EncodedUpTo(m, id, v, failed, destination)
    decreases count
  {
    if failed < count {
      Stuck(m, id, v, failed, count - 1, destination);
    }
  }

  /** Replacing only the first bytes of a stretch. */
  lemma SplicedHead(bytes: seq<byte>, lo: nat, hi: nat, part: seq<byte>)
    requires lo + |part| <= hi <= |bytes|
    ensures Spliced(bytes, lo, part + bytes[lo..hi][|part|..]) == Spliced(bytes, lo, part)
    ensures part == [] ==> Spliced(bytes, lo, bytes[lo..hi]) == bytes
  {
  }

  method PutBits(a: array<byte>, lo: nat, hi: nat, bits: nat, size: nat) returns (error: Option<Failed>)
    requires lo <= hi <= a.Length
    modifies a
    ensures error == Put(old(a[lo..hi]), bits, size).error
    ensures a[..] == Spliced(old(a[..]), lo, Put(old(a[lo..hi]), bits, size).bytes)
  {
    ghost var was := a[..];
    SplicedHead(was, lo, hi, []);
    if hi - lo < size {
      return Some(NotEnoughBytes);
    }
    if size > 8 {
      return Some(Panic);
    }
    var bytes := ToBytes(bits, size);
    forall i | 0 <= i < size {
      a[lo + i] := bytes[i];
    }
    error := None;
    assert a[..] == Spliced(was, lo, bytes);
    SplicedHead(was, lo, hi, bytes);
  }

  /** Writes a value into a stretch of a buffer, member by member. */
  method Encode(m: Module, id: nat, v: Value, a: array<byte>, lo: nat, hi: nat) returns (error: Option<Failed>)
    requires lo <= hi <= a.Length
    modifies a
    ensures error == Encoded(m, id, v, old(a[lo..hi])).error
    ensures a[..] == Spliced(old(a[..]), lo, Encoded(m, id, v, old(a[lo..hi])).bytes)
    decreases v, 1
  {
    match v {
      case Nothing => error := None;
      case Flag(flag) => error := PutBits(a, lo, hi, if flag then 1 else 0, 1);
      case Bits(bits, width) => error := PutBits(a, lo, hi, bits, BytesFor(width));
      case Address(address, _) =>
        var layout := m.LayoutAt(id);
        if layout.Failure? {
          return Some(layout.error);
        }
        error := PutBits(a, lo, hi, address, layout.value.size);
      case Composite(_) => error := EncodeMembers(m, id, v, a, lo, hi);
    }
  }

  method EncodeMembers(m: Module, id: nat, v: Value, a: array<byte>, lo: nat, hi: nat) returns (error: Option<Failed>)
    requires lo <= hi <= a.Length && v.Composite?
    modifies a
    ensures error == EncodedUpTo(m, id, v, |v.members|, old(a[lo..hi])).error
    ensures a[..] == Spliced(old(a[..]), lo, EncodedUpTo(m, id, v, |v.members|, old(a[lo..hi])).bytes)
    decreases v, 0
  {
    ghost var (whole, part) := (a[..], a[lo..hi]);
    error := None;
    for index := 0 to |v.members|
      invariant error == EncodedUpTo(m, id, v, index, part).error == None
      invariant a[..] == Spliced(whole, lo, EncodedUpTo(m, id, v, index, part).bytes)
    {
      error := EncodeMember(m, id, v, index, a, lo, hi, whole, EncodedUpTo(m, id, v, index, part).bytes);
      if error.Some? {
        Stuck(m, id, v, index + 1, |v.members|, part);
        return;
      }
    }
  }

  method EncodeMember(m: Module, id: nat, v: Value, index: nat, a: array<byte>, lo: nat, hi: nat,
                      ghost whole: seq<byte>, ghost before: seq<byte>)
    returns (error: Option<Failed>)
    requires lo <= hi <= a.Length && v.Composite? && index < |v.members|
    requires |whole| == a.Length && |before| == hi - lo && a[..] == Spliced(whole, lo, before)
    modifies a
    ensures error == EncodedMember(m, id, v, index, before).error
    ensures a[..] == Spliced(whole, lo, EncodedMember(m, id, v, index, before).bytes)
    decreases v, 0, 0
  {
    var slot := SlotOf(m, id, index);
    if slot.Failure? {
      return Some(slot.error);
    }
    if hi - lo < slot.value.end {
      return Some(NotEnoughBytes);
    }
    var (offset, end) := (slot.value.offset, slot.value.end);
    assert a[lo + offset..lo + end] == a[..][lo + offset..lo + end] == before[offset..end];
    error := Encode(m, slot.value.kind, v.members[index], a, lo + offset, lo + end);
    SplicedTwice(whole, lo, before, offset, Encoded(m, slot.value.kind, v.members[index], before[offset..end]).bytes);
  }
}
