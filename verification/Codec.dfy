/** Values written to and read from bytes, by the layout of their type. */
module Codec {
  import opened Arithmetic
  import opened Bytes
  import opened Wrappers
  import opened TypeLayout
  import opened LayoutTable

  datatype Value =
    | Nothing
    | Flag(flag: bool)
    | Bits(bits: nat, width: nat)
    | Composite(members: seq<Value>)
    | Address(address: nat, pointee: nat)

  /** `Panic` is a slice index past the eight bytes of a word. */
  datatype Failed = Bitcode(error: Error) | NotEnoughBytes | Panic

  datatype Module = Module(types: Types, layouts: seq<Option<Layout>>) {
    function LayoutAt(id: nat): Result<Layout, Failed> {
      if id >= |layouts| then Failure(Bitcode(IdOutOfRange(id)))
      else if layouts[id].None? then Failure(Bitcode(NotAType(id)))
      else Success(layouts[id].value)
    }
  }

  // ----- little-endian words

  function Pow2(n: nat): (r: nat)
    ensures r > 0
  {
    if n == 0 then 1 else 2 * Pow2(n - 1)
  }

  function ToBytes(bits: nat, size: nat): (r: seq<byte>)
    ensures |r| == size
  {
    if size == 0 then [] else [bits % 256] + ToBytes(bits / 256, size - 1)
  }

  function FromBytes(bytes: seq<byte>): nat {
    if bytes == [] then 0 else bytes[0] + 256 * FromBytes(bytes[1..])
  }

  function Mask(bits: nat, width: nat): nat { if width >= 64 then bits else bits % Pow2(width) }

  function BytesFor(width: nat): nat { (width + 7) / 8 }

  lemma Pow2Byte(n: nat)
    ensures Pow2(n + 8) == 256 * Pow2(n)
  {
    assert Pow2(n + 4) == 16 * Pow2(n) by { assert Pow2(n + 2) == 4 * Pow2(n); }
    assert Pow2(n + 8) == 16 * Pow2(n + 4) by { assert Pow2(n + 6) == 4 * Pow2(n + 4); }
  }

  lemma {:induction false} Pow2Grows(a: nat, b: nat)
    requires a <= b
    ensures Pow2(a) <= Pow2(b)
  {
    if a < b {
      Pow2Grows(a, b - 1);
    }
  }

  /** As many bytes as a number needs hold it. */
  lemma {:induction false} BytesHold(bits: nat, size: nat)
    requires bits < Pow2(8 * size)
    ensures FromBytes(ToBytes(bits, size)) == bits
  {
    if size > 0 {
      Pow2Byte(8 * (size - 1));
      BytesHold(bits / 256, size - 1);
      assert ToBytes(bits, size)[1..] == ToBytes(bits / 256, size - 1);
    }
  }

  /** The low byte comes first. */
  lemma {:induction false} LowByteFirst(bits: nat, size: nat, k: nat)
    requires k < size
    ensures ToBytes(bits, size)[k] == bits / Pow2(8 * k) % 256
    decreases size
  {
    if k > 0 {
      LowByteFirst(bits / 256, size - 1, k - 1);
      Pow2Byte(8 * (k - 1));
      DivideTwice(bits, Pow2(8 * (k - 1)));
    }
  }

  lemma DivideTwice(n: nat, d: nat)
    requires d > 0
    ensures n / 256 / d == n / (256 * d)
  {
    var (q, r) := (n / 256, n % 256);
    var (high, low) := (q / d, q % d);
    DivMod(q, d);
    assert n == high * (256 * d) + (low * 256 + r);
    assert low * 256 + r < 256 * d;
    DivModUnique(256 * d, high, low * 256 + r);
  }

  /** And a number is read back as the bytes it came from. */
  lemma {:induction false} BytesOfNumber(bytes: seq<byte>)
    ensures ToBytes(FromBytes(bytes), |bytes|) == bytes
  {
    if bytes != [] {
      BytesOfNumber(bytes[1..]);
      DivModUnique(256, FromBytes(bytes[1..]), bytes[0]);
    }
  }

  lemma {:induction false} ZeroBytes(bytes: seq<byte>)
    requires forall i :: 0 <= i < |bytes| ==> bytes[i] == 0
    ensures FromBytes(bytes) == 0
  {
    if bytes != [] {
      ZeroBytes(bytes[1..]);
    }
  }

  // ----- members

  function MemberType(m: Module, id: nat, index: nat): Result<nat, Failed> {
    match m.types.At(id)
    case Failure(error) => Failure(Bitcode(error))
    case Success(Struct(members)) => if index < |members| then Success(members[index]) else Failure(Bitcode(NotAType(id)))
    case Success(Vector(component, _)) => Success(component)
    case Success(Array(element, _)) => Success(element)
    case Success(_) => Failure(Bitcode(UnsupportedType(id)))
  }

  function Scaled(index: nat, entry: Result<Layout, Failed>): Result<nat, Failed> {
    match entry
    case Failure(error) => Failure(error)
    case Success(l) => MulNat(index, l.size); Success(index * l.size)
  }

  function MemberOffset(m: Module, id: nat, index: nat): Result<nat, Failed> {
    if m.LayoutAt(id).Failure? then Failure(m.LayoutAt(id).error)
    else
      match m.types.At(id)
      case Failure(error) => Failure(Bitcode(error))
      case Success(Struct(_)) =>
        var offsets := m.LayoutAt(id).value.offsets;
        if index < |offsets| then Success(offsets[index]) else Failure(Bitcode(NotAType(id)))
      case Success(Vector(component, _)) => Scaled(index, m.LayoutAt(component))
      case Success(Array(element, _)) => Scaled(index, m.LayoutAt(element))
      case Success(_) => Failure(Bitcode(UnsupportedType(id)))
  }

  datatype Slot = Slot(kind: nat, offset: nat, end: nat)

  /** Where a member lies and what it is. */
  function SlotOf(m: Module, id: nat, index: nat): Result<Slot, Failed> {
    match MemberType(m, id, index)
    case Failure(error) => Failure(error)
    case Success(kind) =>
      match MemberOffset(m, id, index)
      case Failure(error) => Failure(error)
      case Success(offset) =>
        match m.LayoutAt(kind)
        case Failure(error) => Failure(error)
        case Success(l) => Success(Slot(kind, offset, offset + l.size))
  }

  // ----- encoding

  /** The bytes as encoding leaves them, also when it fails on the way. */
  datatype Written = Written(bytes: seq<byte>, error: Option<Failed>)

  function Put(destination: seq<byte>, bits: nat, size: nat): (r: Written)
    ensures |r.bytes| == |destination|
  {
    if |destination| < size then Written(destination, Some(NotEnoughBytes))
    else if size > 8 then Written(destination, Some(Panic))
    else Written(ToBytes(bits, size) + destination[size..], None)
  }

  function Encoded(m: Module, id: nat, v: Value, destination: seq<byte>): (r: Written)
    ensures |r.bytes| == |destination|
    decreases v, if v.Composite? then |v.members| + 1 else 0
  {
    match v
    case Nothing => Written(destination, None)
    case Flag(flag) => Put(destination, if flag then 1 else 0, 1)
    case Bits(bits, width) => Put(destination, bits, BytesFor(width))
    case Address(address, _) =>
      if m.LayoutAt(id).Success? then Put(destination, address, m.LayoutAt(id).value.size)
      else Written(destination, Some(m.LayoutAt(id).error))
    case Composite(members) => EncodedUpTo(m, id, v, |members|, destination)
  }

  /** The first members, one after the other, until one fails. */
  function EncodedUpTo(m: Module, id: nat, v: Value, count: nat, destination: seq<byte>): (r: Written)
    requires v.Composite? && count <= |v.members|
    ensures |r.bytes| == |destination|
    decreases v, count
  {
    if count == 0 then Written(destination, None)
    else
      var before := EncodedUpTo(m, id, v, count - 1, destination);
      if before.error.Some? then before else EncodedMember(m, id, v, count - 1, before.bytes)
  }

  /** One member, in its slot. */
  function EncodedMember(m: Module, id: nat, v: Value, index: nat, destination: seq<byte>): (r: Written)
    requires v.Composite? && index < |v.members|
    ensures |r.bytes| == |destination|
    decreases v, index
  {
    var slot := SlotOf(m, id, index);
    if slot.Failure? then Written(destination, Some(slot.error))
    else if |destination| < slot.value.end then Written(destination, Some(NotEnoughBytes))
    else
      var member := Encoded(m, slot.value.kind, v.members[index], destination[slot.value.offset..slot.value.end]);
      Written(Spliced(destination, slot.value.offset, member.bytes), member.error)
  }

  // ----- decoding

  function Got(source: seq<byte>, size: nat): Result<nat, Failed> {
    if |source| < size then Failure(NotEnoughBytes)
    else if size > 8 then Failure(Panic)
    else Success(FromBytes(source[..size]))
  }

  ghost function Decoded(m: Module, rank: nat -> nat, id: nat, source: seq<byte>): Result<Value, Failed>
    requires Acyclic(m.types, rank)
    decreases rank(id), 1, 0
  {
    match m.types.At(id)
    case Failure(error) => Failure(Bitcode(error))
    case Success(Void) => Success(Nothing)
    case Success(Function) => Success(Nothing)
    case Success(Bool) => if source == [] then Failure(NotEnoughBytes) else Success(Flag(source[0] != 0))
    case Success(Scalar(width)) =>
      (match Got(source, BytesFor(width))
       case Failure(error) => Failure(error)
       case Success(bits) => Success(Bits(Mask(bits, width), width)))
    case Success(Pointer(pointee)) =>
      if m.LayoutAt(id).Failure? then Failure(m.LayoutAt(id).error)
      else
        (match Got(source, m.LayoutAt(id).value.size)
         case Failure(error) => Failure(error)
         case Success(address) => Success(Address(address, pointee)))
    case Success(t) =>
      match DecodedUpTo(m, rank, id, source, CountOf(t))
      case Failure(error) => Failure(error)
      case Success(members) => Success(Composite(members))
  }

  function CountOf(t: Type): nat {
    match t
    case Vector(_, count) => count
    case Array(_, count) => count
    case Struct(members) => |members|
    case _ => 0
  }

  ghost function DecodedUpTo(m: Module, rank: nat -> nat, id: nat, source: seq<byte>, count: nat): (r: Result<seq<Value>, Failed>)
    requires Acyclic(m.types, rank)
    ensures r.Success? ==> |r.value| == count
    decreases rank(id), 0, count
  {
    if count == 0 then Success([])
    else
      match DecodedUpTo(m, rank, id, source, count - 1)
      case Failure(error) => Failure(error)
      case Success(before) =>
        match SlotOf(m, id, count - 1)
        case Failure(error) => Failure(error)
        case Success(slot) =>
          if |source| < slot.end then Failure(NotEnoughBytes)
          else
            match Decoded(m, rank, slot.kind, source[slot.offset..slot.end])
            case Failure(error) => Failure(error)
            case Success(member) => Success(before + [member])
  }

  // ----- zeroed

  ghost function Zeroed(m: Module, rank: nat -> nat, id: nat): Result<Value, Failed>
    requires Acyclic(m.types, rank)
    decreases rank(id), 1, 0
  {
    match m.types.At(id)
    case Failure(error) => Failure(Bitcode(error))
    case Success(Void) => Success(Nothing)
    case Success(Function) => Success(Nothing)
    case Success(Bool) => Success(Flag(false))
    case Success(Scalar(width)) => Success(Bits(Mask(0, width), width))
    case Success(Pointer(pointee)) => Success(Address(0, pointee))
    case Success(t) =>
      match ZeroedUpTo(m, rank, id, CountOf(t))
      case Failure(error) => Failure(error)
      case Success(members) => Success(Composite(members))
  }

  ghost function ZeroedUpTo(m: Module, rank: nat -> nat, id: nat, count: nat): (r: Result<seq<Value>, Failed>)
    requires Acyclic(m.types, rank)
    decreases rank(id), 0, count
  {
    if count == 0 then Success([])
    else
      match ZeroedUpTo(m, rank, id, count - 1)
      case Failure(error) => Failure(error)
      case Success(before) =>
        match MemberType(m, id, count - 1)
        case Failure(error) => Failure(error)
        case Success(kind) =>
          match Zeroed(m, rank, kind)
          case Failure(error) => Failure(error)
          case Success(member) => Success(before + [member])
  }

  // ----- well-typed values

  predicate HasType(m: Module, id: nat, v: Value)
    decreases v
  {
    && m.types.At(id).Success?
    && var t := m.types.At(id).value;
       match v
       case Nothing => t.Void? || t.Function?
       case Flag(_) => t.Bool?
       case Bits(bits, width) => t == Scalar(width) && 1 <= width <= 64 && bits < Pow2(width)
       case Address(address, pointee) => t == Pointer(pointee) && address < Pow2(64)
       case Composite(members) =>
         && (t.Vector? || t.Array? || t.Struct?) && |members| == CountOf(t)
         && forall i :: 0 <= i < |members| ==>
              MemberType(m, id, i).Success? && HasType(m, MemberType(m, id, i).value, members[i])
  }

  /** The layouts are those a filled table holds. */
  ghost predicate Laid(m: Module, rank: nat -> nat) {
    Acyclic(m.types, rank) && Filled(m.types, rank, m.layouts)
  }

  /** The members of a type lie in order, apart, and inside its size. */
  lemma SlotFits(m: Module, rank: nat -> nat, id: nat, i: nat)
    requires Laid(m, rank) && LayoutOf(m.types, rank, id).Success? && i < CountOf(m.types.At(id).value)
    ensures SlotOf(m, id, i).Success?
    ensures var slot := SlotOf(m, id, i).value;
            && MemberType(m, id, i) == Success(slot.kind) && slot.kind in Parts(m.types.At(id).value)
            && LayoutOf(m.types, rank, slot.kind).Success?
            && slot.end == slot.offset + LayoutOf(m.types, rank, slot.kind).value.size
            && slot.end <= LayoutOf(m.types, rank, id).value.size
  {
    match m.types.At(id).value
    case Struct(members) => StructIsPlaced(m.types, rank, id);
    case Vector(component, count) => ScaledFits(i, Lanes(count), LayoutOf(m.types, rank, component).value.size);
    case Array(element, count) => ScaledFits(i, count, LayoutOf(m.types, rank, element).value.size);
  }

  lemma ScaledFits(i: nat, count: nat, size: nat)
    requires i < count
    ensures 0 <= i * size && i * size + size <= size * count
  {
    MulMonotone(i + 1, count, size);
    MulNat(i, size);
  }

  lemma ScaledApart(i: nat, j: nat, size: nat)
    requires i < j
    ensures i * size + size <= j * size
  {
    MulMonotone(i + 1, j, size);
  }

  lemma SlotsApart(m: Module, rank: nat -> nat, id: nat, i: nat, j: nat)
    requires Laid(m, rank) && LayoutOf(m.types, rank, id).Success? && i < j < CountOf(m.types.At(id).value)
    requires SlotOf(m, id, i).Success? && SlotOf(m, id, j).Success?
    ensures SlotOf(m, id, i).value.end <= SlotOf(m, id, j).value.offset
  {
    match m.types.At(id).value
    case Struct(members) => StructIsPlaced(m.types, rank, id);
    case Vector(component, count) => ScaledApart(i, j, LayoutOf(m.types, rank, component).value.size);
    case Array(element, count) => ScaledApart(i, j, LayoutOf(m.types, rank, element).value.size);
  }
}
