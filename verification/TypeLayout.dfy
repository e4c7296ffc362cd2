/** Sizes, alignments and member offsets of a type table, by direct recursion over the types. */
module TypeLayout {
  import opened Arithmetic
  import opened Wrappers

  /** An integer or a float of a width is a scalar: layout and codec treat both alike. */
  datatype Type =
    | Void
    | Function
    | Bool
    | Scalar(width: nat)
    | Pointer(pointee: nat)
    | Vector(component: nat, count: nat)
    | Array(element: nat, count: nat)
    | Struct(members: seq<nat>)

  datatype Layout = Layout(size: nat, alignment: nat, offsets: seq<nat>)

  datatype Error = NotAType(id: nat) | IdOutOfRange(id: nat) | UnsupportedType(id: nat)

  /** The type of every id that has one, and the ids decorated as packed. */
  datatype Types = Types(table: seq<Option<Type>>, packed: set<nat>) {
    function At(id: nat): Result<Type, Error> {
      if id >= |table| then Failure(IdOutOfRange(id))
      else if table[id].None? then Failure(NotAType(id))
      else Success(table[id].value)
    }
  }

  /** The types whose layouts a layout is made from. */
  function Parts(t: Type): seq<nat> {
    match t
    case Vector(component, _) => [component]
    case Array(element, _) => [element]
    case Struct(members) => members
    case _ => []
  }

  /** No type contains itself: parts have a lower rank. */
  ghost predicate Acyclic(types: Types, rank: nat -> nat) {
    forall id, part :: types.At(id).Success? && part in Parts(types.At(id).value) ==> rank(part) < rank(id)
  }

  datatype Entry = Entry(size: nat, alignment: nat)

  /** The running offset after the first members. */
  function End(entries: seq<Entry>, count: nat): nat
    requires count <= |entries|
  {
    if count == 0 then 0 else AlignUp(End(entries, count - 1), entries[count - 1].alignment) + entries[count - 1].size
  }

  function OffsetOf(entries: seq<Entry>, index: nat): nat
    requires index < |entries|
  {
    AlignUp(End(entries, index), entries[index].alignment)
  }

  function Widest(entries: seq<Entry>): nat {
    if entries == [] then 1
    else if |entries| == 1 then entries[0].alignment
    else Max(Widest(entries[..|entries| - 1]), entries[|entries| - 1].alignment)
  }

  function StructLayout(entries: seq<Entry>): Layout {
    Layout(AlignUp(End(entries, |entries|), Widest(entries)), Widest(entries),
           seq(|entries|, i requires 0 <= i < |entries| => OffsetOf(entries, i)))
  }

  function Lanes(count: nat): nat { if count == 3 then 4 else count }

  function Uniform(size: nat): Layout { Layout(size, size, []) }

  ghost function LayoutOf(types: Types, rank: nat -> nat, id: nat): Result<Layout, Error>
    requires Acyclic(types, rank)
    decreases rank(id), 1, 0
  {
    if types.At(id).Failure? then Failure(types.At(id).error)
    else
      match types.At(id).value
      case Void => Success(Layout(0, 1, []))
      case Function => Success(Layout(0, 1, []))
      case Bool => Success(Layout(1, 1, []))
      case Scalar(width) => Success(Uniform((width + 7) / 8))
      case Pointer(_) => Success(Uniform(8))
      case Vector(component, count) =>
        (match LayoutOf(types, rank, component)
         case Success(entry) => MulNat(entry.size, Lanes(count)); Success(Uniform(entry.size * Lanes(count)))
         case Failure(error) => Failure(error))
      case Array(element, count) =>
        (match LayoutOf(types, rank, element)
         case Success(entry) => MulNat(entry.size, count); Success(Layout(entry.size * count, entry.alignment, []))
         case Failure(error) => Failure(error))
      case Struct(members) =>
        match EntriesOf(types, rank, id, |members|)
        case Success(entries) => Success(StructLayout(entries))
        case Failure(error) => Failure(error)
  }

  /** Size and alignment of the first members of a structure, or the first failure. */
  ghost function EntriesOf(types: Types, rank: nat -> nat, id: nat, count: nat): (r: Result<seq<Entry>, Error>)
    requires Acyclic(types, rank) && types.At(id).Success? && types.At(id).value.Struct?
    requires count <= |types.At(id).value.members|
    ensures r.Success? ==> |r.value| == count
    decreases rank(id), 0, count
  {
    if count == 0 then Success([])
    else
      match EntriesOf(types, rank, id, count - 1)
      case Failure(error) => Failure(error)
      case Success(before) =>
        match LayoutOf(types, rank, types.At(id).value.members[count - 1])
        case Failure(error) => Failure(error)
        case Success(entry) => Success(before + [Entry(entry.size, if id in types.packed then 1 else entry.alignment)])
  }

  // ----- structures

  /** A member starts after everything before it ends. */
  lemma {:induction false} EndsAscend(entries: seq<Entry>, i: nat, j: nat)
    requires i < j <= |entries|
    ensures OffsetOf(entries, i) + entries[i].size <= End(entries, j)
  {
    if i < j - 1 {
      EndsAscend(entries, i, j - 1);
    }
  }

  lemma {:induction false} WidestBounds(entries: seq<Entry>, i: nat)
    requires i < |entries|
    ensures entries[i].alignment <= Widest(entries)
  {
    if 1 < |entries| && i < |entries| - 1 {
      WidestBounds(entries[..|entries| - 1], i);
    }
  }

  lemma {:induction false} WidestIsOne(entries: seq<Entry>) returns (i: nat)
    requires entries != []
    ensures i < |entries| && Widest(entries) == entries[i].alignment
  {
    if |entries| == 1 || Widest(entries[..|entries| - 1]) <= entries[|entries| - 1].alignment {
      i := |entries| - 1;
    } else {
      i := WidestIsOne(entries[..|entries| - 1]);
    }
  }

  predicate Multiple(n: nat, d: nat) { if d == 0 then n == 0 else n % d == 0 }

  lemma {:induction false} NothingEndsAtNought(entries: seq<Entry>, count: nat)
    requires count <= |entries| && forall i :: 0 <= i < |entries| ==> entries[i].size == 0 && entries[i].alignment == 0
    ensures End(entries, count) == 0
  {
    if count > 0 {
      NothingEndsAtNought(entries, count - 1);
    }
  }

  /** Members of a structure are aligned, in order, apart, and inside its size, which is a
      multiple of its alignment. */
  lemma StructPlaces(entries: seq<Entry>)
    requires forall i :: 0 <= i < |entries| ==> entries[i].alignment == 1 || Multiple(entries[i].size, entries[i].alignment)
    ensures var l := StructLayout(entries);
            && Multiple(l.size, l.alignment)
            && (forall i :: 0 <= i < |entries| ==>
                  && entries[i].alignment <= l.alignment
                  && (entries[i].alignment > 0 ==> l.offsets[i] % entries[i].alignment == 0)
                  && l.offsets[i] + entries[i].size <= l.size)
            && (forall i, j :: 0 <= i < j < |entries| ==> l.offsets[i] + entries[i].size <= l.offsets[j])
  {
    var l := StructLayout(entries);
    forall i | 0 <= i < |entries| ensures entries[i].alignment <= l.alignment && l.offsets[i] + entries[i].size <= l.size {
      WidestBounds(entries, i);
      EndsAscend(entries, i, |entries|);
    }
    forall i, j | 0 <= i < j < |entries| ensures l.offsets[i] + entries[i].size <= l.offsets[j] {
      EndsAscend(entries, i, j);
    }
    if l.alignment == 0 {
      NothingEndsAtNought(entries, |entries|);
    }
  }

  lemma {:induction false} EntryAt(types: Types, rank: nat -> nat, id: nat, count: nat, i: nat)
    requires Acyclic(types, rank) && types.At(id).Success? && types.At(id).value.Struct?
    requires i < count <= |types.At(id).value.members| && EntriesOf(types, rank, id, count).Success?
    ensures var entry := LayoutOf(types, rank, types.At(id).value.members[i]);
            && entry.Success?
            && EntriesOf(types, rank, id, count).value[i]
               == Entry(entry.value.size, if id in types.packed then 1 else entry.value.alignment)
  {
    if i < count - 1 {
      EntryAt(types, rank, id, count - 1, i);
    }
  }

  // ----- every type

  lemma MultipleScales(n: nat, d: nat, c: nat)
    requires Multiple(n, d)
    ensures n * c >= 0 && Multiple(n * c, d)
  {
    if d > 0 {
      assert n == (n / d) * d;
      assert n * c == ((n / d) * c) * d;
      MultipleDivides((n / d) * c, d);
    }
  }

  /** Every size is a multiple of its alignment. */
  lemma {:induction false} SizeIsMultiple(types: Types, rank: nat -> nat, id: nat)
    requires Acyclic(types, rank) && LayoutOf(types, rank, id).Success?
    ensures Multiple(LayoutOf(types, rank, id).value.size, LayoutOf(types, rank, id).value.alignment)
    decreases rank(id)
  {
    var layout := LayoutOf(types, rank, id).value;
    match types.At(id).value
    case Array(element, count) =>
      SizeIsMultiple(types, rank, element);
      MultipleScales(LayoutOf(types, rank, element).value.size, LayoutOf(types, rank, element).value.alignment, count);
    case Struct(members) => StructIsPlaced(types, rank, id);
    case _ => SelfMultiple(layout.size, layout.alignment);
  }

  lemma SelfMultiple(n: nat, d: nat)
    requires n == d || d == 1
    ensures Multiple(n, d)
  {
  }

  /** The members of a structure type lie where StructPlaces says. */
  lemma {:induction false} StructIsPlaced(types: Types, rank: nat -> nat, id: nat)
    requires Acyclic(types, rank) && LayoutOf(types, rank, id).Success? && types.At(id).value.Struct?
    ensures var (l, members) := (LayoutOf(types, rank, id).value, types.At(id).value.members);
            && |l.offsets| == |members| && Multiple(l.size, l.alignment)
            && (forall i :: 0 <= i < |members| ==>
                  var entry := LayoutOf(types, rank, members[i]);
                  && entry.Success? && l.offsets[i] + entry.value.size <= l.size
                  && (id !in types.packed ==>
                        entry.value.alignment <= l.alignment && Multiple(entry.value.size, entry.value.alignment)
                        && (entry.value.alignment > 0 ==> l.offsets[i] % entry.value.alignment == 0)))
            && (forall i, j :: 0 <= i < j < |members| ==>
                  l.offsets[i] + LayoutOf(types, rank, members[i]).value.size <= l.offsets[j])
    decreases rank(id), 0
  {
    var members := types.At(id).value.members;
    var entries := EntriesOf(types, rank, id, |members|).value;
    forall i | 0 <= i < |members|
      ensures LayoutOf(types, rank, members[i]).Success?
      ensures entries[i].size == LayoutOf(types, rank, members[i]).value.size
      ensures entries[i].alignment == if id in types.packed then 1 else LayoutOf(types, rank, members[i]).value.alignment
      ensures Multiple(LayoutOf(types, rank, members[i]).value.size, LayoutOf(types, rank, members[i]).value.alignment)
    {
      EntryAt(types, rank, id, |members|, i);
      SizeIsMultiple(types, rank, members[i]);
    }
    StructPlaces(entries);
  }

  // ----- powers of two

  predicate IsPower(n: nat) { n == 1 || (n > 1 && n % 2 == 0 && IsPower(n / 2)) }

  lemma {:induction false} PowerDivides(a: nat, b: nat)
    requires IsPower(a) && IsPower(b) && a <= b
    ensures b % a == 0
  {
    if a > 1 {
      PowerDivides(a / 2, b / 2);
      var k := (b / 2) / (a / 2);
      assert b / 2 == k * (a / 2);
      assert b == k * a;
      MultipleDivides(k, a);
    }
  }

  lemma {:induction false} PowersMultiply(a: nat, b: nat)
    requires IsPower(a) && IsPower(b)
    ensures a * b >= 0 && IsPower(a * b)
  {
    if a > 1 {
      PowersMultiply(a / 2, b);
      TwiceProduct(a / 2, b);
      PowerDoubles(a / 2 * b);
    }
  }

  lemma PowerDoubles(n: nat)
    requires IsPower(n)
    ensures IsPower(2 * n)
  {
    assert 2 * n / 2 == n;
  }

  lemma TwiceProduct(half: nat, b: nat)
    ensures half * b >= 0 && (2 * half) * b == 2 * (half * b)
  {
    MulNat(half, b);
  }

  /** Scalars of the widths and vectors of the lengths that OpenCL has. */
  ghost predicate OpenCl(types: Types) {
    forall id :: types.At(id).Success? ==>
      match types.At(id).value
      case Scalar(width) => width in {8, 16, 32, 64}
      case Vector(component, count) =>
        && count in {2, 3, 4, 8, 16} && types.At(component).Success?
        && (types.At(component).value.Scalar? || types.At(component).value.Bool? || types.At(component).value.Pointer?)
      case _ => true
  }

  lemma {:induction false} WidestIsPower(entries: seq<Entry>)
    requires forall i :: 0 <= i < |entries| ==> IsPower(entries[i].alignment)
    ensures IsPower(Widest(entries))
  {
    if entries != [] {
      var _ := WidestIsOne(entries);
    }
  }

  /** Every alignment is a power of two. */
  lemma {:induction false} AlignmentIsPower(types: Types, rank: nat -> nat, id: nat)
    requires Acyclic(types, rank) && OpenCl(types) && LayoutOf(types, rank, id).Success?
    ensures IsPower(LayoutOf(types, rank, id).value.alignment)
    decreases rank(id)
  {
    match types.At(id).value
    case Vector(component, count) =>
      assert IsPower(2) && IsPower(4) && IsPower(8) && IsPower(16);
      PowersMultiply(LayoutOf(types, rank, component).value.size, Lanes(count));
    case Array(element, _) => AlignmentIsPower(types, rank, element);
    case Struct(members) =>
      var entries := EntriesOf(types, rank, id, |members|).value;
      forall i | 0 <= i < |members| ensures IsPower(entries[i].alignment) {
        EntryAt(types, rank, id, |members|, i);
        AlignmentIsPower(types, rank, members[i]);
      }
      WidestIsPower(entries);
    case _ =>
  }

  // ----- the numbers themselves

  /** A type that is not made of members takes the least bytes that hold it and is aligned to its
      own size; a vector of three takes the room of four. */
  lemma SizesInBytes(types: Types, rank: nat -> nat, id: nat)
    requires Acyclic(types, rank) && LayoutOf(types, rank, id).Success?
    ensures var l := LayoutOf(types, rank, id).value;
            match types.At(id).value
            case Void => l.size == 0 && l.alignment == 1
            case Function => l.size == 0 && l.alignment == 1
            case Bool => l.size == 1 && l.alignment == 1
            case Scalar(width) => width <= 8 * l.size < width + 8 && l.alignment == l.size
            case Pointer(_) => l.size == 8 && l.alignment == 8
            case Vector(component, count) =>
              && LayoutOf(types, rank, component).Success?
              && l.size == LayoutOf(types, rank, component).value.size * (if count == 3 then 4 else count)
              && l.alignment == l.size
            case Array(element, count) =>
              && LayoutOf(types, rank, element).Success?
              && l.size == LayoutOf(types, rank, element).value.size * count
              && l.alignment == LayoutOf(types, rank, element).value.alignment
            case Struct(_) => true
  {
  }

  /** The first multiple of an alignment from a place on; one and zero align nothing. */
  predicate NextMultiple(r: nat, value: nat, alignment: nat) {
    && value <= r && (alignment <= 1 ==> r == value)
    && (alignment > 0 ==> Multiple(r, alignment) && r < value + alignment)
  }

  lemma UpIsNext(value: nat, alignment: nat)
    ensures NextMultiple(AlignUp(value, alignment), value, alignment)
  {
  }

  /** A structure wastes nothing: each member has the first place its alignment allows after the
      one before it, the size is the first multiple of the alignment that holds them all, and
      the alignment is that of some member. */
  lemma StructIsTight(entries: seq<Entry>)
    requires entries != []
    ensures |StructLayout(entries).offsets| == |entries| && StructLayout(entries).offsets[0] == 0
    ensures var l := StructLayout(entries);
            forall i :: 0 < i < |entries| ==>
              NextMultiple(l.offsets[i], l.offsets[i - 1] + entries[i - 1].size, entries[i].alignment)
    ensures var (l, last) := (StructLayout(entries), |entries| - 1);
            NextMultiple(l.size, l.offsets[last] + entries[last].size, l.alignment)
    ensures exists i :: 0 <= i < |entries| && entries[i].alignment == StructLayout(entries).alignment
  {
    var (l, last) := (StructLayout(entries), |entries| - 1);
    forall i | 0 < i < |entries|
      ensures NextMultiple(l.offsets[i], l.offsets[i - 1] + entries[i - 1].size, entries[i].alignment)
    {
      UpIsNext(End(entries, i), entries[i].alignment);
    }
    UpIsNext(End(entries, |entries|), l.alignment);
    FirstPlace(entries[0].alignment);
    var widest := WidestIsOne(entries);
  }

  lemma FirstPlace(alignment: nat)
    ensures AlignUp(0, alignment) == 0
  {
    UpIsNext(0, alignment);
    if alignment > 0 {
      DivModUnique(alignment, 0, AlignUp(0, alignment));
    }
  }

  /** The members of a declared structure enter with the sizes and alignments of their types,
      or unaligned if it is packed. */
  lemma StructOfMembers(types: Types, rank: nat -> nat, id: nat) returns (entries: seq<Entry>)
    requires Acyclic(types, rank) && LayoutOf(types, rank, id).Success? && types.At(id).value.Struct?
    ensures LayoutOf(types, rank, id).value == StructLayout(entries) && |entries| == |types.At(id).value.members|
    ensures forall i :: 0 <= i < |entries| ==>
              var member := LayoutOf(types, rank, types.At(id).value.members[i]);
              member.Success? && entries[i] == Entry(member.value.size, if id in types.packed then 1 else member.value.alignment)
  {
    var members := types.At(id).value.members;
    entries := EntriesOf(types, rank, id, |members|).value;
    forall i | 0 <= i < |members|
      ensures var member := LayoutOf(types, rank, members[i]);
              member.Success? && entries[i] == Entry(member.value.size, if id in types.packed then 1 else member.value.alignment)
    {
      EntryAt(types, rank, id, |members|, i);
    }
  }

  /** What a scalar, pointer or vector must be aligned to: its own size. */
  ghost predicate SelfAligned(types: Types, rank: nat -> nat, id: nat, address: nat)
    requires Acyclic(types, rank) && types.At(id).Success?
  {
    match types.At(id).value
    case Scalar(width) => Multiple(address, (width + 7) / 8)
    case Pointer(_) => Multiple(address, 8)
    case Vector(component, count) =>
      && LayoutOf(types, rank, component).Success?
      && LanesFit(LayoutOf(types, rank, component).value.size, if count == 3 then 4 else count, address)
    case _ => true
  }

  lemma LeafIsAligned(types: Types, rank: nat -> nat, id: nat, address: nat)
    requires Acyclic(types, rank) && LayoutOf(types, rank, id).Success?
    requires Multiple(address, LayoutOf(types, rank, id).value.alignment)
    ensures SelfAligned(types, rank, id, address)
  {
  }

  predicate LanesFit(size: nat, lanes: nat, address: nat) {
    MulNat(size, lanes);
    Multiple(address, size * lanes)
  }

  // ----- absolute alignment

  /** Type and offset of one member, element or component. */
  ghost function Member(types: Types, rank: nat -> nat, id: nat, index: nat): (nat, nat)
    requires Acyclic(types, rank) && LayoutOf(types, rank, id).Success? && HasMember(types, id, index)
  {
    match types.At(id).value
    case Struct(members) => (members[index], StructLayout(EntriesOf(types, rank, id, |members|).value).offsets[index])
    case Vector(component, _) =>
      MulNat(index, LayoutOf(types, rank, component).value.size);
      (component, index * LayoutOf(types, rank, component).value.size)
    case Array(element, _) =>
      MulNat(index, LayoutOf(types, rank, element).value.size);
      (element, index * LayoutOf(types, rank, element).value.size)
  }

  predicate HasMember(types: Types, id: nat, index: nat) {
    && types.At(id).Success?
    && match types.At(id).value
       case Struct(members) => index < |members|
       case Vector(_, count) => index < count
       case Array(_, count) => index < count
       case _ => false
  }

  lemma AddAligned(base: nat, offset: nat, wide: nat, narrow: nat)
    requires wide > 0 && narrow > 0 && base % wide == 0 && wide % narrow == 0 && offset % narrow == 0
    ensures (base + offset) % narrow == 0
  {
    var (b, w, o) := (base / wide, wide / narrow, offset / narrow);
    assert base == b * wide && wide == w * narrow && offset == o * narrow;
    assert base + offset == (b * w + o) * narrow;
    MultipleDivides(b * w + o, narrow);
  }

  /** An aggregate is aligned at least as strictly as each of its members. */
  lemma AlignmentNarrows(types: Types, rank: nat -> nat, id: nat, index: nat)
    requires Acyclic(types, rank) && OpenCl(types) && LayoutOf(types, rank, id).Success?
    requires HasMember(types, id, index) && id !in types.packed
    ensures LayoutOf(types, rank, Member(types, rank, id, index).0).Success?
    ensures LayoutOf(types, rank, Member(types, rank, id, index).0).value.alignment <= LayoutOf(types, rank, id).value.alignment
  {
    match types.At(id).value
    case Struct(members) => StructIsPlaced(types, rank, id);
    case Vector(component, count) => MulNat(LayoutOf(types, rank, component).value.size, Lanes(count));
    case Array(element, count) =>
  }

  lemma ScaledMultiple(offset: nat, size: nat, alignment: nat, index: nat)
    requires Multiple(size, alignment) && offset == index * size
    ensures Multiple(offset, alignment)
  {
    MultipleScales(size, alignment, index);
  }

  /** A member's offset is a multiple of its alignment. */
  lemma OffsetIsMultiple(types: Types, rank: nat -> nat, id: nat, index: nat)
    requires Acyclic(types, rank) && LayoutOf(types, rank, id).Success?
    requires HasMember(types, id, index) && id !in types.packed
    requires LayoutOf(types, rank, Member(types, rank, id, index).0).Success?
    requires LayoutOf(types, rank, Member(types, rank, id, index).0).value.alignment > 0
    ensures Multiple(Member(types, rank, id, index).1, LayoutOf(types, rank, Member(types, rank, id, index).0).value.alignment)
  {
    match types.At(id).value
    case Struct(_) => StructIsPlaced(types, rank, id);
    case _ => ElementIsMultiple(types, rank, id, index);
  }

  lemma ElementIsMultiple(types: Types, rank: nat -> nat, id: nat, index: nat)
    requires Acyclic(types, rank) && LayoutOf(types, rank, id).Success?
    requires HasMember(types, id, index) && !types.At(id).value.Struct?
    requires LayoutOf(types, rank, Member(types, rank, id, index).0).Success?
    ensures Multiple(Member(types, rank, id, index).1, LayoutOf(types, rank, Member(types, rank, id, index).0).value.alignment)
  {
    var (member, offset) := Member(types, rank, id, index);
    var entry := LayoutOf(types, rank, member).value;
    SizeIsMultiple(types, rank, member);
    ScaledMultiple(offset, entry.size, entry.alignment, index);
  }

  /** A member of an aligned, unpacked aggregate is aligned wherever the aggregate lies. */
  lemma MemberIsAligned(types: Types, rank: nat -> nat, id: nat, index: nat, base: nat)
    requires Acyclic(types, rank) && OpenCl(types) && LayoutOf(types, rank, id).Success?
    requires HasMember(types, id, index) && id !in types.packed
    requires Multiple(base, LayoutOf(types, rank, id).value.alignment)
    ensures var (member, offset) := Member(types, rank, id, index);
            && LayoutOf(types, rank, member).Success?
            && Multiple(base + offset, LayoutOf(types, rank, member).value.alignment)
            && SelfAligned(types, rank, member, base + offset)
  {
    var (member, offset) := Member(types, rank, id, index);
    AlignmentNarrows(types, rank, id, index);
    AlignmentIsPower(types, rank, id);
    AlignmentIsPower(types, rank, member);
    var (wide, narrow) := (LayoutOf(types, rank, id).value.alignment, LayoutOf(types, rank, member).value.alignment);
    OffsetIsMultiple(types, rank, id, index);
    PowerDivides(narrow, wide);
    AddAligned(base, offset, wide, narrow);
    LeafIsAligned(types, rank, member, base + offset);
  }

  /** The indices lead from member to member, through no packed structure. */
  ghost predicate Path(types: Types, rank: nat -> nat, id: nat, indices: seq<nat>)
    requires Acyclic(types, rank) && LayoutOf(types, rank, id).Success?
    decreases |indices|
  {
    indices == [] ||
    (&& HasMember(types, id, indices[0]) && id !in types.packed
     && var member := Member(types, rank, id, indices[0]).0;
        LayoutOf(types, rank, member).Success? && Path(types, rank, member, indices[1..]))
  }

  /** The type and address an access chain comes to. */
  ghost function Walk(types: Types, rank: nat -> nat, id: nat, base: nat, indices: seq<nat>): (nat, nat)
    requires Acyclic(types, rank) && LayoutOf(types, rank, id).Success? && Path(types, rank, id, indices)
    decreases |indices|
  {
    if indices == [] then (id, base)
    else
      var (member, offset) := Member(types, rank, id, indices[0]);
      Walk(types, rank, member, base + offset, indices[1..])
  }

  /** However deep, a member of aligned unpacked aggregates is aligned for its own type. */
  lemma {:induction false} PathIsAligned(types: Types, rank: nat -> nat, id: nat, base: nat, indices: seq<nat>)
    requires Acyclic(types, rank) && OpenCl(types) && LayoutOf(types, rank, id).Success? && Path(types, rank, id, indices)
    requires Multiple(base, LayoutOf(types, rank, id).value.alignment)
    ensures var (leaf, address) := Walk(types, rank, id, base, indices);
            && LayoutOf(types, rank, leaf).Success? && Multiple(address, LayoutOf(types, rank, leaf).value.alignment)
            && SelfAligned(types, rank, leaf, address)
    decreases |indices|
  {
    if indices != [] {
      MemberIsAligned(types, rank, id, indices[0], base);
      var (member, offset) := Member(types, rank, id, indices[0]);
      PathIsAligned(types, rank, member, base + offset, indices[1..]);
    } else {
      LeafIsAligned(types, rank, id, base);
    }
  }
}
