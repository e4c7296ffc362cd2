/** The layout table as it is filled: each layout is computed once and remembered. */
module LayoutTable {
  import opened Arithmetic
  import opened Wrappers
  import opened TypeLayout

  /** What the filled table holds: a layout where there is one, nothing where there is none. */
  ghost predicate Filled(types: Types, rank: nat -> nat, layouts: seq<Option<Layout>>)
    requires Acyclic(types, rank)
  {
    && |layouts| == |types.table|
    && forall id: nat :: id < |layouts| ==>
         layouts[id] == match LayoutOf(types, rank, id)
                        case Success(l) => Some(l)
                        case Failure(_) => None
  }

  class LayoutTable {
    const types: Types
    ghost const rank: nat -> nat
    var layouts: seq<Option<Layout>>

    /** Whatever is remembered is what direct recursion gives. */
    ghost predicate Valid()
      reads this
    {
      && Acyclic(types, rank) && |layouts| == |types.table|
      && forall id: nat :: id < |layouts| && layouts[id].Some? ==>
           LayoutOf(types, rank, id) == Success(layouts[id].value)
    }

    constructor (types: Types, ghost rank: nat -> nat)
      requires Acyclic(types, rank)
      ensures Valid() && this.types == types && this.rank == rank
    {
      this.types := types;
      this.rank := rank;
      layouts := seq(|types.table|, _ => None);
    }

    /** Nothing remembered is forgotten. */
    twostate predicate Remembers()
      reads this
    {
      |layouts| == old(|layouts|) && forall id :: 0 <= id < |layouts| && old(layouts[id]).Some? ==> layouts[id] == old(layouts[id])
    }

    method CalcLayout(id: nat) returns (r: Result<Layout, Error>)
      requires Valid()
      modifies this`layouts
      ensures Valid() && Remembers()
      ensures r == LayoutOf(types, rank, id)
      ensures r.Success? ==> layouts[id] == Some(r.value)
      decreases rank(id), 1
    {
      if id >= |layouts| {
        r := Failure(IdOutOfRange(id));
      } else if layouts[id].Some? {
        r := Success(layouts[id].value);
      } else {
        r := CalcLayoutInner(id);
        if r.Success? {
          layouts := layouts[id := Some(r.value)];
        }
      }
    }

    method CalcLayoutInner(id: nat) returns (r: Result<Layout, Error>)
      requires Valid()
      modifies this`layouts
      ensures Valid() && Remembers()
      ensures r == LayoutOf(types, rank, id)
      decreases rank(id), 0
    {
      var declared := types.At(id);
      if declared.Failure? {
        return Failure(declared.error);
      }
      match declared.value {
        case Void => r := Success(Layout(0, 1, []));
        case Function => r := Success(Layout(0, 1, []));
        case Bool => r := Success(Layout(1, 1, []));
        case Scalar(width) => r := Success(Uniform((width + 7) / 8));
        case Pointer(_) => r := Success(Uniform(8));
        case Vector(component, count) =>
          r := CalcLayout(component);
          if r.Success? {
            MulNat(r.value.size, Lanes(count));
            r := Success(Uniform(r.value.size * Lanes(count)));
          }
        case Array(element, count) =>
          r := CalcLayout(element);
          if r.Success? {
            MulNat(r.value.size, count);
            r := Success(Layout(r.value.size * count, r.value.alignment, []));
          }
        case Struct(members) =>
          var entries := CollectEntries(id, members);
          if entries.Failure? {
            return Failure(entries.error);
          }
          var layout := PlaceMembers(entries.value);
          r := Success(layout);
      }
    }

    method CollectEntries(id: nat, members: seq<nat>) returns (r: Result<seq<Entry>, Error>)
      requires Valid() && types.At(id) == Success(Struct(members))
      modifies this`layouts
      ensures Valid() && Remembers()
      ensures r == EntriesOf(types, rank, id, |members|)
      decreases rank(id), 0, 0
    {
      var entries: seq<Entry> := [];
      for index := 0 to |members|
        invariant Valid() && Remembers()
        invariant EntriesOf(types, rank, id, index) == Success(entries)
      {
        assert members[index] in Parts(types.At(id).value);
        var entry := CalcLayout(members[index]);
        if entry.Failure? {
          FirstFailure(types, rank, id, index, |members|, entry.error);
          return Failure(entry.error);
        }
        entries := entries + [Entry(entry.value.size, if id in types.packed then 1 else entry.value.alignment)];
      }
      r := Success(entries);
    }

    /** One pass finds the widest alignment, a second walks the running offset. */
    static method PlaceMembers(entries: seq<Entry>) returns (layout: Layout)
      ensures layout == StructLayout(entries)
    {
      var alignment := 1;
      for index := 0 to |entries|
        invariant alignment == Widest(entries[..index])
      {
        assert entries[..index + 1][..index] == entries[..index];
        alignment := if index == 0 then entries[0].alignment else Max(alignment, entries[index].alignment);
      }
      assert entries[..|entries|] == entries;

      var offset := 0;
      var offsets: seq<nat> := [];
      for index := 0 to |entries|
        invariant offset == End(entries, index) && |offsets| == index
        invariant forall i :: 0 <= i < index ==> offsets[i] == OffsetOf(entries, i)
      {
        var memberOffset := AlignUp(offset, entries[index].alignment);
        offset := memberOffset + entries[index].size;
        offsets := offsets + [memberOffset];
      }
      layout := Layout(AlignUp(offset, alignment), alignment, offsets);
      assert layout.offsets == StructLayout(entries).offsets;
    }

    /** Fills the whole table. An id that is no type is passed over; any other failure ends it. */
    method SetLayouts() returns (r: Result<(), Error>)
      requires Valid()
      modifies this`layouts
      ensures Valid()
      ensures r.Success? ==> Filled(types, rank, layouts)
      ensures r.Success? <==> forall id: nat :: id < |types.table| && LayoutOf(types, rank, id).Failure? ==>
                                LayoutOf(types, rank, id).error.NotAType?
    {
      for id := 0 to |types.table|
        invariant Valid()
        invariant forall other: nat :: other < id && LayoutOf(types, rank, other).Success? ==>
                    layouts[other] == Some(LayoutOf(types, rank, other).value)
        invariant forall other: nat :: other < id && LayoutOf(types, rank, other).Failure? ==>
                    LayoutOf(types, rank, other).error.NotAType?
      {
        var layout := CalcLayout(id);
        if layout.Failure? && !layout.error.NotAType? {
          return Failure(layout.error);
        }
      }
      r := Success(());
    }
  }

  /** The first member that fails decides how the structure fails. */
  lemma {:induction false} FirstFailure(types: Types, rank: nat -> nat, id: nat, failed: nat, count: nat, error: Error)
    requires Acyclic(types, rank) && types.At(id).Success? && types.At(id).value.Struct?
    requires failed < count <= |types.At(id).value.members| && EntriesOf(types, rank, id, failed).Success?
    requires LayoutOf(types, rank, types.At(id).value.members[failed]) == Failure(error)
    ensures EntriesOf(types, rank, id, count) == Failure(error)
  {
    if failed < count - 1 {
      FirstFailure(types, rank, id, failed, count - 1, error);
    }
  }
}
