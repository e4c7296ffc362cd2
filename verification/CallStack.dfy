/** Function calls and the private memory they own.

    A frame remembers how many slots were live when it was pushed; popping it cuts the
    slot table back to that watermark. */
module CallStack {
  import opened Wrappers
  import opened Addresses
  import S = Storage

  /** What an instruction does to frames and private slots. */
  datatype Act =
    | Variable(size: nat, alignment: nat)
    | Call
    | Return
    | Other

  /** The watermark of every frame, oldest first, and the slot table. */
  datatype Stack = Stack(watermarks: seq<nat>, entries: seq<S.Entry>, length: nat) {
    function Depth(): nat { |watermarks| }
  }

  /** One instruction; None when it traps or when there is no frame left to run it. */
  function Step(s: Stack, act: Act): Option<Stack> {
    if s.watermarks == [] then None
    else match act
      case Variable(size, alignment) =>
        if |s.entries| >= MAX_SLOTS then None
        else
          var entry := S.NextSlot(s.length, size, alignment);
          Some(s.(entries := s.entries + [entry], length := entry.End()))
      case Call => Some(s.(watermarks := s.watermarks + [|s.entries|]))
      case Return =>
        var last := |s.watermarks| - 1;
        var mark := s.watermarks[last];
        Some(Stack(s.watermarks[..last], S.EntriesAt(s.entries, mark), S.LengthAt(s.entries, s.length, mark)))
      case Other => Some(s)
  }

  function Run(s: Stack, acts: seq<Act>): Option<Stack>
    decreases |acts|
  {
    if acts == [] then Some(s)
    else match Step(s, acts[0])
      case None => None
      case Some(next) => Run(next, acts[1..])
  }

  /** Watermarks never fall up the stack and never exceed the live slots. */
  ghost predicate Disciplined(s: Stack) {
    && S.Tiled(s.entries, s.length)
    && (forall i, j :: 0 <= i <= j < s.Depth() ==> s.watermarks[i] <= s.watermarks[j])
    && (forall i :: 0 <= i < s.Depth() ==> s.watermarks[i] <= |s.entries|)
  }

  lemma StepKeepsDiscipline(s: Stack, act: Act)
    requires Disciplined(s) && Step(s, act).Some?
    ensures Disciplined(Step(s, act).value)
  {
    if act.Return? {
      S.TruncateTiles(s.entries, s.length, s.watermarks[|s.watermarks| - 1]);
    }
  }

  lemma {:induction false} RunKeepsDiscipline(s: Stack, acts: seq<Act>)
    requires Disciplined(s) && Run(s, acts).Some?
    ensures Disciplined(Run(s, acts).value)
    decreases |acts|
  {
    if acts != [] {
      StepKeepsDiscipline(s, acts[0]);
      RunKeepsDiscipline(Step(s, acts[0]).value, acts[1..]);
    }
  }

  /** How many variables a run declares. */
  function Declared(acts: seq<Act>): nat {
    if acts == [] then 0 else (if acts[0].Variable? then 1 else 0) + Declared(acts[1..])
  }

  /** The run returns no more often than it was called into, and not before its last act. */
  predicate Nested(depth: nat, acts: seq<Act>)
    decreases |acts|
  {
    acts != [] ==>
      && depth > 0
      && Nested(if acts[0].Call? then depth + 1 else if acts[0].Return? then depth - 1 else depth, acts[1..])
  }

  /** Only a lack of slots stops a run whose calls nest: with room for all its variables it goes
      through, whatever it returns from in between. */
  lemma {:induction false} RunsWhileRoom(s: Stack, acts: seq<Act>)
    requires Disciplined(s) && Nested(s.Depth(), acts) && |s.entries| + Declared(acts) <= 65535
    ensures Run(s, acts).Some? && |Run(s, acts).value.entries| <= |s.entries| + Declared(acts)
    decreases |acts|
  {
    if acts != [] {
      StepKeepsDiscipline(s, acts[0]);
      RunsWhileRoom(Step(s, acts[0]).value, acts[1..]);
    }
  }

  /** Every act of the run is executed by a frame above `depth`. */
  ghost predicate RunsAbove(s: Stack, acts: seq<Act>, depth: nat)
    decreases |acts|
  {
    acts != [] ==>
      && s.Depth() > depth
      && Step(s, acts[0]).Some?
      && RunsAbove(Step(s, acts[0]).value, acts[1..], depth)
  }

  /** What a callee, and everything it calls, leaves alone in the state it was called from. */
  ghost predicate Preserves(caller: Stack, s: Stack) {
    && Disciplined(s)
    && s.Depth() >= caller.Depth() && s.watermarks[..caller.Depth()] == caller.watermarks
    && |s.entries| >= |caller.entries| && s.entries[..|caller.entries|] == caller.entries
    && (s.Depth() > caller.Depth() ==> s.watermarks[caller.Depth()] == |caller.entries|)
    && (s.Depth() == caller.Depth() ==> s.entries == caller.entries)
  }

  lemma StepPreservesCaller(caller: Stack, s: Stack, act: Act)
    requires Preserves(caller, s) && s.Depth() > caller.Depth() && Step(s, act).Some?
    ensures Preserves(caller, Step(s, act).value)
  {
    StepKeepsDiscipline(s, act);
    var next := Step(s, act).value;
    var d := caller.Depth();
    match act {
      case Variable(_, _) => assert next.entries[..|caller.entries|] == s.entries[..|caller.entries|];
      case Call => assert next.watermarks[..d] == s.watermarks[..d];
      case Return =>
        assert next.watermarks[..d] == s.watermarks[..d];
        var mark := s.watermarks[s.Depth() - 1];
        assert s.watermarks[d] <= mark;
        assert next.entries == s.entries[..mark];
        assert next.entries[..|caller.entries|] == s.entries[..|caller.entries|];
      case Other =>
    }
  }

  lemma {:induction false} RunPreservesCaller(caller: Stack, s: Stack, acts: seq<Act>)
    requires Preserves(caller, s) && RunsAbove(s, acts, caller.Depth())
    ensures Run(s, acts).Some? && Preserves(caller, Run(s, acts).value)
    decreases |acts|
  {
    if acts != [] {
      StepPreservesCaller(caller, s, acts[0]);
      RunPreservesCaller(caller, Step(s, acts[0]).value, acts[1..]);
    }
  }

  /** A call, however deeply it nests and wherever it is cut off, leaves every slot of the
      caller in place; once it has returned, the slot table is exactly the caller's, and
      every slot past it reads as unmapped. */
  lemma CallLeavesCallerIntact(caller: Stack, acts: seq<Act>)
    requires Disciplined(caller) && caller.Depth() > 0
    requires RunsAbove(Step(caller, Call).value, acts, caller.Depth())
    ensures var s := Run(caller, [Call] + acts);
            && s.Some? && Disciplined(s.value)
            && s.value.Depth() >= caller.Depth()
            && |s.value.entries| >= |caller.entries|
            && s.value.entries[..|caller.entries|] == caller.entries
            && (s.value.Depth() == caller.Depth() ==>
                  s.value.watermarks == caller.watermarks && s.value.entries == caller.entries)
    ensures forall address: nat, size: nat ::
              var s := Run(caller, [Call] + acts).value;
              s.Depth() == caller.Depth() && Decode(address).region == Some(Invocation)
              && Decode(address).slot > |caller.entries| ==>
                S.Lookup(Invocation, SlotSizes(s.entries), address, size) == Failure(S.Unmapped)
  {
    var called := Step(caller, Call).value;
    StepKeepsDiscipline(caller, Call);
    assert called.watermarks[..caller.Depth()] == caller.watermarks;
    assert called.entries[..|caller.entries|] == caller.entries;
    RunPreservesCaller(caller, called, acts);
    assert ([Call] + acts)[1..] == acts;
    var s := Run(called, acts).value;
    assert s.Depth() == caller.Depth() ==> s.watermarks[..caller.Depth()] == s.watermarks;
  }

  function SlotSizes(entries: seq<S.Entry>): seq<nat> {
    seq(|entries|, i requires 0 <= i < |entries| => entries[i].size)
  }

  /** A caller's address finds the same bytes at any point of a call it made. */
  lemma CallerAddressesStay(caller: Stack, s: Stack, address: nat, size: nat)
    requires Preserves(caller, s)
    requires S.Lookup(Invocation, SlotSizes(caller.entries), address, size).Success?
    ensures var slot := S.Lookup(Invocation, SlotSizes(caller.entries), address, size).value;
            && S.Lookup(Invocation, SlotSizes(s.entries), address, size) == Success(slot)
            && slot < |caller.entries| && s.entries[slot] == caller.entries[slot]
            && s.entries[slot].End() <= s.length
  {
    var slot := S.Lookup(Invocation, SlotSizes(caller.entries), address, size).value;
    assert s.entries[slot] == s.entries[..|caller.entries|][slot];
  }

  /** The interpreter's frame vector over the storage of private variables. */
  class Frames {
    var watermarks: seq<nat>
    const storage: S.Storage

    ghost predicate Valid()
      reads this, storage
    {
      storage.region == Invocation && storage.Valid() && Disciplined(Snapshot())
    }

    ghost function Snapshot(): Stack
      reads this, storage
    {
      Stack(watermarks, storage.entries, |storage.bytes|)
    }

    /** The entry function owns the bottom frame; its by-value arguments may hold slots already. */
    constructor (storage: S.Storage)
      requires storage.region == Invocation && storage.Valid()
      ensures Valid() && this.storage == storage && watermarks == [0]
    {
      this.storage := storage;
      watermarks := [0];
    }

    method DeclareVariable(size: nat, alignment: nat) returns (address: Option<nat>)
      requires Valid() && watermarks != []
      modifies storage
      ensures Valid()
      ensures address.Some? <==> Step(old(Snapshot()), Variable(size, alignment)).Some?
      ensures address.Some? ==> Step(old(Snapshot()), Variable(size, alignment)) == Some(Snapshot())
      ensures address.None? ==> Snapshot() == old(Snapshot())
      ensures address.Some? ==>
                && storage.Blocks() == old(storage.Blocks()) + [S.Zeros(size)]
                && address.value == Encode(Some(Invocation), |storage.entries|, 0)
    {
      ghost var before := Snapshot();
      address := storage.Allocate(size, alignment);
      if address.Some? {
        StepKeepsDiscipline(before, Variable(size, alignment));
      }
    }

    method PushFrame()
      requires Valid() && watermarks != []
      modifies this
      ensures Valid() && Step(old(Snapshot()), Call) == Some(Snapshot())
    {
      StepKeepsDiscipline(Snapshot(), Call);
      watermarks := watermarks + [storage.Watermark()];
    }

    method PopFrame() returns (popped: bool)
      requires Valid()
      modifies this, storage
      ensures Valid() && popped == (old(watermarks) != [])
      ensures if popped then Step(old(Snapshot()), Return) == Some(Snapshot()) else Snapshot() == old(Snapshot())
      ensures storage.Blocks() == old(storage.Blocks())[..|storage.entries|]
    {
      if watermarks == [] {
        return false;
      }
      StepKeepsDiscipline(Snapshot(), Return);
      var last := |watermarks| - 1;
      var finished := watermarks[last];
      watermarks := watermarks[..last];
      storage.Truncate(finished);
      popped := true;
    }
  }
}
