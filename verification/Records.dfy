/** What the race detector keeps of the accesses made to one byte.

    A record holds at most one load and one store: the first plain access of its kind, or
    the last atomic one while there is no plain one. The lemmas say when this summary
    agrees with comparing every access with every other. */
module Records {
  import opened Wrappers
  import opened NdRange

  datatype Location = Location(file: nat, line: nat, column: nat)

  datatype RaceAccess = RaceAccess(
    entity: Entity,
    location: Option<Location>,
    store: bool,
    atomic: bool,
    data: nat)

  datatype Record = Record(load: Option<RaceAccess>, store: Option<RaceAccess>) {
    function Slot(store: bool): Option<RaceAccess> { if store then this.store else load }

    function Insert(access: RaceAccess): Record {
      if access.store then this.(store := Put(store, access)) else this.(load := Put(load, access))
    }

    function Merge(other: Record): Record {
      var loaded := if other.load.Some? then Insert(other.load.value) else this;
      if other.store.Some? then loaded.Insert(other.store.value) else loaded
    }

    /** The slots hold accesses of their own kind. */
    predicate Sorted() {
      (load.Some? ==> !load.value.store) && (store.Some? ==> store.value.store)
    }
  }

  const EMPTY := Record(None, None)

  function Put(slot: Option<RaceAccess>, access: RaceAccess): Option<RaceAccess> {
    if slot.None? || slot.value.atomic then Some(access) else slot
  }

  function Races(a: RaceAccess, b: RaceAccess, uniformWrites: bool): bool {
    if a.entity == b.entity then false
    else if a.atomic && b.atomic then false
    else if !a.store && !b.store then false
    else if !a.store || !b.store then true
    else uniformWrites || a.data != b.data
  }

  function Zip(a: Option<RaceAccess>, b: Option<RaceAccess>): seq<(RaceAccess, RaceAccess)> {
    if a.Some? && b.Some? then [(a.value, b.value)] else []
  }

  /** The candidate pairs between two records, in the order they are tried. */
  function Pairs(a: Record, b: Record): seq<(RaceAccess, RaceAccess)> {
    Zip(a.load, b.store) + Zip(a.store, b.load) + Zip(a.store, b.store)
  }

  /** Inserting the accesses one after the other into an empty record. */
  function Fold(accesses: seq<RaceAccess>): Record {
    if accesses == [] then EMPTY
    else Fold(accesses[..|accesses| - 1]).Insert(accesses[|accesses| - 1])
  }

  lemma FoldSnoc(accesses: seq<RaceAccess>, access: RaceAccess)
    ensures Fold(accesses + [access]) == Fold(accesses).Insert(access)
  {
    assert (accesses + [access])[..|accesses|] == accesses;
  }

  // ----- what folding keeps

  /** The first plain access of a kind, else the last atomic one, else nothing. */
  ghost predicate Keeps(accesses: seq<RaceAccess>, store: bool, slot: Option<RaceAccess>) {
    match slot
    case None => forall i :: 0 <= i < |accesses| ==> accesses[i].store != store
    case Some(kept) => exists i :: KeepsAt(accesses, store, kept, i)
  }

  ghost predicate KeepsAt(accesses: seq<RaceAccess>, store: bool, kept: RaceAccess, i: int) {
    && 0 <= i < |accesses| && accesses[i] == kept && kept.store == store
    && forall j :: 0 <= j < |accesses| && accesses[j].store == store ==>
         if kept.atomic then accesses[j].atomic && j <= i else j < i ==> accesses[j].atomic
  }

  lemma {:induction false} FoldKeeps(accesses: seq<RaceAccess>)
    ensures Fold(accesses).Sorted()
    ensures Keeps(accesses, false, Fold(accesses).load) && Keeps(accesses, true, Fold(accesses).store)
  {
    if accesses != [] {
      var last := |accesses| - 1;
      FoldKeeps(accesses[..last]);
      PutKeeps(accesses[..last], accesses[last], false, Fold(accesses[..last]).load);
      PutKeeps(accesses[..last], accesses[last], true, Fold(accesses[..last]).store);
      assert accesses[..last] + [accesses[last]] == accesses;
    }
  }

  lemma PutKeeps(before: seq<RaceAccess>, access: RaceAccess, store: bool, slot: Option<RaceAccess>)
    requires Keeps(before, store, slot)
    ensures Keeps(before + [access], store, if access.store == store then Put(slot, access) else slot)
  {
    var after := before + [access];
    if access.store == store && (slot.None? || slot.value.atomic) {
      assert KeepsAt(after, store, access, |before|);
    } else if slot.Some? {
      var i :| KeepsAt(before, store, slot.value, i);
      assert KeepsAt(after, store, slot.value, i);
    }
  }

  lemma InsertMerges(r: Record, s: Record, access: RaceAccess)
    requires s.Sorted()
    ensures r.Merge(s).Insert(access) == r.Merge(s.Insert(access))
  {
  }

  /** Folding turns concatenation into merging: a summary of summaries loses nothing more. */
  lemma {:induction false} FoldMerges(xs: seq<RaceAccess>, ys: seq<RaceAccess>)
    ensures Fold(xs + ys) == Fold(xs).Merge(Fold(ys))
  {
    if ys == [] {
      assert xs + ys == xs;
    } else {
      var last := |ys| - 1;
      FoldKeeps(ys[..last]);
      FoldMerges(xs, ys[..last]);
      InsertMerges(Fold(xs), Fold(ys[..last]), ys[last]);
      assert (xs + ys)[..|xs + ys| - 1] == xs + ys[..last];
    }
  }

  // ----- the summary against the all-pairs check

  /** What a slot says about the accesses behind it. */
  lemma SlotSpeaks(accesses: seq<RaceAccess>, store: bool)
    ensures var slot := Fold(accesses).Slot(store);
            && (slot.Some? ==> slot.value in accesses && slot.value.store == store)
            && (forall a :: a in accesses && a.store == store ==> slot.Some? && (!a.atomic ==> !slot.value.atomic))
  {
    FoldKeeps(accesses);
    var slot := Fold(accesses).Slot(store);
    assert Keeps(accesses, store, slot);
    forall a | a in accesses && a.store == store ensures slot.Some? && (!a.atomic ==> !slot.value.atomic) {
      var i :| 0 <= i < |accesses| && accesses[i] == a;
      if slot.Some? {
        var k :| KeepsAt(accesses, store, slot.value, k);
        assert accesses[i].store == store;
      }
    }
  }

  /** Whether some access of `now` races with some access of `before`. */
  ghost predicate AnyRace(now: seq<RaceAccess>, before: seq<RaceAccess>, uniformWrites: bool) {
    exists a, b :: a in now && b in before && Races(a, b, uniformWrites)
  }

  /** The same, looking only at pairs of a load and a store. */
  ghost predicate AnyMixedRace(now: seq<RaceAccess>, before: seq<RaceAccess>, uniformWrites: bool) {
    exists a, b :: a in now && b in before && a.store != b.store && Races(a, b, uniformWrites)
  }

  /** The same, looking only at pairs of stores. */
  ghost predicate AnyStoreRace(now: seq<RaceAccess>, before: seq<RaceAccess>, uniformWrites: bool) {
    exists a, b :: a in now && b in before && a.store && b.store && Races(a, b, uniformWrites)
  }

  /** No work item appears on both sides. */
  ghost predicate Separate(now: seq<RaceAccess>, before: seq<RaceAccess>) {
    forall a, b :: a in now && b in before ==> a.entity != b.entity
  }

  /** Whether comparing the two records finds a race. */
  predicate Found(now: Record, before: Record, uniformWrites: bool) {
    exists p :: p in Pairs(now, before) && Races(p.0, p.1, uniformWrites)
  }

  predicate FoundMixed(now: Record, before: Record, uniformWrites: bool) {
    exists p :: p in Pairs(now, before) && p.0.store != p.1.store && Races(p.0, p.1, uniformWrites)
  }

  lemma PairsAre(now: Record, before: Record)
    ensures forall p :: p in Pairs(now, before) <==>
              || (now.load.Some? && before.store.Some? && p == (now.load.value, before.store.value))
              || (now.store.Some? && before.load.Some? && p == (now.store.value, before.load.value))
              || (now.store.Some? && before.store.Some? && p == (now.store.value, before.store.value))
  {
  }

  /** Whatever the records report happened: two accesses made by different work items, not
      both atomic, at least one of them a store. */
  lemma FoundIsReal(now: seq<RaceAccess>, before: seq<RaceAccess>, uniformWrites: bool, p: (RaceAccess, RaceAccess))
    requires p in Pairs(Fold(now), Fold(before)) && Races(p.0, p.1, uniformWrites)
    ensures p.0 in now && p.1 in before && p.0.entity != p.1.entity
    ensures (p.0.store || p.1.store) && !(p.0.atomic && p.1.atomic)
  {
    PairsAre(Fold(now), Fold(before));
    SlotSpeaks(now, false);
    SlotSpeaks(now, true);
    SlotSpeaks(before, false);
    SlotSpeaks(before, true);
  }

  lemma KeptPairRaces(now: seq<RaceAccess>, before: seq<RaceAccess>, uniformWrites: bool, a: RaceAccess, b: RaceAccess)
    requires Separate(now, before) && a in now && b in before && Races(a, b, uniformWrites)
    requires uniformWrites || a.store != b.store
    ensures exists p :: p in Pairs(Fold(now), Fold(before)) && p.0.store == a.store && p.1.store == b.store
              && Races(p.0, p.1, uniformWrites)
  {
    SlotSpeaks(now, a.store);
    SlotSpeaks(before, b.store);
    PairsAre(Fold(now), Fold(before));
    var p := (Fold(now).Slot(a.store).value, Fold(before).Slot(b.store).value);
    assert p in Pairs(Fold(now), Fold(before));
    assert p.0 in now && p.1 in before;
  }

  /** The summaries find a race exactly when comparing every access does: always for a load
      against a store, and for every pair when writes of the same value are reported too. */
  lemma SummaryExact(now: seq<RaceAccess>, before: seq<RaceAccess>, uniformWrites: bool)
    requires Separate(now, before)
    ensures FoundMixed(Fold(now), Fold(before), uniformWrites) <==> AnyMixedRace(now, before, uniformWrites)
    ensures uniformWrites ==> (Found(Fold(now), Fold(before), uniformWrites) <==> AnyRace(now, before, uniformWrites))
  {
    var (n, b) := (Fold(now), Fold(before));
    if FoundMixed(n, b, uniformWrites) {
      var p :| p in Pairs(n, b) && p.0.store != p.1.store && Races(p.0, p.1, uniformWrites);
      FoundIsReal(now, before, uniformWrites, p);
    }
    if AnyMixedRace(now, before, uniformWrites) {
      var x, y :| x in now && y in before && x.store != y.store && Races(x, y, uniformWrites);
      KeptPairRaces(now, before, uniformWrites, x, y);
    }
    if Found(n, b, uniformWrites) {
      var p :| p in Pairs(n, b) && Races(p.0, p.1, uniformWrites);
      FoundIsReal(now, before, uniformWrites, p);
    }
    if uniformWrites && AnyRace(now, before, uniformWrites) {
      var x, y :| x in now && y in before && Races(x, y, uniformWrites);
      KeptPairRaces(now, before, uniformWrites, x, y);
    }
  }

  /** The store a record keeps of these accesses: the first plain one, else the last atomic one. */
  ghost predicate KeptStore(accesses: seq<RaceAccess>, kept: RaceAccess) {
    exists i :: KeepsAt(accesses, true, kept, i)
  }

  lemma KeptStoreIsFolded(accesses: seq<RaceAccess>, kept: RaceAccess)
    ensures KeptStore(accesses, kept) <==> Fold(accesses).store == Some(kept)
  {
    FoldKeeps(accesses);
    if KeptStore(accesses, kept) {
      var i :| KeepsAt(accesses, true, kept, i);
      assert Fold(accesses).store.Some?;
      var k :| KeepsAt(accesses, true, Fold(accesses).store.value, k);
      assert i == k;
    }
  }

  /** Stores of two items that leave different values, unless both are atomic. */
  predicate Disagree(a: RaceAccess, b: RaceAccess) { a.entity != b.entity && !(a.atomic && b.atomic) && a.data != b.data }

  /** The kept stores of the two sides race, writes of the same value not counting. */
  ghost predicate KeptStoresRace(now: seq<RaceAccess>, before: seq<RaceAccess>) {
    exists n, b :: KeptStore(now, n) && KeptStore(before, b) && Disagree(n, b)
  }

  /** The kept store of one side races with some store of the other. */
  ghost predicate StoreRacesKept(now: seq<RaceAccess>, before: seq<RaceAccess>) {
    || (exists x, b :: x in now && x.store && KeptStore(before, b) && Disagree(x, b))
    || (exists n, y :: y in before && y.store && KeptStore(now, n) && Disagree(n, y))
  }

  /** Writes of the same value not reported: two stores then race exactly when the kept store
      of one side races with some store of the other. */
  lemma StoreRaceShowsOnKept(now: seq<RaceAccess>, before: seq<RaceAccess>)
    requires Separate(now, before)
    ensures AnyStoreRace(now, before, false) <==> StoreRacesKept(now, before)
  {
    SlotSpeaks(now, true);
    SlotSpeaks(before, true);
    if AnyStoreRace(now, before, false) {
      var x, y :| x in now && y in before && x.store && y.store && Races(x, y, false);
      var (n, b) := (Fold(now).store.value, Fold(before).store.value);
      KeptStoreIsFolded(now, n);
      KeptStoreIsFolded(before, b);
      assert n.entity != b.entity && x.entity != b.entity && n.entity != y.entity;
      assert Disagree(x, b) || Disagree(n, y) || Disagree(n, b);
    }
    if StoreRacesKept(now, before) {
      if x, b :| x in now && x.store && KeptStore(before, b) && Disagree(x, b) {
        KeptStoreIsFolded(before, b);
      } else {
        var n, y :| y in before && y.store && KeptStore(now, n) && Disagree(n, y);
        KeptStoreIsFolded(now, n);
      }
    }
  }

  /** What comparing the summaries finds when writes of the same value are not reported: a race
      of a load and a store, or of the two kept stores. */
  lemma FoundExactly(now: seq<RaceAccess>, before: seq<RaceAccess>)
    requires Separate(now, before)
    ensures Found(Fold(now), Fold(before), false) <==> AnyMixedRace(now, before, false) || KeptStoresRace(now, before)
  {
    var (n, b) := (Fold(now), Fold(before));
    SummaryExact(now, before, false);
    SlotSpeaks(now, true);
    SlotSpeaks(before, true);
    SlotSpeaks(now, false);
    SlotSpeaks(before, false);
    PairsAre(n, b);
    if n.store.Some? && b.store.Some? {
      KeptStoreIsFolded(now, n.store.value);
      KeptStoreIsFolded(before, b.store.value);
      assert (n.store.value, b.store.value) in Pairs(n, b);
    }
    if x, y :| KeptStore(now, x) && KeptStore(before, y) && Disagree(x, y) {
      KeptStoreIsFolded(now, x);
      KeptStoreIsFolded(before, y);
    }
  }

  /** The exact condition under which the records miss a race: no load races with a store, the
      two kept stores agree, and a dropped store disagrees with the kept one across. */
  lemma StoreRaceMissedExactly(now: seq<RaceAccess>, before: seq<RaceAccess>)
    requires Separate(now, before)
    ensures (AnyRace(now, before, false) && !Found(Fold(now), Fold(before), false)) <==>
              !AnyMixedRace(now, before, false) && !KeptStoresRace(now, before) && StoreRacesKept(now, before)
  {
    FoundExactly(now, before);
    StoreRaceShowsOnKept(now, before);
    assert AnyRace(now, before, false) <==> AnyMixedRace(now, before, false) || AnyStoreRace(now, before, false);
  }

  /** Such a miss exists: a work item that writes 1 and then 2 hides the 2 from another
      that writes 1. */
  lemma StoreRaceCanBeMissed()
    ensures exists now: seq<RaceAccess>, before: seq<RaceAccess> ::
              Separate(now, before) && AnyRace(now, before, false) && !Found(Fold(now), Fold(before), false)
  {
    var origin := Axes(0, 0, 0);
    var one := Entity(origin, origin, origin, 0);
    var two := Entity(Axes(1, 0, 0), Axes(1, 0, 0), origin, 1);
    var (w1, w2) := (RaceAccess(one, None, true, false, 1), RaceAccess(one, None, true, false, 2));
    var w := RaceAccess(two, None, true, false, 1);
    var (now, before) := ([w], [w1, w2]);
    assert Races(w, w2, false) && w2 in before && w in now;
    assert now[..0] == [] && before[..1] == [w1] && [w1][..0] == [];
    assert Fold([]) == EMPTY && Fold(now) == EMPTY.Insert(w);
    assert Fold([w1]) == EMPTY.Insert(w1) && Fold(before) == EMPTY.Insert(w1).Insert(w2);
    PairsAre(Fold(now), Fold(before));
  }

  /** The stores all write one value; they are all atomic, or all plain. */
  ghost predicate OneValue(accesses: seq<RaceAccess>) {
    forall x, y :: x in accesses && y in accesses && x.store && y.store ==> x.data == y.data
  }

  ghost predicate OneKind(accesses: seq<RaceAccess>, atomic: bool) {
    forall x :: x in accesses && x.store ==> x.atomic == atomic
  }

  lemma SomeStoreIsKept(accesses: seq<RaceAccess>, x: RaceAccess) returns (kept: RaceAccess)
    requires x in accesses && x.store
    ensures KeptStore(accesses, kept) && kept in accesses && kept.store
  {
    SlotSpeaks(accesses, true);
    kept := Fold(accesses).store.value;
    KeptStoreIsFolded(accesses, kept);
  }

  /** Two sides that store one value and one kind each: their stores race or their kept ones
      agree. */
  lemma SteadySidesAgree(now: seq<RaceAccess>, before: seq<RaceAccess>, atomic: bool)
    requires Separate(now, before) && OneValue(now) && OneValue(before) && OneKind(now, atomic) && OneKind(before, atomic)
    requires !KeptStoresRace(now, before)
    ensures !AnyStoreRace(now, before, false)
    ensures !atomic ==> forall x, y :: x in now && y in before && x.store && y.store ==> x.data == y.data
  {
    forall x, y | x in now && y in before && x.store && y.store ensures atomic || x.data == y.data {
      var n := SomeStoreIsKept(now, x);
      var b := SomeStoreIsKept(before, y);
      assert !Disagree(n, b);
    }
  }

  /** A condition on a program under which nothing is missed: the stores of each side write one
      value, and those of both are all atomic or all plain. */
  lemma SteadySidesShow(now: seq<RaceAccess>, before: seq<RaceAccess>, atomic: bool)
    requires Separate(now, before) && OneValue(now) && OneValue(before) && OneKind(now, atomic) && OneKind(before, atomic)
    ensures Found(Fold(now), Fold(before), false) <==> AnyRace(now, before, false)
  {
    FoundExactly(now, before);
    StoreRaceShowsOnKept(now, before);
    StoreRaceMissedExactly(now, before);
    if !KeptStoresRace(now, before) {
      SteadySidesAgree(now, before, atomic);
    }
  }

  /** One value a work item is not enough: of an atomic 1 and an atomic 2 by two items the 2 is
      kept, and hides the 1 from a plain 2 by a third. */
  lemma MixedKindsCanBeMissed()
    ensures exists now: seq<RaceAccess>, before: seq<RaceAccess> ::
              && Separate(now, before) && AnyRace(now, before, false) && !Found(Fold(now), Fold(before), false)
              && forall x, y :: x in now + before && y in now + before && x.entity == y.entity ==> x == y
  {
    var origin := Axes(0, 0, 0);
    var one := RaceAccess(Entity(origin, origin, origin, 0), None, true, true, 1);
    var two := RaceAccess(Entity(Axes(1, 0, 0), Axes(1, 0, 0), origin, 1), None, true, true, 2);
    var three := RaceAccess(Entity(Axes(2, 0, 0), Axes(2, 0, 0), origin, 2), None, true, false, 2);
    var (now, before) := ([three], [one, two]);
    assert Races(three, one, false) && one in before && three in now;
    assert now[..0] == [] && before[..1] == [one] && [one][..0] == [];
    assert Fold([]) == EMPTY && Fold(now) == EMPTY.Insert(three);
    assert Fold([one]) == EMPTY.Insert(one) && Fold(before) == EMPTY.Insert(one).Insert(two);
    PairsAre(Fold(now), Fold(before));
    assert now + before == [three, one, two];
  }

  /** A byte that races is found, but not every racing pair of it is named: of two stores on one
      side only the kept one is compared, also when writes of the same value are reported. */
  lemma NotEveryPairIsNamed()
    ensures exists now: seq<RaceAccess>, before: seq<RaceAccess>, x, y ::
              && Separate(now, before) && x in now && y in before && Races(x, y, true)
              && Found(Fold(now), Fold(before), true) && (x, y) !in Pairs(Fold(now), Fold(before))
  {
    var origin := Axes(0, 0, 0);
    var one := RaceAccess(Entity(origin, origin, origin, 0), None, true, false, 1);
    var two := RaceAccess(Entity(Axes(1, 0, 0), Axes(1, 0, 0), origin, 1), None, true, false, 1);
    var three := RaceAccess(Entity(Axes(2, 0, 0), Axes(2, 0, 0), origin, 2), None, true, false, 1);
    var (now, before) := ([three], [one, two]);
    assert one in before && two in before && three in now && Races(three, two, true) && Races(three, one, true);
    assert now[..0] == [] && before[..1] == [one] && [one][..0] == [];
    assert Fold([]) == EMPTY && Fold(now) == EMPTY.Insert(three);
    assert Fold([one]) == EMPTY.Insert(one) && Fold(before) == EMPTY.Insert(one).Insert(two);
    PairsAre(Fold(now), Fold(before));
    assert (three, one) in Pairs(Fold(now), Fold(before));
    assert Separate(now, before);
  }
}
