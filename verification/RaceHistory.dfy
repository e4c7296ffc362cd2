/** Histories of recorded accesses, and what the per-byte maps of the detector say of them. */
module RaceHistory {
  import opened Wrappers
  import opened NdRange
  import opened Addresses
  import opened Records
  import opened RaceReport

  datatype Sample = Sample(address: nat, access: RaceAccess)

  type ByteMap = map<nat, Record>

  /** The accesses recorded at one byte, in order. */
  function At(samples: seq<Sample>, address: nat): seq<RaceAccess> {
    if samples == [] then []
    else
      var last := samples[|samples| - 1];
      At(samples[..|samples| - 1], address) + (if last.address == address then [last.access] else [])
  }

  lemma {:induction false} AtConcat(xs: seq<Sample>, ys: seq<Sample>, address: nat)
    ensures At(xs + ys, address) == At(xs, address) + At(ys, address)
  {
    if ys == [] {
      assert xs + ys == xs;
    } else {
      assert (xs + ys)[..|xs + ys| - 1] == xs + ys[..|ys| - 1];
      AtConcat(xs, ys[..|ys| - 1], address);
    }
  }

  lemma {:induction false} AtMembers(samples: seq<Sample>, address: nat, access: RaceAccess)
    ensures access in At(samples, address) <==> Sample(address, access) in samples
  {
    if samples != [] {
      var last := |samples| - 1;
      AtMembers(samples[..last], address, access);
      assert samples == samples[..last] + [samples[last]];
    }
  }

  /** The samples inside (or outside) one address space. */
  function Kept(samples: seq<Sample>, space: Region, inside: bool): seq<Sample> {
    if samples == [] then []
    else
      var last := samples[|samples| - 1];
      Kept(samples[..|samples| - 1], space, inside)
      + (if (RegionOf(last.address) == Some(space)) == inside then [last] else [])
  }

  lemma {:induction false} AtKept(samples: seq<Sample>, space: Region, inside: bool, address: nat)
    ensures At(Kept(samples, space, inside), address)
         == if (RegionOf(address) == Some(space)) == inside then At(samples, address) else []
  {
    if samples != [] {
      var last := |samples| - 1;
      AtKept(samples[..last], space, inside, address);
      AtLast(Kept(samples[..last], space, inside), samples[last], address);
    }
  }

  lemma AtLast(samples: seq<Sample>, last: Sample, address: nat)
    ensures At(samples + [last], address) == At(samples, address) + if last.address == address then [last.access] else []
    ensures samples + [] == samples
  {
    assert (samples + [last])[..|samples|] == samples;
  }

  lemma {:induction false} KeptMembers(samples: seq<Sample>, space: Region, inside: bool, s: Sample)
    ensures s in Kept(samples, space, inside) <==>
              s in samples && (RegionOf(s.address) == Some(space)) == inside
  {
    if samples != [] {
      var last := |samples| - 1;
      KeptMembers(samples[..last], space, inside, s);
      assert samples == samples[..last] + [samples[last]];
    }
  }

  /** The histories of the first lanes one after the other, as merging goes through them. */
  function Flat(logs: seq<seq<Sample>>): seq<Sample> {
    if logs == [] then [] else Flat(logs[..|logs| - 1]) + logs[|logs| - 1]
  }

  lemma {:induction false} FlatMembers(logs: seq<seq<Sample>>, s: Sample)
    ensures s in Flat(logs) <==> exists l :: 0 <= l < |logs| && s in logs[l]
  {
    if logs != [] {
      var last := |logs| - 1;
      FlatMembers(logs[..last], s);
      if s in Flat(logs[..last]) {
        var l :| 0 <= l < |logs[..last]| && s in logs[..last][l];
        assert s in logs[l];
      }
      if l :| 0 <= l < |logs| && s in logs[l] && l != last {
        assert s in logs[..last][l];
      }
    }
  }

  function Get(m: ByteMap, address: nat): Record { if address in m then m[address] else EMPTY }

  /** The map holds the summary of every byte of the history. */
  ghost predicate Holds(m: ByteMap, samples: seq<Sample>) {
    forall address :: Get(m, address) == Fold(At(samples, address))
  }

  // ----- what one synchronisation looks for

  /** A race between the summaries of a lane and of the lanes before it. */
  ghost predicate LaneFinding(logs: seq<seq<Sample>>, lane: nat, space: Region, uniformWrites: bool, f: Finding)
    requires lane < |logs|
  {
    && f.region == space && RegionOf(f.address) == Some(space)
    && (f.first, f.second) in Pairs(Fold(At(logs[lane], f.address)), Fold(At(Flat(logs[..lane]), f.address)))
    && Races(f.first, f.second, uniformWrites)
  }

  ghost predicate SyncFinding(logs: seq<seq<Sample>>, space: Region, uniformWrites: bool, f: Finding) {
    exists lane :: 0 <= lane < |logs| && LaneFinding(logs, lane, space, uniformWrites, f)
  }

  ghost function SyncFindings(logs: seq<seq<Sample>>, space: Region, uniformWrites: bool): iset<Finding> {
    iset f: Finding | SyncFinding(logs, space, uniformWrites, f)
  }

  /** Every access of lane l was made by the work item of lane l in the running group. */
  ghost predicate OwnedByLanes(logs: seq<seq<Sample>>, grid: Grid, group: Axes) {
    && grid.local.Positive()
    && forall l, s :: 0 <= l < |logs| && s in logs[l] ==> s.access.entity == EntityOf(grid, group, l)
  }

  /** Some two accesses recorded at the byte since the last synchronisation race. */
  ghost predicate EpochRace(logs: seq<seq<Sample>>, address: nat, uniformWrites: bool) {
    AnyRace(At(Flat(logs), address), At(Flat(logs), address), uniformWrites)
  }

  ghost predicate EpochMixedRace(logs: seq<seq<Sample>>, address: nat, uniformWrites: bool) {
    AnyMixedRace(At(Flat(logs), address), At(Flat(logs), address), uniformWrites)
  }

  lemma LanesSeparate(logs: seq<seq<Sample>>, grid: Grid, group: Axes, lane: nat, address: nat)
    requires OwnedByLanes(logs, grid, group) && lane < |logs|
    ensures Separate(At(logs[lane], address), At(Flat(logs[..lane]), address))
  {
    var (now, before) := (At(logs[lane], address), At(Flat(logs[..lane]), address));
    forall a, b | a in now && b in before ensures a.entity != b.entity {
      AtMembers(logs[lane], address, a);
      AtMembers(Flat(logs[..lane]), address, b);
      FlatMembers(logs[..lane], Sample(address, b));
      var l :| 0 <= l < lane && Sample(address, b) in logs[..lane][l];
      assert Sample(address, b) in logs[l];
    }
  }

  /** The lanes a racing pair of accesses comes from, the later one first. */
  lemma LanesOfRace(logs: seq<seq<Sample>>, grid: Grid, group: Axes, address: nat, u: bool, x: RaceAccess, y: RaceAccess)
    returns (lane: nat)
    requires OwnedByLanes(logs, grid, group)
    requires x in At(Flat(logs), address) && y in At(Flat(logs), address) && Races(x, y, u)
    ensures lane < |logs|
    ensures (x in At(logs[lane], address) && y in At(Flat(logs[..lane]), address))
         || (y in At(logs[lane], address) && x in At(Flat(logs[..lane]), address))
  {
    AtMembers(Flat(logs), address, x);
    AtMembers(Flat(logs), address, y);
    FlatMembers(logs, Sample(address, x));
    FlatMembers(logs, Sample(address, y));
    var i :| 0 <= i < |logs| && Sample(address, x) in logs[i];
    var j :| 0 <= j < |logs| && Sample(address, y) in logs[j];
    assert i != j;
    lane := if i < j then j else i;
    var (low, other) := if i < j then (i, x) else (j, y);
    assert logs[..lane][low] == logs[low];
    FlatMembers(logs[..lane], Sample(address, other));
    AtMembers(Flat(logs[..lane]), address, other);
    AtMembers(logs[i], address, x);
    AtMembers(logs[j], address, y);
  }

  lemma RacesEitherWay(x: RaceAccess, y: RaceAccess, u: bool)
    ensures Races(x, y, u) <==> Races(y, x, u)
  {
  }

  /** A synchronisation finds a race at a byte exactly when comparing every access recorded
      there since the last one does: for every pair of accesses if writes of the same value
      are reported, and always for a load against a store. */
  lemma SyncIsExact(logs: seq<seq<Sample>>, grid: Grid, group: Axes, space: Region, u: bool, address: nat)
    requires OwnedByLanes(logs, grid, group) && RegionOf(address) == Some(space)
    ensures u ==> ((exists f :: f in SyncFindings(logs, space, u) && f.address == address) <==>
                   EpochRace(logs, address, u))
    ensures (exists f :: f in SyncFindings(logs, space, u) && f.address == address && f.first.store != f.second.store) <==>
            EpochMixedRace(logs, address, u)
  {
    var all := At(Flat(logs), address);
    forall f | f in SyncFindings(logs, space, u) && f.address == address
      ensures f.first in all && f.second in all && Races(f.first, f.second, u)
    {
      FindingIsReal(logs, space, u, f);
    }
    forall x, y | x in all && y in all && Races(x, y, u) && (u || x.store != y.store)
      ensures exists f :: f in SyncFindings(logs, space, u) && f.address == address
                && (x.store != y.store ==> f.first.store != f.second.store)
    {
      var f := RaceIsFound(logs, grid, group, space, u, address, x, y);
    }
  }

  /** A racing pair that the summaries answer for leads to a finding. */
  lemma RaceIsFound(logs: seq<seq<Sample>>, grid: Grid, group: Axes, space: Region, u: bool, address: nat,
                    x: RaceAccess, y: RaceAccess) returns (f: Finding)
    requires OwnedByLanes(logs, grid, group) && RegionOf(address) == Some(space)
    requires x in At(Flat(logs), address) && y in At(Flat(logs), address) && Races(x, y, u) && (u || x.store != y.store)
    ensures f in SyncFindings(logs, space, u) && f.address == address
    ensures x.store != y.store ==> f.first.store != f.second.store
  {
    var lane := LanesOfRace(logs, grid, group, address, u, x, y);
    RacesEitherWay(x, y, u);
    LanesSeparate(logs, grid, group, lane, address);
    var (now, before) := (At(logs[lane], address), At(Flat(logs[..lane]), address));
    var (a, b) := if x in now && y in before then (x, y) else (y, x);
    f := KeptFinding(logs, lane, space, u, address, a, b);
  }

  lemma KeptFinding(logs: seq<seq<Sample>>, lane: nat, space: Region, u: bool, address: nat,
                    a: RaceAccess, b: RaceAccess) returns (f: Finding)
    requires lane < |logs| && RegionOf(address) == Some(space) && Races(a, b, u) && (u || a.store != b.store)
    requires a in At(logs[lane], address) && b in At(Flat(logs[..lane]), address)
    requires Separate(At(logs[lane], address), At(Flat(logs[..lane]), address))
    ensures f in SyncFindings(logs, space, u) && f.address == address
    ensures f.first.store == a.store && f.second.store == b.store
  {
    var (now, before) := (At(logs[lane], address), At(Flat(logs[..lane]), address));
    KeptPairRaces(now, before, u, a, b);
    var p :| p in Pairs(Fold(now), Fold(before)) && p.0.store == a.store && p.1.store == b.store && Races(p.0, p.1, u);
    f := Finding(space, address, p.0, p.1);
    assert LaneFinding(logs, lane, space, u, f);
  }

  // ----- the same of the samples, with the conflict spelled out

  /** Two samples at the byte, of different work items, not both atomic. */
  predicate Apart(s: Sample, t: Sample, address: nat) {
    && s.address == address == t.address
    && s.access.entity != t.access.entity && !(s.access.atomic && t.access.atomic)
  }

  /** Any race between two histories is a load against a store, or two stores that are reported
      whatever they write or else write different values. */
  lemma RacesAreConflicts(xs: seq<Sample>, ys: seq<Sample>, address: nat, u: bool)
    ensures AnyRace(At(xs, address), At(ys, address), u) <==>
              exists s, t :: s in xs && t in ys && Apart(s, t, address) && (s.access.store || t.access.store)
                && (s.access.store && t.access.store ==> u || s.access.data != t.access.data)
  {
    RaceBySamples(xs, ys, address, u);
    if AnyRace(At(xs, address), At(ys, address), u) {
      var s, t :| s in xs && t in ys && s.address == address == t.address && Races(s.access, t.access, u);
      assert Apart(s, t, address);
    }
    if s, t :| s in xs && t in ys && Apart(s, t, address) && (s.access.store || t.access.store)
               && (s.access.store && t.access.store ==> u || s.access.data != t.access.data) {
      assert Races(s.access, t.access, u);
    }
  }

  lemma MixedRacesAreConflicts(xs: seq<Sample>, ys: seq<Sample>, address: nat, u: bool)
    ensures AnyMixedRace(At(xs, address), At(ys, address), u) <==>
              exists s, t :: s in xs && t in ys && Apart(s, t, address) && s.access.store != t.access.store
  {
    if AnyMixedRace(At(xs, address), At(ys, address), u) {
      var a, b :| a in At(xs, address) && b in At(ys, address) && a.store != b.store && Races(a, b, u);
      AtMembers(xs, address, a);
      AtMembers(ys, address, b);
      assert Apart(Sample(address, a), Sample(address, b), address);
    }
    if s, t :| s in xs && t in ys && Apart(s, t, address) && s.access.store != t.access.store {
      AtMembers(xs, address, s.access);
      AtMembers(ys, address, t.access);
      assert Races(s.access, t.access, u);
    }
  }

  /** A synchronisation finds a load against a store at a byte exactly when two samples recorded
      there are of different items, one a load and one a store, and not both atomic; and with
      equal writes reported, anything exactly when two such samples are not both loads. */
  lemma SyncFindsConflicts(logs: seq<seq<Sample>>, grid: Grid, group: Axes, space: Region, u: bool, address: nat)
    requires OwnedByLanes(logs, grid, group) && RegionOf(address) == Some(space)
    ensures (exists f :: f in SyncFindings(logs, space, u) && f.address == address && f.first.store != f.second.store) <==>
            (exists s, t :: s in Flat(logs) && t in Flat(logs) && Apart(s, t, address) && s.access.store != t.access.store)
    ensures u ==> ((exists f :: f in SyncFindings(logs, space, u) && f.address == address) <==>
                   (exists s, t :: s in Flat(logs) && t in Flat(logs) && Apart(s, t, address) && (s.access.store || t.access.store)))
  {
    SyncIsExact(logs, grid, group, space, u, address);
    MixedRacesAreConflicts(Flat(logs), Flat(logs), address, u);
    RacesAreConflicts(Flat(logs), Flat(logs), address, u);
  }

  // ----- writes of the same value not reported

  /** What lane `lane` recorded at a byte, and what the lanes before it did. */
  ghost function LaneSides(logs: seq<seq<Sample>>, lane: nat, address: nat): (seq<RaceAccess>, seq<RaceAccess>)
    requires lane < |logs|
  {
    (At(logs[lane], address), At(Flat(logs[..lane]), address))
  }

  /** Every race of an epoch is one of a lane with the lanes before it. */
  lemma EpochByLanes(logs: seq<seq<Sample>>, grid: Grid, group: Axes, address: nat, u: bool)
    requires OwnedByLanes(logs, grid, group)
    ensures EpochRace(logs, address, u) <==>
              exists l :: 0 <= l < |logs| && AnyRace(LaneSides(logs, l, address).0, LaneSides(logs, l, address).1, u)
    ensures EpochMixedRace(logs, address, u) <==>
              exists l :: 0 <= l < |logs| && AnyMixedRace(LaneSides(logs, l, address).0, LaneSides(logs, l, address).1, u)
  {
    var all := At(Flat(logs), address);
    forall x, y | x in all && y in all && Races(x, y, u)
      ensures exists l :: 0 <= l < |logs| && AnyRace(LaneSides(logs, l, address).0, LaneSides(logs, l, address).1, u)
                && (x.store != y.store ==> AnyMixedRace(LaneSides(logs, l, address).0, LaneSides(logs, l, address).1, u))
    {
      var l := LanesOfRace(logs, grid, group, address, u, x, y);
      RacesEitherWay(x, y, u);
      var (now, before) := LaneSides(logs, l, address);
      assert AnyRace(now, before, u) && (x.store != y.store ==> AnyMixedRace(now, before, u));
    }
    forall l, x | 0 <= l < |logs| && (x in LaneSides(logs, l, address).0 || x in LaneSides(logs, l, address).1)
      ensures x in all
    {
      SideInEpoch(logs, l, address, x);
    }
  }

  lemma SideInEpoch(logs: seq<seq<Sample>>, lane: nat, address: nat, x: RaceAccess)
    requires lane < |logs| && (x in LaneSides(logs, lane, address).0 || x in LaneSides(logs, lane, address).1)
    ensures x in At(Flat(logs), address)
  {
    if x in LaneSides(logs, lane, address).0 {
      AtMembers(logs[lane], address, x);
    } else {
      var l := MadeBelow(logs, lane, address, x);
      AtMembers(logs[l], address, x);
    }
    FlatMembers(logs, Sample(address, x));
    AtMembers(Flat(logs), address, x);
  }

  /** Writes of the same value not reported: a synchronisation says nothing of a byte that races
      exactly when no load races with a store there, the kept store of every lane agrees with
      the one kept of the lanes before it, and for some lane a dropped store does not. */
  lemma SyncMissesExactly(logs: seq<seq<Sample>>, grid: Grid, group: Axes, space: Region, address: nat)
    requires OwnedByLanes(logs, grid, group) && RegionOf(address) == Some(space)
    ensures (EpochRace(logs, address, false) && !exists f :: f in SyncFindings(logs, space, false) && f.address == address) <==>
              && !EpochMixedRace(logs, address, false)
              && (forall l :: 0 <= l < |logs| ==> !KeptStoresRace(LaneSides(logs, l, address).0, LaneSides(logs, l, address).1))
              && (exists l :: 0 <= l < |logs| && StoreRacesKept(LaneSides(logs, l, address).0, LaneSides(logs, l, address).1))
  {
    EpochByLanes(logs, grid, group, address, false);
    FindingsByLanes(logs, space, address);
    forall l | 0 <= l < |logs|
      ensures var (now, before) := LaneSides(logs, l, address);
              && (Found(Fold(now), Fold(before), false) <==> AnyMixedRace(now, before, false) || KeptStoresRace(now, before))
              && (AnyRace(now, before, false) <==> AnyMixedRace(now, before, false) || StoreRacesKept(now, before))
    {
      LaneMisses(logs, grid, group, l, address);
    }
  }

  /** At the byte each lane stores one value, and all lanes the same kind. */
  ghost predicate SteadyLanes(logs: seq<seq<Sample>>, address: nat, atomic: bool) {
    forall l :: 0 <= l < |logs| ==> OneValue(At(logs[l], address)) && OneKind(At(logs[l], address), atomic)
  }

  lemma SidesAreSteady(logs: seq<seq<Sample>>, address: nat, atomic: bool, lane: nat)
    requires SteadyLanes(logs, address, atomic) && lane <= |logs|
    ensures OneKind(At(Flat(logs[..lane]), address), atomic)
  {
    forall x | x in At(Flat(logs[..lane]), address) && x.store ensures x.atomic == atomic {
      var l := MadeBelow(logs, lane, address, x);
    }
  }

  /** Plain lanes whose kept stores never race have stored one value between them. */
  lemma {:induction false} LanesAgree(logs: seq<seq<Sample>>, grid: Grid, group: Axes, address: nat, count: nat)
    requires OwnedByLanes(logs, grid, group) && SteadyLanes(logs, address, false) && count <= |logs|
    requires forall l :: 0 <= l < count ==> !KeptStoresRace(LaneSides(logs, l, address).0, LaneSides(logs, l, address).1)
    ensures OneValue(At(Flat(logs[..count]), address))
    decreases count
  {
    if count > 0 {
      var last := count - 1;
      LanesAgree(logs, grid, group, address, last);
      LanesSeparate(logs, grid, group, last, address);
      SidesAreSteady(logs, address, false, last);
      var (now, before) := LaneSides(logs, last, address);
      SteadySidesAgree(now, before, false);
      forall x | x in At(Flat(logs[..count]), address) ensures x in now || x in before {
        LastOrBefore(logs, count, address, x);
      }
    }
  }

  lemma LastOrBefore(logs: seq<seq<Sample>>, count: nat, address: nat, x: RaceAccess)
    requires 0 < count <= |logs| && x in At(Flat(logs[..count]), address)
    ensures x in LaneSides(logs, count - 1, address).0 || x in LaneSides(logs, count - 1, address).1
  {
    var l := MadeBelow(logs, count, address, x);
    if l < count - 1 {
      AtMembers(logs[l], address, x);
      assert logs[..count - 1][l] == logs[l];
      FlatMembers(logs[..count - 1], Sample(address, x));
      AtMembers(Flat(logs[..count - 1]), address, x);
    }
  }

  /** Writes of the same value not reported: where each lane stores one value between two
      barriers, and all stores are atomic or all plain, no racing byte is passed over. */
  lemma SteadyLanesShow(logs: seq<seq<Sample>>, grid: Grid, group: Axes, space: Region, address: nat, atomic: bool)
    requires OwnedByLanes(logs, grid, group) && RegionOf(address) == Some(space) && SteadyLanes(logs, address, atomic)
    ensures (exists f :: f in SyncFindings(logs, space, false) && f.address == address) <==> EpochRace(logs, address, false)
  {
    if f :| f in SyncFindings(logs, space, false) && f.address == address {
      FindingIsReal(logs, space, false, f);
    }
    SyncMissesExactly(logs, grid, group, space, address);
    if forall l :: 0 <= l < |logs| ==> !KeptStoresRace(LaneSides(logs, l, address).0, LaneSides(logs, l, address).1) {
      forall l | 0 <= l < |logs| ensures !StoreRacesKept(LaneSides(logs, l, address).0, LaneSides(logs, l, address).1) {
        SteadyLaneShows(logs, grid, group, address, atomic, l);
      }
    }
  }

  /** In terms of samples: at such a byte something is found exactly when two samples are of
      different items, not both atomic, and a load and a store or two stores of different values. */
  lemma SteadyLanesConflict(logs: seq<seq<Sample>>, grid: Grid, group: Axes, space: Region, address: nat, atomic: bool)
    requires OwnedByLanes(logs, grid, group) && RegionOf(address) == Some(space) && SteadyLanes(logs, address, atomic)
    ensures (exists f :: f in SyncFindings(logs, space, false) && f.address == address) <==>
              exists s, t :: s in Flat(logs) && t in Flat(logs) && Apart(s, t, address) && (s.access.store || t.access.store)
                && (s.access.store && t.access.store ==> s.access.data != t.access.data)
  {
    SteadyLanesShow(logs, grid, group, space, address, atomic);
    RacesAreConflicts(Flat(logs), Flat(logs), address, false);
  }

  lemma SteadyLaneShows(logs: seq<seq<Sample>>, grid: Grid, group: Axes, address: nat, atomic: bool, lane: nat)
    requires OwnedByLanes(logs, grid, group) && SteadyLanes(logs, address, atomic) && lane < |logs|
    requires forall l :: 0 <= l < |logs| ==> !KeptStoresRace(LaneSides(logs, l, address).0, LaneSides(logs, l, address).1)
    ensures !StoreRacesKept(LaneSides(logs, lane, address).0, LaneSides(logs, lane, address).1)
  {
    var (now, before) := LaneSides(logs, lane, address);
    LanesSeparate(logs, grid, group, lane, address);
    SidesAreSteady(logs, address, atomic, lane);
    if !atomic {
      LanesAgree(logs, grid, group, address, lane);
      SteadySidesAgree(now, before, false);
    }
    StoreRaceShowsOnKept(now, before);
  }

  lemma LaneMisses(logs: seq<seq<Sample>>, grid: Grid, group: Axes, lane: nat, address: nat)
    requires OwnedByLanes(logs, grid, group) && lane < |logs|
    ensures var (now, before) := LaneSides(logs, lane, address);
            && (Found(Fold(now), Fold(before), false) <==> AnyMixedRace(now, before, false) || KeptStoresRace(now, before))
            && (AnyRace(now, before, false) <==> AnyMixedRace(now, before, false) || StoreRacesKept(now, before))
  {
    LanesSeparate(logs, grid, group, lane, address);
    var (now, before) := LaneSides(logs, lane, address);
    FoundExactly(now, before);
    StoreRaceMissedExactly(now, before);
    StoreRaceShowsOnKept(now, before);
  }

  lemma FindingsByLanes(logs: seq<seq<Sample>>, space: Region, address: nat)
    requires RegionOf(address) == Some(space)
    ensures (exists f :: f in SyncFindings(logs, space, false) && f.address == address) <==>
              exists l :: 0 <= l < |logs|
                && Found(Fold(LaneSides(logs, l, address).0), Fold(LaneSides(logs, l, address).1), false)
  {
    if l :| 0 <= l < |logs| && Found(Fold(LaneSides(logs, l, address).0), Fold(LaneSides(logs, l, address).1), false) {
      var f := LaneIsFound(logs, space, address, l);
    }
    if f :| f in SyncFindings(logs, space, false) && f.address == address {
      var l :| 0 <= l < |logs| && LaneFinding(logs, l, space, false, f);
      var (now, before) := LaneSides(logs, l, address);
      assert (f.first, f.second) in Pairs(Fold(now), Fold(before));
    }
  }

  lemma LaneIsFound(logs: seq<seq<Sample>>, space: Region, address: nat, l: nat) returns (f: Finding)
    requires RegionOf(address) == Some(space) && l < |logs|
    requires Found(Fold(LaneSides(logs, l, address).0), Fold(LaneSides(logs, l, address).1), false)
    ensures f in SyncFindings(logs, space, false) && f.address == address
  {
    var (now, before) := LaneSides(logs, l, address);
    var p :| p in Pairs(Fold(now), Fold(before)) && Races(p.0, p.1, false);
    f := Finding(space, address, p.0, p.1);
    assert LaneFinding(logs, l, space, false, f);
  }

  /** Every finding is two accesses that happened, by different work items, not both atomic,
      at least one a store. */
  lemma FindingIsReal(logs: seq<seq<Sample>>, space: Region, u: bool, f: Finding)
    requires f in SyncFindings(logs, space, u)
    ensures Sample(f.address, f.first) in Flat(logs) && Sample(f.address, f.second) in Flat(logs)
    ensures f.first in At(Flat(logs), f.address) && f.second in At(Flat(logs), f.address)
    ensures Races(f.first, f.second, u) && f.first.entity != f.second.entity
    ensures !u && f.first.store && f.second.store ==> f.first.data != f.second.data
    ensures (f.first.store || f.second.store) && !(f.first.atomic && f.second.atomic)
  {
    var lane :| 0 <= lane < |logs| && LaneFinding(logs, lane, space, u, f);
    var (now, before) := (At(logs[lane], f.address), At(Flat(logs[..lane]), f.address));
    FoundIsReal(now, before, u, (f.first, f.second));
    AtMembers(logs[lane], f.address, f.first);
    AtMembers(Flat(logs[..lane]), f.address, f.second);
    FlatMembers(logs, Sample(f.address, f.first));
    FlatMembers(logs[..lane], Sample(f.address, f.second));
    var l :| 0 <= l < lane && Sample(f.address, f.second) in logs[..lane][l];
    assert Sample(f.address, f.second) in logs[l];
    FlatMembers(logs, Sample(f.address, f.second));
    AtMembers(Flat(logs), f.address, f.first);
    AtMembers(Flat(logs), f.address, f.second);
  }

  /** The later lane always comes first, so a class found twice at a byte reads the same. */
  lemma SyncOriented(logs: seq<seq<Sample>>, grid: Grid, group: Axes, space: Region, u: bool)
    requires OwnedByLanes(logs, grid, group)
    ensures Oriented(SyncFindings(logs, space, u))
  {
    forall f | f in SyncFindings(logs, space, u)
      ensures f.region == space && f.first.entity.lane > f.second.entity.lane
    {
      LaterLaneFirst(logs, grid, group, space, u, f);
    }
    LaneOrderOrients(SyncFindings(logs, space, u), space);
  }

  lemma LaneOrderOrients(found: iset<Finding>, space: Region)
    requires forall f :: f in found ==> f.region == space && f.first.entity.lane > f.second.entity.lane
    ensures Oriented(found)
  {
    forall f, g | f in found && g in found && Class(f) == Class(g) && f.address == g.address
      ensures Describe(f) == Describe(g)
    {
      AlikeIsSameClass(f, g);
    }
  }

  lemma LaterLaneFirst(logs: seq<seq<Sample>>, grid: Grid, group: Axes, space: Region, u: bool, f: Finding)
    requires OwnedByLanes(logs, grid, group) && f in SyncFindings(logs, space, u)
    ensures f.region == space && f.first.entity.lane > f.second.entity.lane
  {
    var lane :| 0 <= lane < |logs| && LaneFinding(logs, lane, space, u, f);
    FoundIsReal(At(logs[lane], f.address), At(Flat(logs[..lane]), f.address), u, (f.first, f.second));
    MadeByLane(logs, grid, group, lane, f.address, f.first);
    var l := MadeBelow(logs, lane, f.address, f.second);
    MadeByLane(logs, grid, group, l, f.address, f.second);
  }

  lemma MadeByLane(logs: seq<seq<Sample>>, grid: Grid, group: Axes, lane: nat, address: nat, a: RaceAccess)
    requires OwnedByLanes(logs, grid, group) && lane < |logs| && a in At(logs[lane], address)
    ensures a.entity.lane == lane && a.entity.group == group
  {
    AtMembers(logs[lane], address, a);
    assert Sample(address, a).access.entity == EntityOf(grid, group, lane);
  }

  lemma MadeBelow(logs: seq<seq<Sample>>, lane: nat, address: nat, a: RaceAccess) returns (l: nat)
    requires lane <= |logs| && a in At(Flat(logs[..lane]), address)
    ensures l < lane && a in At(logs[l], address)
  {
    AtMembers(Flat(logs[..lane]), address, a);
    FlatMembers(logs[..lane], Sample(address, a));
    l :| 0 <= l < lane && Sample(address, a) in logs[..lane][l];
    assert Sample(address, a) in logs[l];
    AtMembers(logs[l], address, a);
  }

  /** A race between two histories, said of the recorded samples themselves. */
  lemma RaceBySamples(xs: seq<Sample>, ys: seq<Sample>, address: nat, u: bool)
    ensures AnyRace(At(xs, address), At(ys, address), u) <==>
              exists s, t :: s in xs && t in ys && s.address == address == t.address && Races(s.access, t.access, u)
  {
    if AnyRace(At(xs, address), At(ys, address), u) {
      var a, b :| a in At(xs, address) && b in At(ys, address) && Races(a, b, u);
      AtMembers(xs, address, a);
      AtMembers(ys, address, b);
      var (s, t) := (Sample(address, a), Sample(address, b));
      assert s in xs && t in ys;
    }
    if s, t :| s in xs && t in ys && s.address == address == t.address && Races(s.access, t.access, u) {
      AtMembers(xs, address, s.access);
      AtMembers(ys, address, t.access);
    }
  }

  // ----- interleavings

  /** One recorded byte, and the lane that recorded it. */
  datatype Event = Event(lane: nat, sample: Sample)

  function Own(trace: seq<Event>, lane: nat): seq<Sample> {
    if trace == [] then []
    else
      var last := trace[|trace| - 1];
      Own(trace[..|trace| - 1], lane) + (if last.lane == lane then [last.sample] else [])
  }

  /** The histories of the lanes after an interleaving of their accesses. */
  function LogsOf(trace: seq<Event>, lanes: nat): seq<seq<Sample>> {
    seq(lanes, l requires 0 <= l < lanes => Own(trace, l))
  }

  /** The report depends only on what each lane did, not on how the lanes interleaved or in
      which order the maps gave their bytes out. */
  lemma ReportIgnoresInterleaving(one: seq<Event>, two: seq<Event>, lanes: nat, grid: Grid, group: Axes,
                                  space: Region, u: bool, r1: seq<Finding>, r2: seq<Finding>)
    requires forall l :: 0 <= l < lanes ==> Own(one, l) == Own(two, l)
    requires OwnedByLanes(LogsOf(one, lanes), grid, group)
    requires Summarises(r1, SyncFindings(LogsOf(one, lanes), space, u))
    requires Summarises(r2, SyncFindings(LogsOf(two, lanes), space, u))
    ensures forall d :: d in Described(r1) <==> d in Described(r2)
    ensures forall i, j :: 0 <= i < j < |r1| ==> Described(r1)[i] != Described(r1)[j]
  {
    assert LogsOf(one, lanes) == LogsOf(two, lanes);
    SyncOriented(LogsOf(one, lanes), grid, group, space, u);
    ReportIsDetermined(SyncFindings(LogsOf(one, lanes), space, u), r1, r2);
  }

  // ----- the second level, across groups

  /** A race between the summaries of this group and of all earlier groups. */
  ghost predicate GroupFinding(now: seq<Sample>, before: seq<Sample>, group: Axes, u: bool, f: Finding) {
    && f.region == Global
    && (f.first, f.second) in Pairs(Fold(At(now, f.address)), Fold(At(before, f.address)))
    && f.second.entity.group != group && Races(f.first, f.second, u)
  }

  ghost function GroupFindings(now: seq<Sample>, before: seq<Sample>, group: Axes, u: bool): iset<Finding> {
    iset f: Finding | GroupFinding(now, before, group, u, f)
  }

  /** Every access on the left was made by this group, every access on the right by another. */
  ghost predicate GroupsApart(now: seq<Sample>, before: seq<Sample>, group: Axes) {
    && (forall s :: s in now ==> s.access.entity.group == group)
    && (forall s :: s in before ==> s.access.entity.group != group)
  }

  /** Ending a group finds a race at a global byte exactly when some access of this group and
      some access of an earlier one race there, under the same conditions as within a group. */
  lemma EndGroupIsExact(now: seq<Sample>, before: seq<Sample>, group: Axes, u: bool, address: nat)
    requires GroupsApart(now, before, group)
    ensures u ==> ((exists f :: f in GroupFindings(now, before, group, u) && f.address == address) <==>
                   AnyRace(At(now, address), At(before, address), u))
    ensures (exists f :: f in GroupFindings(now, before, group, u) && f.address == address && f.first.store != f.second.store) <==>
            AnyMixedRace(At(now, address), At(before, address), u)
  {
    var (n, b) := (At(now, address), At(before, address));
    forall x | x in n ensures x.entity.group == group {
      AtMembers(now, address, x);
    }
    forall x | x in b ensures x.entity.group != group {
      AtMembers(before, address, x);
    }
    forall f | f in GroupFindings(now, before, group, u) && f.address == address
      ensures f.first in n && f.second in b && Races(f.first, f.second, u)
    {
      FoundIsReal(n, b, u, (f.first, f.second));
    }
    forall x, y | x in n && y in b && Races(x, y, u) && (u || x.store != y.store)
      ensures exists f :: f in GroupFindings(now, before, group, u) && f.address == address
                && (x.store != y.store ==> f.first.store != f.second.store)
    {
      KeptPairRaces(n, b, u, x, y);
      var p :| p in Pairs(Fold(n), Fold(b)) && p.0.store == x.store && p.1.store == y.store && Races(p.0, p.1, u);
      FoundIsReal(n, b, u, p);
      assert GroupFinding(now, before, group, u, Finding(Global, address, p.0, p.1));
    }
  }

  /** The same of the samples themselves, in whatever order they were handed on. */
  lemma CrossRacesBySamples(all: set<Sample>, now: seq<Sample>, before: seq<Sample>, group: Axes, address: nat)
    requires GroupsApart(now, before, group) && forall s :: s in now <==> s in all
    ensures (exists f :: f in GroupFindings(now, before, group, true) && f.address == address) <==>
              exists s, t :: s in all && t in before && Apart(s, t, address) && (s.access.store || t.access.store)
  {
    EndGroupIsExact(now, before, group, true, address);
    RacesAreConflicts(now, before, address, true);
  }

  lemma GroupSidesSeparate(now: seq<Sample>, before: seq<Sample>, group: Axes, address: nat)
    requires GroupsApart(now, before, group)
    ensures Separate(At(now, address), At(before, address))
  {
    forall x | x in At(now, address) ensures x.entity.group == group {
      AtMembers(now, address, x);
    }
    forall x | x in At(before, address) ensures x.entity.group != group {
      AtMembers(before, address, x);
    }
  }

  lemma PairIsGroupFinding(now: seq<Sample>, before: seq<Sample>, group: Axes, address: nat)
    returns (f: Finding)
    requires GroupsApart(now, before, group) && Found(Fold(At(now, address)), Fold(At(before, address)), false)
    ensures f in GroupFindings(now, before, group, false) && f.address == address
  {
    var (n, b) := (At(now, address), At(before, address));
    var p :| p in Pairs(Fold(n), Fold(b)) && Races(p.0, p.1, false);
    FoundIsReal(n, b, false, p);
    AtMembers(before, address, p.1);
    f := Finding(Global, address, p.0, p.1);
  }

  lemma GroupFindingsAt(now: seq<Sample>, before: seq<Sample>, group: Axes, address: nat)
    requires GroupsApart(now, before, group)
    ensures (exists f :: f in GroupFindings(now, before, group, false) && f.address == address) <==>
            Found(Fold(At(now, address)), Fold(At(before, address)), false)
  {
    if Found(Fold(At(now, address)), Fold(At(before, address)), false) {
      var f := PairIsGroupFinding(now, before, group, address);
    }
    if f :| f in GroupFindings(now, before, group, false) && f.address == address {
      assert (f.first, f.second) in Pairs(Fold(At(now, address)), Fold(At(before, address)));
    }
  }

  /** Writes of the same value not reported: ending a group says nothing of a byte that races
      with earlier groups exactly when no load races with a store, the two kept stores agree,
      and a dropped store disagrees with the kept one across. */
  lemma EndGroupMissesExactly(now: seq<Sample>, before: seq<Sample>, group: Axes, address: nat)
    requires GroupsApart(now, before, group)
    ensures var (n, b) := (At(now, address), At(before, address));
            (AnyRace(n, b, false) && !exists f :: f in GroupFindings(now, before, group, false) && f.address == address) <==>
              !AnyMixedRace(n, b, false) && !KeptStoresRace(n, b) && StoreRacesKept(n, b)
  {
    GroupSidesSeparate(now, before, group, address);
    StoreRaceMissedExactly(At(now, address), At(before, address));
    GroupFindingsAt(now, before, group, address);
  }

  /** Nothing is passed over either where the group and the earlier ones store one value each,
      atomically or plainly alike. */
  lemma SteadyGroupsShow(now: seq<Sample>, before: seq<Sample>, group: Axes, address: nat, atomic: bool)
    requires GroupsApart(now, before, group)
    requires OneValue(At(now, address)) && OneKind(At(now, address), atomic)
    requires OneValue(At(before, address)) && OneKind(At(before, address), atomic)
    ensures (exists f :: f in GroupFindings(now, before, group, false) && f.address == address) <==>
            AnyRace(At(now, address), At(before, address), false)
  {
    GroupSidesSeparate(now, before, group, address);
    SteadySidesShow(At(now, address), At(before, address), atomic);
    GroupFindingsAt(now, before, group, address);
  }

  /** In terms of samples, as within a group: a load against a store always, any two that are not
      both loads with equal writes reported, and with equal writes not reported two stores of
      different values, where each side stores one value and one kind. */
  lemma EndGroupFindsConflicts(now: seq<Sample>, before: seq<Sample>, group: Axes, u: bool, address: nat)
    requires GroupsApart(now, before, group)
    ensures (exists f :: f in GroupFindings(now, before, group, u) && f.address == address && f.first.store != f.second.store) <==>
            (exists s, t :: s in now && t in before && Apart(s, t, address) && s.access.store != t.access.store)
    ensures u ==> ((exists f :: f in GroupFindings(now, before, group, u) && f.address == address) <==>
                   (exists s, t :: s in now && t in before && Apart(s, t, address) && (s.access.store || t.access.store)))
  {
    EndGroupIsExact(now, before, group, u, address);
    MixedRacesAreConflicts(now, before, address, u);
    RacesAreConflicts(now, before, address, u);
  }

  lemma SteadyGroupsConflict(now: seq<Sample>, before: seq<Sample>, group: Axes, address: nat, atomic: bool)
    requires GroupsApart(now, before, group)
    requires OneValue(At(now, address)) && OneKind(At(now, address), atomic)
    requires OneValue(At(before, address)) && OneKind(At(before, address), atomic)
    ensures (exists f :: f in GroupFindings(now, before, group, false) && f.address == address) <==>
              exists s, t :: s in now && t in before && Apart(s, t, address) && (s.access.store || t.access.store)
                && (s.access.store && t.access.store ==> s.access.data != t.access.data)
  {
    SteadyGroupsShow(now, before, group, address, atomic);
    RacesAreConflicts(now, before, address, false);
  }

  /** This group's access always comes first. */
  lemma EndGroupOriented(now: seq<Sample>, before: seq<Sample>, group: Axes, u: bool)
    requires GroupsApart(now, before, group)
    ensures Oriented(GroupFindings(now, before, group, u))
  {
    var found := GroupFindings(now, before, group, u);
    forall f, g | f in found && g in found && Class(f) == Class(g) && f.address == g.address
      ensures Describe(f) == Describe(g)
    {
      AlikeIsSameClass(f, g);
      FoundIsReal(At(now, f.address), At(before, f.address), u, (f.first, f.second));
      FoundIsReal(At(now, g.address), At(before, g.address), u, (g.first, g.second));
      AtMembers(now, f.address, f.first);
      AtMembers(now, g.address, g.first);
    }
  }
}
