/** The race detector of one kernel launch.

    The maps are what the driver keeps. The ghost histories remember every access, and the
    contracts compare what the maps report with what the histories contain. */
module RaceDetector {
  import opened Wrappers
  import opened NdRange
  import opened Addresses
  import opened Records
  import opened RaceReport
  import opened RaceHistory

  datatype MemorySpace = NoSpace | Workgroup | CrossWorkgroup | Both

  /** The samples of one access, a byte each; bytes without data count as zero. */
  function Bytes(entity: Entity, address: nat, size: nat, store: bool, atomic: bool,
                 location: Option<Location>, data: seq<nat>): seq<Sample> {
    seq(size, i requires 0 <= i < size =>
      Sample(address + i, RaceAccess(entity, location, store, atomic, if i < |data| then data[i] else 0)))
  }

  /** Of two accesses that cover a byte, the samples there conflict exactly when they were made by
      different items, not both atomically, and they carry what each access moved there. */
  lemma OverlapConflicts(e: Entity, a: nat, m: nat, stores: bool, atomic: bool, at: Option<Location>, data: seq<nat>,
                         e': Entity, a': nat, m': nat, stores': bool, atomic': bool, at': Option<Location>, data': seq<nat>,
                         address: nat)
    ensures var (xs, ys) := (Bytes(e, a, m, stores, atomic, at, data), Bytes(e', a', m', stores', atomic', at', data'));
            (exists s, t :: s in xs && t in ys && Apart(s, t, address)) <==>
              a <= address < a + m && a' <= address < a' + m' && e != e' && !(atomic && atomic')
    ensures forall s :: s in Bytes(e, a, m, stores, atomic, at, data) && s.address == address ==>
              && s.access.entity == e && s.access.location == at && s.access.store == stores && s.access.atomic == atomic
              && s.access.data == if address - a < |data| then data[address - a] else 0
  {
    var (xs, ys) := (Bytes(e, a, m, stores, atomic, at, data), Bytes(e', a', m', stores', atomic', at', data'));
    if a <= address < a + m && a' <= address < a' + m' {
      assert xs[address - a] in xs && ys[address - a'] in ys;
      if e != e' && !(atomic && atomic') {
        assert Apart(xs[address - a], ys[address - a'], address);
      }
    }
  }

  lemma HoldsInsert(m: ByteMap, samples: seq<Sample>, s: Sample)
    requires Holds(m, samples)
    ensures Holds(m[s.address := Get(m, s.address).Insert(s.access)], samples + [s])
  {
    var after := m[s.address := Get(m, s.address).Insert(s.access)];
    assert (samples + [s])[..|samples|] == samples;
    forall address ensures Get(after, address) == Fold(At(samples + [s], address)) {
      assert Get(m, address) == Fold(At(samples, address));
      FoldSnoc(At(samples, address), s.access);
      assert At(samples, address) + [] == At(samples, address);
    }
  }

  lemma MergeEmpty(r: Record)
    ensures r.Merge(EMPTY) == r && EMPTY.Merge(EMPTY) == EMPTY
  {
  }

  /** The findings that one pair of records gives at one byte; `apart` leaves out pairs whose
      second access was made by that group. */
  ghost function PairFindings(space: Region, address: nat, pairs: seq<(RaceAccess, RaceAccess)>,
                              apart: Option<Axes>, u: bool): iset<Finding> {
    iset f: Finding | f.region == space && f.address == address && (f.first, f.second) in pairs
                      && Counted(f.first, f.second, apart, u)
  }

  predicate Counted(a: RaceAccess, b: RaceAccess, apart: Option<Axes>, u: bool) {
    (apart.Some? ==> b.entity.group != apart.value) && Races(a, b, u)
  }

  /** The findings so far, and those of the first pairs. */
  ghost function FoundWith(found: iset<Finding>, space: Region, address: nat, pairs: seq<(RaceAccess, RaceAccess)>,
                           count: nat, apart: Option<Axes>, u: bool): iset<Finding>
    requires count <= |pairs|
  {
    if count == 0 then found
    else
      var (before, (a, b)) := (FoundWith(found, space, address, pairs, count - 1, apart, u), pairs[count - 1]);
      if Counted(a, b, apart, u) then before + iset{Finding(space, address, a, b)} else before
  }

  lemma {:induction false} FoundWithAll(found: iset<Finding>, space: Region, address: nat,
                                        pairs: seq<(RaceAccess, RaceAccess)>, count: nat, apart: Option<Axes>, u: bool)
    requires count <= |pairs|
    ensures FoundWith(found, space, address, pairs, count, apart, u)
         == found + PairFindings(space, address, pairs[..count], apart, u)
  {
    if count == 0 {
      assert found + PairFindings(space, address, pairs[..0], apart, u) == found;
    } else {
      FoundWithAll(found, space, address, pairs, count - 1, apart, u);
      PairNext(found, space, address, pairs[..count - 1], pairs[count - 1].0, pairs[count - 1].1, apart, u);
      assert pairs[..count] == pairs[..count - 1] + [pairs[count - 1]];
    }
  }

  lemma PairNext(found: iset<Finding>, space: Region, address: nat, pairs: seq<(RaceAccess, RaceAccess)>,
                 a: RaceAccess, b: RaceAccess, apart: Option<Axes>, u: bool)
    ensures found + PairFindings(space, address, pairs + [(a, b)], apart, u)
         == if Counted(a, b, apart, u)
            then (found + PairFindings(space, address, pairs, apart, u)) + iset{Finding(space, address, a, b)}
            else found + PairFindings(space, address, pairs, apart, u)
  {
  }

  /** The list once the findings of the first pairs are in it. */
  function NotedPairs(raced: seq<Finding>, space: Region, address: nat, pairs: seq<(RaceAccess, RaceAccess)>,
                      count: nat, apart: Option<Axes>, u: bool): seq<Finding>
    requires count <= |pairs|
  {
    if count == 0 then raced
    else
      var (before, (a, b)) := (NotedPairs(raced, space, address, pairs, count - 1, apart, u), pairs[count - 1]);
      if Counted(a, b, apart, u) then Inserted(before, Finding(space, address, a, b)) else before
  }

  /** Whatever an insertion keeps, noting pairs keeps. */
  lemma {:induction false} NotedKeeps(keeps: (seq<Finding>, iset<Finding>) -> bool, raced: seq<Finding>, found: iset<Finding>,
                                      space: Region, address: nat, pairs: seq<(RaceAccess, RaceAccess)>, count: nat,
                                      apart: Option<Axes>, u: bool)
    requires count <= |pairs| && keeps(raced, found)
    requires forall r, s, f :: keeps(r, s) ==> keeps(Inserted(r, f), s + iset{f})
    ensures keeps(NotedPairs(raced, space, address, pairs, count, apart, u),
                  FoundWith(found, space, address, pairs, count, apart, u))
  {
    if count > 0 {
      NotedKeeps(keeps, raced, found, space, address, pairs, count - 1, apart, u);
    }
  }

  /** Noting the pairs of a byte adds exactly their findings to what the list summarises. */
  lemma NotedSummarises(raced: seq<Finding>, found: iset<Finding>, space: Region, address: nat,
                        pairs: seq<(RaceAccess, RaceAccess)>, apart: Option<Axes>, u: bool)
    requires Summarises(raced, found)
    ensures Summarises(NotedPairs(raced, space, address, pairs, |pairs|, apart, u),
                       found + PairFindings(space, address, pairs, apart, u))
  {
    var keeps := (r, s) => Summarises(r, s);
    forall r, s, f | keeps(r, s) ensures keeps(Inserted(r, f), s + iset{f}) {
      InsertedSummarises(r, s, f);
    }
    NotedKeeps(keeps, raced, found, space, address, pairs, |pairs|, apart, u);
    FoundWithAll(found, space, address, pairs, |pairs|, apart, u);
    assert pairs[..|pairs|] == pairs;
  }

  method NotePairs(report: Report, space: Region, address: nat, pairs: seq<(RaceAccess, RaceAccess)>,
                   apart: Option<Axes>, u: bool)
    modifies report
    ensures report.raced == NotedPairs(old(report.raced), space, address, pairs, |pairs|, apart, u)
  {
    for i := 0 to |pairs|
      invariant report.raced == NotedPairs(old(report.raced), space, address, pairs, i, apart, u)
    {
      var (a, b) := pairs[i];
      if Counted(a, b, apart, u) {
        report.Insert(Finding(space, address, a, b));
      }
    }
  }

  ghost function GlobalPart(bytes: seq<Sample>): set<Sample> {
    set s | s in bytes && RegionOf(s.address) == Some(Global)
  }

  lemma InsertNext(m: ByteMap, log: seq<Sample>, bytes: seq<Sample>, index: nat, s: Sample)
    requires index < |bytes| && bytes[index] == s && Holds(m, log + bytes[..index])
    ensures Holds(m[s.address := Get(m, s.address).Insert(s.access)], log + bytes[..index + 1])
  {
    HoldsInsert(m, log + bytes[..index], s);
    assert log + bytes[..index] + [s] == log + bytes[..index + 1];
  }

  method InsertBytes(held: ByteMap, entity: Entity, address: nat, size: nat, store: bool, atomic: bool,
                     location: Option<Location>, data: seq<nat>, ghost log: seq<Sample>) returns (grown: ByteMap)
    requires Holds(held, log)
    ensures Holds(grown, log + Bytes(entity, address, size, store, atomic, location, data))
  {
    ghost var bytes := Bytes(entity, address, size, store, atomic, location, data);
    grown := held;
    assert log + bytes[..0] == log;
    for index := 0 to size
      invariant Holds(grown, log + bytes[..index])
    {
      var access := RaceAccess(entity, location, store, atomic, if index < |data| then data[index] else 0);
      InsertNext(grown, log, bytes, index, Sample(address + index, access));
      grown := grown[address + index := Get(grown, address + index).Insert(access)];
    }
    assert bytes[..size] == bytes;
  }

  /** The running merge summarises the lanes gone through, byte by byte. */
  ghost predicate MergedTo(merged: ByteMap, logs: seq<seq<Sample>>, lane: nat, space: Region)
    requires lane <= |logs|
  {
    forall a :: MergedAt(merged, logs, lane, space, a)
  }

  ghost predicate MergedAt(merged: ByteMap, logs: seq<seq<Sample>>, lane: nat, space: Region, a: nat)
    requires lane <= |logs|
  {
    RegionOf(a) == Some(space) ==> Get(merged, a) == Fold(At(Flat(logs[..lane]), a))
  }

  /** The group's summary has taken in the lanes gone through. */
  ghost predicate GrownTo(grown: ByteMap, groupLog: seq<Sample>, logs: seq<seq<Sample>>, lane: nat, space: Region)
    requires lane <= |logs|
  {
    forall a :: Get(grown, a) == Fold(At(groupLog, a) + Handed(logs, lane, space, a))
  }

  /** One byte of one lane: its races with earlier lanes, and its place in the running merges. */
  method SyncByte(report: Report, space: Region, u: bool, held: ByteMap, address: nat, merged: ByteMap, grown: ByteMap,
                  ghost logs: seq<seq<Sample>>, ghost lane: nat, ghost done: set<nat>, ghost next: set<nat>,
                  ghost mergedWas: ByteMap, ghost grownWas: ByteMap)
    returns (merged': ByteMap, grown': ByteMap)
    requires lane < |logs| && Holds(held, logs[lane]) && MergedTo(mergedWas, logs, lane, space)
    requires address in held && RegionOf(address) == Some(space) && address !in done && next == done + {address}
    requires Summarises(report.raced, FoundSoFar(logs, lane, done, space, u))
    requires Merges(merged, mergedWas, held, done) && Merges(grown, grownWas, held, if space == Global then done else {})
    modifies report
    ensures Summarises(report.raced, FoundSoFar(logs, lane, next, space, u))
    ensures Merges(merged', mergedWas, held, next) && Merges(grown', grownWas, held, if space == Global then next else {})
  {
    var record := held[address];
    var before := Get(merged, address);
    assert record == Get(held, address) && MergedAt(mergedWas, logs, lane, space, address);
    assert Get(merged, address) == Merged(mergedWas, held, done, address);
    NotedSummarises(report.raced, FoundSoFar(logs, lane, done, space, u), space, address, Pairs(record, before), None, u);
    NotePairs(report, space, address, Pairs(record, before), None, u);
    FoundNext(logs, lane, done, space, u, address, Pairs(record, before));
    MergedNext(mergedWas, merged, held, done, address);
    merged', grown' := merged[address := before.Merge(record)], grown;
    if space == Global {
      MergedNext(grownWas, grown, held, done, address);
      grown' := grown[address := Get(grown, address).Merge(record)];
    }
  }

  /** The part of a synchronisation that one lane does: its bytes come in any order. */
  method SyncLane(report: Report, space: Region, u: bool, held: ByteMap, merged: ByteMap, grown: ByteMap,
                  ghost logs: seq<seq<Sample>>, ghost groupLog: seq<Sample>, ghost lane: nat, ghost next: nat)
    returns (merged': ByteMap, grown': ByteMap)
    requires lane < |logs| && next == lane + 1 && Holds(held, logs[lane])
    requires Summarises(report.raced, FoundBelow(logs, lane, space, u))
    requires MergedTo(merged, logs, lane, space) && GrownTo(grown, groupLog, logs, lane, space)
    modifies report
    ensures Summarises(report.raced, FoundBelow(logs, next, space, u))
    ensures MergedTo(merged', logs, next, space) && GrownTo(grown', groupLog, logs, next, space)
  {
    merged', grown' := merged, grown;
    var todo := set a | a in held && RegionOf(a) == Some(space);
    ghost var (taken, done) := (todo, {});
    NothingTaken(logs, lane, space, u);
    while todo != {}
      invariant done + todo == taken && done !! todo
      invariant Summarises(report.raced, FoundSoFar(logs, lane, done, space, u))
      invariant Merges(merged', merged, held, done) && Merges(grown', grown, held, if space == Global then done else {})
      decreases todo
    {
      var address :| address in todo;
      ghost var more := done + {address};
      assert address in taken;
      merged', grown' := SyncByte(report, space, u, held, address, merged', grown', logs, lane, done, more, merged, grown);
      todo, done := todo - {address}, more;
    }
    LaneDone(logs, lane, space, u, held, taken);
    LaneMerged(logs, lane, space, held, merged, merged', taken);
    LaneGrown(groupLog, logs, lane, space, held, grown, grown', taken, next);
  }

  method SyncLanes(space: Region, u: bool, lanes: seq<ByteMap>, groupGlobal: ByteMap,
                   ghost logs: seq<seq<Sample>>, ghost groupLog: seq<Sample>)
    returns (raced: seq<Finding>, kept: seq<ByteMap>, grown: ByteMap)
    requires AllHold(lanes, logs) && Holds(groupGlobal, groupLog)
    ensures Summarises(raced, SyncFindings(logs, space, u))
    ensures |kept| == |logs| && forall l :: 0 <= l < |logs| ==> Holds(kept[l], Kept(logs[l], space, false))
    ensures GrownTo(grown, groupLog, logs, |logs|, space)
  {
    var report := new Report();
    var merged: ByteMap := map[];
    kept, grown := [], groupGlobal;
    var lane := 0;
    SyncBegins(groupLog, logs, space, u, groupGlobal);
    while lane < |lanes|
      invariant lane == |kept| <= |lanes|
      invariant Summarises(report.raced, FoundBelow(logs, lane, space, u))
      invariant MergedTo(merged, logs, lane, space)
      invariant GrownTo(grown, groupLog, logs, lane, space)
      invariant forall l :: 0 <= l < lane ==> kept[l] == OutsideOf(lanes[l], space)
    {
      var next := lane + 1;
      assert Holds(lanes[lane], logs[lane]);
      merged, grown := SyncLane(report, space, u, lanes[lane], merged, grown, logs, groupLog, lane, next);
      kept := kept + [OutsideOf(lanes[lane], space)];
      lane := next;
    }
    AllLanesFound(logs, space, u);
    AllOutsideHold(lanes, logs, kept, space);
    raced := report.raced;
  }

  ghost predicate AllHold(lanes: seq<ByteMap>, logs: seq<seq<Sample>>) {
    |logs| == |lanes| && forall l :: 0 <= l < |lanes| ==> Holds(lanes[l], logs[l])
  }

  ghost predicate GlobalsOf(samples: seq<Sample>, group: Axes) {
    forall s :: s in samples ==> s.access.entity.group == group && RegionOf(s.address) == Some(Global)
  }

  ghost predicate MadeBy(samples: seq<Sample>, groups: set<Axes>) {
    forall s :: s in samples ==> s.access.entity.group in groups
  }

  /** The set holds every global access of the group, synchronised or not. */
  ghost predicate Collected(all: set<Sample>, groupLog: seq<Sample>, logs: seq<seq<Sample>>) {
    forall s :: s in all <==> RegionOf(s.address) == Some(Global) && (s in groupLog || s in Flat(logs))
  }

  /** The maps hold what the histories say, and the histories say whose accesses they are. */
  ghost predicate Books(grid: Grid, lanes: seq<ByteMap>, groupGlobal: ByteMap, kernelGlobal: ByteMap, group: Axes,
                        logs: seq<seq<Sample>>, groupLog: seq<Sample>, kernelLog: seq<Sample>,
                        thisGroup: set<Sample>, ended: set<Axes>)
  {
    && AllHold(lanes, logs)
    && Holds(groupGlobal, groupLog) && Holds(kernelGlobal, kernelLog)
    && OwnedByLanes(logs, grid, group)
    && GlobalsOf(groupLog, group) && MadeBy(kernelLog, ended)
    && Collected(thisGroup, groupLog, logs)
  }

  /** Compares a group's bytes with those of earlier groups, in any order, and merges them in. */
  method CompareBytes(merged: ByteMap, kernel: ByteMap, group: Axes, u: bool,
                      ghost now: seq<Sample>, ghost before: seq<Sample>)
    returns (raced: seq<Finding>, grown: ByteMap)
    requires Holds(merged, now) && Holds(kernel, before)
    ensures Summarises(raced, GroupFindings(now, before, group, u)) && Holds(grown, before + now)
  {
    var report := new Report();
    grown := kernel;
    var todo := merged.Keys;
    while todo != {}
      invariant fresh(report) && todo <= merged.Keys
      invariant Summarises(report.raced, CrossSoFar(now, before, merged.Keys - todo, group, u))
      invariant Merges(grown, kernel, merged, merged.Keys - todo)
      decreases todo
    {
      var address :| address in todo;
      var record := merged[address];
      var entry := Get(grown, address);
      assert record == Get(merged, address) && entry == Get(kernel, address);
      NotedSummarises(report.raced, CrossSoFar(now, before, merged.Keys - todo, group, u), Global, address,
                      Pairs(record, entry), Some(group), u);
      NotePairs(report, Global, address, Pairs(record, entry), Some(group), u);
      CrossNext(now, before, merged.Keys - todo, group, u, address, Pairs(record, entry));
      MergedNext(kernel, grown, merged, merged.Keys - todo, address);
      assert merged.Keys - (todo - {address}) == merged.Keys - todo + {address};
      grown := grown[address := entry.Merge(record)];
      todo := todo - {address};
    }
    assert merged.Keys - todo == merged.Keys;
    GroupDone(merged, now, before, group, u);
    KernelMerged(kernel, merged, grown, now, before);
    raced := report.raced;
  }

  /** What is left of a lane's records once some address spaces are synchronised. */
  function Unsynced(log: seq<Sample>, local: bool, global: bool): seq<Sample> {
    var rest := if local then Kept(log, Local, false) else log;
    if global then Kept(rest, Global, false) else rest
  }

  class RaceDetector {
    const races: bool
    const uniformWrites: bool
    ghost const grid: Grid

    var lanes: seq<ByteMap>
    var groupGlobal: ByteMap
    var kernelGlobal: ByteMap
    var group: Axes

    /** What each lane recorded since the last synchronisation of each address space. */
    ghost var logs: seq<seq<Sample>>
    /** What this group's synchronisations handed on, and what earlier groups left. */
    ghost var groupLog: seq<Sample>
    ghost var kernelLog: seq<Sample>
    /** Every global access of this group so far, and the groups that have ended. */
    ghost var thisGroup: set<Sample>
    ghost var ended: set<Axes>

    ghost predicate Valid()
      reads this
    {
      Books(grid, lanes, groupGlobal, kernelGlobal, group, logs, groupLog, kernelLog, thisGroup, ended)
    }

    constructor (races: bool, uniformWrites: bool, lanes: nat, ghost grid: Grid)
      requires grid.local.Positive()
      ensures Valid() && this.races == races && this.uniformWrites == uniformWrites && this.grid == grid
      ensures |this.lanes| == lanes && kernelLog == [] && ended == {}
    {
      this.races := races;
      this.uniformWrites := uniformWrites;
      this.grid := grid;
      this.lanes := seq(lanes, _ => map[]);
      groupGlobal := map[];
      kernelGlobal := map[];
      group := Axes(0, 0, 0);
      logs := seq(lanes, _ => []);
      groupLog := [];
      kernelLog := [];
      thisGroup := {};
      ended := {};
      new;
      EmptyBooks(this.lanes, this.logs, grid, this.group, map[], [], {});
    }

    method BeginGroup(group: Axes)
      requires Valid()
      modifies this
      ensures Valid() && this.group == group && |lanes| == old(|lanes|)
      ensures thisGroup == {} && groupLog == [] && Flat(logs) == []
      ensures kernelLog == old(kernelLog) && ended == old(ended)
    {
      ghost var (books, recorded) := (lanes, logs);
      this.group := group;
      lanes := seq(|lanes|, _ => map[]);
      groupGlobal := map[];
      logs := seq(|lanes|, _ => []);
      BooksReopened(grid, books, old(groupGlobal), kernelGlobal, old(this.group), recorded, groupLog, kernelLog, thisGroup, ended,
                    lanes, logs, group);
      groupLog := [];
      thisGroup := {};
    }

    /** Notes an access of the running group, byte by byte; other regions and unknown lanes
        are not watched. */
    method Record(entity: Entity, address: nat, size: nat, store: bool, atomic: bool,
                  location: Option<Location>, data: seq<nat>)
      requires Valid() && entity == EntityOf(grid, group, entity.lane)
      modifies this
      ensures Valid() && group == old(group) && |lanes| == old(|lanes|)
      ensures groupLog == old(groupLog) && kernelLog == old(kernelLog) && ended == old(ended)
      ensures var watched := races && RegionOf(address) in {Some(Global), Some(Local)} && entity.lane < |lanes|;
              var bytes := Bytes(entity, address, size, store, atomic, location, data);
              && logs == (if watched then old(logs)[entity.lane := old(logs)[entity.lane] + bytes] else old(logs))
              && thisGroup == old(thisGroup)
                 + (if watched then GlobalPart(bytes) else {})
    {
      if !races || (RegionOf(address) != Some(Global) && RegionOf(address) != Some(Local)) {
        return;
      }
      var lane := entity.lane;
      if lane >= |lanes| {
        return;
      }
      ghost var bytes := Bytes(entity, address, size, store, atomic, location, data);
      RecordMembers(logs, lane, bytes);
      RecordOwned(logs, grid, group, lane, bytes);
      var grown := InsertBytes(lanes[lane], entity, address, size, store, atomic, location, data, logs[lane]);
      lanes := lanes[lane := grown];
      logs := logs[lane := logs[lane] + bytes];
      thisGroup := thisGroup + GlobalPart(bytes);
    }

    /** Reports the races of one address space since its last synchronisation, and forgets
        the accesses it compared. */
    method Sync(space: Region) returns (raced: seq<Finding>)
      requires Valid() && space in {Global, Local}
      modifies this
      ensures Valid() && group == old(group) && |lanes| == old(|lanes|)
      ensures Summarises(raced, SyncFindings(old(logs), space, uniformWrites))
      ensures forall l :: 0 <= l < |logs| ==> logs[l] == Kept(old(logs)[l], space, false)
      ensures groupLog == old(groupLog) + (if space == Global then Kept(Flat(old(logs)), Global, true) else [])
      ensures thisGroup == old(thisGroup) && kernelLog == old(kernelLog) && ended == old(ended)
    {
      ghost var (was, before) := (logs, groupLog);
      var kept, grown;
      raced, kept, grown := SyncLanes(space, uniformWrites, lanes, groupGlobal, was, before);
      lanes := kept;
      groupGlobal := grown;
      logs := seq(|was|, l requires 0 <= l < |was| => Kept(was[l], space, false));
      if space == Global {
        groupLog := groupLog + Kept(Flat(was), Global, true);
      }
      HandedOn(grown, before, was, space);
      SyncKeepsBooks(was, logs, before, groupLog, space, grid, group, thisGroup);
    }

    /** A work group barrier synchronises the address spaces it names. */
    method Barrier(space: MemorySpace) returns (diagnostics: seq<Finding>)
      requires Valid()
      modifies this
      ensures Valid() && group == old(group) && |lanes| == old(|lanes|)
      ensures thisGroup == old(thisGroup) && kernelLog == old(kernelLog) && ended == old(ended)
      ensures !races ==> diagnostics == [] && logs == old(logs)
      ensures races ==> Covers(diagnostics, old(logs), space in {Workgroup, Both}, space in {CrossWorkgroup, Both}, uniformWrites)
      ensures races ==> forall l :: 0 <= l < |logs| ==>
                logs[l] == Unsynced(old(logs)[l], space in {Workgroup, Both}, space in {CrossWorkgroup, Both})
    {
      diagnostics := [];
      if !races || space.NoSpace? {
        NothingToSync(logs, uniformWrites);
        return;
      }
      ghost var was := logs;
      var local, global: seq<Finding> := [], [];
      if space.Workgroup? || space.Both? {
        local := Sync(Local);
      }
      LocalLeavesGlobal(was, logs, uniformWrites);
      if space.CrossWorkgroup? || space.Both? {
        global := Sync(Global);
      }
      diagnostics := local + global;
      assert Covering(diagnostics, local, global, was, space in {Workgroup, Both}, space in {CrossWorkgroup, Both}, uniformWrites);
    }

    /** The last synchronisation of a group, and the comparison with the groups before it. */
    method EndGroup() returns (within: seq<Finding>, across: seq<Finding>)
      requires Valid() && group !in ended
      modifies this
      ensures Valid() && group == old(group) && |lanes| == old(|lanes|)
      ensures races ==> Covers(within, old(logs), true, true, uniformWrites)
      ensures races ==> exists now ::
                && (forall s :: s in now <==> s in old(thisGroup))
                && GroupsApart(now, old(kernelLog), group)
                && Summarises(across, GroupFindings(now, old(kernelLog), group, uniformWrites))
                && kernelLog == old(kernelLog) + now
      ensures races ==> ended == old(ended) + {group}
      ensures races ==> forall l :: 0 <= l < |logs| ==> logs[l] == Kept(Kept(old(logs)[l], Local, false), Global, false)
      ensures !races ==> within == [] && across == [] && logs == old(logs) && kernelLog == old(kernelLog)
    {
      within, across := [], [];
      if !races {
        return;
      }
      ghost var was := logs;
      var local := Sync(Local);
      LocalLeavesGlobal(was, logs, uniformWrites);
      ghost var middle := logs;
      var global := Sync(Global);
      within := local + global;
      assert Covering(within, local, global, was, true, true, uniformWrites);
      GlobalDrained(middle, logs);
      ghost var now := groupLog;
      across := CompareGroups();
    }

    /** Compares the group's summary with the summary of all earlier groups, then adds it. */
    method CompareGroups() returns (raced: seq<Finding>)
      requires Valid() && group !in ended
      requires forall s :: s in Flat(logs) ==> RegionOf(s.address) != Some(Global)
      modifies this
      ensures Valid() && group == old(group) && lanes == old(lanes) && logs == old(logs)
      ensures Summarises(raced, GroupFindings(old(groupLog), old(kernelLog), group, uniformWrites))
      ensures GroupsApart(old(groupLog), old(kernelLog), group)
      ensures kernelLog == old(kernelLog) + old(groupLog) && groupLog == [] && thisGroup == {}
      ensures ended == old(ended) + {group}
    {
      var grown;
      raced, grown := CompareBytes(groupGlobal, kernelGlobal, group, uniformWrites, groupLog, kernelLog);
      kernelGlobal := grown;
      groupGlobal := map[];
      kernelLog := kernelLog + groupLog;
      groupLog := [];
      thisGroup := {};
      ended := ended + {group};
    }

    method EndKernel()
      requires Valid()
      modifies this
      ensures Valid() && kernelLog == [] && ended == {}
      ensures lanes == old(lanes) && logs == old(logs) && groupLog == old(groupLog) && thisGroup == old(thisGroup)
    {
      kernelGlobal := map[];
      kernelLog := [];
      ended := {};
    }
  }

  // ----- the proofs behind the loops

  ghost function FoundBelow(logs: seq<seq<Sample>>, lane: nat, space: Region, u: bool): iset<Finding>
    requires lane <= |logs|
  {
    iset f: Finding | BelowFinding(logs, lane, space, u, f)
  }

  ghost predicate BelowFinding(logs: seq<seq<Sample>>, lane: nat, space: Region, u: bool, f: Finding)
    requires lane <= |logs|
  {
    exists l :: 0 <= l < lane && LaneFinding(logs, l, space, u, f)
  }

  /** What the first lanes add to the group's summary at one byte. */
  ghost function Handed(logs: seq<seq<Sample>>, lane: nat, space: Region, address: nat): seq<RaceAccess>
    requires lane <= |logs|
  {
    if space == Global && RegionOf(address) == Some(Global) then At(Flat(logs[..lane]), address) else []
  }

  lemma NothingHanded(groupLog: seq<Sample>, logs: seq<seq<Sample>>, space: Region)
    ensures forall a :: At(groupLog, a) + Handed(logs, 0, space, a) == At(groupLog, a)
    ensures forall a :: At(Flat(logs[..0]), a) == []
  {
    assert logs[..0] == [];
  }

  /** Before the first lane there is nothing found, nothing merged and nothing handed on. */
  lemma SyncBegins(groupLog: seq<Sample>, logs: seq<seq<Sample>>, space: Region, u: bool, groupGlobal: ByteMap)
    requires Holds(groupGlobal, groupLog)
    ensures Summarises([], FoundBelow(logs, 0, space, u))
    ensures MergedTo(map[], logs, 0, space) && GrownTo(groupGlobal, groupLog, logs, 0, space)
  {
    NothingHanded(groupLog, logs, space);
    forall a ensures MergedAt(map[], logs, 0, space, a) {
    }
    forall a ensures Get(groupGlobal, a) == Fold(At(groupLog, a) + Handed(logs, 0, space, a)) {
      assert Get(groupGlobal, a) == Fold(At(groupLog, a));
    }
  }

  lemma NothingRecorded(logs: seq<seq<Sample>>)
    requires forall l :: 0 <= l < |logs| ==> logs[l] == []
    ensures Flat(logs) == []
  {
    if logs != [] {
      NothingRecorded(logs[..|logs| - 1]);
    }
  }

  lemma EmptyBooks(lanes: seq<ByteMap>, logs: seq<seq<Sample>>, grid: Grid, group: Axes,
                   kernelGlobal: ByteMap, kernelLog: seq<Sample>, ended: set<Axes>)
    requires |lanes| == |logs| && grid.local.Positive()
    requires forall l :: 0 <= l < |logs| ==> logs[l] == [] && lanes[l] == map[]
    requires Holds(kernelGlobal, kernelLog) && MadeBy(kernelLog, ended)
    ensures Books(grid, lanes, map[], kernelGlobal, group, logs, [], kernelLog, {}, ended) && Flat(logs) == []
  {
    NothingRecorded(logs);
  }

  lemma BooksReopened(grid: Grid, lanes: seq<ByteMap>, groupGlobal: ByteMap, kernelGlobal: ByteMap, group: Axes,
                      logs: seq<seq<Sample>>, groupLog: seq<Sample>, kernelLog: seq<Sample>, thisGroup: set<Sample>,
                      ended: set<Axes>, blank: seq<ByteMap>, nothing: seq<seq<Sample>>, next: Axes)
    requires Books(grid, lanes, groupGlobal, kernelGlobal, group, logs, groupLog, kernelLog, thisGroup, ended)
    requires |blank| == |nothing| && forall l :: 0 <= l < |nothing| ==> nothing[l] == [] && blank[l] == map[]
    ensures Books(grid, blank, map[], kernelGlobal, next, nothing, [], kernelLog, {}, ended) && Flat(nothing) == []
  {
    EmptyBooks(blank, nothing, grid, next, kernelGlobal, kernelLog, ended);
  }

  lemma RecordMembers(logs: seq<seq<Sample>>, lane: nat, bytes: seq<Sample>)
    requires lane < |logs|
    ensures forall s :: s in Flat(logs[lane := logs[lane] + bytes]) <==> s in Flat(logs) || s in bytes
  {
    var after := logs[lane := logs[lane] + bytes];
    forall s ensures s in Flat(after) <==> s in Flat(logs) || s in bytes {
      FlatMembers(after, s);
      FlatMembers(logs, s);
      if s in Flat(logs) {
        var l :| 0 <= l < |logs| && s in logs[l];
        assert s in after[l];
      }
      if s in bytes {
        assert s in after[lane];
      }
    }
  }

  lemma RecordOwned(logs: seq<seq<Sample>>, grid: Grid, group: Axes, lane: nat, bytes: seq<Sample>)
    requires OwnedByLanes(logs, grid, group) && lane < |logs|
    requires forall s :: s in bytes ==> s.access.entity == EntityOf(grid, group, lane)
    ensures OwnedByLanes(logs[lane := logs[lane] + bytes], grid, group)
  {
  }

  lemma FlatNext(logs: seq<seq<Sample>>, lane: nat, a: nat)
    requires lane < |logs|
    ensures At(Flat(logs[..lane + 1]), a) == At(Flat(logs[..lane]), a) + At(logs[lane], a)
  {
    assert logs[..lane + 1][..lane] == logs[..lane];
    AtConcat(Flat(logs[..lane]), logs[lane], a);
  }

  /** The summary of a byte once the bytes in `done` took in the lane's records. */
  function Merged(m: ByteMap, held: ByteMap, done: set<nat>, a: nat): Record {
    if a in done then Get(m, a).Merge(Get(held, a)) else Get(m, a)
  }

  ghost predicate Merges(now: ByteMap, m: ByteMap, held: ByteMap, done: set<nat>) {
    forall a :: Get(now, a) == Merged(m, held, done, a)
  }

  lemma MergedNext(m: ByteMap, now: ByteMap, held: ByteMap, done: set<nat>, address: nat)
    requires Merges(now, m, held, done) && address !in done && address in held
    ensures Merges(now[address := Get(now, address).Merge(held[address])], m, held, done + {address})
  {
    var next := now[address := Get(now, address).Merge(held[address])];
    forall a ensures Get(next, a) == Merged(m, held, done + {address}, a) {
      assert Get(now, a) == Merged(m, held, done, a);
    }
  }

  /** The findings of the earlier lanes, and of this lane at the bytes in `done`. */
  ghost function FoundSoFar(logs: seq<seq<Sample>>, lane: nat, done: set<nat>, space: Region, u: bool): iset<Finding>
    requires lane < |logs|
  {
    iset f: Finding | BelowFinding(logs, lane, space, u, f)
                      || (f.address in done && LaneFinding(logs, lane, space, u, f))
  }

  lemma NothingTaken(logs: seq<seq<Sample>>, lane: nat, space: Region, u: bool)
    requires lane < |logs|
    ensures FoundSoFar(logs, lane, {}, space, u) == FoundBelow(logs, lane, space, u)
  {
  }

  lemma FoundNext(logs: seq<seq<Sample>>, lane: nat, done: set<nat>, space: Region, u: bool, address: nat,
                  pairs: seq<(RaceAccess, RaceAccess)>)
    requires lane < |logs| && RegionOf(address) == Some(space)
    requires pairs == Pairs(Fold(At(logs[lane], address)), Fold(At(Flat(logs[..lane]), address)))
    ensures FoundSoFar(logs, lane, done, space, u) + PairFindings(space, address, pairs, None, u)
         == FoundSoFar(logs, lane, done + {address}, space, u)
  {
    forall f ensures f in PairFindings(space, address, pairs, None, u)
                <==> f.address == address && LaneFinding(logs, lane, space, u, f) {
    }
    forall f ensures f in FoundSoFar(logs, lane, done + {address}, space, u)
                <==> f in FoundSoFar(logs, lane, done, space, u) || f in PairFindings(space, address, pairs, None, u) {
    }
  }

  lemma LaneDone(logs: seq<seq<Sample>>, lane: nat, space: Region, u: bool, held: ByteMap, taken: set<nat>)
    requires lane < |logs| && Holds(held, logs[lane])
    requires taken == set a | a in held && RegionOf(a) == Some(space)
    ensures FoundSoFar(logs, lane, taken, space, u) == FoundBelow(logs, lane + 1, space, u)
  {
    forall f | LaneFinding(logs, lane, space, u, f) ensures f.address in taken {
      assert Get(held, f.address) == Fold(At(logs[lane], f.address));
    }
    forall f ensures BelowFinding(logs, lane + 1, space, u, f)
                <==> BelowFinding(logs, lane, space, u, f) || LaneFinding(logs, lane, space, u, f) {
    }
  }

  lemma LaneMerged(logs: seq<seq<Sample>>, lane: nat, space: Region, held: ByteMap, merged: ByteMap, after: ByteMap,
                   taken: set<nat>)
    requires lane < |logs| && Holds(held, logs[lane])
    requires taken == set a | a in held && RegionOf(a) == Some(space)
    requires MergedTo(merged, logs, lane, space)
    requires Merges(after, merged, held, taken)
    ensures MergedTo(after, logs, lane + 1, space)
  {
    var next := lane + 1;
    forall a ensures MergedAt(after, logs, next, space, a) {
      if RegionOf(a) == Some(space) {
        assert MergedAt(merged, logs, lane, space, a);
        assert Get(after, a) == Merged(merged, held, taken, a);
        assert Get(held, a) == Fold(At(logs[lane], a));
        FlatNext(logs, lane, a);
        FoldMerges(At(Flat(logs[..lane]), a), At(logs[lane], a));
        MergeEmpty(Get(merged, a));
      }
    }
  }

  lemma HandedNext(first: seq<RaceAccess>, logs: seq<seq<Sample>>, lane: nat, a: nat)
    requires lane < |logs|
    ensures Fold(first + At(Flat(logs[..lane + 1]), a))
         == Fold(first + At(Flat(logs[..lane]), a)).Merge(Fold(At(logs[lane], a)))
  {
    FlatNext(logs, lane, a);
    FoldJoins(first, At(Flat(logs[..lane]), a), At(logs[lane], a));
  }

  lemma FoldJoins(first: seq<RaceAccess>, x: seq<RaceAccess>, y: seq<RaceAccess>)
    ensures Fold(first + (x + y)) == Fold(first + x).Merge(Fold(y))
  {
    var joined := first + x;
    assert joined + y == first + (x + y);
    FoldMerges(joined, y);
  }

  lemma LaneGrown(groupLog: seq<Sample>, logs: seq<seq<Sample>>, lane: nat, space: Region, held: ByteMap, grown: ByteMap,
                  after: ByteMap, taken: set<nat>, next: nat)
    requires lane < |logs| && next == lane + 1 && Holds(held, logs[lane])
    requires taken == set a | a in held && RegionOf(a) == Some(space)
    requires GrownTo(grown, groupLog, logs, lane, space)
    requires Merges(after, grown, held, if space == Global then taken else {})
    ensures GrownTo(after, groupLog, logs, next, space)
  {
    forall a ensures Get(after, a) == Fold(At(groupLog, a) + Handed(logs, next, space, a)) {
      assert Get(grown, a) == Fold(At(groupLog, a) + Handed(logs, lane, space, a));
      assert Get(after, a) == Merged(grown, held, if space == Global then taken else {}, a);
      if space == Global && RegionOf(a) == Some(Global) {
        HandedNext(At(groupLog, a), logs, lane, a);
        assert Get(held, a) == Fold(At(logs[lane], a));
        MergeEmpty(Get(grown, a));
      }
    }
  }

  lemma AllLanesFound(logs: seq<seq<Sample>>, space: Region, u: bool)
    ensures FoundBelow(logs, |logs|, space, u) == SyncFindings(logs, space, u)
  {
    forall f ensures BelowFinding(logs, |logs|, space, u, f) <==> SyncFinding(logs, space, u, f) {
    }
  }

  /** What extracting one address space leaves in a lane's map. */
  function OutsideOf(held: ByteMap, space: Region): ByteMap {
    map a | a in held && RegionOf(a) != Some(space) :: held[a]
  }

  lemma OutsideHolds(held: ByteMap, log: seq<Sample>, space: Region)
    requires Holds(held, log)
    ensures Holds(OutsideOf(held, space), Kept(log, space, false))
  {
    forall a ensures Get(OutsideOf(held, space), a) == Fold(At(Kept(log, space, false), a)) {
      AtKept(log, space, false, a);
      assert Get(held, a) == Fold(At(log, a));
    }
  }

  lemma AllOutsideHold(lanes: seq<ByteMap>, logs: seq<seq<Sample>>, kept: seq<ByteMap>, space: Region)
    requires AllHold(lanes, logs) && |kept| == |lanes|
    requires forall l :: 0 <= l < |lanes| ==> kept[l] == OutsideOf(lanes[l], space)
    ensures forall l :: 0 <= l < |logs| ==> Holds(kept[l], Kept(logs[l], space, false))
  {
    forall l | 0 <= l < |logs| ensures Holds(kept[l], Kept(logs[l], space, false)) {
      OutsideHolds(lanes[l], logs[l], space);
    }
  }

  lemma SyncMembers(was: seq<seq<Sample>>, logs: seq<seq<Sample>>, space: Region)
    requires |was| == |logs| && forall l :: 0 <= l < |logs| ==> logs[l] == Kept(was[l], space, false)
    ensures forall l, s :: 0 <= l < |logs| && s in logs[l] ==> s in was[l]
    ensures forall s :: s in Flat(logs) <==> s in Flat(was) && RegionOf(s.address) != Some(space)
    ensures forall s :: s in Kept(Flat(was), space, true) <==> s in Flat(was) && RegionOf(s.address) == Some(space)
  {
    forall l, s | 0 <= l < |logs| && s in logs[l] ensures s in was[l] {
      KeptMembers(was[l], space, false, s);
    }
    forall s ensures s in Flat(logs) <==> s in Flat(was) && RegionOf(s.address) != Some(space) {
      SyncMember(was, logs, space, s);
    }
    forall s ensures s in Kept(Flat(was), space, true) <==> s in Flat(was) && RegionOf(s.address) == Some(space) {
      KeptMembers(Flat(was), space, true, s);
    }
  }

  lemma SyncKeepsBooks(was: seq<seq<Sample>>, logs: seq<seq<Sample>>, groupLog: seq<Sample>, after: seq<Sample>,
                       space: Region, grid: Grid, group: Axes, all: set<Sample>)
    requires |was| == |logs| && forall l :: 0 <= l < |logs| ==> logs[l] == Kept(was[l], space, false)
    requires after == groupLog + (if space == Global then Kept(Flat(was), Global, true) else [])
    requires OwnedByLanes(was, grid, group) && GlobalsOf(groupLog, group) && Collected(all, groupLog, was)
    ensures OwnedByLanes(logs, grid, group) && GlobalsOf(after, group) && Collected(all, after, logs)
  {
    SyncMembers(was, logs, space);
    forall s | s in Flat(was) ensures s.access.entity.group == group {
      FlatMembers(was, s);
      var l :| 0 <= l < |was| && s in was[l];
      assert s.access.entity == EntityOf(grid, group, l);
    }
  }

  lemma SyncMember(was: seq<seq<Sample>>, logs: seq<seq<Sample>>, space: Region, s: Sample)
    requires |was| == |logs| && forall l :: 0 <= l < |logs| ==> logs[l] == Kept(was[l], space, false)
    ensures s in Flat(logs) <==> s in Flat(was) && RegionOf(s.address) != Some(space)
  {
    FlatMembers(logs, s);
    FlatMembers(was, s);
    if s in Flat(logs) {
      var l :| 0 <= l < |logs| && s in logs[l];
      KeptMembers(was[l], space, false, s);
      assert s in was[l];
    }
    if s in Flat(was) && RegionOf(s.address) != Some(space) {
      var l :| 0 <= l < |was| && s in was[l];
      KeptMembers(was[l], space, false, s);
      assert s in logs[l];
    }
  }

  lemma HandedOn(grown: ByteMap, groupLog: seq<Sample>, was: seq<seq<Sample>>, space: Region)
    requires GrownTo(grown, groupLog, was, |was|, space)
    ensures Holds(grown, groupLog + (if space == Global then Kept(Flat(was), Global, true) else []))
  {
    var extra := if space == Global then Kept(Flat(was), Global, true) else [];
    forall a ensures Get(grown, a) == Fold(At(groupLog + extra, a)) {
      AtConcat(groupLog, extra, a);
      AtKept(Flat(was), Global, true, a);
      assert was[..|was|] == was;
    }
  }

  /** What the reports of the synchronised spaces, one after the other, contain. */
  ghost predicate Covers(diagnostics: seq<Finding>, logs: seq<seq<Sample>>, local: bool, global: bool, u: bool) {
    exists l, g :: Covering(diagnostics, l, g, logs, local, global, u)
  }

  ghost predicate Covering(diagnostics: seq<Finding>, l: seq<Finding>, g: seq<Finding>,
                           logs: seq<seq<Sample>>, local: bool, global: bool, u: bool) {
    && diagnostics == l + g
    && (if local then Summarises(l, SyncFindings(logs, Local, u)) else l == [])
    && (if global then Summarises(g, SyncFindings(logs, Global, u)) else g == [])
  }

  lemma NothingToSync(logs: seq<seq<Sample>>, u: bool)
    ensures Covers([], logs, false, false, u)
  {
    assert Covering([], [], [], logs, false, false, u);
  }

  /** Synchronising the local space leaves the findings of the global one alone. */
  lemma LocalLeavesGlobal(was: seq<seq<Sample>>, logs: seq<seq<Sample>>, u: bool)
    requires |was| == |logs|
    requires was == logs || forall l :: 0 <= l < |logs| ==> logs[l] == Kept(was[l], Local, false)
    ensures SyncFindings(logs, Global, u) == SyncFindings(was, Global, u)
  {
    if was != logs {
      forall lane: nat, f: Finding | lane < |logs| && RegionOf(f.address) == Some(Global)
        ensures LaneFinding(logs, lane, Global, u, f) <==> LaneFinding(was, lane, Global, u, f)
      {
        AtKept(was[lane], Local, false, f.address);
        FlatKept(was[..lane], logs[..lane], f.address);
      }
      forall f ensures SyncFinding(logs, Global, u, f) <==> SyncFinding(was, Global, u, f) {
      }
    }
  }

  lemma FlatKept(was: seq<seq<Sample>>, logs: seq<seq<Sample>>, a: nat)
    requires |was| == |logs| && forall l :: 0 <= l < |logs| ==> logs[l] == Kept(was[l], Local, false)
    requires RegionOf(a) == Some(Global)
    ensures At(Flat(logs), a) == At(Flat(was), a)
  {
    if was != [] {
      var last := |was| - 1;
      FlatKept(was[..last], logs[..last], a);
      AtConcat(Flat(was[..last]), was[last], a);
      AtConcat(Flat(logs[..last]), logs[last], a);
      AtKept(was[last], Local, false, a);
    }
  }

  lemma GlobalDrained(middle: seq<seq<Sample>>, logs: seq<seq<Sample>>)
    requires |middle| == |logs| && forall l :: 0 <= l < |logs| ==> logs[l] == Kept(middle[l], Global, false)
    ensures forall s :: s in Flat(logs) ==> RegionOf(s.address) != Some(Global)
  {
    SyncMembers(middle, logs, Global);
  }

  /** The cross-group findings at the bytes in `done`. */
  ghost function CrossSoFar(now: seq<Sample>, before: seq<Sample>, done: set<nat>, group: Axes, u: bool): iset<Finding> {
    iset f: Finding | f.address in done && GroupFinding(now, before, group, u, f)
  }

  lemma CrossNext(now: seq<Sample>, before: seq<Sample>, done: set<nat>, group: Axes, u: bool, address: nat,
                  pairs: seq<(RaceAccess, RaceAccess)>)
    requires pairs == Pairs(Fold(At(now, address)), Fold(At(before, address)))
    ensures CrossSoFar(now, before, done, group, u) + PairFindings(Global, address, pairs, Some(group), u)
         == CrossSoFar(now, before, done + {address}, group, u)
  {
    forall f: Finding
      ensures f in PairFindings(Global, address, pairs, Some(group), u) <==>
              f.address == address && GroupFinding(now, before, group, u, f)
    {
    }
  }

  lemma GroupDone(merged: ByteMap, now: seq<Sample>, before: seq<Sample>, group: Axes, u: bool)
    requires Holds(merged, now)
    ensures CrossSoFar(now, before, merged.Keys, group, u) == GroupFindings(now, before, group, u)
    ensures CrossSoFar(now, before, {}, group, u) == iset{}
  {
    forall f | GroupFinding(now, before, group, u, f) ensures f.address in merged.Keys {
      assert Get(merged, f.address) == Fold(At(now, f.address));
    }
  }

  lemma KernelMerged(kernel: ByteMap, merged: ByteMap, grown: ByteMap, now: seq<Sample>, before: seq<Sample>)
    requires Holds(merged, now) && Holds(kernel, before) && Merges(grown, kernel, merged, merged.Keys)
    ensures Holds(grown, before + now)
  {
    forall a ensures Get(grown, a) == Fold(At(before + now, a)) {
      assert Get(grown, a) == Merged(kernel, merged, merged.Keys, a);
      AtConcat(before, now, a);
      FoldMerges(At(before, a), At(now, a));
      MergeEmpty(Get(kernel, a));
    }
  }
}
