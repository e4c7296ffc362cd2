/** Work sizes, work groups and work item ids of one kernel launch.

    Every length and id is a 64-bit unsigned number in the driver. The model keeps
    unbounded numbers, writes the one wrapping product out, and proves that the sums
    stay below 2^64. */
module NdRange {
  import opened Wrappers
  import opened Arithmetic

  const WORD := 0x1_0000_0000_0000_0000
  const MAX_WORK_GROUP_SIZE := 256
  const MAX_WORK_ITEM_SIZE := 256

  /** One number per axis. */
  datatype Axes = Axes(x: nat, y: nat, z: nat) {
    function At(axis: nat): nat
      requires axis < 3
    {
      if axis == 0 then x else if axis == 1 then y else z
    }

    function With(axis: nat, value: nat): Axes
      requires axis < 3
    {
      if axis == 0 then this.(x := value) else if axis == 1 then this.(y := value) else this.(z := value)
    }

    /** The product of the three axes. */
    function Volume(): nat {
      MulNat(x, y);
      MulNat(x * y, z);
      x * y * z
    }

    predicate Positive() { x > 0 && y > 0 && z > 0 }

    predicate Within(limits: Axes) { x < limits.x && y < limits.y && z < limits.z }

    predicate Divides(whole: Axes)
      requires Positive()
    {
      whole.x % x == 0 && whole.y % y == 0 && whole.z % z == 0
    }
  }

  datatype Grid = Grid(dimensions: nat, offset: Axes, global: Axes, local: Axes)

  datatype Entity = Entity(global: Axes, local: Axes, group: Axes, lane: nat)

  datatype GridError =
    | InvalidWorkDimension
    | InvalidGlobalWorkSize
    | InvalidGlobalOffset
    | InvalidWorkGroupSize
    | InvalidWorkItemSize

  /** The checks of a launch, in the order the driver makes them. The work group size is a
      product in 64-bit arithmetic, which wraps. */
  function ValidateGrid(grid: Grid, required: Option<Axes>): Result<(), GridError> {
    if !(1 <= grid.dimensions <= 3) then Failure(InvalidWorkDimension)
    else if !grid.global.Positive() then Failure(InvalidGlobalWorkSize)
    else if OffsetOverflows(grid.offset, grid.global) then Failure(InvalidGlobalOffset)
    else if !grid.local.Positive() || !grid.local.Divides(grid.global) then Failure(InvalidWorkGroupSize)
    else if grid.local.Volume() % WORD > MAX_WORK_GROUP_SIZE then Failure(InvalidWorkGroupSize)
    else if !grid.local.Within(Axes(MAX_WORK_ITEM_SIZE + 1, MAX_WORK_ITEM_SIZE + 1, MAX_WORK_ITEM_SIZE + 1))
    then Failure(InvalidWorkItemSize)
    else if required.Some? && required.value != grid.local then Failure(InvalidWorkGroupSize)
    else Success(())
  }

  predicate OffsetOverflows(offset: Axes, global: Axes) {
    offset.x + global.x >= WORD || offset.y + global.y >= WORD || offset.z + global.z >= WORD
  }

  predicate Accepted(grid: Grid) { ValidateGrid(grid, None).Success? }

  /** What acceptance means, with no wrapping left in it. */
  lemma AcceptedExactly(grid: Grid, required: Option<Axes>)
    ensures ValidateGrid(grid, required).Success? <==>
            && 1 <= grid.dimensions <= 3
            && grid.global.Positive() && grid.local.Positive()
            && !OffsetOverflows(grid.offset, grid.global)
            && grid.local.Divides(grid.global)
            && grid.local.Volume() <= MAX_WORK_GROUP_SIZE
            && (required.Some? ==> required.value == grid.local)
  {
    var l := grid.local;
    if l.Positive() {
      VolumeBounds(l);
      if l.x <= 256 && l.y <= 256 && l.z <= 256 {
        SmallVolume(l.x, l.y, l.z);
        DivModUnique(WORD, 0, l.Volume());
      }
    }
  }

  lemma SmallVolume(x: nat, y: nat, z: nat)
    requires x <= 256 && y <= 256 && z <= 256
    ensures 0 <= x * y * z < WORD
  {
    MulNat(x, y);
    MulNat(x * y, z);
    MulMonotone(x, 256, y);
    MulMonotone(x * y, 256 * 256, z);
  }

  lemma VolumeBounds(a: Axes)
    requires a.Positive()
    ensures a.x <= a.Volume() && a.y <= a.Volume() && a.z <= a.Volume()
  {
    MulNat(a.x, a.y);
    MulNat(a.x * a.y, a.z);
  }

  lemma VolumeOfZero(a: Axes)
    requires !a.Positive()
    ensures a.Volume() == 0
  {
    if a.z != 0 {
      assert a.x * a.y == 0;
    }
  }

  function WorkGroupCount(grid: Grid): Axes
    requires grid.local.Positive()
  {
    Axes(grid.global.x / grid.local.x, grid.global.y / grid.local.y, grid.global.z / grid.local.z)
  }

  /** The place of a lane in its group, x fastest. */
  function ItemOf(local: Axes, lane: nat): Axes
    requires local.Positive()
  {
    Axes(lane % local.x, (lane / local.x) % local.y, Layer(lane, local.x, local.y))
  }

  function Layer(lane: nat, x: nat, y: nat): nat
    requires x > 0 && y > 0
  {
    MulNat(x, y);
    DivMod(lane, x * y);
    lane / (x * y)
  }

  function IdOnAxis(offset: nat, group: nat, local: nat, item: nat): nat {
    MulNat(group, local);
    offset + group * local + item
  }

  function EntityOf(grid: Grid, group: Axes, lane: nat): Entity
    requires grid.local.Positive()
  {
    var local := ItemOf(grid.local, lane);
    Entity(Axes(IdOnAxis(grid.offset.x, group.x, grid.local.x, local.x),
                IdOnAxis(grid.offset.y, group.y, grid.local.y, local.y),
                IdOnAxis(grid.offset.z, group.z, grid.local.z, local.z)),
           local, group, lane)
  }

  predicate OnAxis(offset: nat, global: nat, id: nat) { offset <= id < offset + global }

  /** Ids inside `offset + [0, global)` on every axis. */
  predicate InRange(grid: Grid, id: Axes) {
    && OnAxis(grid.offset.x, grid.global.x, id.x)
    && OnAxis(grid.offset.y, grid.global.y, id.y)
    && OnAxis(grid.offset.z, grid.global.z, id.z)
  }

  /** The lane that sits at a place of its group: the inverse of `ItemOf`. */
  function LaneAt(local: Axes, item: Axes): nat {
    MulNat(item.z, local.y);
    MulNat(item.z * local.y + item.y, local.x);
    (item.z * local.y + item.y) * local.x + item.x
  }

  /** The group and the lane that own an id: the inverse of `EntityOf(..).global`. */
  function OwnerOf(grid: Grid, id: Axes): (Axes, nat)
    requires grid.local.Positive() && InRange(grid, id)
  {
    var (x, y, z) := (id.x - grid.offset.x, id.y - grid.offset.y, id.z - grid.offset.z);
    var l := grid.local;
    (Axes(x / l.x, y / l.y, z / l.z), LaneAt(l, Axes(x % l.x, y % l.y, z % l.z)))
  }

  lemma ItemAtLane(local: Axes, item: Axes)
    requires item.Within(local)
    ensures LaneAt(local, item) < local.Volume()
    ensures local.Positive() && ItemOf(local, LaneAt(local, item)) == item
  {
    var row := item.z * local.y + item.y;
    var low := item.y * local.x + item.x;
    DivModUnique(local.x, row, item.x);
    DivModUnique(local.y, item.z, item.y);
    DigitBound(item.y, local.y, local.x, item.x);
    ThreeDigits(item.z, local.y, item.y, local.x, item.x);
    assert local.x * local.y == local.y * local.x;
    DivModUnique(local.x * local.y, item.z, low);
    DigitBound(item.z, local.z, local.x * local.y, low);
    assert local.z * (local.x * local.y) == local.x * local.y * local.z;
  }

  lemma LaneOfItem(local: Axes, lane: nat)
    requires local.Positive() && lane < local.Volume()
    ensures ItemOf(local, lane).Within(local) && LaneAt(local, ItemOf(local, lane)) == lane
  {
    MulNat(local.x, local.y);
    var (x, row) := (lane % local.x, lane / local.x);
    var (y, z) := (row % local.y, row / local.y);
    DivMod(lane, local.x);
    DivMod(row, local.y);
    DigitBound(y, local.y, local.x, x);
    ThreeDigits(z, local.y, y, local.x, x);
    assert local.y * local.x == local.x * local.y;
    DivModUnique(local.x * local.y, z, y * local.x + x);
    if z >= local.z {
      MulMonotone(local.z, z, local.x * local.y);
      TooFar(local, lane, z, y * local.x + x);
    }
  }

  lemma TooFar(local: Axes, lane: nat, z: nat, low: nat)
    requires local.z * (local.x * local.y) <= z * (local.x * local.y)
    requires lane == z * (local.x * local.y) + low
    ensures lane >= local.Volume()
  {
    assert local.z * (local.x * local.y) == local.x * local.y * local.z;
  }

  /** One axis of the id map: the group's span and the item's place fill the axis exactly. */
  lemma AxisSplit(offset: nat, global: nat, local: nat, group: nat, item: nat)
    requires local > 0 && global % local == 0
    requires group < global / local && item < local
    ensures OnAxis(offset, global, IdOnAxis(offset, group, local, item))
    ensures (IdOnAxis(offset, group, local, item) - offset) / local == group
    ensures (IdOnAxis(offset, group, local, item) - offset) % local == item
  {
    DivModUnique(local, group, item);
    DigitBound(group, global / local, local, item);
    DivMod(global, local);
  }

  lemma AxisJoin(offset: nat, global: nat, local: nat, id: nat)
    requires local > 0 && global % local == 0 && OnAxis(offset, global, id)
    ensures (id - offset) / local < global / local
    ensures IdOnAxis(offset, (id - offset) / local, local, (id - offset) % local) == id
  {
    DivMod(id - offset, local);
    DivMod(global, local);
    if (id - offset) / local >= global / local {
      MulMonotone(global / local, (id - offset) / local, local);
    }
  }

  /** Every work item of an accepted grid has an id inside the requested range, no two
      have the same one, and no sum on the way reaches 2^64. */
  lemma IdsAreInjective(grid: Grid, group: Axes, lane: nat)
    requires Accepted(grid)
    requires group.Within(WorkGroupCount(grid)) && lane < grid.local.Volume()
    ensures var id := EntityOf(grid, group, lane).global;
            InRange(grid, id) && id.Within(Axes(WORD, WORD, WORD)) && OwnerOf(grid, id) == (group, lane)
  {
    AcceptedExactly(grid, None);
    LaneOfItem(grid.local, lane);
    var item := ItemOf(grid.local, lane);
    AxisSplit(grid.offset.x, grid.global.x, grid.local.x, group.x, item.x);
    AxisSplit(grid.offset.y, grid.global.y, grid.local.y, group.y, item.y);
    AxisSplit(grid.offset.z, grid.global.z, grid.local.z, group.z, item.z);
  }

  /** Every id of the range belongs to some work item. */
  lemma IdsAreSurjective(grid: Grid, id: Axes)
    requires Accepted(grid) && InRange(grid, id)
    ensures var (group, lane) := OwnerOf(grid, id);
            && group.Within(WorkGroupCount(grid)) && lane < grid.local.Volume()
            && EntityOf(grid, group, lane).global == id
  {
    AcceptedExactly(grid, None);
    var (x, y, z) := (id.x - grid.offset.x, id.y - grid.offset.y, id.z - grid.offset.z);
    ItemAtLane(grid.local, Axes(x % grid.local.x, y % grid.local.y, z % grid.local.z));
    AxisJoin(grid.offset.x, grid.global.x, grid.local.x, id.x);
    AxisJoin(grid.offset.y, grid.global.y, grid.local.y, id.y);
    AxisJoin(grid.offset.z, grid.global.z, grid.local.z, id.z);
  }

  /** A work item knows its group, its lane, and the place of the lane in the group, and its id is
      offset, groups before it and place, axis by axis. */
  lemma EntityKnowsItself(grid: Grid, group: Axes, lane: nat)
    requires grid.local.Positive() && lane < grid.local.Volume()
    ensures var (e, l) := (EntityOf(grid, group, lane), grid.local);
            && e.group == group && e.lane == lane && e.local.Within(l)
            && lane == (e.local.z * l.y + e.local.y) * l.x + e.local.x
            && e.global.x == grid.offset.x + group.x * l.x + e.local.x
            && e.global.y == grid.offset.y + group.y * l.y + e.local.y
            && e.global.z == grid.offset.z + group.z * l.z + e.local.z
  {
    LaneOfItem(grid.local, lane);
  }

  /** A refusal tells what is wrong, and the first thing that is. */
  lemma RefusedBecause(grid: Grid, required: Option<Axes>)
    requires ValidateGrid(grid, required).Failure?
    ensures match ValidateGrid(grid, required).error
            case InvalidWorkDimension => grid.dimensions == 0 || grid.dimensions > 3
            case InvalidGlobalWorkSize =>
              1 <= grid.dimensions <= 3 && (grid.global.x == 0 || grid.global.y == 0 || grid.global.z == 0)
            case InvalidGlobalOffset =>
              && grid.global.Positive()
              && (grid.offset.x + grid.global.x >= 0x1_0000_0000_0000_0000
                  || grid.offset.y + grid.global.y >= 0x1_0000_0000_0000_0000
                  || grid.offset.z + grid.global.z >= 0x1_0000_0000_0000_0000)
            case InvalidWorkItemSize => grid.local.Positive() && (grid.local.x > 256 || grid.local.y > 256 || grid.local.z > 256)
            case InvalidWorkGroupSize =>
              && grid.global.Positive()
              && (!grid.local.Positive() || !grid.local.Divides(grid.global) || grid.local.Volume() > 256
                  || (required.Some? && required.value != grid.local))
  {
    if grid.local.Positive() && grid.local.Volume() <= 256 {
      DivModUnique(WORD, 0, grid.local.Volume());
    }
  }

  // ----- the order in which groups run

  /** The number of a group, x fastest: (z * counts.y + y) * counts.x + x. */
  function IndexOf(counts: Axes, group: Axes): nat { LaneAt(counts, group) }

  function Row(counts: Axes, z: nat, y: nat): seq<Axes> { seq(counts.x, x requires 0 <= x => Axes(x, y, z)) }

  /** The first `rows` rows of plane `z`. */
  function Plane(counts: Axes, z: nat, rows: nat): seq<Axes> {
    if rows == 0 then [] else Plane(counts, z, rows - 1) + Row(counts, z, rows - 1)
  }

  /** The first `planes` planes, as the nested iteration over z, y and x lists them. */
  function Planes(counts: Axes, planes: nat): seq<Axes> {
    if planes == 0 then [] else Planes(counts, planes - 1) + Plane(counts, planes - 1, counts.y)
  }

  function Groups(counts: Axes): seq<Axes> { Planes(counts, counts.z) }

  lemma PlaneLength(counts: Axes, z: nat, rows: nat)
    ensures |Plane(counts, z, rows)| == rows * counts.x
  {
    if rows > 0 {
      PlaneLength(counts, z, rows - 1);
      assert rows * counts.x == (rows - 1) * counts.x + counts.x;
    }
  }

  lemma PlanesLength(counts: Axes, planes: nat)
    ensures |Planes(counts, planes)| == planes * (counts.y * counts.x)
  {
    if planes > 0 {
      PlanesLength(counts, planes - 1);
      PlaneLength(counts, planes - 1, counts.y);
      var plane := counts.y * counts.x;
      assert planes * plane == (planes - 1) * plane + plane;
    }
  }

  lemma {:induction false} PlaneIndexed(counts: Axes, z: nat, rows: nat, x: nat, y: nat)
    requires y < rows && x < counts.x
    ensures 0 <= y * counts.x + x < |Plane(counts, z, rows)|
    ensures Plane(counts, z, rows)[y * counts.x + x] == Axes(x, y, z)
  {
    DigitBound(y, rows, counts.x, x);
    PlaneLength(counts, z, rows);
    PlaneLength(counts, z, rows - 1);
    if y < rows - 1 {
      PlaneIndexed(counts, z, rows - 1, x, y);
    }
  }

  lemma {:induction false} PlanesIndexed(counts: Axes, planes: nat, group: Axes)
    requires group.z < planes && group.y < counts.y && group.x < counts.x
    ensures IndexOf(counts, group) < |Planes(counts, planes)|
    ensures Planes(counts, planes)[IndexOf(counts, group)] == group
  {
    var plane := counts.y * counts.x;
    var within := group.y * counts.x + group.x;
    PlanesLength(counts, planes);
    PlanesLength(counts, planes - 1);
    DigitBound(group.y, counts.y, counts.x, group.x);
    DigitBound(group.z, planes, plane, within);
    ThreeDigits(group.z, counts.y, group.y, counts.x, group.x);
    assert IndexOf(counts, group) == group.z * plane + within;
    if group.z < planes - 1 {
      PlanesIndexed(counts, planes - 1, group);
    } else {
      PlaneIndexed(counts, group.z, counts.y, group.x, group.y);
    }
  }

  /** The launch runs exactly the groups of the grid, the one with index k in place k. */
  lemma GroupsRunInIndexOrder(counts: Axes)
    ensures |Groups(counts)| == counts.Volume()
    ensures forall k :: 0 <= k < counts.Volume() ==>
              Groups(counts)[k].Within(counts) && IndexOf(counts, Groups(counts)[k]) == k
    ensures forall group: Axes :: group.Within(counts) ==> group in Groups(counts)
  {
    PlanesLength(counts, counts.z);
    assert counts.z * (counts.y * counts.x) == counts.Volume() by {
      assert counts.y * counts.x == counts.x * counts.y;
      assert counts.z * (counts.x * counts.y) == counts.x * counts.y * counts.z;
    }
    forall group: Axes | group.Within(counts) ensures group in Groups(counts) {
      PlanesIndexed(counts, counts.z, group);
    }
    forall k | 0 <= k < counts.Volume()
      ensures Groups(counts)[k].Within(counts) && IndexOf(counts, Groups(counts)[k]) == k
    {
      GroupAtIndex(counts, k);
    }
  }

  lemma GroupAtIndex(counts: Axes, k: nat)
    requires k < counts.Volume() && k < |Groups(counts)|
    ensures Groups(counts)[k].Within(counts) && IndexOf(counts, Groups(counts)[k]) == k
  {
    if !counts.Positive() {
      VolumeOfZero(counts);
    }
    LaneOfItem(counts, k);
    PlanesIndexed(counts, counts.z, ItemOf(counts, k));
  }

  // ----- the local size the driver picks

  ghost predicate LargestDivisor(size: nat, global: nat, budget: nat) {
    && 1 <= size <= budget && size <= global && global % size == 0
    && forall d :: size < d <= budget && d <= global ==> global % d != 0
  }

  /** What is left of the work group limit once the first `axes` sizes are picked. */
  function Budget(local: Axes, axes: nat): nat
    requires axes <= 3 && local.Positive()
  {
    if axes == 0 then MAX_WORK_GROUP_SIZE else Budget(local, axes - 1) / local.At(axes - 1)
  }

  lemma BudgetReads(a: Axes, b: Axes, axes: nat)
    requires axes <= 3 && a.Positive() && b.Positive()
    requires forall i :: 0 <= i < axes ==> a.At(i) == b.At(i)
    ensures Budget(a, axes) == Budget(b, axes)
  {
    if axes > 0 {
      BudgetReads(a, b, axes - 1);
    }
  }

  /** Each axis takes the largest divisor of its size that the limit still allows. */
  method Divide(global: Axes, dimensions: nat) returns (local: Axes)
    requires dimensions <= 3
    ensures local.Positive() && local.Volume() <= MAX_WORK_GROUP_SIZE
    ensures forall i :: 0 <= i < dimensions && global.At(i) > 0 ==>
              LargestDivisor(local.At(i), global.At(i), Budget(local, i))
    ensures forall i :: 0 <= i < 3 && (i >= dimensions || global.At(i) == 0) ==> local.At(i) == 1
  {
    local := Axes(1, 1, 1);
    var budget := MAX_WORK_GROUP_SIZE;
    for index := 0 to dimensions
      invariant Picked(global, local, index, budget)
    {
      var size := LargestUpTo(global.At(index), budget);
      PickNext(global, local, index, budget, size);
      local := local.With(index, size);
      budget := budget / size;
    }
    MulMonotone(1, budget, local.Volume());
  }

  /** The first axes have their sizes, the others still one, and the budget is what is left. */
  ghost predicate Picked(global: Axes, local: Axes, axes: nat, budget: int) {
    && axes <= 3 && local.Positive() && budget >= 1 && budget == Budget(local, axes)
    && (forall i :: 0 <= i < axes && global.At(i) > 0 ==> LargestDivisor(local.At(i), global.At(i), Budget(local, i)))
    && (forall i :: 0 <= i < 3 && (i >= axes || global.At(i) == 0) ==> local.At(i) == 1)
    && local.Volume() * budget <= MAX_WORK_GROUP_SIZE
  }

  lemma PickNext(global: Axes, local: Axes, axes: nat, budget: int, size: nat)
    requires axes < 3 && size >= 1 && Picked(global, local, axes, budget)
    requires if global.At(axes) > 0 then LargestDivisor(size, global.At(axes), budget) else size == 1
    ensures Picked(global, local.With(axes, size), axes + 1, budget / size)
  {
    var after := local.With(axes, size);
    Spend(local, axes, size, budget);
    forall i | 0 <= i <= axes ensures Budget(after, i) == Budget(local, i) {
      BudgetReads(after, local, i);
    }
  }

  method LargestUpTo(global: nat, budget: nat) returns (size: nat)
    requires budget >= 1
    ensures if global > 0 then LargestDivisor(size, global, budget) else size == 1
  {
    size := Min(budget, global);
    while size > 1 && global % size != 0
      invariant global > 0 ==> 1 <= size
      invariant size <= budget && size <= global
      invariant forall d :: size < d <= budget && d <= global ==> global % d != 0
    {
      size := size - 1;
    }
    size := Max(size, 1);
  }

  lemma Spend(local: Axes, index: nat, size: nat, budget: nat)
    requires index < 3 && local.At(index) == 1 && 1 <= size <= budget
    requires local.Volume() * budget <= MAX_WORK_GROUP_SIZE
    ensures 1 <= budget / size
    ensures local.With(index, size).Volume() * (budget / size) <= MAX_WORK_GROUP_SIZE
  {
    Regroup(local, index, size);
    SpendOf(local.Volume(), size, budget);
  }

  lemma SpendOf(v: nat, size: nat, budget: nat)
    requires 1 <= size <= budget
    ensures 1 <= budget / size
    ensures (v * size) * (budget / size) <= v * budget
  {
    var rest := budget / size;
    DivMod(budget, size);
    MulMonotone(rest * size, budget, v);
    Reorder(v, size, rest);
    assert v * budget == budget * v;
  }

  lemma Reorder(a: int, b: int, c: int)
    ensures (a * b) * c == (c * b) * a
  {
  }

  lemma Regroup(local: Axes, index: nat, size: nat)
    requires index < 3 && local.At(index) == 1
    ensures local.With(index, size).Volume() == local.Volume() * size
  {
    if index == 0 {
      ScaleFirst(local.x, local.y, local.z, size);
    } else if index == 1 {
      ScaleSecond(local.x, local.y, local.z, size);
    } else {
      ScaleThird(local.x, local.y, local.z, size);
    }
  }

  lemma ScaleFirst(x: int, y: int, z: int, size: int)
    requires x == 1
    ensures size * y * z == x * y * z * size
  {
    assert x * y == y;
    assert size * y * z == size * (y * z);
  }

  lemma ScaleSecond(x: int, y: int, z: int, size: int)
    requires y == 1
    ensures x * size * z == x * y * z * size
  {
    assert x * y == x;
    assert x * size * z == size * (x * z);
  }

  lemma ScaleThird(x: int, y: int, z: int, size: int)
    requires z == 1
    ensures x * y * size == x * y * z * size
  {
    assert x * y * z == x * y;
  }

  /** The local size of a launch: what the caller asks for, else what the kernel was compiled
      for, else what the driver picks. */
  method Resolve(dimensions: nat, offset: Axes, global: Axes, local: Option<Axes>, required: Option<Axes>)
    returns (grid: Grid)
    requires 1 <= dimensions <= 3
    ensures grid.dimensions == dimensions && grid.offset == offset && grid.global == global
    ensures local.Some? ==> grid.local == local.value
    ensures local.None? && required.Some? ==> grid.local == required.value
    ensures local.None? && required.None? ==> Accepted(grid) == (global.Positive() && !OffsetOverflows(offset, global))
    ensures local.None? && required.None? ==>
              grid.local.Positive() && forall i :: 0 <= i < dimensions && global.At(i) > 0 ==>
                LargestDivisor(grid.local.At(i), global.At(i), Budget(grid.local, i))
  {
    match (local, required) {
      case (Some(asked), _) => grid := Grid(dimensions, offset, global, asked);
      case (None, Some(compiled)) => grid := Grid(dimensions, offset, global, compiled);
      case (None, None) =>
        var picked := Divide(global, dimensions);
        grid := Grid(dimensions, offset, global, picked);
        AcceptedExactly(grid, None);
        if global.Positive() {
          PicksDivide(picked, global, dimensions);
        }
    }
  }

  /** A work group of this size can be cut from the range. */
  predicate Cuts(local: Axes, global: Axes) {
    local.Positive() && local.Divides(global) && local.Volume() <= MAX_WORK_GROUP_SIZE
  }

  /** A launch is accepted exactly when its range is sound and the local size it names, or that
      its kernel was compiled for, cuts it; if both name one they agree, and what the driver
      picks itself always cuts it. */
  method Launch(dimensions: nat, offset: Axes, global: Axes, local: Option<Axes>, required: Option<Axes>)
    returns (answer: Result<Grid, GridError>)
    requires 1 <= dimensions <= 3
    ensures answer.Success? <==>
            && global.Positive() && !OffsetOverflows(offset, global)
            && (local.Some? ==> Cuts(local.value, global) && (required.Some? ==> local == required))
            && (local.None? && required.Some? ==> Cuts(required.value, global))
    ensures answer.Success? ==> answer.value.global == global && answer.value.offset == offset && Cuts(answer.value.local, global)
    ensures answer.Success? && required.Some? ==> answer.value.local == required.value
  {
    var grid := Resolve(dimensions, offset, global, local, required);
    var checked := if local.Some? then required else None;
    AcceptedExactly(grid, checked);
    AcceptedExactly(grid, None);
    var valid := ValidateGrid(grid, checked);
    answer := if valid.Success? then Success(grid) else Failure(valid.error);
  }

  lemma PicksDivide(local: Axes, global: Axes, dimensions: nat)
    requires 1 <= dimensions <= 3 && local.Positive() && global.Positive()
    requires forall i :: 0 <= i < dimensions ==> LargestDivisor(local.At(i), global.At(i), Budget(local, i))
    requires forall i :: dimensions <= i < 3 ==> local.At(i) == 1
    ensures local.Divides(global)
  {
    forall i | 0 <= i < 3 ensures global.At(i) % local.At(i) == 0 {
      if i < dimensions {
        assert LargestDivisor(local.At(i), global.At(i), Budget(local, i));
      }
    }
    assert global.At(0) % local.At(0) == 0 && global.At(1) % local.At(1) == 0 && global.At(2) % local.At(2) == 0;
  }
}
