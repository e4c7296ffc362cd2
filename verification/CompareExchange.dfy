/** The retry loop that makes atomic minimum, maximum and exchange out of compare-exchange, on a
    cell that the platform's own atomics change too. */
module CompareExchange {
  import opened Arithmetic
  import opened Wrappers

  /** What each work item asks of the one cell; a native atomic is any update that the platform
      makes in one go. */
  datatype Op = Minimum(v: int) | Maximum(v: int) | Exchange(v: int) | Native(update: int -> int) {
    function Want(current: int): int {
      match this
      case Minimum(v) => if current < v then current else v
      case Maximum(v) => if current > v then current else v
      case Exchange(v) => v
      case Native(update) => update(current)
    }
  }

  /** Where a work item's call stands: not begun, about to compare-exchange, or returned. */
  datatype Item = Start | Trying(expected: int) | Returned(result: int)

  /** `order` is the history of who succeeded when, `failed` of how often each item failed. */
  datatype State = State(cell: int, items: seq<Item>, order: seq<nat>, failed: seq<nat>)

  /** The item that moves, and what its first, plain read returns: anything at all. */
  datatype Step = Step(item: nat, read: int)

  function CompareExchanged(cell: int, expected: int, want: int): int { if cell == expected then want else cell }

  function Resumed(op: Op, item: Item, cell: int, read: int): (Item, int) {
    match item
    case Start => if op.Native? then (Returned(cell), op.update(cell)) else (Trying(read), cell)
    case Trying(expected) =>
      (if cell == expected then Returned(expected) else Trying(cell),
       CompareExchanged(cell, expected, op.Want(expected)))
    case Returned(_) => (item, cell)
  }

  class Cell {
    var value: int

    method CompareExchange(expected: int, want: int) returns (previous: int)
      modifies this
      ensures previous == old(value) && value == CompareExchanged(old(value), expected, want)
    {
      previous := value;
      if previous == expected {
        value := want;
      }
    }
  }

  /** One call of the macro, up to its next turn. */
  class Call {
    const op: Op
    var item: Item

    method Resume(cell: Cell, read: int)
      modifies this`item, cell
      ensures (item, cell.value) == Resumed(op, old(item), old(cell.value), read)
    {
      match item {
        case Start =>
          if op.Native? {
            item := Returned(cell.value);
            cell.value := op.update(cell.value);
          } else {
            item := Trying(read);
          }
        case Trying(expected) =>
          var previous := cell.CompareExchange(expected, op.Want(expected));
          item := if previous == expected then Returned(expected) else Trying(previous);
        case Returned(_) =>
      }
    }
  }

  predicate Enabled(s: State, step: Step) { step.item < |s.items| == |s.failed| && !s.items[step.item].Returned? }

  function After(ops: seq<Op>, s: State, step: Step): State
    requires Enabled(s, step) && |ops| == |s.items|
  {
    var (i, moved) := (step.item, Resumed(ops[step.item], s.items[step.item], s.cell, step.read));
    State(moved.1, s.items[i := moved.0],
          if moved.0.Returned? then s.order + [i] else s.order,
          if s.items[i].Trying? && moved.0.Trying? then s.failed[i := s.failed[i] + 1] else s.failed)
  }

  function Begin(cell: int, count: nat): State { State(cell, seq(count, _ => Start), [], seq(count, _ => 0)) }

  function Run(ops: seq<Op>, s: State, steps: seq<Step>): Option<State>
    requires |ops| == |s.items|
    decreases |steps|
  {
    if steps == [] then Some(s)
    else if Enabled(s, steps[0]) then Run(ops, After(ops, s, steps[0]), steps[1..])
    else None
  }

  function OpsOf(calls: seq<Call>): seq<Op> { seq(|calls|, i requires 0 <= i < |calls| => calls[i].op) }

  /** Calls that take turns as told do what the machine does. */
  method Play(cell: Cell, calls: seq<Call>, steps: seq<Step>)
    requires forall i, j :: 0 <= i < j < |calls| ==> calls[i] != calls[j]
    requires forall i :: 0 <= i < |calls| ==> calls[i].item == Start
    requires Run(OpsOf(calls), Begin(cell.value, |calls|), steps).Some?
    modifies cell, calls
    ensures var s := Run(OpsOf(calls), Begin(old(cell.value), |calls|), steps).value;
            cell.value == s.cell && |s.items| == |calls| && forall i :: 0 <= i < |calls| ==> calls[i].item == s.items[i]
  {
    ghost var ops := OpsOf(calls);
    ghost var s := Begin(cell.value, |calls|);
    for k := 0 to |steps|
      invariant |s.items| == |calls| && Run(ops, s, steps[k..]) == Run(ops, Begin(old(cell.value), |calls|), steps)
      invariant cell.value == s.cell && forall i :: 0 <= i < |calls| ==> calls[i].item == s.items[i]
    {
      s := After(ops, s, steps[k]);
      calls[steps[k].item].Resume(cell, steps[k].read);
    }
  }

  // ----- one operation at a time

  predicate Within(order: seq<nat>, count: nat) { forall k :: 0 <= k < |order| ==> order[k] < count }

  /** The cell after the operations named by `order`, one after the other. */
  function Serial(ops: seq<Op>, order: seq<nat>, cell: int): int
    requires Within(order, |ops|)
  {
    if order == [] then cell else ops[order[|order| - 1]].Want(Serial(ops, order[..|order| - 1], cell))
  }

  ghost predicate Distinct(order: seq<nat>) { forall i, j :: 0 <= i < j < |order| ==> order[i] != order[j] }

  /** The cell and what was returned are those of the successes taken one at a time. */
  ghost predicate Atomic(ops: seq<Op>, cell: int, s: State) {
    && |s.items| == |ops| == |s.failed| && Distinct(s.order)
    && Within(s.order, |ops|)
    && (forall i: nat :: i < |ops| ==> (s.items[i].Returned? <==> i in s.order))
    && s.cell == Serial(ops, s.order, cell)
    && forall k: nat :: k < |s.order| ==> Replayed(ops, s.order, cell, s.items, k)
  }

  /** The k-th call to succeed returned what it would have, had they come one at a time. */
  predicate Replayed(ops: seq<Op>, order: seq<nat>, cell: int, items: seq<Item>, k: nat)
    requires Within(order, |ops|) && |items| == |ops| && k < |order|
  {
    items[order[k]] == Returned(Serial(ops, order[..k], cell))
  }

  lemma ReplayStays(ops: seq<Op>, order: seq<nat>, cell: int, items: seq<Item>, i: nat, item: Item, k: nat)
    requires Within(order, |ops|) && |items| == |ops| && i < |ops| && k < |order| && order[k] != i
    requires Replayed(ops, order, cell, items, k)
    ensures Replayed(ops, order + [i], cell, items[i := item], k)
  {
    assert (order + [i])[..k] == order[..k];
  }

  /** An item fails once for its first guess and then only after somebody else succeeded. */
  ghost predicate Bounded(s: State) {
    && |s.items| == |s.failed|
    && forall i: nat :: i < |s.items| ==>
         match s.items[i]
         case Start => s.failed[i] == 0
         case Trying(expected) =>
           s.failed[i] <= |s.order| + 1 && (s.failed[i] == |s.order| + 1 ==> s.cell == expected)
         case Returned(_) => s.failed[i] <= |s.order|
  }

  lemma OrderGrows(order: seq<nat>, count: nat, i: nat)
    requires Distinct(order) && Within(order, count) && i < count && i !in order
    ensures Distinct(order + [i]) && Within(order + [i], count) && (order + [i])[..|order|] == order
    ensures forall j: nat :: j in order + [i] <==> j in order || j == i
  {
  }

  lemma ReplaysGrow(ops: seq<Op>, cell: int, s: State, i: nat, order: seq<nat>, items: seq<Item>)
    requires Atomic(ops, cell, s) && i < |ops| && !s.items[i].Returned?
    requires order == s.order + [i] && items == s.items[i := Returned(s.cell)] && Within(order, |ops|)
    ensures forall k: nat :: k < |order| ==> Replayed(ops, order, cell, items, k)
  {
    assert order[..|s.order|] == s.order;
    forall k: nat | k < |s.order| ensures Replayed(ops, order, cell, items, k) {
      assert s.order[k] in s.order;
      ReplayStays(ops, s.order, cell, s.items, i, Returned(s.cell), k);
    }
  }

  /** The call that succeeds joins the order at its end. */
  lemma SuccessAtomic(ops: seq<Op>, cell: int, s: State, i: nat, after: State)
    requires Atomic(ops, cell, s) && i < |ops| && !s.items[i].Returned?
    requires after == State(ops[i].Want(s.cell), s.items[i := Returned(s.cell)], s.order + [i], s.failed)
    ensures Atomic(ops, cell, after)
  {
    OrderGrows(s.order, |ops|, i);
    ReplaysGrow(ops, cell, s, i, after.order, after.items);
  }

  lemma StepAtomic(ops: seq<Op>, cell: int, s: State, step: Step)
    requires Atomic(ops, cell, s) && Enabled(s, step)
    ensures Atomic(ops, cell, After(ops, s, step))
  {
    if After(ops, s, step).items[step.item].Returned? {
      SuccessAtomic(ops, cell, s, step.item, After(ops, s, step));
    } else {
      RetryAtomic(ops, cell, s, step.item, After(ops, s, step));
    }
  }

  lemma RetryAtomic(ops: seq<Op>, cell: int, s: State, i: nat, after: State)
    requires Atomic(ops, cell, s) && i < |ops| && !s.items[i].Returned? && |after.items| == |after.failed| == |ops|
    requires after.cell == s.cell && after.order == s.order
    requires after.items[i].Trying? && after.items == s.items[i := after.items[i]]
    ensures Atomic(ops, cell, after)
  {
    forall k: nat | k < |s.order| ensures Replayed(ops, after.order, cell, after.items, k) {
      assert s.order[k] in s.order && Replayed(ops, s.order, cell, s.items, k);
    }
  }

  lemma StepBounded(ops: seq<Op>, s: State, step: Step)
    requires Bounded(s) && Enabled(s, step) && |ops| == |s.items|
    ensures Bounded(After(ops, s, step))
  {
  }

  lemma {:induction false} RunKeeps(ops: seq<Op>, cell: int, s: State, steps: seq<Step>)
    requires Atomic(ops, cell, s) && Bounded(s) && Run(ops, s, steps).Some?
    ensures Atomic(ops, cell, Run(ops, s, steps).value) && Bounded(Run(ops, s, steps).value)
    decreases |steps|
  {
    if steps != [] {
      StepAtomic(ops, cell, s, steps[0]);
      StepBounded(ops, s, steps[0]);
      RunKeeps(ops, cell, After(ops, s, steps[0]), steps[1..]);
    }
  }

  /** However the calls interleave and whatever the first reads saw, the cell and each returned
      value are those of the calls that have returned, made one at a time in some order. */
  lemma UpdatesAreAtomic(ops: seq<Op>, cell: int, steps: seq<Step>)
    requires Run(ops, Begin(cell, |ops|), steps).Some?
    ensures Atomic(ops, cell, Run(ops, Begin(cell, |ops|), steps).value)
  {
    RunKeeps(ops, cell, Begin(cell, |ops|), steps);
  }

  // ----- every call returns

  lemma {:induction false} DistinctFits(order: seq<nat>, within: set<nat>)
    requires Distinct(order) && forall i :: i in order ==> i in within
    ensures |order| <= |within|
    decreases |order|
  {
    if order != [] {
      var (rest, last) := (order[..|order| - 1], order[|order| - 1]);
      forall i | i in rest ensures i in within - {last} {
        assert i in order;
      }
      DistinctFits(rest, within - {last});
    }
  }

  lemma {:induction false} CountBelow(n: nat) returns (below: set<nat>)
    ensures |below| == n && forall i: nat :: i in below <==> i < n
  {
    if n == 0 {
      below := {};
    } else {
      var fewer := CountBelow(n - 1);
      below := fewer + {n - 1};
    }
  }

  lemma FailuresFit(ops: seq<Op>, cell: int, s: State, i: nat)
    requires Atomic(ops, cell, s) && Bounded(s) && i < |ops|
    ensures s.failed[i] <= |ops|
  {
    var items := CountBelow(|ops|);
    if s.items[i].Trying? {
      DistinctFits(s.order, items - {i});
    } else {
      DistinctFits(s.order, items);
    }
  }

  /** In no run does a call fail more often than there are calls. */
  lemma FailuresBounded(ops: seq<Op>, cell: int, steps: seq<Step>, i: nat)
    requires Run(ops, Begin(cell, |ops|), steps).Some? && i < |ops|
    ensures var s := Run(ops, Begin(cell, |ops|), steps).value; i < |s.failed| && s.failed[i] <= |ops|
  {
    RunKeeps(ops, cell, Begin(cell, |ops|), steps);
    FailuresFit(ops, cell, Run(ops, Begin(cell, |ops|), steps).value, i);
  }

  /** How many turns an item can still take. */
  function TurnsOf(item: Item, failed: nat, count: nat): nat {
    match item
    case Start => count + 2
    case Trying(_) => if failed <= count then count + 1 - failed else 0
    case Returned(_) => 0
  }

  function Turns(items: seq<Item>, failed: seq<nat>, count: nat): nat
    requires |items| == |failed|
  {
    if items == [] then 0 else TurnsOf(items[0], failed[0], count) + Turns(items[1..], failed[1..], count)
  }

  lemma {:induction false} TurnsUpdate(items: seq<Item>, failed: seq<nat>, count: nat, i: nat, item: Item, failures: nat)
    requires |items| == |failed| && i < |items|
    ensures Turns(items[i := item], failed[i := failures], count) + TurnsOf(items[i], failed[i], count)
         == Turns(items, failed, count) + TurnsOf(item, failures, count)
  {
    if i > 0 {
      assert items[i := item][1..] == items[1..][i - 1 := item] && failed[i := failures][1..] == failed[1..][i - 1 := failures];
      TurnsUpdate(items[1..], failed[1..], count, i - 1, item, failures);
    }
  }

  lemma StepTakesATurn(ops: seq<Op>, cell: int, s: State, step: Step)
    requires Atomic(ops, cell, s) && Bounded(s) && Enabled(s, step)
    ensures Turns(After(ops, s, step).items, After(ops, s, step).failed, |ops|) < Turns(s.items, s.failed, |ops|)
  {
    var (i, after) := (step.item, After(ops, s, step));
    StepAtomic(ops, cell, s, step);
    StepBounded(ops, s, step);
    FailuresFit(ops, cell, s, i);
    FailuresFit(ops, cell, after, i);
    TurnsUpdate(s.items, s.failed, |ops|, i, after.items[i], after.failed[i]);
    assert after.failed == s.failed[i := after.failed[i]];
  }

  lemma {:induction false} RunTakesTurns(ops: seq<Op>, cell: int, s: State, steps: seq<Step>)
    requires Atomic(ops, cell, s) && Bounded(s) && Run(ops, s, steps).Some?
    ensures |steps| <= Turns(s.items, s.failed, |ops|)
    decreases |steps|
  {
    if steps != [] {
      StepTakesATurn(ops, cell, s, steps[0]);
      StepAtomic(ops, cell, s, steps[0]);
      StepBounded(ops, s, steps[0]);
      RunTakesTurns(ops, cell, After(ops, s, steps[0]), steps[1..]);
    }
  }

  lemma {:induction false} FreshTurns(items: seq<Item>, failed: seq<nat>, count: nat)
    requires |items| == |failed| && forall i :: 0 <= i < |items| ==> items[i] == Start
    ensures Turns(items, failed, count) == |items| * (count + 2)
  {
    if items != [] {
      FreshTurns(items[1..], failed[1..], count);
      assert |items| * (count + 2) == (count + 2) + |items[1..]| * (count + 2);
    }
  }

  lemma StuckMeansReturned(s: State)
    requires |s.items| == |s.failed| && forall step :: !Enabled(s, step)
    ensures forall i: nat :: i < |s.items| ==> s.items[i].Returned?
  {
    forall i: nat | i < |s.items| ensures s.items[i].Returned? {
      assert !Enabled(s, Step(i, 0));
    }
  }

  /** Every run is finite: N calls take at most N * (N + 2) turns between them, and a run that
      cannot go on has every call returned, each once in the order. */
  lemma EveryRunEnds(ops: seq<Op>, cell: int, steps: seq<Step>)
    requires Run(ops, Begin(cell, |ops|), steps).Some?
    ensures |steps| <= |ops| * (|ops| + 2)
    ensures var s := Run(ops, Begin(cell, |ops|), steps).value;
            (forall step :: !Enabled(s, step)) ==>
              && |s.items| == |ops| && (forall i: nat :: i < |ops| ==> i in s.order && s.items[i].Returned?)
  {
    var (start, s) := (Begin(cell, |ops|), Run(ops, Begin(cell, |ops|), steps).value);
    RunTakesTurns(ops, cell, start, steps);
    FreshTurns(start.items, start.failed, |ops|);
    RunKeeps(ops, cell, start, steps);
    if forall step :: !Enabled(s, step) {
      StuckMeansReturned(s);
    }
  }

  // ----- what the operations come to

  /** The cell ends at the least of what it held and what was offered, in whatever order. */
  lemma {:induction false} MinimumWins(ops: seq<Op>, order: seq<nat>, cell: int)
    requires Within(order, |ops|) && forall k :: 0 <= k < |order| ==> ops[order[k]].Minimum?
    ensures var last := Serial(ops, order, cell);
            && last <= cell && (forall k :: 0 <= k < |order| ==> last <= ops[order[k]].v)
            && (last == cell || exists k :: 0 <= k < |order| && last == ops[order[k]].v)
    decreases |order|
  {
    if order != [] {
      var (rest, last) := (order[..|order| - 1], order[|order| - 1]);
      MinimumWins(ops, rest, cell);
      if Serial(ops, order, cell) != cell && ops[last].v >= Serial(ops, rest, cell) {
        var k :| 0 <= k < |rest| && Serial(ops, rest, cell) == ops[rest[k]].v;
        assert order[k] == rest[k];
      }
      forall k | 0 <= k < |order| ensures Serial(ops, order, cell) <= ops[order[k]].v {
        assert k < |rest| ==> rest[k] == order[k];
      }
    }
  }

  /** So when all calls of a run have returned, the cell holds the least of all that was there. */
  lemma MinimumOfRun(ops: seq<Op>, cell: int, steps: seq<Step>)
    requires Run(ops, Begin(cell, |ops|), steps).Some? && forall i :: 0 <= i < |ops| ==> ops[i].Minimum?
    requires forall step :: !Enabled(Run(ops, Begin(cell, |ops|), steps).value, step)
    ensures var last := Run(ops, Begin(cell, |ops|), steps).value.cell;
            && last <= cell && (forall i :: 0 <= i < |ops| ==> last <= ops[i].v)
            && (last == cell || exists i :: 0 <= i < |ops| && last == ops[i].v)
  {
    var s := Run(ops, Begin(cell, |ops|), steps).value;
    UpdatesAreAtomic(ops, cell, steps);
    EveryRunEnds(ops, cell, steps);
    MinimumWins(ops, s.order, cell);
    forall i: nat | i < |ops| ensures s.cell <= ops[i].v {
      assert i in s.order;
      var k :| 0 <= k < |s.order| && s.order[k] == i;
    }
  }

  /** The cell ends at the greatest of what it held and what was offered, in whatever order. */
  lemma {:induction false} MaximumWins(ops: seq<Op>, order: seq<nat>, cell: int)
    requires Within(order, |ops|) && forall k :: 0 <= k < |order| ==> ops[order[k]].Maximum?
    ensures var last := Serial(ops, order, cell);
            && last >= cell && (forall k :: 0 <= k < |order| ==> last >= ops[order[k]].v)
            && (last == cell || exists k :: 0 <= k < |order| && last == ops[order[k]].v)
    decreases |order|
  {
    if order != [] {
      var (rest, last) := (order[..|order| - 1], order[|order| - 1]);
      MaximumWins(ops, rest, cell);
      if Serial(ops, order, cell) != cell && ops[last].v <= Serial(ops, rest, cell) {
        var k :| 0 <= k < |rest| && Serial(ops, rest, cell) == ops[rest[k]].v;
        assert order[k] == rest[k];
      }
      forall k | 0 <= k < |order| ensures Serial(ops, order, cell) >= ops[order[k]].v {
        assert k < |rest| ==> rest[k] == order[k];
      }
    }
  }

  /** So when all calls of a run have returned, the cell holds the greatest of all that was there. */
  lemma MaximumOfRun(ops: seq<Op>, cell: int, steps: seq<Step>)
    requires Run(ops, Begin(cell, |ops|), steps).Some? && forall i :: 0 <= i < |ops| ==> ops[i].Maximum?
    requires forall step :: !Enabled(Run(ops, Begin(cell, |ops|), steps).value, step)
    ensures var last := Run(ops, Begin(cell, |ops|), steps).value.cell;
            && last >= cell && (forall i :: 0 <= i < |ops| ==> last >= ops[i].v)
            && (last == cell || exists i :: 0 <= i < |ops| && last == ops[i].v)
  {
    var s := Run(ops, Begin(cell, |ops|), steps).value;
    UpdatesAreAtomic(ops, cell, steps);
    EveryRunEnds(ops, cell, steps);
    MaximumWins(ops, s.order, cell);
    forall i: nat | i < |ops| ensures s.cell >= ops[i].v {
      assert i in s.order;
      var k :| 0 <= k < |s.order| && s.order[k] == i;
    }
  }

  function Sum(values: seq<nat>): nat { if values == [] then 0 else Sum(values[..|values| - 1]) + values[|values| - 1] }

  function SumAt(values: seq<nat>, order: seq<nat>): nat
    requires Within(order, |values|)
  {
    if order == [] then 0 else SumAt(values, order[..|order| - 1]) + values[order[|order| - 1]]
  }

  lemma {:induction false} SumWithout(values: seq<nat>, order: seq<nat>, p: nat)
    requires Within(order, |values|) && p < |order|
    ensures SumAt(values, order) == SumAt(values, order[..p] + order[p + 1..]) + values[order[p]]
    decreases |order|
  {
    var last := |order| - 1;
    if p == last {
      assert order[..p] + order[p + 1..] == order[..last];
    } else {
      SumWithout(values, order[..last], p);
      assert (order[..p] + order[p + 1..])[..last - 1] == order[..last][..p] + order[..last][p + 1..];
    }
  }

  lemma {:induction false} SumOfPrefix(values: seq<nat>, order: seq<nat>, last: nat)
    requires Within(order, last) && last <= |values|
    ensures SumAt(values, order) == SumAt(values[..last], order)
    decreases |order|
  {
    if order != [] {
      SumOfPrefix(values, order[..|order| - 1], last);
    }
  }

  ghost predicate Complete(order: seq<nat>, count: nat) {
    Within(order, count) && Distinct(order) && forall i: nat :: i < count ==> i in order
  }

  lemma OrderWithout(order: seq<nat>, p: nat, last: nat)
    requires Complete(order, last + 1) && p < |order| && order[p] == last
    ensures Complete(order[..p] + order[p + 1..], last)
  {
    var rest := order[..p] + order[p + 1..];
    forall k | 0 <= k < |rest| ensures rest[k] < last {
      assert rest[k] == order[if k < p then k else k + 1];
    }
    forall i: nat | i < last ensures i in rest {
      assert i in order;
      var k :| 0 <= k < |order| && order[k] == i;
      assert rest[if k < p then k else k - 1] == i;
    }
  }

  /** Summed in any order that has each index once. */
  lemma {:induction false} SumInAnyOrder(values: seq<nat>, order: seq<nat>)
    requires Complete(order, |values|)
    ensures SumAt(values, order) == Sum(values)
    decreases |values|
  {
    if values != [] {
      var last := |values| - 1;
      assert last in order;
      var p :| 0 <= p < |order| && order[p] == last;
      SumWithout(values, order, p);
      OrderWithout(order, p, last);
      SumOfPrefix(values, order[..p] + order[p + 1..], last);
      SumInAnyOrder(values[..last], order[..p] + order[p + 1..]);
    }
  }

  function Adders(values: seq<nat>, modulus: nat): seq<Op>
    requires modulus > 0
  {
    seq(|values|, i requires 0 <= i < |values| => Native(x => (x + values[i]) % modulus))
  }

  lemma {:induction false} AddsUp(values: seq<nat>, modulus: nat, order: seq<nat>, cell: nat)
    requires 0 <= cell < modulus && Within(order, |values|)
    ensures Serial(Adders(values, modulus), order, cell) == (cell + SumAt(values, order)) % modulus
    decreases |order|
  {
    if order == [] {
      DivModUnique(modulus, 0, cell);
    } else {
      var (rest, last) := (order[..|order| - 1], order[|order| - 1]);
      AddsUp(values, modulus, rest, cell);
      AddMod(cell + SumAt(values, rest), values[last], modulus);
    }
  }

  lemma AddMod(a: nat, b: nat, m: nat)
    requires m > 0
    ensures (a % m + b) % m == (a + b) % m
  {
    DivMod(a, m);
    DivMod(a % m + b, m);
    DivModUnique(m, a / m + (a % m + b) / m, (a % m + b) % m);
  }

  lemma SumOfOrder(values: seq<nat>, modulus: nat, order: seq<nat>, cell: nat)
    requires cell < modulus && Complete(order, |values|)
    ensures Serial(Adders(values, modulus), order, cell) == (cell + Sum(values)) % modulus
  {
    AddsUp(values, modulus, order, cell);
    SumInAnyOrder(values, order);
  }

  /** No addition of a run is lost: when all have returned the cell holds what it held and all
      that was added, at the width it wraps at. */
  lemma SumOfRun(values: seq<nat>, modulus: nat, cell: nat, steps: seq<Step>)
    requires cell < modulus && Run(Adders(values, modulus), Begin(cell, |values|), steps).Some?
    requires forall step :: !Enabled(Run(Adders(values, modulus), Begin(cell, |values|), steps).value, step)
    ensures Run(Adders(values, modulus), Begin(cell, |values|), steps).value.cell == (cell + Sum(values)) % modulus
  {
    var ops := Adders(values, modulus);
    var s := Run(ops, Begin(cell, |values|), steps).value;
    UpdatesAreAtomic(ops, cell, steps);
    EveryRunEnds(ops, cell, steps);
    SumOfOrder(values, modulus, s.order, cell);
  }

  function Offered(ops: seq<Op>, order: seq<nat>): multiset<int>
    requires Within(order, |ops|) && forall k :: 0 <= k < |order| ==> ops[order[k]].Exchange?
  {
    if order == [] then multiset{} else Offered(ops, order[..|order| - 1]) + multiset{ops[order[|order| - 1]].v}
  }

  /** What the calls return, in the order they succeed. */
  function Results(ops: seq<Op>, order: seq<nat>, cell: int): multiset<int>
    requires Within(order, |ops|)
  {
    if order == [] then multiset{}
    else Results(ops, order[..|order| - 1], cell) + multiset{Serial(ops, order[..|order| - 1], cell)}
  }

  /** Exchanges lose no value: what was returned and what the cell holds is what it held and
      what was offered. */
  lemma {:induction false} ExchangeConserves(ops: seq<Op>, order: seq<nat>, cell: int)
    requires Within(order, |ops|) && forall k :: 0 <= k < |order| ==> ops[order[k]].Exchange?
    ensures Results(ops, order, cell) + multiset{Serial(ops, order, cell)} == Offered(ops, order) + multiset{cell}
    decreases |order|
  {
    if order != [] {
      ExchangeConserves(ops, order[..|order| - 1], cell);
    }
  }
}
