/** Reference counts of contexts, programs, kernels, queues and buffers.

    An object's existence holds one reference to its owner: a sub-buffer to its parent, a
    kernel to its program, everything else but a context to its context. Releasing the last
    reference removes the object and releases its owner, one lock at a time, so calls of
    other threads can come between. */
module RefCounts {
  import opened Wrappers

  datatype Kind = Context | Program | Kernel | Queue | Buffer

  datatype Object = Object(kind: Kind, count: nat, owner: Option<nat>)

  /** `reserved` is what calls in progress retained to hand to a new object or command, `owed`
      what calls in progress are about to release, `pending` the buffers of each command. */
  datatype State = State(
    table: map<nat, Object>,
    users: multiset<nat>,
    reserved: multiset<nat>,
    owed: multiset<nat>,
    pending: seq<seq<nat>>,
    next: nat)

  const START := State(map[], multiset{}, multiset{}, multiset{}, [], 1)

  datatype Step =
    | Retain(id: nat)
    | Reserve(id: nat)
    | CreateContext
    | Create(kind: Kind, owner: nat)
    | CreateSub(parent: nat)
    | Push(buffers: seq<nat>)
    | Finish(command: nat)
    | Release(id: nat)
    | Drop(id: nat)

  /** What an object of this kind may be made from. */
  predicate Owns(owner: Kind, kind: Kind) {
    match kind
    case Context => false
    case Kernel => owner.Program?
    case _ => owner.Context?
  }

  predicate Enabled(s: State, step: Step) {
    match step
    case Retain(id) => id in s.table
    case Reserve(id) => id in s.table
    case CreateContext => true
    case Create(kind, owner) => s.reserved[owner] > 0 && owner in s.table && Owns(s.table[owner].kind, kind)
    case CreateSub(parent) => parent in s.table && s.table[parent].kind.Buffer? && !IsSub(s.table, parent)
    case Push(buffers) => multiset(buffers) <= s.reserved
    case Finish(command) => command < |s.pending|
    case Release(id) => s.users[id] > 0
    case Drop(id) => s.owed[id] > 0
  }

  /** A sub-buffer is owned by another buffer. */
  predicate IsSub(table: map<nat, Object>, id: nat)
    requires id in table
  {
    table[id].owner.Some? && table[id].owner.value in table && table[table[id].owner.value].kind.Buffer?
  }

  function Raised(table: map<nat, Object>, id: nat): map<nat, Object>
    requires id in table
  {
    table[id := table[id].(count := table[id].count + 1)]
  }

  function Inserted(s: State, made: Object): State {
    s.(table := s.table[s.next := made], users := s.users + multiset{s.next}, next := s.next + 1)
  }

  /** One count falls; with the last reference the object goes, and owes one to its owner. */
  function Dropped(s: State, id: nat): State {
    var rest := s.(owed := s.owed - multiset{id});
    if id !in s.table then rest
    else if s.table[id].count > 1 then
      rest.(table := s.table[id := s.table[id].(count := s.table[id].count - 1)])
    else
      var gone := rest.(table := s.table - {id});
      match s.table[id].owner
      case Some(owner) => gone.(owed := gone.owed + multiset{owner})
      case None => gone
  }

  function After(s: State, step: Step): State
    requires Enabled(s, step)
  {
    match step
    case Retain(id) => s.(table := Raised(s.table, id), users := s.users + multiset{id})
    case Reserve(id) => s.(table := Raised(s.table, id), reserved := s.reserved + multiset{id})
    case CreateContext => Inserted(s, Object(Context, 1, None))
    case Create(kind, owner) =>
      Inserted(s.(reserved := s.reserved - multiset{owner}), Object(kind, 1, Some(owner)))
    case CreateSub(parent) => Inserted(s.(table := Raised(s.table, parent)), Object(Buffer, 1, Some(parent)))
    case Push(buffers) => s.(reserved := s.reserved - multiset(buffers), pending := s.pending + [buffers])
    case Finish(command) =>
      s.(pending := s.pending[..command] + s.pending[command + 1..], owed := s.owed + multiset(s.pending[command]))
    case Release(id) => s.(users := s.users - multiset{id}, owed := s.owed + multiset{id})
    case Drop(id) => Dropped(s, id)
  }

  function Run(s: State, steps: seq<Step>): Option<State>
    decreases |steps|
  {
    if steps == [] then Some(s)
    else if Enabled(s, steps[0]) then Run(After(s, steps[0]), steps[1..])
    else None
  }

  ghost predicate Reachable(s: State) { exists steps :: Run(START, steps) == Some(s) }

  // ----- conservation

  function CountOf(table: map<nat, Object>, id: nat): nat { if id in table then table[id].count else 0 }

  function Children(table: map<nat, Object>, id: nat): set<nat> {
    set child | child in table && table[child].owner == Some(id)
  }

  function Occurrences(pending: seq<seq<nat>>, id: nat): nat {
    if pending == [] then 0 else multiset(pending[0])[id] + Occurrences(pending[1..], id)
  }

  /** A count is what users hold, plus live objects owned, plus occurrences in pending
      commands, plus what calls in progress hold; the object exists exactly while that is positive. */
  ghost predicate CountedAt(s: State, id: nat) {
    && CountOf(s.table, id) == s.users[id] + |Children(s.table, id)| + Occurrences(s.pending, id) + s.reserved[id] + s.owed[id]
    && (id in s.table ==> s.table[id].count > 0)
  }

  /** Owners are older than what they own. */
  ghost predicate Ordered(s: State) {
    forall id :: id in s.table ==>
      id < s.next && (s.table[id].owner.Some? ==> s.table[id].owner.value < id && !s.table[id].kind.Context?)
  }

  ghost predicate Conserved(s: State) { Ordered(s) && forall id :: CountedAt(s, id) }

  lemma {:induction false} OccurrencesSplit(left: seq<seq<nat>>, right: seq<seq<nat>>, id: nat)
    ensures Occurrences(left + right, id) == Occurrences(left, id) + Occurrences(right, id)
  {
    if left == [] {
      assert left + right == right;
    } else {
      assert (left + right)[1..] == left[1..] + right;
      OccurrencesSplit(left[1..], right, id);
    }
  }

  lemma RemovalShrinks(pending: seq<seq<nat>>, command: nat, id: nat)
    requires command < |pending|
    ensures Occurrences(pending[..command] + pending[command + 1..], id) + multiset(pending[command])[id]
         == Occurrences(pending, id)
  {
    OccurrencesSplit(pending[..command], pending[command + 1..], id);
    OccurrencesSplit(pending[..command], pending[command..], id);
    assert pending == pending[..command] + pending[command..] && pending[command..][1..] == pending[command + 1..];
  }

  /** A count may change without changing who owns what. */
  lemma SameChildren(table: map<nat, Object>, after: map<nat, Object>, id: nat)
    requires forall x :: x in after <==> x in table
    requires forall x :: x in table ==> after[x].owner == table[x].owner
    ensures Children(after, id) == Children(table, id)
  {
  }

  lemma ChildAdded(table: map<nat, Object>, child: nat, made: Object, id: nat)
    requires child !in table
    ensures |Children(table[child := made], id)| == |Children(table, id)| + (if made.owner == Some(id) then 1 else 0)
  {
    var after := Children(table[child := made], id);
    if made.owner == Some(id) {
      assert after == Children(table, id) + {child};
    } else {
      assert after == Children(table, id);
    }
  }

  lemma ChildRemoved(table: map<nat, Object>, child: nat, id: nat)
    requires child in table
    ensures |Children(table - {child}, id)| + (if table[child].owner == Some(id) then 1 else 0) == |Children(table, id)|
  {
    assert (table - {child})[child := table[child]] == table;
    ChildAdded(table - {child}, child, table[child], id);
  }

  lemma InsertConserves(s: State, made: Object, id: nat)
    requires CountedAt(s, id) && CountedAt(s, s.next) && s.next !in s.table && made.count == 1
    requires made.owner.Some? ==> s.reserved[made.owner.value] > 0
    ensures var rest := if made.owner.Some? then s.(reserved := s.reserved - multiset{made.owner.value}) else s;
            CountedAt(Inserted(rest, made), id)
  {
    ChildAdded(s.table, s.next, made, id);
  }

  lemma DropConserves(s: State, dropped: nat, id: nat)
    requires s.owed[dropped] > 0 && CountedAt(s, dropped) && CountedAt(s, id)
    requires dropped in s.table && s.table[dropped].owner.Some? ==> s.table[dropped].owner.value != dropped
    ensures CountedAt(Dropped(s, dropped), id)
  {
    if dropped in s.table && s.table[dropped].count > 1 {
      SameChildren(s.table, Dropped(s, dropped).table, id);
    } else if dropped in s.table {
      ChildRemoved(s.table, dropped, id);
    }
  }

  lemma StepCounts(s: State, step: Step, id: nat)
    requires Ordered(s) && (forall x :: CountedAt(s, x)) && Enabled(s, step)
    ensures CountedAt(After(s, step), id)
  {
    assert CountedAt(s, id) && CountedAt(s, s.next);
    match step
    case Retain(x) => SameChildren(s.table, Raised(s.table, x), id);
    case Reserve(x) => SameChildren(s.table, Raised(s.table, x), id);
    case CreateContext => InsertConserves(s, Object(Context, 1, None), id);
    case Create(kind, owner) => InsertConserves(s, Object(kind, 1, Some(owner)), id);
    case CreateSub(parent) => SubConserves(s, parent, id);
    case Push(buffers) => OccurrencesSplit(s.pending, [buffers], id);
    case Finish(command) => RemovalShrinks(s.pending, command, id);
    case Release(_) =>
    case Drop(x) =>
      assert CountedAt(s, x);
      DropConserves(s, x, id);
  }

  lemma InsertOrders(s: State, made: Object)
    requires Ordered(s) && (made.owner.Some? ==> made.owner.value < s.next && !made.kind.Context?)
    ensures Ordered(Inserted(s, made))
  {
  }

  lemma ShrinkOrders(s: State, after: State)
    requires Ordered(s) && after.next == s.next
    requires forall x :: x in after.table ==>
               x in s.table && after.table[x].owner == s.table[x].owner && after.table[x].kind == s.table[x].kind
    ensures Ordered(after)
  {
  }

  lemma StepOrders(s: State, step: Step)
    requires Ordered(s) && Enabled(s, step)
    ensures Ordered(After(s, step))
  {
    match step
    case CreateContext => InsertOrders(s, Object(Context, 1, None));
    case Create(kind, owner) => InsertOrders(s.(reserved := s.reserved - multiset{owner}), Object(kind, 1, Some(owner)));
    case CreateSub(parent) =>
      ShrinkOrders(s, s.(table := Raised(s.table, parent)));
      InsertOrders(s.(table := Raised(s.table, parent)), Object(Buffer, 1, Some(parent)));
    case _ => ShrinkOrders(s, After(s, step));
  }

  lemma StepConserves(s: State, step: Step)
    requires Conserved(s) && Enabled(s, step)
    ensures Conserved(After(s, step))
  {
    StepOrders(s, step);
    forall id ensures CountedAt(After(s, step), id) {
      StepCounts(s, step, id);
    }
  }

  lemma SubConserves(s: State, parent: nat, id: nat)
    requires CountedAt(s, id) && CountedAt(s, s.next) && s.next !in s.table && Enabled(s, CreateSub(parent))
    ensures CountedAt(After(s, CreateSub(parent)), id)
  {
    SameChildren(s.table, Raised(s.table, parent), id);
    ChildAdded(Raised(s.table, parent), s.next, Object(Buffer, 1, Some(parent)), id);
  }

  lemma {:induction false} RunConserves(s: State, steps: seq<Step>)
    requires Conserved(s) && Run(s, steps).Some?
    ensures Conserved(Run(s, steps).value)
    decreases |steps|
  {
    if steps != [] {
      StepConserves(s, steps[0]);
      RunConserves(After(s, steps[0]), steps[1..]);
    }
  }

  /** In every state a run reaches each count is exactly what holds the object. */
  lemma CountsAreExact(s: State)
    requires Reachable(s)
    ensures Conserved(s)
  {
    var steps :| Run(START, steps) == Some(s);
    assert Conserved(START);
    RunConserves(START, steps);
  }

  lemma {:induction false} CommandOccurs(pending: seq<seq<nat>>, command: nat, id: nat)
    requires command < |pending| && id in pending[command]
    ensures Occurrences(pending, id) > 0
  {
    if command > 0 {
      CommandOccurs(pending[1..], command - 1, id);
    }
  }

  /** Every buffer a pending command names exists, and so do its owner and the owner's owner. */
  lemma PendingKeepsBuffers(s: State, command: nat, id: nat)
    requires Reachable(s) && command < |s.pending| && id in s.pending[command]
    ensures id in s.table
    ensures s.table[id].owner.Some? ==> s.table[id].owner.value in s.table
  {
    CountsAreExact(s);
    CommandOccurs(s.pending, command, id);
    assert CountedAt(s, id);
    if s.table[id].owner.Some? {
      OwnerExists(s, id);
    }
  }

  /** What is owned keeps its owner alive. */
  lemma OwnerExists(s: State, id: nat)
    requires Conserved(s) && id in s.table && s.table[id].owner.Some?
    ensures s.table[id].owner.value in s.table && s.table[id].owner.value < id
  {
    var owner := s.table[id].owner.value;
    assert CountedAt(s, owner) && id in Children(s.table, owner) && |Children(s.table, owner)| > 0;
  }

  lemma {:induction false} Youngest(ids: set<nat>) returns (youngest: nat)
    requires ids != {}
    ensures youngest in ids && forall id :: id in ids ==> id <= youngest
  {
    var id :| id in ids;
    if ids == {id} {
      youngest := id;
    } else {
      var rest := Youngest(ids - {id});
      youngest := if rest > id then rest else id;
      assert forall x :: x in ids ==> x == id || x in ids - {id};
    }
  }

  /** Nothing leaks: once users have released all they held, every command is done and every
      call has returned, no object is left. */
  lemma NothingLeaks(s: State)
    requires Reachable(s)
    requires s.users == multiset{} && s.reserved == multiset{} && s.owed == multiset{} && s.pending == []
    ensures s.table == map[]
  {
    CountsAreExact(s);
    if s.table != map[] {
      var youngest := Youngest(s.table.Keys);
      assert CountedAt(s, youngest);
      var child :| child in Children(s.table, youngest);
      assert false;
    }
  }

  // ----- what owns what

  /** A sub-buffer's parent is no sub-buffer; everything else but a context has an owner of
      the kind it is made from. */
  ghost predicate Shaped(table: map<nat, Object>, id: nat)
    requires id in table
  {
    match table[id].owner
    case None => table[id].kind.Context?
    case Some(owner) =>
      owner in table ==>
        if table[owner].kind.Buffer? then table[id].kind.Buffer? && table[owner].owner.Some? && !IsSub(table, owner)
        else Owns(table[owner].kind, table[id].kind)
  }

  ghost predicate Flat(s: State) { forall id :: id in s.table ==> Shaped(s.table, id) }

  ghost predicate Rooted(s: State) {
    forall id :: id in s.table && s.table[id].owner.Some? ==> s.table[id].owner.value in s.table
  }

  lemma ConservedRooted(s: State)
    requires Conserved(s)
    ensures Rooted(s)
  {
    forall id | id in s.table && s.table[id].owner.Some? ensures s.table[id].owner.value in s.table {
      OwnerExists(s, id);
    }
  }

  lemma InsertFlat(s: State, made: Object)
    requires Ordered(s) && Rooted(s) && Flat(s)
    requires match made.owner
             case None => made.kind.Context?
             case Some(owner) =>
               owner in s.table &&
                 if s.table[owner].kind.Buffer? then made.kind.Buffer? && !IsSub(s.table, owner)
                 else Owns(s.table[owner].kind, made.kind)
    ensures Flat(Inserted(s, made))
  {
    var after := Inserted(s, made);
    forall id | id in after.table ensures Shaped(after.table, id) {
      if id in s.table {
        assert Shaped(s.table, id);
        if s.table[id].owner.Some? {
          KeepsSub(s.table, after.table, s.table[id].owner.value, s.next);
        }
      } else if made.owner.Some? {
        assert Shaped(s.table, made.owner.value);
        KeepsSub(s.table, after.table, made.owner.value, s.next);
      }
    }
  }

  lemma KeepsSub(table: map<nat, Object>, after: map<nat, Object>, id: nat, added: nat)
    requires id in table && id in after && after[id].owner == table[id].owner
    requires table[id].owner != Some(added) && forall x :: x in after && x != added ==> x in table && after[x].kind == table[x].kind
    ensures IsSub(after, id) ==> IsSub(table, id)
  {
  }

  /** Counts may change, and objects that own nothing may go. */
  lemma ShrinkFlat(s: State, after: State)
    requires Flat(s)
    requires forall x :: x in after.table ==>
               x in s.table && after.table[x].owner == s.table[x].owner && after.table[x].kind == s.table[x].kind
    ensures Flat(after)
  {
    forall id | id in after.table ensures Shaped(after.table, id) {
      assert Shaped(s.table, id);
    }
  }

  lemma StepFlat(s: State, step: Step)
    requires Conserved(s) && Flat(s) && Enabled(s, step)
    ensures Flat(After(s, step))
  {
    ConservedRooted(s);
    match step
    case CreateContext => InsertFlat(s, Object(Context, 1, None));
    case Create(kind, owner) => InsertFlat(s, Object(kind, 1, Some(owner)));
    case CreateSub(parent) =>
      var raised := s.(table := Raised(s.table, parent));
      ShrinkFlat(s, raised);
      InsertFlat(raised, Object(Buffer, 1, Some(parent)));
    case _ => ShrinkFlat(s, After(s, step));
  }

  lemma {:induction false} RunFlat(s: State, steps: seq<Step>)
    requires Conserved(s) && Flat(s) && Run(s, steps).Some?
    ensures Flat(Run(s, steps).value)
    decreases |steps|
  {
    if steps != [] {
      StepConserves(s, steps[0]);
      StepFlat(s, steps[0]);
      RunFlat(After(s, steps[0]), steps[1..]);
    }
  }

  /** Every object is owned by a live object of the kind it was made from, and the parent of a
      sub-buffer is owned by a context, so a release cascades through at most two owners. */
  lemma OwnersAreLive(s: State, id: nat)
    requires Reachable(s) && id in s.table && s.table[id].owner.Some?
    ensures var owner := s.table[id].owner.value;
            && owner in s.table
            && (Owns(s.table[owner].kind, s.table[id].kind)
                || (s.table[owner].kind.Buffer? && s.table[id].kind.Buffer?
                    && s.table[owner].owner.Some? && s.table[owner].owner.value in s.table
                    && s.table[s.table[owner].owner.value].kind.Context?))
  {
    var steps :| Run(START, steps) == Some(s);
    CountsAreExact(s);
    assert Conserved(START);
    RunFlat(START, steps);
    ConservedRooted(s);
    assert Shaped(s.table, id) && Shaped(s.table, s.table[id].owner.value);
  }

  // ----- one call that releases

  /** The table after one call has released one reference and all that follows from it. */
  function Cascade(table: map<nat, Object>, id: nat): map<nat, Object>
    decreases id
  {
    if id !in table then table
    else if table[id].count > 1 then table[id := table[id].(count := table[id].count - 1)]
    else if table[id].owner.Some? && table[id].owner.value < id then Cascade(table - {id}, table[id].owner.value)
    else table - {id}
  }

  /** What is owed exists, with a reference to give up. */
  lemma OwedExists(s: State, id: nat)
    requires Conserved(s) && s.owed[id] > 0
    ensures id in s.table && s.table[id].count > 0
    ensures s.table[id].owner.Some? ==> s.table[id].owner.value < id
  {
    assert CountedAt(s, id);
    if s.table[id].owner.Some? {
      OwnerExists(s, id);
    }
  }

  /** The last reference to go passes its debt on to the owner. */
  lemma LastDrop(s: State, id: nat, owner: nat)
    requires s.owed[id] > 0 && id in s.table && s.table[id].count == 1 && s.table[id].owner == Some(owner)
    ensures After(s, Drop(id)).owed[owner] > 0 && After(s, Drop(id)).owed - multiset{owner} == s.owed - multiset{id}
  {
  }

  lemma RunsOn(s: State, step: Step, rest: seq<Step>)
    requires Enabled(s, step)
    ensures Run(s, [step] + rest) == Run(After(s, step), rest)
  {
    assert ([step] + rest)[1..] == rest;
  }

  /** A call that releases alone does what the steps of its release do, and leaves nothing owed. */
  lemma {:induction false} CascadeIsDrops(s: State, id: nat) returns (steps: seq<Step>)
    requires Conserved(s) && s.owed[id] > 0
    ensures forall step :: step in steps ==> step.Drop?
    ensures Run(s, steps) == Some(s.(table := Cascade(s.table, id), owed := s.owed - multiset{id}))
    decreases id
  {
    OwedExists(s, id);
    steps := [];
    if s.table[id].count == 1 && s.table[id].owner.Some? {
      StepConserves(s, Drop(id));
      LastDrop(s, id, s.table[id].owner.value);
      steps := CascadeIsDrops(After(s, Drop(id)), s.table[id].owner.value);
    }
    RunsOn(s, Drop(id), steps);
    steps := [Drop(id)] + steps;
  }

  /** The call fails when it names, or comes to, an object that is gone. */
  predicate Finds(table: map<nat, Object>, id: nat)
    decreases id
  {
    && id in table
    && (table[id].count > 1 || table[id].owner.None? || table[id].owner.value >= id
        || Finds(table - {id}, table[id].owner.value))
  }

  /** No release in a conserved state comes to an object that is gone. */
  lemma {:induction false} ReleaseFinds(s: State, id: nat)
    requires Conserved(s) && s.owed[id] > 0
    ensures Finds(s.table, id)
    decreases id
  {
    assert CountedAt(s, id);
    if s.table[id].count == 1 && s.table[id].owner.Some? {
      OwnerExists(s, id);
      StepConserves(s, Drop(id));
      ReleaseFinds(After(s, Drop(id)), s.table[id].owner.value);
    }
  }

  /** The tables behind the locks, for one call at a time. */
  class Objects {
    var table: map<nat, Object>

    ghost predicate Valid()
      reads this
    {
      forall id :: id in table && table[id].owner.Some? ==> table[id].owner.value < id
    }

    method Release(id: nat) returns (found: bool)
      requires Valid()
      modifies this
      ensures Valid() && table == Cascade(old(table), id) && found == Finds(old(table), id)
      decreases id
    {
      found := id in table;
      if found {
        var gone := table[id];
        if gone.count > 1 {
          table := table[id := gone.(count := gone.count - 1)];
        } else {
          table := table - {id};
          if gone.owner.Some? {
            found := Release(gone.owner.value);
          }
        }
      }
    }
  }
}
