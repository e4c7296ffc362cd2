/** Conservation of event references over every run of the command protocol. */
module EventCounts {
  import opened Commands

  /** A pending command holds its own event once and every awaited event once an occurrence. */
  function CommandHolds(c: Command, e: nat): nat { (if c.event == e then 1 else 0) + multiset(c.wait)[e] }

  function CommandsHold(commands: seq<Command>, e: nat): nat {
    if commands == [] then 0 else CommandHolds(commands[0], e) + CommandsHold(commands[1..], e)
  }

  ghost function QueuesHold(queues: map<nat, Queue>, e: nat): nat
    decreases |queues|
  {
    if queues == map[] then 0
    else
      var q :| q in queues;
      CommandsHold(queues[q].commands, e) + QueuesHold(queues - {q}, e)
  }

  /** What is left of the command the worker carries. */
  function WorkerHolds(w: Worker, e: nat): nat {
    match w
    case Begin(job) => CommandHolds(job.command, e)
    case BeginSignal(job) => CommandHolds(job.command, e)
    case Execute(job) => CommandHolds(job.command, e)
    case Unwait(job, _, left) => (if job.command.event == e then 1 else 0) + multiset(left)[e]
    case Settle(job, _) => if job.command.event == e then 1 else 0
    case SettleSignal(job) => if job.command.event == e then 1 else 0
    case Drop(job) => if job.command.event == e then 1 else 0
    case _ => 0
  }

  function CountOf(events: map<nat, Event>, e: nat): nat { if e in events then events[e].count else 0 }

  /** An event's count is what users hold, plus one while its command is queued or running,
      plus its occurrences in pending wait lists; it exists exactly while that is positive. */
  ghost predicate CountedAt(w: World, worker: Worker, e: nat) {
    && CountOf(w.events, e) == w.users[e] + QueuesHold(w.queues, e) + WorkerHolds(worker, e)
    && (e in w.events ==> w.events[e].count > 0 && e < w.next)
  }

  ghost predicate Conserved(w: World, worker: Worker) { forall e :: CountedAt(w, worker, e) }

  lemma {:induction false} QueuesHoldSplit(queues: map<nat, Queue>, q: nat, e: nat)
    requires q in queues
    ensures QueuesHold(queues, e) == CommandsHold(queues[q].commands, e) + QueuesHold(queues - {q}, e)
    decreases |queues|
  {
    var p :| p in queues && QueuesHold(queues, e) == CommandsHold(queues[p].commands, e) + QueuesHold(queues - {p}, e);
    if p != q {
      QueuesHoldSplit(queues - {p}, q, e);
      QueuesHoldSplit(queues - {q}, p, e);
      assert queues - {p} - {q} == queues - {q} - {p};
    }
  }

  /** Changing one queue changes the sum by what that queue held. */
  lemma QueuesHoldUpdate(queues: map<nat, Queue>, q: nat, queue: Queue, e: nat)
    ensures QueuesHold(queues[q := queue], e) + (if q in queues then CommandsHold(queues[q].commands, e) else 0)
         == QueuesHold(queues, e) + CommandsHold(queue.commands, e)
  {
    QueuesHoldSplit(queues[q := queue], q, e);
    assert queues[q := queue] - {q} == queues - {q};
    if q in queues {
      QueuesHoldSplit(queues, q, e);
    } else {
      assert queues - {q} == queues;
    }
  }

  lemma {:induction false} CommandsHoldAppend(commands: seq<Command>, c: Command, e: nat)
    ensures CommandsHold(commands + [c], e) == CommandsHold(commands, e) + CommandHolds(c, e)
  {
    if commands != [] {
      assert (commands + [c])[1..] == commands[1..] + [c];
      CommandsHoldAppend(commands[1..], c, e);
    } else {
      assert (commands + [c])[1..] == [];
    }
  }

  lemma {:induction false} RetainedAllCounts(events: map<nat, Event>, wait: seq<nat>, e: nat)
    requires forall w :: w in wait ==> w in events
    ensures forall x :: x in RetainedAll(events, wait) <==> x in events
    ensures CountOf(RetainedAll(events, wait), e) == CountOf(events, e) + multiset(wait)[e]
  {
    if wait != [] {
      var last := |wait| - 1;
      RetainedAllCounts(events, wait[..last], e);
      assert wait == wait[..last] + [wait[last]];
    }
  }

  /** An event somebody holds exists. */
  lemma HeldExists(w: World, worker: Worker, e: nat)
    requires Conserved(w, worker)
    requires w.users[e] + QueuesHold(w.queues, e) + WorkerHolds(worker, e) > 0
    ensures e in w.events
  {
    assert CountedAt(w, worker, e);
  }

  /** An event a pending command awaits exists: nobody can have dropped it early. */
  lemma AwaitedExists(w: World, worker: Worker, q: nat, i: nat, e: nat)
    requires Conserved(w, worker)
    requires q in w.queues && i < |w.queues[q].commands| && e in w.queues[q].commands[i].wait
    ensures e in w.events
  {
    QueuesHoldSplit(w.queues, q, e);
    CommandHeld(w.queues[q].commands, i, e);
    HeldExists(w, worker, e);
  }

  lemma {:induction false} CommandHeld(commands: seq<Command>, i: nat, e: nat)
    requires i < |commands| && (e in commands[i].wait || e == commands[i].event)
    ensures CommandsHold(commands, e) > 0
  {
    if i == 0 {
      assert e in commands[0].wait ==> multiset(commands[0].wait)[e] > 0;
    } else {
      CommandHeld(commands[1..], i - 1, e);
    }
  }

  lemma StartConserved()
    ensures Conserved(START.world, START.worker)
  {
  }

  lemma EventStepConserves(s: State, t: nat, act: EventAct)
    requires Conserved(s.world, s.worker) && EventEnabled(s, t, act)
    ensures Conserved(EventAfter(s, t, act).world, s.worker)
  {
    var w := EventWorld(s.world, act);
    forall e ensures CountedAt(w, s.worker, e) {
      assert CountedAt(s.world, s.worker, e);
      assert CountedAt(s.world, s.worker, s.world.next);
    }
  }

  lemma EnqueueConserves(w: World, worker: Worker, q: nat, wait: seq<nat>)
    requires Conserved(w, worker) && q in w.queues && forall e :: e in wait ==> e in w.events || e == w.next
    ensures Conserved(Enqueued(w, q, wait), worker)
  {
    var after := Enqueued(w, q, wait);
    var (made, queue) := (w.events[w.next := Event(2, false, Queued)], w.queues[q]);
    forall e ensures CountedAt(after, worker, e) {
      assert CountedAt(w, worker, e) && CountedAt(w, worker, w.next);
      RetainedAllCounts(made, wait, e);
      QueuesHoldUpdate(w.queues, q, queue.(commands := queue.commands + [Command(w.next, wait)]), e);
      CommandsHoldAppend(queue.commands, Command(w.next, wait), e);
    }
  }

  /** A change that leaves the commands of a queue alone conserves the counts. */
  lemma ChangeConserves(w: World, after: World, worker: Worker, q: nat, queue: Queue)
    requires Conserved(w, worker)
    requires after.events == w.events && after.users == w.users && after.next >= w.next
    requires after.queues == w.queues[q := queue]
    requires queue.commands == if q in w.queues then w.queues[q].commands else []
    ensures Conserved(after, worker)
  {
    forall e ensures CountedAt(after, worker, e) {
      assert CountedAt(w, worker, e);
      QueuesHoldUpdate(w.queues, q, queue, e);
    }
  }

  lemma RemovalConserves(w: World, worker: Worker, q: nat)
    requires Conserved(w, worker) && (q in w.queues ==> w.queues[q].commands == [])
    ensures Conserved(w.(queues := w.queues - {q}), worker)
  {
    forall e ensures CountedAt(w.(queues := w.queues - {q}), worker, e) {
      assert CountedAt(w, worker, e);
      if q in w.queues {
        QueuesHoldSplit(w.queues, q, e);
      } else {
        assert w.queues - {q} == w.queues;
      }
    }
  }

  /** What users hold can be awaited. */
  lemma HeldExist(w: World, worker: Worker, wait: seq<nat>)
    requires Conserved(w, worker) && forall e :: e in wait ==> w.users[e] > 0
    ensures forall e :: e in wait ==> e in w.events
  {
    forall e | e in wait ensures e in w.events {
      HeldExists(w, worker, e);
    }
  }

  lemma QueueStepConserves(s: State, t: nat, act: QueueAct)
    requires Conserved(s.world, s.worker) && QueueEnabled(s, t, act)
    requires act.Remove? && s.At(t).queue in s.world.queues ==> s.world.queues[s.At(t).queue].commands == []
    requires act.CreateQueue? ==> s.world.next !in s.world.queues
    ensures Conserved(QueueAfter(s, t, act).world, s.worker)
  {
    var w := s.world;
    var after := QueueAfter(s, t, act).world;
    match act
    case Enqueue(q, wait) =>
      HeldExist(w, s.worker, wait);
      EnqueueConserves(w, s.worker, q, wait);
    case Remove => RemovalConserves(w, s.worker, s.At(t).queue);
    case CreateQueue =>
      ChangeConserves(w, after, s.worker, w.next, Queue([], false, 1));
    case RetainQueue(q) => ChangeConserves(w, after, s.worker, q, after.queues[q]);
    case ReleaseQueue(q) => ChangeConserves(w, after, s.worker, q, after.queues[q]);
  }

  lemma TakeConserves(w: World, worker: Worker, q: nat)
    requires Conserved(w, worker) && worker.Looking? && q in w.queues && w.queues[q].commands != []
    ensures Conserved(TookWorld(w, q), TookWorker(w, q))
  {
    var after := TookWorld(w, q);
    forall e ensures CountedAt(after, TookWorker(w, q), e) {
      assert CountedAt(w, worker, e);
      QueuesHoldUpdate(w.queues, q, after.queues[q], e);
    }
  }

  /** Releasing one held reference of one event. */
  lemma ReleaseConserves(w: World, worker: Worker, after: Worker, x: nat)
    requires Conserved(w, worker)
    requires forall e :: WorkerHolds(worker, e) == WorkerHolds(after, e) + (if e == x then 1 else 0)
    ensures Conserved(w.(events := Released(w.events, x)), after)
  {
    forall e ensures CountedAt(w.(events := Released(w.events, x)), after, e) {
      assert CountedAt(w, worker, e);
    }
  }

  /** A change that keeps every count and everything the worker holds. */
  lemma MoveConserves(w: World, worker: Worker, after: World, next: Worker)
    requires Conserved(w, worker)
    requires after.queues == w.queues && after.users == w.users && after.next == w.next
    requires forall e :: CountOf(after.events, e) == CountOf(w.events, e) && (e in after.events <==> e in w.events)
    requires forall e :: WorkerHolds(next, e) == WorkerHolds(worker, e)
    ensures Conserved(after, next)
  {
    forall e ensures CountedAt(after, next, e) {
      assert CountedAt(w, worker, e) && CountOf(after.events, e) == CountOf(w.events, e);
    }
  }

  lemma ReleaseHoldings(left: seq<nat>)
    requires left != []
    ensures forall e :: multiset(left)[e] == (if left[0] == e then 1 else 0) + multiset(left[1..])[e]
  {
    assert left == [left[0]] + left[1..];
  }

  lemma RestConserves(w: World, q: nat)
    requires Conserved(w, Rest(q)) && q in w.queues
    ensures Conserved(w.(queues := w.queues[q := w.queues[q].(running := false)]), RestSignal)
  {
    var after := w.(queues := w.queues[q := w.queues[q].(running := false)]);
    ChangeConserves(w, after, Rest(q), q, w.queues[q].(running := false));
    MoveConserves(after, Rest(q), after, RestSignal);
  }

  lemma WorkerStepConserves(s: State, act: WorkerAct)
    requires Conserved(s.world, s.worker) && WorkerEnabled(s, act)
    ensures Conserved(WorkerAfter(s, act).world, WorkerAfter(s, act).worker)
  {
    match act
    case Takes(q) => TakeConserves(s.world, s.worker, q);
    case Releases => UnwaitConserves(s);
    case Drops => ReleaseConserves(s.world, s.worker, WorkerNext(s, act), s.worker.job.command.event);
    case Rests => RestsConserve(s);
    case _ => WorkerMoveConserves(s, act);
  }

  lemma UnwaitConserves(s: State)
    requires Conserved(s.world, s.worker) && s.worker.Unwait?
    ensures Conserved(WorkerWorld(s, Releases), WorkerNext(s, Releases))
  {
    if s.worker.left == [] {
      MoveConserves(s.world, s.worker, s.world, WorkerNext(s, Releases));
    } else {
      ReleaseHoldings(s.worker.left);
      ReleaseConserves(s.world, s.worker, WorkerNext(s, Releases), s.worker.left[0]);
    }
  }

  lemma RestsConserve(s: State)
    requires Conserved(s.world, s.worker) && s.worker.Rest?
    ensures Conserved(WorkerWorld(s, Rests), WorkerNext(s, Rests))
  {
    if s.worker.queue in s.world.queues {
      RestConserves(s.world, s.worker.queue);
    } else {
      MoveConserves(s.world, s.worker, s.world, WorkerNext(s, Rests));
    }
  }

  /** The worker takes nothing and gives nothing up. */
  lemma WorkerMoveConserves(s: State, act: WorkerAct)
    requires Conserved(s.world, s.worker) && WorkerEnabled(s, act)
    requires !act.Takes? && !act.Releases? && !act.Drops? && !act.Rests?
    ensures Conserved(WorkerWorld(s, act), WorkerNext(s, act))
  {
    MoveConserves(s.world, s.worker, WorkerWorld(s, act), WorkerNext(s, act));
  }

  /** Calls in progress move no reference. */
  lemma CallStepConserves(s: State, t: nat, act: CallAct)
    requires Conserved(s.world, s.worker) && CallEnabled(s, t, act)
    ensures Conserved(CallAfter(s, t, act).world, CallAfter(s, t, act).worker)
  {
    MoveConserves(s.world, s.worker, CallAfter(s, t, act).world, CallAfter(s, t, act).worker);
  }
}
