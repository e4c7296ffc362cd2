/** Every step of the command protocol keeps what CommandSafety asks of a state. */
module CommandSteps {
  import opened Wrappers
  import opened Commands
  import opened EventCounts
  import opened CommandSafety

  // ----- steps on queues

  lemma {:induction false} RetainedAllKeeps(events: map<nat, Event>, wait: seq<nat>)
    ensures forall e :: e in RetainedAll(events, wait) <==> e in events
    ensures forall e :: e in events ==>
              var r := RetainedAll(events, wait)[e];
              r.status == events[e].status && r.user == events[e].user
  {
    if wait != [] {
      RetainedAllKeeps(events, wait[..|wait| - 1]);
    }
  }

  lemma EnqueueKnown(w: World, q: nat, wait: seq<nat>)
    requires Known(w) && q in w.queues
    ensures Known(Enqueued(w, q, wait))
  {
    RetainedAllKeeps(w.events[w.next := Event(2, false, Queued)], wait);
  }

  lemma EnqueueGrows(w: World, q: nat, wait: seq<nat>)
    requires Known(w) && q in w.queues
    ensures Grows(w, Enqueued(w, q, wait)) && SameRunning(w, Enqueued(w, q, wait))
    ensures Enqueued(w, q, wait).taken == w.taken && Enqueued(w, q, wait).executed == w.executed
  {
  }

  lemma EnqueueLists(w: World, q: nat, wait: seq<nat>, p: nat)
    requires ListFine(w, p) && Known(w) && q in w.queues
    ensures ListFine(Enqueued(w, q, wait), p)
  {
    var after := Enqueued(w, q, wait);
    var issued := Listed(w.issued, p);
    assert Listed(after.issued, p) == issued + (if p == q then [w.next] else []);
    forall i | 0 <= i < |issued| ensures issued[i] < w.next {
      assert issued[i] in issued;
    }
  }

  lemma EnqueueQueues(w: World, q: nat, wait: seq<nat>, p: nat)
    requires Known(w) && q in w.queues && p in w.queues && QueueFine(w, p)
    ensures QueueFine(Enqueued(w, q, wait), p)
  {
    var after := Enqueued(w, q, wait);
    if p == q {
      var made := Command(w.next, wait);
      assert EventsOf(w.queues[q].commands + [made]) == EventsOf(w.queues[q].commands) + [w.next];
      forall i | 0 <= i < |after.queues[q].commands|
        ensures var c := after.queues[q].commands[i];
                c.event in after.origin && after.origin[c.event] == Origin(q, c.wait)
                && c.event in after.fate && after.fate[c.event] == Queued
      {
        assert i < |w.queues[q].commands| ==> w.queues[q].commands[i] == after.queues[q].commands[i];
      }
    } else {
      QueueStays(w, after, p);
    }
  }

  lemma EnqueueOld(w: World, worker: Worker, q: nat, wait: seq<nat>, e: nat)
    requires Known(w) && q in w.queues && e in w.origin && CommandFine(w, worker, e)
    ensures CommandFine(Enqueued(w, q, wait), worker, e)
    ensures SameCommand(w, worker, Enqueued(w, q, wait), worker, e)
  {
    var after := Enqueued(w, q, wait);
    EnqueueGrows(w, q, wait);
    CommandStays(w, worker, after, worker, e);
  }

  lemma EnqueueNew(w: World, worker: Worker, q: nat, wait: seq<nat>)
    requires Known(w) && q in w.queues && ListFine(w, q)
    requires forall x :: x in wait ==> x in w.fate && x < w.next
    ensures CommandFine(Enqueued(w, q, wait), worker, w.next)
  {
    var after := Enqueued(w, q, wait);
    assert Listed(after.issued, q)[|Listed(w.issued, q)|] == w.next;
    assert Listed(after.taken, q) == Listed(w.taken, q);
    assert w.next !in Listed(w.issued, q);
  }

  lemma EnqueueTidy(w: World, worker: Worker, q: nat, wait: seq<nat>)
    requires Tidy(w, worker) && q in w.queues && forall x :: x in wait ==> w.users[x] > 0
    ensures Tidy(Enqueued(w, q, wait), worker)
  {
    var after := Enqueued(w, q, wait);
    HeldExist(w, worker, wait);
    EnqueueConserves(w, worker, q, wait);
    EnqueueKnown(w, q, wait);
    EnqueueGrows(w, q, wait);
    forall p ensures ListFine(after, p) {
      assert ListFine(w, p);
      EnqueueLists(w, q, wait, p);
    }
    forall p | p in after.queues ensures QueueFine(after, p) {
      EnqueueQueues(w, q, wait, p);
    }
    assert ListFine(w, q);
    EnqueueNew(w, worker, q, wait);
    forall e | e in w.origin ensures CommandFine(after, worker, e) && SameCommand(w, worker, after, worker, e) {
      EnqueueOld(w, worker, q, wait, e);
    }
    WorkerStays(w, worker, after);
  }

  /** Queues come empty and go idle, and their counts may change. */
  lemma QueuesTidy(w: World, after: World, worker: Worker)
    requires Tidy(w, worker) && Conserved(after, worker)
    requires after == w.(queues := after.queues, next := after.next) && after.next >= w.next
    requires forall q :: q in after.queues ==> q < after.next && QueueAlike(w, after.queues[q], q)
    requires forall q :: q in w.queues && q !in after.queues ==> Idling(w.queues[q])
    ensures Tidy(after, worker)
  {
    QueuesFine(w, after);
    GoneSettled(w, after, worker);
    HistoryStays(w, after, worker);
    WorkerStays(w, worker, after);
  }

  lemma QueuesFine(w: World, after: World)
    requires Known(w) && forall q :: q in w.queues ==> QueueFine(w, q)
    requires after == w.(queues := after.queues, next := after.next)
    requires forall q :: q in after.queues ==> QueueAlike(w, after.queues[q], q)
    ensures forall q :: q in after.queues ==> QueueFine(after, q)
  {
    forall q | q in after.queues ensures QueueFine(after, q) {
      if q in w.queues {
        QueueStays(w, after, q);
      }
    }
  }

  /** Every command of an idle queue has its final status. */
  lemma DrainedSettled(w: World, worker: Worker, q: nat, e: nat)
    requires WorkerFine(w, worker) && q in w.queues && Idling(w.queues[q]) && e in w.origin && w.origin[e].queue == q
    requires QueueFine(w, q) && CommandFine(w, worker, e)
    ensures e in w.fate && w.fate[e].Settled()
  {
    assert Listed(w.issued, q) == Listed(w.taken, q);
  }

  /** A queue that goes has no unsettled command. */
  lemma GoneSettled(w: World, after: World, worker: Worker)
    requires WorkerFine(w, worker) && (forall q :: q in w.queues ==> QueueFine(w, q))
    requires forall e :: e in w.origin ==> CommandFine(w, worker, e)
    requires forall q :: q in w.queues && q !in after.queues ==> Idling(w.queues[q])
    ensures forall e :: e in w.origin && e in w.fate && !w.fate[e].Settled() && w.origin[e].queue in w.queues ==>
              w.origin[e].queue in after.queues
  {
    forall e | e in w.origin && e in w.fate && !w.fate[e].Settled() && w.origin[e].queue in w.queues
      ensures w.origin[e].queue in after.queues
    {
      if Idling(w.queues[w.origin[e].queue]) {
        DrainedSettled(w, worker, w.origin[e].queue, e);
      }
    }
  }

  predicate QueueAlike(w: World, queue: Queue, q: nat) {
    if q in w.queues then queue.commands == w.queues[q].commands && queue.running == w.queues[q].running
    else q >= w.next && Idling(queue)
  }

  /** Nothing in the history of commands has changed. */
  lemma HistoryStays(w: World, after: World, worker: Worker)
    requires IssuedFine(w) && WorkerFine(w, worker) && forall e :: e in w.origin ==> CommandFine(w, worker, e)
    requires after.origin == w.origin && after.issued == w.issued && after.taken == w.taken
    requires after.executed == w.executed && after.fate == w.fate
    requires forall e :: e in w.origin && e in w.fate && !w.fate[e].Settled() && w.origin[e].queue in w.queues ==>
               w.origin[e].queue in after.queues
    ensures IssuedFine(after) && forall e :: e in after.origin ==> CommandFine(after, worker, e)
    ensures Carried(worker).Some? ==> SameCommand(w, worker, after, worker, Carried(worker).value.command.event)
  {
    forall e | e in after.origin ensures CommandFine(after, worker, e) {
      assert CommandFine(w, worker, e);
      CommandStays(w, worker, after, worker, e);
    }
    if Carried(worker).Some? {
      assert CommandFine(w, worker, Carried(worker).value.command.event);
    }
    forall q ensures ListFine(after, q) {
      assert ListFine(w, q);
    }
  }

  lemma QueueStepAlike(s: State, t: nat, act: QueueAct)
    requires Known(s.world) && QueueEnabled(s, t, act) && Leaving(s.world, s.At(t)) && !act.Enqueue?
    ensures var after := QueueAfter(s, t, act).world;
            && after == s.world.(queues := after.queues, next := after.next) && after.next >= s.world.next
            && (forall q :: q in after.queues ==> q < after.next && QueueAlike(s.world, after.queues[q], q))
            && (forall q :: q in s.world.queues && q !in after.queues ==> Idling(s.world.queues[q]))
  {
  }

  lemma QueueStepTidy(s: State, t: nat, act: QueueAct)
    requires Tidy(s.world, s.worker) && QueueEnabled(s, t, act) && Leaving(s.world, s.At(t))
    ensures Tidy(QueueAfter(s, t, act).world, s.worker)
  {
    QueueStepConserves(s, t, act);
    var after := QueueAfter(s, t, act).world;
    if act.Enqueue? {
      EnqueueTidy(s.world, s.worker, act.q, act.wait);
      assert after == Enqueued(s.world, act.q, act.wait);
    } else {
      QueueStepAlike(s, t, act);
      QueuesTidy(s.world, after, s.worker);
    }
  }

  // ----- steps of the worker

  /** All commands but the worker's own are untouched. */
  lemma RestFine(w: World, worker: Worker, after: World, next: Worker, e: nat)
    requires (forall x :: x in w.origin ==> CommandFine(w, worker, x)) && Grows(w, after) && after.origin == w.origin
    requires forall x :: x in w.origin && x != e ==> SameCommand(w, worker, after, next, x)
    requires e in w.origin ==> CommandFine(after, next, e)
    ensures forall x :: x in after.origin ==> CommandFine(after, next, x)
  {
    forall x | x in after.origin ensures CommandFine(after, next, x) {
      if x != e {
        assert CommandFine(w, worker, x);
        CommandStays(w, worker, after, next, x);
      }
    }
  }

  /** A command that was taken waits in no queue any more. */
  lemma TakenNotPending(w: World, e: nat, q: nat, i: nat)
    requires e in w.origin && e in Listed(w.taken, w.origin[e].queue)
    requires q in w.queues && i < |w.queues[q].commands| && QueueFine(w, q) && ListFine(w, q)
    ensures w.queues[q].commands[i].event != e
  {
    var (taken, pending) := (Listed(w.taken, q), EventsOf(w.queues[q].commands));
    if w.origin[e].queue == q {
      var j :| 0 <= j < |taken| && taken[j] == e;
      assert (taken + pending)[|taken| + i] == pending[i];
      assert (taken + pending)[j] == e;
    }
  }

  /** Only the status of one taken command changes. */
  lemma QueuesKeep(w: World, after: World, e: nat)
    requires e in w.origin && e in Listed(w.taken, w.origin[e].queue)
    requires IssuedFine(w) && forall q :: q in w.queues ==> QueueFine(w, q)
    requires after.origin == w.origin && after.issued == w.issued && after.taken == w.taken
    requires after.queues == w.queues
    requires forall x :: x in w.fate && x != e ==> x in after.fate && after.fate[x] == w.fate[x]
    ensures forall q :: q in after.queues ==> QueueFine(after, q)
    ensures IssuedFine(after)
  {
    forall q | q in after.queues ensures QueueFine(after, q) {
      assert QueueFine(w, q) && ListFine(w, q);
      forall i | 0 <= i < |w.queues[q].commands| ensures w.queues[q].commands[i].event != e {
        TakenNotPending(w, e, q, i);
      }
      QueueStays(w, after, q);
    }
    forall q ensures ListFine(after, q) {
      assert ListFine(w, q);
    }
  }

  lemma {:induction false} TerminatedIsAwaited(events: map<nat, Event>, wait: seq<nat>, status: Status)
    requires FirstTerminated(Statuses(events, wait)) == Some(status)
    ensures status.IsTerminated() && exists x :: x in wait && x in events && events[x].status == status
  {
    if wait != [] {
      var (rest, statuses) := (Statuses(events, wait[1..]), Statuses(events, wait));
      if wait[0] in events {
        assert statuses[0] == events[wait[0]].status && statuses[1..] == rest;
        if !statuses[0].IsTerminated() {
          TerminatedIsAwaited(events, wait[1..], status);
        }
      } else {
        assert statuses == rest;
        TerminatedIsAwaited(events, wait[1..], status);
      }
    }
  }

  lemma {:induction false} CompleteMeansAll(events: map<nat, Event>, wait: seq<nat>)
    requires AllComplete(Statuses(events, wait)) && forall x :: x in wait ==> x in events
    ensures forall x :: x in wait ==> events[x].status == Complete
  {
    if wait != [] {
      var (rest, statuses) := (Statuses(events, wait[1..]), Statuses(events, wait));
      assert statuses[0] == events[wait[0]].status && statuses[1..] == rest;
      forall i | 0 <= i < |rest| ensures rest[i] == Complete {
        assert rest[i] == statuses[i + 1];
      }
      CompleteMeansAll(events, wait[1..]);
    }
  }

  /** The head that is taken may run, or ends with the failure of an event it awaits. */
  lemma TakenHead(w: World, worker: Worker, q: nat)
    requires Known(w) && Conserved(w, worker) && q in w.queues && HeadReady(w, q)
    ensures TookWorker(w, q).Unwait? ==> Copied(w, w.queues[q].commands[0].wait, TookWorker(w, q).status)
    ensures TookWorker(w, q).Begin? ==> AllDone(w, w.queues[q].commands[0].wait)
  {
    var wait := w.queues[q].commands[0].wait;
    if FirstTerminated(Statuses(w.events, wait)).Some? {
      TerminatedIsAwaited(w.events, wait, FirstTerminated(Statuses(w.events, wait)).value);
    } else {
      forall x | x in wait ensures x in w.events {
        AwaitedExists(w, worker, q, 0, x);
      }
      CompleteMeansAll(w.events, wait);
    }
  }

  lemma TakeOwnQueue(w: World, after: World, q: nat)
    requires q in w.queues && w.queues[q].commands != [] && QueueFine(w, q)
    requires q in after.queues && after.queues[q].commands == w.queues[q].commands[1..]
    requires after.origin == w.origin && after.fate == w.fate && Listed(after.issued, q) == Listed(w.issued, q)
    requires Listed(after.taken, q) == Listed(w.taken, q) + [w.queues[q].commands[0].event]
    ensures QueueFine(after, q)
  {
    EventsOfTail(w.queues[q].commands, Listed(w.taken, q));
    forall i | 0 <= i < |after.queues[q].commands|
      ensures var c := after.queues[q].commands[i];
              c.event in w.origin && w.origin[c.event] == Origin(q, c.wait) && c.event in w.fate && w.fate[c.event] == Queued
    {
      assert after.queues[q].commands[i] == w.queues[q].commands[i + 1];
    }
  }

  lemma EventsOfTail(commands: seq<Command>, taken: seq<nat>)
    requires commands != []
    ensures taken + EventsOf(commands) == taken + [commands[0].event] + EventsOf(commands[1..])
  {
  }

  lemma TakeQueues(w: World, q: nat, p: nat)
    requires q in w.queues && w.queues[q].commands != [] && p in w.queues && QueueFine(w, p)
    ensures QueueFine(TookWorld(w, q), p)
  {
    if p == q {
      TakeOwnQueue(w, TookWorld(w, q), q);
    } else {
      QueueStays(w, TookWorld(w, q), p);
    }
  }

  /** The head is a command nobody took before. */
  lemma HeadIsNew(w: World, worker: Worker, q: nat, e: nat)
    requires q in w.queues && w.queues[q].commands != [] && e == w.queues[q].commands[0].event
    requires QueueFine(w, q) && ListFine(w, q) && (e in w.origin ==> CommandFine(w, worker, e))
    ensures e in w.origin && w.origin[e] == Origin(q, w.queues[q].commands[0].wait)
    ensures e !in Listed(w.taken, q) && e !in w.executed && e in w.fate && w.fate[e] == Queued
    ensures Listed(w.taken, q) + [e] <= Listed(w.issued, q)
  {
    assert EventsOf(w.queues[q].commands)[0] == e;
    if e in Listed(w.taken, q) {
      TakenNotPending(w, e, q, 0);
    }
  }

  lemma TakeCommands(w: World, worker: Worker, q: nat, next: Worker, e: nat)
    requires q in w.queues && w.queues[q].commands != [] && e in w.origin && CommandFine(w, worker, e)
    requires Carried(worker).None? && e != w.queues[q].commands[0].event
    ensures SameCommand(w, worker, TookWorld(w, q), next, e)
  {
    TakeAppends(w, q, w.origin[e].queue);
    CommandIsKnown(w, worker, e);
    TakeSame(w, worker, TookWorld(w, q), next, e, w.queues[q].commands[0].event);
  }

  lemma CommandIsKnown(w: World, worker: Worker, e: nat)
    requires e in w.origin && CommandFine(w, worker, e)
    ensures e in w.fate
  {
  }

  lemma TakeSame(w: World, worker: Worker, after: World, next: Worker, e: nat, head: nat)
    requires e in w.origin && e in w.fate && e != head && Carried(worker).None?
    requires after.origin == w.origin && after.fate == w.fate && after.executed == w.executed && after.issued == w.issued
    requires after.queues.Keys == w.queues.Keys
    requires var q := w.origin[e].queue; Listed(after.taken, q) in {Listed(w.taken, q), Listed(w.taken, q) + [head]}
    ensures SameCommand(w, worker, after, next, e)
  {
  }

  lemma TakeAppends(w: World, q: nat, p: nat)
    requires q in w.queues && w.queues[q].commands != []
    ensures Listed(TookWorld(w, q).taken, p)
         == Listed(w.taken, p) + (if p == q then [w.queues[q].commands[0].event] else [])
  {
  }

  lemma TakeLists(w: World, q: nat, p: nat)
    requires ListFine(w, p) && q in w.queues && w.queues[q].commands != []
    requires Listed(w.taken, q) + [w.queues[q].commands[0].event] <= Listed(w.issued, q)
    ensures ListFine(TookWorld(w, q), p)
  {
  }

  lemma TakeWorker(w: World, worker: Worker, q: nat)
    requires WorkerFine(w, worker) && worker.Looking? && q in w.queues && w.queues[q].commands != [] && q < w.next
    requires var c := w.queues[q].commands[0];
             c.event in w.origin && w.origin[c.event] == Origin(q, c.wait) && c.event !in w.executed
             && c.event in w.fate && w.fate[c.event] == Queued
    requires TookWorker(w, q).Unwait? ==> Copied(w, w.queues[q].commands[0].wait, TookWorker(w, q).status)
    requires TookWorker(w, q).Begin? ==> AllDone(w, w.queues[q].commands[0].wait)
    ensures WorkerFine(TookWorld(w, q), TookWorker(w, q))
  {
  }

  lemma TakeTidy(w: World, worker: Worker, q: nat)
    requires Tidy(w, worker) && worker.Looking? && q in w.queues && HeadReady(w, q)
    ensures Tidy(TookWorld(w, q), TookWorker(w, q))
  {
    var (after, next, e) := (TookWorld(w, q), TookWorker(w, q), w.queues[q].commands[0].event);
    TakeConserves(w, worker, q);
    TakenHead(w, worker, q);
    assert QueueFine(w, q) && ListFine(w, q);
    HeadIsNew(w, worker, q, e);
    TakeWorker(w, worker, q);
    TakeTables(w, q);
    TakeAllCommands(w, worker, q, e);
  }

  lemma TakeTables(w: World, q: nat)
    requires Known(w) && IssuedFine(w) && (forall p :: p in w.queues ==> QueueFine(w, p))
    requires q in w.queues && w.queues[q].commands != []
    requires Listed(w.taken, q) + [w.queues[q].commands[0].event] <= Listed(w.issued, q)
    ensures Known(TookWorld(w, q)) && IssuedFine(TookWorld(w, q))
    ensures forall p :: p in TookWorld(w, q).queues ==> QueueFine(TookWorld(w, q), p)
  {
    forall p | p in TookWorld(w, q).queues ensures QueueFine(TookWorld(w, q), p) {
      TakeQueues(w, q, p);
    }
    forall p ensures ListFine(TookWorld(w, q), p) {
      assert ListFine(w, p);
      TakeLists(w, q, p);
    }
  }

  lemma TakeAllCommands(w: World, worker: Worker, q: nat, e: nat)
    requires (forall x :: x in w.origin ==> CommandFine(w, worker, x)) && Carried(worker).None?
    requires q in w.queues && w.queues[q].commands != [] && w.queues[q].commands[0].event == e
    requires e in w.origin && w.origin[e].queue == q && e in w.fate && w.fate[e] == Queued
    ensures forall x :: x in w.origin ==> CommandFine(TookWorld(w, q), TookWorker(w, q), x)
  {
    var (after, next) := (TookWorld(w, q), TookWorker(w, q));
    forall x | x in w.origin && x != e ensures SameCommand(w, worker, after, next, x) {
      TakeCommands(w, worker, q, next, x);
    }
    TakeHeadFine(w, worker, q, e);
    RestFine(w, worker, after, next, e);
  }

  lemma TakeHeadFine(w: World, worker: Worker, q: nat, e: nat)
    requires q in w.queues && w.queues[q].commands != [] && w.queues[q].commands[0].event == e
    requires e in w.origin && w.origin[e].queue == q && CommandFine(w, worker, e) && w.fate[e] == Queued
    ensures CommandFine(TookWorld(w, q), TookWorker(w, q), e)
  {
    assert Carries(TookWorker(w, q), e);
  }

  lemma MarkedGrows(w: World, e: nat, status: Status)
    requires e in w.events && e in w.fate && !w.fate[e].Settled()
    ensures Grows(w, Marked(w, e, status))
  {
  }

  /** The tables stay in order when the worker marks the command it carries. */
  lemma MarkTables(w: World, worker: Worker, e: nat, status: Status)
    requires Known(w) && IssuedFine(w) && WorkerFine(w, worker) && forall q :: q in w.queues ==> QueueFine(w, q)
    requires Carries(worker, e) && e in w.events
    ensures Known(Marked(w, e, status)) && IssuedFine(Marked(w, e, status))
    ensures forall q :: q in Marked(w, e, status).queues ==> QueueFine(Marked(w, e, status), q)
  {
    MarkKnown(w, e, status);
    QueuesKeep(w, Marked(w, e, status), e);
  }

  /** The worker sets its command running. */
  lemma BeginTidy(w: World, worker: Worker)
    requires Tidy(w, worker) && worker.Begin?
    requires Conserved(Marked(w, worker.job.command.event, Running), BeginSignal(worker.job))
    ensures Tidy(Marked(w, worker.job.command.event, Running), BeginSignal(worker.job))
  {
    HeldExists(w, worker, worker.job.command.event);
    MarkTables(w, worker, worker.job.command.event, Running);
    BeginCommands(w, worker);
  }

  lemma BeginCommands(w: World, worker: Worker)
    requires WorkerFine(w, worker) && forall x :: x in w.origin ==> CommandFine(w, worker, x)
    requires worker.Begin? && worker.job.command.event in w.events
    ensures var (after, next) := (Marked(w, worker.job.command.event, Running), BeginSignal(worker.job));
            WorkerFine(after, next) && forall x :: x in after.origin ==> CommandFine(after, next, x)
  {
    var e := worker.job.command.event;
    var after := Marked(w, e, Running);
    assert CommandFine(w, worker, e);
    MarkedGrows(w, e, Running);
    BegunFine(w, worker, after);
    RestFine(w, worker, after, BeginSignal(worker.job), e);
  }

  lemma BegunFine(w: World, worker: Worker, after: World)
    requires worker.Begin? && WorkerFine(w, worker) && Grows(w, after)
    requires after == Marked(w, worker.job.command.event, Running) && worker.job.command.event in w.events
    requires CommandFine(w, worker, worker.job.command.event)
    ensures CommandFine(after, BeginSignal(worker.job), worker.job.command.event)
    ensures WorkerFine(after, BeginSignal(worker.job))
  {
    DoneStays(w, after, worker.job.command.wait);
  }

  /** The worker gives its command the status it ends with. */
  lemma SettleTidy(w: World, worker: Worker)
    requires Tidy(w, worker) && worker.Settle?
    requires Conserved(Marked(w, worker.job.command.event, worker.status), SettleSignal(worker.job))
    ensures Tidy(Marked(w, worker.job.command.event, worker.status), SettleSignal(worker.job))
  {
    HeldExists(w, worker, worker.job.command.event);
    MarkTables(w, worker, worker.job.command.event, worker.status);
    SettleCommands(w, worker);
  }

  lemma SettleCommands(w: World, worker: Worker)
    requires WorkerFine(w, worker) && forall x :: x in w.origin ==> CommandFine(w, worker, x)
    requires worker.Settle? && worker.job.command.event in w.events
    ensures var (after, next) := (Marked(w, worker.job.command.event, worker.status), SettleSignal(worker.job));
            WorkerFine(after, next) && forall x :: x in after.origin ==> CommandFine(after, next, x)
  {
    var e := worker.job.command.event;
    var after := Marked(w, e, worker.status);
    assert CommandFine(w, worker, e);
    MarkedGrows(w, e, worker.status);
    SettledFine(w, worker, after);
    RestFine(w, worker, after, SettleSignal(worker.job), e);
  }

  lemma SettledFine(w: World, worker: Worker, after: World)
    requires worker.Settle? && WorkerFine(w, worker) && Grows(w, after)
    requires after == Marked(w, worker.job.command.event, worker.status) && worker.job.command.event in w.events
    requires CommandFine(w, worker, worker.job.command.event)
    ensures CommandFine(after, SettleSignal(worker.job), worker.job.command.event)
    ensures WorkerFine(after, SettleSignal(worker.job))
  {
    var (e, wait) := (worker.job.command.event, worker.job.command.wait);
    if e in w.executed {
      DoneStays(w, after, wait);
    } else {
      CopiedStays(w, after, wait, worker.status);
    }
  }

  lemma ExecuteTidy(w: World, worker: Worker, result: Status)
    requires Tidy(w, worker) && worker.Execute? && (result.Complete? || result.Failed?)
    requires Conserved(w.(executed := w.executed[worker.job.command.event := result]),
                       Unwait(worker.job, result, worker.job.command.wait))
    ensures Tidy(w.(executed := w.executed[worker.job.command.event := result]),
                 Unwait(worker.job, result, worker.job.command.wait))
  {
    ExecuteTables(w, worker, result);
    ExecuteCommands(w, worker, result);
  }

  lemma ExecuteTables(w: World, worker: Worker, result: Status)
    requires Known(w) && IssuedFine(w) && WorkerFine(w, worker) && forall q :: q in w.queues ==> QueueFine(w, q)
    requires worker.Execute?
    ensures var after := w.(executed := w.executed[worker.job.command.event := result]);
            Known(after) && IssuedFine(after) && forall q :: q in after.queues ==> QueueFine(after, q)
  {
    QueuesKeep(w, w.(executed := w.executed[worker.job.command.event := result]), worker.job.command.event);
  }

  lemma ExecuteCommands(w: World, worker: Worker, result: Status)
    requires WorkerFine(w, worker) && forall x :: x in w.origin ==> CommandFine(w, worker, x)
    requires worker.Execute? && (result.Complete? || result.Failed?)
    ensures var after := w.(executed := w.executed[worker.job.command.event := result]);
            var next := Unwait(worker.job, result, worker.job.command.wait);
            WorkerFine(after, next) && forall x :: x in after.origin ==> CommandFine(after, next, x)
  {
    var (e, next) := (worker.job.command.event, Unwait(worker.job, result, worker.job.command.wait));
    var after := w.(executed := w.executed[e := result]);
    assert CommandFine(w, worker, e) && Grows(w, after);
    ExecutedFine(w, worker, after, result);
    ExecutedOthers(w, worker, after, next, result);
    RestFine(w, worker, after, next, e);
  }

  lemma ExecutedOthers(w: World, worker: Worker, after: World, next: Worker, result: Status)
    requires worker.Execute? && next.Unwait? && next.job == worker.job
    requires after == w.(executed := w.executed[worker.job.command.event := result])
    requires forall x :: x in w.origin ==> x in w.fate
    ensures forall x :: x in w.origin && x != worker.job.command.event ==> SameCommand(w, worker, after, next, x)
  {
  }

  lemma ExecutedFine(w: World, worker: Worker, after: World, result: Status)
    requires worker.Execute? && WorkerFine(w, worker) && Grows(w, after) && (result.Complete? || result.Failed?)
    requires after == w.(executed := w.executed[worker.job.command.event := result])
    requires CommandFine(w, worker, worker.job.command.event)
    ensures var next := Unwait(worker.job, result, worker.job.command.wait);
            CommandFine(after, next, worker.job.command.event) && WorkerFine(after, next)
  {
    DoneStays(w, after, worker.job.command.wait);
  }

  /** The worker moves on without touching commands: counts fall, or it signals, or looks again. */
  lemma MoveTidy(w: World, worker: Worker, after: World, next: Worker)
    requires Tidy(w, worker) && Conserved(after, next)
    requires after == w.(events := after.events)
    requires forall e :: e in after.events ==>
               e in w.events && after.events[e].status == w.events[e].status && after.events[e].user == w.events[e].user
    requires BusyWith(next) == BusyWith(worker) && Carried(next) == Carried(worker)
    requires WorkerFine(w, worker) ==> WorkerFine(w, next)
    ensures Tidy(after, next)
  {
    OthersStay(w, after, worker);
    MoveCommands(after, worker, next);
    MoveWorker(w, worker, after, next);
  }

  lemma MoveCommands(w: World, worker: Worker, next: Worker)
    requires Carried(next) == Carried(worker) && forall e :: e in w.origin ==> CommandFine(w, worker, e)
    ensures forall e :: e in w.origin ==> CommandFine(w, next, e)
  {
    forall e | e in w.origin ensures CommandFine(w, next, e) {
      assert CommandFine(w, worker, e);
      CommandStays(w, worker, w, next, e);
    }
  }

  lemma MoveWorker(w: World, worker: Worker, after: World, next: Worker)
    requires WorkerFine(w, worker) && (forall e :: e in w.origin ==> CommandFine(w, worker, e))
    requires after == w.(events := after.events) && Carried(next) == Carried(worker)
    requires WorkerFine(w, worker) ==> WorkerFine(w, next)
    ensures WorkerFine(after, next)
  {
    if Carried(next).Some? {
      assert CommandFine(w, worker, Carried(next).value.command.event);
    }
    WorkerStays(w, next, after);
  }

  lemma RestsTidy(w: World, worker: Worker, after: World)
    requires Tidy(w, worker) && worker.Rest? && Conserved(after, RestSignal)
    requires after == if worker.queue in w.queues
                      then w.(queues := w.queues[worker.queue := w.queues[worker.queue].(running := false)]) else w
    ensures Tidy(after, RestSignal)
  {
    RestsFine(w, worker, after);
    HistoryStays(w, after, worker);
    RestsCommands(after, worker);
  }

  lemma RestsCommands(w: World, worker: Worker)
    requires worker.Rest? && forall e :: e in w.origin ==> CommandFine(w, worker, e)
    ensures forall e :: e in w.origin ==> CommandFine(w, RestSignal, e)
  {
    forall e | e in w.origin ensures CommandFine(w, RestSignal, e) {
      CommandStays(w, worker, w, RestSignal, e);
    }
  }

  lemma RestsFine(w: World, worker: Worker, after: World)
    requires worker.Rest? && WorkerFine(w, worker) && forall q :: q in w.queues ==> QueueFine(w, q)
    requires after == if worker.queue in w.queues
                      then w.(queues := w.queues[worker.queue := w.queues[worker.queue].(running := false)]) else w
    ensures WorkerFine(after, RestSignal) && (forall q :: q in w.queues <==> q in after.queues)
    ensures forall q :: q in after.queues ==> QueueFine(after, q)
  {
    forall q | q in after.queues ensures QueueFine(after, q) {
      assert QueueFine(w, q);
      QueueStays(w, after, q);
    }
  }

  lemma WorkerMoveFine(s: State, act: WorkerAct)
    requires WorkerFine(s.world, s.worker) && WorkerEnabled(s, act)
    requires !act.Takes? && !act.Begins? && !act.Settles? && !act.Executes? && !act.Rests?
    ensures WorkerWorld(s, act) == s.world.(events := WorkerWorld(s, act).events)
    ensures WorkerFine(s.world, WorkerNext(s, act))
    ensures BusyWith(WorkerNext(s, act)) == BusyWith(s.worker) && Carried(WorkerNext(s, act)) == Carried(s.worker)
    ensures forall e :: e in WorkerWorld(s, act).events ==>
              && e in s.world.events && WorkerWorld(s, act).events[e].status == s.world.events[e].status
              && WorkerWorld(s, act).events[e].user == s.world.events[e].user
  {
  }

  /** The worker reads, sleeps, signals or drops references. */
  lemma WorkerMoveTidy(s: State, act: WorkerAct)
    requires Tidy(s.world, s.worker) && WorkerEnabled(s, act)
    requires !act.Takes? && !act.Begins? && !act.Settles? && !act.Executes? && !act.Rests?
    requires Conserved(WorkerWorld(s, act), WorkerNext(s, act))
    ensures Tidy(WorkerWorld(s, act), WorkerNext(s, act))
  {
    var (after, next) := (WorkerWorld(s, act), WorkerNext(s, act));
    WorkerMoveFine(s, act);
    MoveTidy(s.world, s.worker, after, next);
  }

  lemma WorkerStepTidy(s: State, act: WorkerAct)
    requires Tidy(s.world, s.worker) && WorkerEnabled(s, act)
    ensures Tidy(WorkerWorld(s, act), WorkerNext(s, act))
  {
    WorkerStepConserves(s, act);
    match act
    case Takes(q) => TakeTidy(s.world, s.worker, q);
    case Begins => BeginTidy(s.world, s.worker);
    case Settles => SettleTidy(s.world, s.worker);
    case Executes(result) => ExecuteTidy(s.world, s.worker, result);
    case Rests => RestsTidy(s.world, s.worker, WorkerWorld(s, act));
    case _ => WorkerMoveTidy(s, act);
  }

  lemma CallStepTidy(s: State, t: nat, act: CallAct)
    requires Tidy(s.world, s.worker) && CallEnabled(s, t, act)
    ensures Tidy(CallAfter(s, t, act).world, CallAfter(s, t, act).worker)
  {
    CallStepConserves(s, t, act);
    MoveTidy(s.world, s.worker, CallAfter(s, t, act).world, CallAfter(s, t, act).worker);
  }

  // ----- queues on their way out

  /** A queue without references gets none, and gets no commands. */
  ghost predicate QueuesSettle(w: World, after: World) {
    && after.next >= w.next
    && forall q :: q in after.queues ==>
         if q in w.queues
         then w.queues[q].count == 0 ==> after.queues[q].count == 0 && (Idling(w.queues[q]) ==> Idling(after.queues[q]))
         else q >= w.next
  }

  lemma LeavingStays(w: World, after: World, thread: Thread)
    requires QueuesSettle(w, after) && Leaving(w, thread)
    ensures Leaving(after, thread)
  {
  }

  lemma EventStepSettles(s: State, t: nat, act: EventAct)
    requires EventEnabled(s, t, act)
    ensures QueuesSettle(s.world, EventAfter(s, t, act).world)
  {
    SameSettles(s.world, EventAfter(s, t, act).world);
  }

  lemma QueueStepSettles(s: State, t: nat, act: QueueAct)
    requires QueueEnabled(s, t, act) && Known(s.world)
    ensures QueuesSettle(s.world, QueueAfter(s, t, act).world)
  {
  }

  lemma UpdateSettles(w: World, after: World, q: nat, queue: Queue)
    requires q in w.queues && after.queues == w.queues[q := queue] && after.next >= w.next
    requires queue.count == w.queues[q].count && (Idling(w.queues[q]) ==> Idling(queue))
    ensures QueuesSettle(w, after)
  {
  }

  lemma SameSettles(w: World, after: World)
    requires after.queues == w.queues && after.next >= w.next
    ensures QueuesSettle(w, after)
  {
  }

  lemma WorkerStepSettles(s: State, act: WorkerAct)
    requires WorkerEnabled(s, act)
    ensures QueuesSettle(s.world, WorkerWorld(s, act))
  {
    var after := WorkerWorld(s, act);
    if act.Takes? {
      assert HeadReady(s.world, act.q);
      UpdateSettles(s.world, after, act.q, after.queues[act.q]);
    } else if act.Rests? && s.worker.queue in s.world.queues {
      UpdateSettles(s.world, after, s.worker.queue, s.world.queues[s.worker.queue].(running := false));
    } else {
      SameSettles(s.world, after);
    }
  }

  lemma QueueStepLeaves(s: State, t: nat, act: QueueAct, u: nat)
    requires QueueEnabled(s, t, act) && Known(s.world) && Leaving(s.world, s.At(u))
    ensures Leaving(QueueAfter(s, t, act).world, QueueAfter(s, t, act).At(u))
  {
    QueueStepSettles(s, t, act);
    if t != u {
      LeavingStays(s.world, QueueAfter(s, t, act).world, s.At(u));
    }
  }

  lemma CallStepLeaves(s: State, t: nat, act: CallAct, u: nat)
    requires CallEnabled(s, t, act) && Leaving(s.world, s.At(u))
    ensures Leaving(CallAfter(s, t, act).world, CallAfter(s, t, act).At(u))
  {
  }

  lemma EventStepLeaves(s: State, t: nat, act: EventAct, u: nat)
    requires EventEnabled(s, t, act) && Leaving(s.world, s.At(u))
    ensures Leaving(EventAfter(s, t, act).world, EventAfter(s, t, act).At(u))
  {
    EventStepSettles(s, t, act);
  }

  /** Every step keeps a safe state safe. */
  lemma StepSafe(s: State, step: Step)
    requires Safe(s) && Enabled(s, step)
    ensures Safe(After(s, step))
  {
    match step {
      case OnEvent(t, act) => EventStepSafe(s, t, act);
      case OnQueue(t, act) => QueueStepSafe(s, t, act);
      case OnCall(t, act) => CallStepSafe(s, t, act);
      case OnWorker(act) => WorkerStepSafe(s, act);
    }
  }

  lemma EventStepSafe(s: State, t: nat, act: EventAct)
    requires Safe(s) && EventEnabled(s, t, act)
    ensures Safe(EventAfter(s, t, act))
  {
    EventStepTidy(s, t, act);
    forall u ensures Leaving(EventAfter(s, t, act).world, EventAfter(s, t, act).At(u)) {
      assert Leaving(s.world, s.At(u));
      EventStepLeaves(s, t, act, u);
    }
  }

  lemma QueueStepSafe(s: State, t: nat, act: QueueAct)
    requires Safe(s) && QueueEnabled(s, t, act)
    ensures Safe(QueueAfter(s, t, act))
  {
    assert Leaving(s.world, s.At(t));
    QueueStepTidy(s, t, act);
    forall u ensures Leaving(QueueAfter(s, t, act).world, QueueAfter(s, t, act).At(u)) {
      assert Leaving(s.world, s.At(u));
      QueueStepLeaves(s, t, act, u);
    }
  }

  lemma CallStepSafe(s: State, t: nat, act: CallAct)
    requires Safe(s) && CallEnabled(s, t, act)
    ensures Safe(CallAfter(s, t, act))
  {
    CallStepTidy(s, t, act);
    forall u ensures Leaving(CallAfter(s, t, act).world, CallAfter(s, t, act).At(u)) {
      assert Leaving(s.world, s.At(u));
      CallStepLeaves(s, t, act, u);
    }
  }

  lemma WorkerStepSafe(s: State, act: WorkerAct)
    requires Safe(s) && WorkerEnabled(s, act)
    ensures Safe(WorkerAfter(s, act))
  {
    WorkerStepTidy(s, act);
    WorkerStepSettles(s, act);
    forall u ensures Leaving(WorkerAfter(s, act).world, WorkerAfter(s, act).At(u)) {
      assert Leaving(s.world, s.At(u));
      LeavingStays(s.world, WorkerAfter(s, act).world, s.At(u));
    }
  }

  /** Every state a run reaches is safe, whatever the interleaving. */
  lemma {:induction false} RunSafe(s: State, steps: seq<Step>)
    requires Safe(s) && Run(s, steps).Some?
    ensures Safe(Run(s, steps).value)
    decreases |steps|
  {
    if steps != [] {
      StepSafe(s, steps[0]);
      RunSafe(After(s, steps[0]), steps[1..]);
    }
  }
}
