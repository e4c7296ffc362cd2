/** What every reachable state of the command protocol keeps: command order, wait lists,
    copied failures, and the references that make them true. */
module CommandSafety {
  import opened Wrappers
  import opened Commands
  import opened EventCounts

  predicate Ascending(ids: seq<nat>) { forall i, j :: 0 <= i < j < |ids| ==> ids[i] < ids[j] }

  function EventsOf(commands: seq<Command>): (r: seq<nat>)
    ensures |r| == |commands| && forall i :: 0 <= i < |r| ==> r[i] == commands[i].event
  {
    seq(|commands|, i requires 0 <= i < |commands| => commands[i].event)
  }

  /** The command the worker has taken and not yet settled. */
  function Carried(worker: Worker): Option<Job> {
    match worker
    case Begin(job) => Some(job)
    case BeginSignal(job) => Some(job)
    case Execute(job) => Some(job)
    case Unwait(job, _, _) => Some(job)
    case Settle(job, _) => Some(job)
    case _ => None
  }

  /** The queue whose command the worker is busy with, until it clears the running flag. */
  function BusyWith(worker: Worker): Option<nat> {
    match worker
    case SettleSignal(job) => Some(job.queue)
    case Drop(job) => Some(job.queue)
    case Rest(q) => Some(q)
    case _ => if Carried(worker).Some? then Some(Carried(worker).value.queue) else None
  }

  predicate Carries(worker: Worker, e: nat) { Carried(worker).Some? && Carried(worker).value.command.event == e }

  /** The status is a failure, and that of an event the command waits on. */
  ghost predicate Copied(w: World, wait: seq<nat>, status: Status) {
    status.IsTerminated() && exists x :: x in wait && x in w.fate && w.fate[x] == status
  }

  ghost predicate AllDone(w: World, wait: seq<nat>) {
    forall x :: x in wait ==> x in w.fate && w.fate[x] == Complete
  }

  /** Tables agree with the history. */
  ghost predicate Known(w: World) {
    && (forall q :: q in w.queues ==> q < w.next)
    && (forall e :: e in w.fate ==> e < w.next)
    && (forall e :: e in w.events ==> e in w.fate && w.fate[e] == w.events[e].status)
    && (forall e :: e in w.events ==> (w.events[e].user <==> e !in w.origin))
    && (forall e :: e in w.events && w.events[e].user ==> w.events[e].status.Submitted? || w.events[e].status.Settled())
    && (forall q :: q in w.issued || q in w.taken ==> q < w.next)
    && (forall e :: e in w.executed || e in w.origin ==> e < w.next)
  }

  /** One command that was ever enqueued. */
  ghost predicate CommandFine(w: World, worker: Worker, e: nat)
    requires e in w.origin
  {
    && e in w.fate && (forall x :: x in w.origin[e].wait ==> x in w.fate && x < e)
    && e in Listed(w.issued, w.origin[e].queue)
    && (e in w.executed ==> AllDone(w, w.origin[e].wait))
    && (w.fate[e] == Complete ==> e in w.executed)
    && (w.fate[e].Settled() && e in w.executed ==> w.fate[e] == w.executed[e])
    && (w.fate[e].Settled() && e !in w.executed ==> Copied(w, w.origin[e].wait, w.fate[e]))
    && (e in Listed(w.taken, w.origin[e].queue) ==> w.fate[e].Settled() || Carries(worker, e))
    && (e in w.executed ==> e in Listed(w.taken, w.origin[e].queue))
    && (w.fate[e].Settled() ==> e in Listed(w.taken, w.origin[e].queue))
    && (w.fate[e].Settled() || w.origin[e].queue in w.queues)
  }

  /** One queue: what was issued is what was taken and then what still waits, in order. */
  ghost predicate QueueFine(w: World, q: nat)
    requires q in w.queues
  {
    && Listed(w.issued, q) == Listed(w.taken, q) + EventsOf(w.queues[q].commands)
    && forall i :: 0 <= i < |w.queues[q].commands| ==>
         var c := w.queues[q].commands[i];
         c.event in w.origin && w.origin[c.event] == Origin(q, c.wait) && c.event in w.fate && w.fate[c.event] == Queued
  }

  ghost predicate ListFine(w: World, q: nat) {
    && Ascending(Listed(w.issued, q))
    && (forall e :: e in Listed(w.issued, q) ==> e in w.origin && w.origin[e].queue == q)
    && Listed(w.taken, q) <= Listed(w.issued, q)
  }

  ghost predicate IssuedFine(w: World) { forall q :: ListFine(w, q) }

  /** The worker's command: where it comes from, and why it may run or must not. */
  ghost predicate WorkerFine(w: World, worker: Worker) {
    && (BusyWith(worker).Some? ==>
          var q := BusyWith(worker).value;
          q < w.next && (q in w.queues ==> w.queues[q].running))
    && (forall q :: q in w.queues && w.queues[q].running ==> BusyWith(worker) == Some(q))
    && (Carried(worker).Some? ==>
          var Job(q, c) := Carried(worker).value;
          && c.event in w.origin && w.origin[c.event] == Origin(q, c.wait)
          && c.event in Listed(w.taken, q) && c.event in w.fate && !w.fate[c.event].Settled() && !w.fate[c.event].Submitted?
          && (worker.Begin? || worker.BeginSignal? || worker.Execute? ==>
                AllDone(w, c.wait) && c.event !in w.executed)
          && (worker.Unwait? || worker.Settle? ==>
                if c.event in w.executed
                then worker.status == w.executed[c.event] && (worker.status.Complete? || worker.status.Failed?)
                else Copied(w, c.wait, worker.status)))
  }

  /** A queue whose last reference is gone stays idle until it is removed. */
  ghost predicate Leaving(w: World, thread: Thread) {
    match thread
    case Reading(goal) => LastDrain(w, goal)
    case Checking(goal, _) => LastDrain(w, goal)
    case Blocked(goal, _) => LastDrain(w, goal)
    case Removing(q) => q < w.next && (q in w.queues ==> w.queues[q].count == 0 && Idling(w.queues[q]))
    case _ => true
  }

  ghost predicate LastDrain(w: World, goal: Goal) {
    goal.Drain? && goal.dropping ==>
      goal.queue < w.next && (goal.queue in w.queues ==> w.queues[goal.queue].count == 0)
  }

  ghost predicate Tidy(w: World, worker: Worker) {
    && Conserved(w, worker) && Known(w) && IssuedFine(w) && WorkerFine(w, worker)
    && (forall q :: q in w.queues ==> QueueFine(w, q))
    && (forall e :: e in w.origin ==> CommandFine(w, worker, e))
  }

  ghost predicate Safe(s: State) {
    Tidy(s.world, s.worker) && forall t :: Leaving(s.world, s.At(t))
  }

  lemma StartSafe()
    ensures Safe(START)
  {
    StartConserved();
  }

  // ----- what a step may change without disturbing the rest

  /** Statuses are only added, and a settled one never changes. */
  ghost predicate Grows(w: World, after: World) {
    forall e :: e in w.fate ==> e in after.fate && (w.fate[e].Settled() ==> after.fate[e] == w.fate[e])
  }

  lemma DoneStays(w: World, after: World, wait: seq<nat>)
    requires Grows(w, after) && AllDone(w, wait)
    ensures AllDone(after, wait)
  {
  }

  lemma CopiedStays(w: World, after: World, wait: seq<nat>, status: Status)
    requires Grows(w, after) && Copied(w, wait, status)
    ensures Copied(after, wait, status)
  {
    var x :| x in wait && x in w.fate && w.fate[x] == status;
    assert x in after.fate && after.fate[x] == status;
  }

  /** A command the step is not about. */
  ghost predicate SameCommand(w: World, worker: Worker, after: World, next: Worker, e: nat) {
    && e in w.origin && e in after.origin && after.origin[e] == w.origin[e]
    && e in w.fate && e in after.fate && after.fate[e] == w.fate[e]
    && (e in after.executed <==> e in w.executed) && (e in w.executed ==> after.executed[e] == w.executed[e])
    && (e in Listed(w.issued, w.origin[e].queue) ==> e in Listed(after.issued, w.origin[e].queue))
    && (e in Listed(after.taken, w.origin[e].queue) <==> e in Listed(w.taken, w.origin[e].queue))
    && (Carries(worker, e) ==> Carries(next, e) || w.fate[e].Settled())
    && (w.fate[e].Settled() || (w.origin[e].queue in w.queues ==> w.origin[e].queue in after.queues))
  }

  lemma CommandStays(w: World, worker: Worker, after: World, next: Worker, e: nat)
    requires SameCommand(w, worker, after, next, e) && CommandFine(w, worker, e) && Grows(w, after)
    ensures CommandFine(after, next, e)
  {
    var wait := w.origin[e].wait;
    if e in w.executed {
      DoneStays(w, after, wait);
    }
    if w.fate[e].Settled() && e !in w.executed {
      CopiedStays(w, after, wait, w.fate[e]);
    }
  }

  /** A queue the step is not about. */
  lemma QueueStays(w: World, after: World, q: nat)
    requires q in w.queues && QueueFine(w, q) && q in after.queues
    requires after.queues[q].commands == w.queues[q].commands
    requires Listed(after.issued, q) == Listed(w.issued, q) && Listed(after.taken, q) == Listed(w.taken, q)
    requires forall i :: 0 <= i < |w.queues[q].commands| ==>
               var e := w.queues[q].commands[i].event;
               e in w.origin && e in after.origin && after.origin[e] == w.origin[e]
               && e in w.fate && e in after.fate && after.fate[e] == w.fate[e]
    ensures QueueFine(after, q)
  {
    forall i | 0 <= i < |after.queues[q].commands|
      ensures var c := after.queues[q].commands[i];
              c.event in after.origin && after.origin[c.event] == Origin(q, c.wait)
              && c.event in after.fate && after.fate[c.event] == Queued
    {
      assert w.queues[q].commands[i] == after.queues[q].commands[i];
    }
  }

  ghost predicate SameRunning(w: World, after: World) {
    forall q :: (q in w.queues && w.queues[q].running) <==> (q in after.queues && after.queues[q].running)
  }

  /** A step that is not the worker's leaves it fine. */
  lemma WorkerStays(w: World, worker: Worker, after: World)
    requires WorkerFine(w, worker) && Grows(w, after) && after.next >= w.next
    requires SameRunning(w, after)
    requires BusyWith(worker).Some? && BusyWith(worker).value in after.queues ==> BusyWith(worker).value in w.queues
    requires Carried(worker).Some? ==> SameCommand(w, worker, after, worker, Carried(worker).value.command.event)
    ensures WorkerFine(after, worker)
  {
    if Carried(worker).Some? {
      var c := Carried(worker).value.command;
      if worker.Begin? || worker.BeginSignal? || worker.Execute? {
        DoneStays(w, after, c.wait);
      } else if c.event !in w.executed {
        CopiedStays(w, after, c.wait, worker.status);
      }
    }
  }

  // ----- steps on events

  /** Counts may change and events may go; the rest stays. */
  lemma CountsTidy(w: World, after: World, worker: Worker)
    requires Tidy(w, worker) && Conserved(after, worker)
    requires after == w.(events := after.events, users := after.users)
    requires forall e :: e in after.events ==>
               e in w.events && after.events[e].status == w.events[e].status && after.events[e].user == w.events[e].user
    ensures Tidy(after, worker)
  {
    OthersStay(w, after, worker);
  }

  /** The history of commands is untouched, but for one event that belongs to no command. */
  lemma OthersStay(w: World, after: World, worker: Worker)
    requires IssuedFine(w) && WorkerFine(w, worker) && Grows(w, after)
    requires (forall q :: q in w.queues ==> QueueFine(w, q)) && forall e :: e in w.origin ==> CommandFine(w, worker, e)
    requires after.queues == w.queues && after.origin == w.origin && after.issued == w.issued && after.taken == w.taken
    requires after.executed == w.executed && after.next >= w.next
    requires forall e :: e in w.origin && e in w.fate ==> e in after.fate && after.fate[e] == w.fate[e]
    ensures IssuedFine(after) && WorkerFine(after, worker)
    ensures forall q :: q in after.queues ==> QueueFine(after, q)
    ensures forall e :: e in after.origin ==> CommandFine(after, worker, e)
  {
    forall q | q in after.queues ensures QueueFine(after, q) {
      assert QueueFine(w, q);
      QueueStays(w, after, q);
    }
    forall e | e in after.origin ensures CommandFine(after, worker, e) {
      assert CommandFine(w, worker, e);
      CommandStays(w, worker, after, worker, e);
    }
    if Carried(worker).Some? {
      assert CommandFine(w, worker, Carried(worker).value.command.event);
    }
    WorkerStays(w, worker, after);
    forall q ensures ListFine(after, q) {
      assert ListFine(w, q);
    }
  }

  lemma MarkKnown(w: World, e: nat, status: Status)
    requires Known(w) && e in w.events && (w.events[e].user ==> status.Submitted? || status.Settled())
    ensures Known(Marked(w, e, status))
  {
  }

  lemma SetStatusTidy(w: World, worker: Worker, e: nat, status: Status)
    requires Tidy(w, worker) && e in w.events && w.events[e].user && w.events[e].status.Submitted?
    requires status.Settled() && Conserved(Marked(w, e, status), worker)
    ensures Tidy(Marked(w, e, status), worker)
  {
    MarkKnown(w, e, status);
    UserMarkGrows(w, e, status);
    OthersStay(w, Marked(w, e, status), worker);
  }

  /** A user event belongs to no command. */
  lemma UserMarkGrows(w: World, e: nat, status: Status)
    requires Known(w) && e in w.events && w.events[e].user && w.events[e].status.Submitted?
    ensures Grows(w, Marked(w, e, status))
    ensures forall x :: x in w.origin && x in w.fate ==> x in Marked(w, e, status).fate && Marked(w, e, status).fate[x] == w.fate[x]
  {
  }

  lemma CreateTidy(w: World, worker: Worker)
    requires Tidy(w, worker) && Conserved(EventWorld(w, Create), worker)
    ensures Tidy(EventWorld(w, Create), worker)
  {
    CreateKnown(w);
    OthersStay(w, EventWorld(w, Create), worker);
  }

  lemma CreateKnown(w: World)
    requires Known(w)
    ensures Known(EventWorld(w, Create)) && Grows(w, EventWorld(w, Create))
    ensures forall e :: e in w.origin && e in w.fate ==> EventWorld(w, Create).fate[e] == w.fate[e]
  {
  }

  /** Retaining and releasing change counts only. */
  lemma HoldKeeps(w: World, act: EventAct)
    requires act.Retain? || act.Release?
    ensures EventWorld(w, act) == w.(events := EventWorld(w, act).events, users := EventWorld(w, act).users)
    ensures forall e :: e in EventWorld(w, act).events ==>
              && e in w.events && EventWorld(w, act).events[e].status == w.events[e].status
              && EventWorld(w, act).events[e].user == w.events[e].user
  {
  }

  lemma EventStepTidy(s: State, t: nat, act: EventAct)
    requires Tidy(s.world, s.worker) && EventEnabled(s, t, act)
    ensures Tidy(EventAfter(s, t, act).world, s.worker)
  {
    EventStepConserves(s, t, act);
    var after := EventWorld(s.world, act);
    match act
    case SetStatus(e, status) =>
      SetStatusTidy(s.world, s.worker, e, status);
      assert after == Marked(s.world, e, status);
    case Create => CreateTidy(s.world, s.worker);
    case _ =>
      HoldKeeps(s.world, act);
      CountsTidy(s.world, after, s.worker);
  }
}
