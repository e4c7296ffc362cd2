/** What callers can see of events and commands: when a status changes, and when calls return. */
module CommandStatus {
  import opened Wrappers
  import opened Commands
  import opened EventCounts
  import opened CommandSafety
  import opened CommandSteps
  import opened CommandOrder

  // ----- at most one command runs

  predicate Occupied(worker: Worker) { worker.BeginSignal? || worker.Execute? || worker.Unwait? || worker.Settle? }

  /** Only the worker's command is running, and it is while it executes. */
  ghost predicate OneRuns(s: State) {
    && (forall e :: e in s.world.fate && s.world.fate[e] == Running ==> Occupied(s.worker) && Carries(s.worker, e))
    && (s.worker.BeginSignal? || s.worker.Execute? ==>
          s.worker.job.command.event in s.world.fate && s.world.fate[s.worker.job.command.event] == Running)
  }

  lemma StartRuns()
    ensures OneRuns(START)
  {
  }

  lemma StepRuns(s: State, step: Step)
    requires Tidy(s.world, s.worker) && OneRuns(s) && Enabled(s, step)
    ensures OneRuns(After(s, step))
  {
    match step
    case OnEvent(t, act) => EventRuns(s, t, act);
    case OnQueue(t, act) => QueueRuns(s, t, act);
    case OnCall(t, act) => CallRuns(s, t, act);
    case OnWorker(act) => WorkerStepRuns(s, act);
  }

  lemma CarriedExists(w: World, worker: Worker)
    requires Conserved(w, worker)
    ensures Carried(worker).Some? ==> Carried(worker).value.command.event in w.events
  {
    if Carried(worker).Some? {
      HeldExists(w, worker, Carried(worker).value.command.event);
    }
  }

  lemma EventRuns(s: State, t: nat, act: EventAct)
    requires Known(s.world) && OneRuns(s) && EventEnabled(s, t, act)
    ensures OneRuns(EventAfter(s, t, act))
  {
  }

  lemma QueueRuns(s: State, t: nat, act: QueueAct)
    requires Known(s.world) && OneRuns(s) && QueueEnabled(s, t, act)
    ensures OneRuns(QueueAfter(s, t, act))
  {
  }

  lemma CallRuns(s: State, t: nat, act: CallAct)
    requires OneRuns(s) && CallEnabled(s, t, act)
    ensures OneRuns(CallAfter(s, t, act))
  {
  }

  lemma WorkerRuns(s: State, act: WorkerAct)
    requires WorkerFine(s.world, s.worker) && OneRuns(s) && WorkerEnabled(s, act)
    requires Carried(s.worker).Some? ==> Carried(s.worker).value.command.event in s.world.events
    ensures OneRuns(WorkerAfter(s, act))
  {
  }

  lemma WorkerStepRuns(s: State, act: WorkerAct)
    requires Tidy(s.world, s.worker) && OneRuns(s) && WorkerEnabled(s, act)
    ensures OneRuns(WorkerAfter(s, act))
  {
    CarriedExists(s.world, s.worker);
    WorkerRuns(s, act);
  }

  lemma {:induction false} RunRuns(s: State, steps: seq<Step>)
    requires Safe(s) && OneRuns(s) && Run(s, steps).Some?
    ensures OneRuns(Run(s, steps).value)
    decreases |steps|
  {
    if steps != [] {
      StepSafe(s, steps[0]);
      StepRuns(s, steps[0]);
      RunRuns(After(s, steps[0]), steps[1..]);
    }
  }

  /** Of all commands of all queues at most one has the status of a running one, and the command
      the worker executes has it. */
  lemma OneRunsAtATime(s: State, a: nat, b: nat)
    requires Reachable(s)
    ensures a in s.world.fate && s.world.fate[a] == Running && b in s.world.fate && s.world.fate[b] == Running ==> a == b
    ensures s.worker.Execute? ==>
              s.worker.job.command.event in s.world.fate && s.world.fate[s.worker.job.command.event] == Running
  {
    var steps :| Run(START, steps) == Some(s);
    StartSafe();
    StartRuns();
    RunRuns(START, steps);
  }

  // ----- an event made by a user

  predicate Sets(step: Step, e: nat) { step.OnEvent? && step.event.SetStatus? && step.event.e == e }

  ghost predicate Kept(w: World, after: World, e: nat) {
    e in w.fate && e in after.fate && after.fate[e] == w.fate[e] && e !in after.origin
  }

  /** Nobody but its user changes its status. */
  lemma StepLeaves(s: State, step: Step, e: nat)
    requires Tidy(s.world, s.worker) && Enabled(s, step) && !Sets(step, e)
    requires e in s.world.fate && e !in s.world.origin
    ensures Kept(s.world, After(s, step).world, e)
  {
    match step
    case OnEvent(t, act) => EventLeaves(s, t, act, e);
    case OnQueue(t, act) => QueueLeaves(s, t, act, e);
    case OnCall(t, act) => CallLater(s, t, act);
    case OnWorker(act) => WorkerLeaves(s, act, e);
  }

  lemma EventLeaves(s: State, t: nat, act: EventAct, e: nat)
    requires Known(s.world) && EventEnabled(s, t, act) && !(act.SetStatus? && act.e == e)
    requires e in s.world.fate && e !in s.world.origin
    ensures Kept(s.world, EventAfter(s, t, act).world, e)
  {
  }

  lemma QueueLeaves(s: State, t: nat, act: QueueAct, e: nat)
    requires Known(s.world) && QueueEnabled(s, t, act)
    requires e in s.world.fate && e !in s.world.origin
    ensures Kept(s.world, QueueAfter(s, t, act).world, e)
  {
  }

  lemma WorkerLeaves(s: State, act: WorkerAct, e: nat)
    requires WorkerFine(s.world, s.worker) && WorkerEnabled(s, act)
    requires e in s.world.fate && e !in s.world.origin
    ensures Kept(s.world, WorkerWorld(s, act), e)
  {
  }

  lemma {:induction false} RunLeaves(s: State, steps: seq<Step>, e: nat)
    requires Safe(s) && Run(s, steps).Some? && forall i :: 0 <= i < |steps| ==> !Sets(steps[i], e)
    requires e in s.world.fate && e !in s.world.origin
    ensures var w := Run(s, steps).value.world; e in w.fate && w.fate[e] == s.world.fate[e] && e !in w.origin
    decreases |steps|
  {
    if steps != [] {
      assert !Sets(steps[0], e);
      StepSafe(s, steps[0]);
      StepLeaves(s, steps[0], e);
      RunLeaves(After(s, steps[0]), steps[1..], e);
    }
  }

  /** A user's event is submitted from when it is made until its status is set, so whatever waits
      for it waits until then. */
  lemma UserEventStaysSubmitted(s: State, t: nat, rest: seq<Step>)
    requires Reachable(s) && EventEnabled(s, t, Create) && Run(EventAfter(s, t, Create), rest).Some?
    requires forall i :: 0 <= i < |rest| ==> !Sets(rest[i], s.world.next)
    ensures var w := Run(EventAfter(s, t, Create), rest).value.world;
            && s.world.next in w.fate && w.fate[s.world.next] == Submitted
            && forall e :: e in w.origin && s.world.next in w.origin[e].wait ==> e !in w.executed
  {
    StaysReachable(s, OnEvent(t, Create), rest);
    ReachableSafe(s);
    ReachableSafe(EventAfter(s, t, Create));
    RunLeaves(EventAfter(s, t, Create), rest, s.world.next);
    var after := Run(EventAfter(s, t, Create), rest).value;
    forall e | e in after.world.origin && s.world.next in after.world.origin[e].wait ensures e !in after.world.executed {
      AwaitsAsRecorded(after, e, s.world.next);
    }
  }

  // ----- which failure is copied

  lemma {:induction false} FirstIsFound(events: map<nat, Event>, wait: seq<nat>, i: nat)
    requires i < |wait| && wait[i] in events && events[wait[i]].status.IsTerminated()
    requires forall j :: 0 <= j < i && wait[j] in events ==> !events[wait[j]].status.IsTerminated()
    ensures FirstTerminated(Statuses(events, wait)) == Some(events[wait[i]].status)
  {
    var (rest, statuses) := (Statuses(events, wait[1..]), Statuses(events, wait));
    if wait[0] in events {
      assert statuses[0] == events[wait[0]].status && statuses[1..] == rest;
    } else {
      assert statuses == rest;
    }
    if i > 0 {
      forall j | 0 <= j < i - 1 && wait[1..][j] in events ensures !events[wait[1..][j]].status.IsTerminated() {
        assert wait[1..][j] == wait[j + 1];
      }
      FirstIsFound(events, wait[1..], i - 1);
    }
  }

  /** Of several terminated events the first of the wait list gives a command its failure. */
  lemma FirstFailureIsCopied(s: State, q: nat, i: nat)
    requires WorkerEnabled(s, Takes(q))
    requires var (w, wait) := (s.world, s.world.queues[q].commands[0].wait);
             && i < |wait| && wait[i] in w.events && w.events[wait[i]].status.IsTerminated()
             && forall j :: 0 <= j < i && wait[j] in w.events ==> !w.events[wait[j]].status.IsTerminated()
    ensures var head := s.world.queues[q].commands[0];
            WorkerNext(s, Takes(q)) == Unwait(Job(q, head), s.world.events[head.wait[i]].status, head.wait)
  {
    assert HeadReady(s.world, q);
    FirstIsFound(s.world.events, s.world.queues[q].commands[0].wait, i);
  }

  // ----- when calls return

  /** A wait returns when it looks and every event is complete or terminated, or one is gone; else
      it sleeps. */
  lemma WaitReturnsExactly(s: State, t: nat)
    requires CallEnabled(s, t, Check) && s.At(t).goal.WaitFor?
    ensures var (events, after) := (s.At(t).goal.events, CallAfter(s, t, Check));
            && after.world == s.world
            && (after.At(t).Idle? <==>
                  || (exists e :: e in events && e !in s.world.events)
                  || forall e :: e in events ==>
                       var status := s.world.events[e].status; status.Complete? || status.Terminated? || status.Failed?)
            && (!after.At(t).Idle? ==> after.At(t) == Blocked(s.At(t).goal, s.At(t).seen))
  {
  }

  /** A call to finish a queue, or to drop its last reference, goes on when it looks and nothing
      of the queue is pending or runs; and then all that was ever enqueued there is settled. */
  lemma FinishReturnsExactly(s: State, t: nat)
    requires Reachable(s) && CallEnabled(s, t, Check) && s.At(t).goal.Drain? && s.At(t).goal.queue in s.world.queues
    ensures var (q, w, after) := (s.At(t).goal.queue, s.world, CallAfter(s, t, Check));
            && after.world == w
            && (if w.queues[q].commands == [] && !w.queues[q].running
                then && after.At(t) == (if s.At(t).goal.dropping then Removing(q) else Idle)
                     && forall e :: e in Listed(w.issued, q) ==> e in w.fate && w.fate[e].Settled()
                else after.At(t) == Blocked(s.At(t).goal, s.At(t).seen))
  {
    var (q, w) := (s.At(t).goal.queue, s.world);
    if Idling(w.queues[q]) {
      forall e | e in Listed(w.issued, q) ensures e in w.fate && w.fate[e].Settled() {
        FinishMeansSettled(s, t, e);
      }
    }
  }

  // ----- handles of queues

  /** Keeping a queue and letting it go again changes nothing. */
  lemma RetainThenRelease(s: State, t: nat, q: nat)
    requires QueueEnabled(s, t, RetainQueue(q))
    ensures var kept := QueueAfter(s, t, RetainQueue(q));
            QueueEnabled(kept, t, ReleaseQueue(q)) && QueueAfter(kept, t, ReleaseQueue(q)) == s
  {
    var kept := QueueAfter(s, t, RetainQueue(q));
    assert kept.world.queues[q := s.world.queues[q]] == s.world.queues;
  }

  lemma RunsFirst(s: State, step: Step, rest: seq<Step>)
    requires Enabled(s, step)
    ensures Run(s, [step] + rest) == Run(After(s, step), rest)
  {
    assert ([step] + rest)[1..] == rest;
  }

  lemma LastReleaseDrains(s: State, t: nat, q: nat)
    requires QueueEnabled(s, t, ReleaseQueue(q)) && s.world.queues[q].count == 1 && Idling(s.world.queues[q])
    ensures var left := s.(world := Counted(s.world, q, 0)).Moved(t, Removing(q));
            Run(s, [OnQueue(t, ReleaseQueue(q))] + ([OnCall(t, ReadGeneration)] + ([OnCall(t, Check)] + [])))
            == Some(left)
  {
    var released := QueueAfter(s, t, ReleaseQueue(q));
    var reading := CallAfter(released, t, ReadGeneration);
    RunsFirst(s, OnQueue(t, ReleaseQueue(q)), [OnCall(t, ReadGeneration)] + ([OnCall(t, Check)] + []));
    RunsFirst(released, OnCall(t, ReadGeneration), [OnCall(t, Check)] + []);
    RunsFirst(reading, OnCall(t, Check), []);
    assert CallAfter(reading, t, Check).threads == s.threads[t := Removing(q)];
  }

  /** The one reference a new queue has is its last: letting go of it, while the queue is idle,
      removes that queue and no other, and then the worker is looked after. */
  lemma LastReleaseRemoves(s: State, t: nat, q: nat) returns (steps: seq<Step>)
    requires QueueEnabled(s, t, ReleaseQueue(q)) && s.world.queues[q].count == 1 && Idling(s.world.queues[q])
    ensures steps == [OnQueue(t, ReleaseQueue(q)), OnCall(t, ReadGeneration), OnCall(t, Check), OnQueue(t, Remove)]
    ensures Run(s, steps) == Some(s.(world := s.world.(queues := s.world.queues - {q})).Moved(t, Updating))
  {
    var first := [OnQueue(t, ReleaseQueue(q))] + ([OnCall(t, ReadGeneration)] + ([OnCall(t, Check)] + []));
    var last := OnQueue(t, Remove);
    steps := first + [last];
    LastReleaseDrains(s, t, q);
    RunJoins(s, first, [last]);
    var left := Run(s, first).value;
    RunsFirst(left, last, []);
    assert [last] + [] == [last];
    assert left.world.queues - {q} == s.world.queues - {q};
    assert QueueAfter(left, t, Remove).threads == s.threads[t := Updating];
  }

  lemma NewQueueHasOne(s: State, t: nat)
    requires QueueEnabled(s, t, CreateQueue) && Known(s.world)
    ensures var after := QueueAfter(s, t, CreateQueue);
            && s.world.next !in s.world.queues && after.world.queues == s.world.queues[s.world.next := Queue([], false, 1)]
            && after.At(t) == Updating
  {
  }
}
