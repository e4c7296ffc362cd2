/** No wakeup is lost: a sleeper whose condition already holds is about to be signalled. */
module Wakeups {
  import opened Wrappers
  import opened Commands
  import opened EventCounts
  import opened CommandSafety
  import opened CommandSteps
  import opened CommandOrder

  predicate ThreadSignals(thread: Thread) { thread.Signalling? || thread.StopSignalling? }

  predicate WorkerSignals(worker: Worker) { worker.BeginSignal? || worker.SettleSignal? || worker.RestSignal? }

  /** Somebody has changed the tables and not yet signalled progress. */
  ghost predicate Signaller(s: State) { WorkerSignals(s.worker) || exists t :: ThreadSignals(s.At(t)) }

  /** The call could return, and is promised to: what it waits for can be seen to hold, or the
      queue it drains is gone. A wait with a missing event could return too, but is promised nothing. */
  ghost predicate Due(w: World, goal: Goal) { Holds(w, goal) || (goal.Drain? && Lost(w, goal)) }

  /** A call has read no generation from the future; if it sleeps on the current one and is
      due to return, somebody will signal. */
  ghost predicate Heard(s: State, thread: Thread) {
    match thread
    case Checking(goal, seen) => seen <= s.generation
    case Blocked(goal, seen) =>
      && seen <= s.generation && (goal.Drain? ==> goal.queue < s.world.next)
      && (seen == s.generation && Due(s.world, goal) ==> Signaller(s))
    case _ => true
  }

  ghost predicate WorkerHeard(s: State) {
    match s.worker
    case Read(seen) => seen <= s.generation
    case Looking(seen) => seen <= s.generation && (seen == s.generation && s.shutdown ==> Signaller(s))
    case Asleep(seen) =>
      seen <= s.generation && (seen == s.generation && (s.shutdown || !NothingReady(s.world)) ==> Signaller(s))
    case _ => true
  }

  ghost predicate Wakeful(s: State) { WorkerHeard(s) && forall t :: Heard(s, s.At(t)) }

  predicate IsSignal(step: Step) {
    match step
    case OnCall(_, act) => act.Signal?
    case OnWorker(act) => act.Signals?
    case _ => false
  }

  // ----- a step after which nobody needs to signal

  /** Only a signal ends the wish to signal. */
  lemma SignallerStays(s: State, step: Step)
    requires Enabled(s, step) && !IsSignal(step) && Signaller(s)
    ensures Signaller(After(s, step))
  {
    var after := After(s, step);
    if !WorkerSignals(s.worker) {
      var t :| ThreadSignals(s.At(t));
      assert after.At(t) == s.At(t);
    }
  }

  /** Nothing the tables promise a sleeper came about. */
  ghost predicate Quiet(w: World, after: World) {
    && after.next >= w.next
    && (forall e :: e in after.events && after.events[e].status.Settled() ==>
          e in w.events && w.events[e].status == after.events[e].status)
    && (forall q :: q in after.queues && q < w.next && Idling(after.queues[q]) ==> q in w.queues && Idling(w.queues[q]))
    && (forall q :: q in w.queues && q !in after.queues ==> Idling(w.queues[q]))
  }

  lemma QuietDue(w: World, after: World, goal: Goal)
    requires Quiet(w, after) && Due(after, goal) && (goal.Drain? ==> goal.queue < w.next)
    ensures Due(w, goal)
  {
  }

  lemma EventQuiet(s: State, t: nat, act: EventAct)
    requires EventEnabled(s, t, act) && !act.SetStatus?
    ensures Quiet(s.world, EventAfter(s, t, act).world)
  {
  }

  lemma QueueQuiet(s: State, t: nat, act: QueueAct)
    requires QueueEnabled(s, t, act) && !act.Enqueue? && Leaving(s.world, s.At(t))
    ensures Quiet(s.world, QueueAfter(s, t, act).world)
  {
    var after := QueueAfter(s, t, act).world;
    match act
    case CreateQueue => QueuesQuiet(s.world, after, s.world.next);
    case RetainQueue(q) => QueuesQuiet(s.world, after, q);
    case ReleaseQueue(q) => QueuesQuiet(s.world, after, q);
    case Remove => QueuesQuiet(s.world, after, s.At(t).queue);
  }

  /** A step about one queue that makes it no idler, and removes it only when idle. */
  lemma QueuesQuiet(w: World, after: World, q: nat)
    requires after.events == w.events && after.next >= w.next
    requires forall p :: p != q ==> (p in w.queues <==> p in after.queues)
    requires forall p :: p != q && p in w.queues ==> after.queues[p] == w.queues[p]
    requires q in after.queues && q < w.next && Idling(after.queues[q]) ==> q in w.queues && Idling(w.queues[q])
    requires q in w.queues && q !in after.queues ==> Idling(w.queues[q])
    ensures Quiet(w, after)
  {
  }

  lemma WorkerQuiet(s: State, act: WorkerAct)
    requires WorkerEnabled(s, act) && !act.Begins? && !act.Settles? && !act.Rests?
    ensures Quiet(s.world, WorkerWorld(s, act))
  {
  }

  lemma StepQuiet(s: State, step: Step)
    requires Enabled(s, step) && !IsSignal(step) && !Signaller(After(s, step))
    requires step.OnQueue? ==> Leaving(s.world, s.At(step.t))
    ensures Quiet(s.world, After(s, step).world)
  {
    match step
    case OnEvent(t, act) =>
      assert act.SetStatus? ==> ThreadSignals(EventAfter(s, t, act).At(t));
      EventQuiet(s, t, act);
    case OnQueue(t, act) =>
      assert act.Enqueue? ==> ThreadSignals(QueueAfter(s, t, act).At(t));
      QueueQuiet(s, t, act);
    case OnCall(t, act) =>
    case OnWorker(act) => WorkerQuiet(s, act);
  }

  // ----- heads do not become ready in silence

  lemma {:induction false} SameStatuses(events: map<nat, Event>, after: map<nat, Event>, wait: seq<nat>)
    requires forall e :: e in wait ==> e in events && e in after && after[e].status == events[e].status
    ensures Statuses(after, wait) == Statuses(events, wait)
  {
    if wait != [] {
      SameStatuses(events, after, wait[1..]);
    }
  }

  /** Events come and go, but never one that a pending command awaits. */
  lemma EventsKeepHeads(w: World, after: World, worker: Worker)
    requires Conserved(w, worker) && Conserved(after, worker) && after.queues == w.queues
    requires forall e :: e in w.events && e in after.events ==> after.events[e].status == w.events[e].status
    ensures NothingReady(w) ==> NothingReady(after)
  {
    forall q | q in w.queues && !HeadReady(w, q) ensures !HeadReady(after, q) {
      if w.queues[q].commands != [] {
        var wait := w.queues[q].commands[0].wait;
        forall e | e in wait ensures e in w.events && e in after.events {
          AwaitedExists(w, worker, q, 0, e);
          AwaitedExists(after, worker, q, 0, e);
        }
        SameStatuses(w.events, after.events, wait);
      }
    }
  }

  lemma EventStepKeepsHeads(s: State, t: nat, act: EventAct)
    requires Conserved(s.world, s.worker) && EventEnabled(s, t, act) && !act.SetStatus?
    ensures NothingReady(s.world) ==> NothingReady(EventAfter(s, t, act).world)
  {
    EventStepConserves(s, t, act);
    var after := EventAfter(s, t, act).world;
    assert CountedAt(s.world, s.worker, s.world.next);
    assert forall e :: e in s.world.events && e in after.events ==> after.events[e].status == s.world.events[e].status;
    EventsKeepHeads(s.world, after, s.worker);
  }

  lemma QueueStepKeepsHeads(s: State, t: nat, act: QueueAct)
    requires Known(s.world) && QueueEnabled(s, t, act) && !act.Enqueue?
    ensures NothingReady(s.world) ==> NothingReady(QueueAfter(s, t, act).world)
  {
    var (w, after) := (s.world, QueueAfter(s, t, act).world);
    assert after.events == w.events;
    forall q | NothingReady(w) && q in after.queues ensures !HeadReady(after, q) {
      assert q in w.queues ==> after.queues[q].commands == w.queues[q].commands && !HeadReady(w, q);
    }
  }

  // ----- the invariant

  lemma SignalWakeful(s: State, step: Step)
    requires Wakeful(s) && Enabled(s, step) && IsSignal(step)
    ensures Wakeful(After(s, step))
  {
    var after := After(s, step);
    forall t ensures Heard(after, after.At(t)) {
      assert Heard(s, s.At(t));
    }
  }

  /** What a call has read stays in the past, and only by looking does it come to sleep. */
  ghost predicate Bounded(s: State, before: Thread, thread: Thread) {
    && (thread.Checking? || thread.Blocked? ==> thread.seen <= s.generation)
    && (thread.Blocked? && thread.goal.Drain? ==> thread.goal.queue < s.world.next)
    && (thread.Blocked? && thread != before ==> !Due(s.world, thread.goal))
  }

  lemma CallBounded(s: State, t: nat, act: CallAct, u: nat)
    requires Known(s.world) && Heard(s, s.At(u)) && CallEnabled(s, t, act) && !act.Signal?
    ensures Bounded(s, s.At(u), CallAfter(s, t, act).At(u)) && CallAfter(s, t, act).world == s.world
    ensures CallAfter(s, t, act).generation == s.generation
  {
  }

  lemma QueueBounded(s: State, t: nat, act: QueueAct, u: nat)
    requires Heard(s, s.At(u)) && QueueEnabled(s, t, act)
    ensures Bounded(s, s.At(u), QueueAfter(s, t, act).At(u)) && QueueAfter(s, t, act).world.next >= s.world.next
    ensures QueueAfter(s, t, act).At(u).Blocked? ==> QueueAfter(s, t, act).At(u) == s.At(u)
    ensures QueueAfter(s, t, act).generation == s.generation
  {
  }

  lemma EventBounded(s: State, t: nat, act: EventAct, u: nat)
    requires Heard(s, s.At(u)) && EventEnabled(s, t, act)
    ensures Bounded(s, s.At(u), EventAfter(s, t, act).At(u)) && EventAfter(s, t, act).world.next >= s.world.next
    ensures EventAfter(s, t, act).At(u).Blocked? ==> EventAfter(s, t, act).At(u) == s.At(u)
    ensures EventAfter(s, t, act).generation == s.generation
  {
  }

  lemma WorkerBounded(s: State, act: WorkerAct, u: nat)
    requires Heard(s, s.At(u)) && WorkerEnabled(s, act) && !act.Signals?
    ensures Bounded(s, s.At(u), WorkerAfter(s, act).At(u)) && WorkerAfter(s, act).world.next == s.world.next
    ensures WorkerAfter(s, act).At(u) == s.At(u) && WorkerAfter(s, act).generation == s.generation
  {
  }

  lemma StepBounded(s: State, step: Step, u: nat)
    requires Known(s.world) && Heard(s, s.At(u)) && Enabled(s, step) && !IsSignal(step)
    ensures Bounded(s, s.At(u), After(s, step).At(u)) && After(s, step).world.next >= s.world.next
    ensures After(s, step).generation == s.generation
    ensures After(s, step).At(u).Blocked? && After(s, step).At(u) != s.At(u) ==> After(s, step).world == s.world
  {
    match step
    case OnEvent(t, act) => EventBounded(s, t, act, u);
    case OnQueue(t, act) => QueueBounded(s, t, act, u);
    case OnCall(t, act) => CallBounded(s, t, act, u);
    case OnWorker(act) => WorkerBounded(s, act, u);
  }

  lemma ThreadWakeful(s: State, step: Step, t: nat)
    requires Known(s.world) && Heard(s, s.At(t)) && Enabled(s, step) && !IsSignal(step)
    requires step.OnQueue? ==> Leaving(s.world, s.At(step.t))
    ensures Heard(After(s, step), After(s, step).At(t))
  {
    var after := After(s, step);
    StepBounded(s, step, t);
    if after.At(t).Blocked? && after.At(t).seen == after.generation && Due(after.world, after.At(t).goal)
       && !Signaller(after)
    {
      StepQuiet(s, step);
      QuietDue(s.world, after.world, after.At(t).goal);
      SignallerStays(s, step);
    }
  }

  lemma WorkerActWakeful(s: State, act: WorkerAct)
    requires WorkerHeard(s) && WorkerEnabled(s, act) && !act.Signals? && !WorkerSignals(s.worker)
    ensures WorkerHeard(WorkerAfter(s, act))
  {
    if Signaller(s) {
      SignallerStays(s, OnWorker(act));
    }
  }

  /** A step of a user thread while the worker sleeps or is about to. */
  lemma UserWakeful(s: State, after: State)
    requires WorkerHeard(s) && after.worker == s.worker && after.generation == s.generation
    requires Signaller(s) ==> Signaller(after)
    requires !Signaller(after) ==> after.shutdown == s.shutdown && (NothingReady(s.world) ==> NothingReady(after.world))
    ensures WorkerHeard(after)
  {
  }

  lemma CallWakeful(s: State, t: nat, act: CallAct)
    requires WorkerHeard(s) && CallEnabled(s, t, act) && !act.Signal?
    ensures WorkerHeard(CallAfter(s, t, act))
  {
    var after := CallAfter(s, t, act);
    if Signaller(s) {
      SignallerStays(s, OnCall(t, act));
    }
    if after.worker == s.worker {
      if act.StopWorker? {
        assert ThreadSignals(after.At(t));
      }
      UserWakeful(s, after);
    }
  }

  lemma EventWakeful(s: State, t: nat, act: EventAct)
    requires Known(s.world) && Conserved(s.world, s.worker) && WorkerHeard(s) && EventEnabled(s, t, act)
    ensures WorkerHeard(EventAfter(s, t, act))
  {
    if Signaller(s) {
      SignallerStays(s, OnEvent(t, act));
    }
    if act.SetStatus? {
      assert ThreadSignals(EventAfter(s, t, act).At(t));
    } else {
      EventStepKeepsHeads(s, t, act);
    }
    UserWakeful(s, EventAfter(s, t, act));
  }

  lemma QueueWakeful(s: State, t: nat, act: QueueAct)
    requires Known(s.world) && WorkerHeard(s) && QueueEnabled(s, t, act)
    ensures WorkerHeard(QueueAfter(s, t, act))
  {
    if Signaller(s) {
      SignallerStays(s, OnQueue(t, act));
    }
    if act.Enqueue? {
      assert ThreadSignals(QueueAfter(s, t, act).At(t));
    } else {
      QueueStepKeepsHeads(s, t, act);
    }
    UserWakeful(s, QueueAfter(s, t, act));
  }

  lemma WorkerWakeful(s: State, step: Step)
    requires Known(s.world) && Conserved(s.world, s.worker) && WorkerHeard(s)
    requires Enabled(s, step) && !IsSignal(step)
    ensures WorkerHeard(After(s, step))
  {
    match step
    case OnEvent(t, act) => EventWakeful(s, t, act);
    case OnQueue(t, act) => QueueWakeful(s, t, act);
    case OnCall(t, act) => CallWakeful(s, t, act);
    case OnWorker(act) => WorkerActWakeful(s, act);
  }

  lemma StepWakeful(s: State, step: Step)
    requires Safe(s) && Wakeful(s) && Enabled(s, step)
    ensures Wakeful(After(s, step))
  {
    if IsSignal(step) {
      SignalWakeful(s, step);
    } else {
      WorkerWakeful(s, step);
      assert step.OnQueue? ==> Leaving(s.world, s.At(step.t));
      forall t ensures Heard(After(s, step), After(s, step).At(t)) {
        ThreadWakeful(s, step, t);
      }
    }
  }

  lemma {:induction false} RunWakeful(s: State, steps: seq<Step>)
    requires Safe(s) && Wakeful(s) && Run(s, steps).Some?
    ensures Wakeful(Run(s, steps).value)
    decreases |steps|
  {
    if steps != [] {
      StepSafe(s, steps[0]);
      StepWakeful(s, steps[0]);
      RunWakeful(After(s, steps[0]), steps[1..]);
    }
  }

  lemma ReachableWakeful(s: State)
    requires Reachable(s)
    ensures Wakeful(s)
  {
    var steps :| Run(START, steps) == Some(s);
    StartSafe();
    RunWakeful(START, steps);
  }

  /** A signal that somebody owes now wakes everyone who sleeps on the current generation. */
  lemma OwedSignal(s: State) returns (step: Step)
    requires Signaller(s)
    ensures IsSignal(step) && Enabled(s, step) && After(s, step).generation == s.generation + 1
    ensures After(s, step).world == s.world
    ensures forall t :: s.At(t).Blocked? ==> After(s, step).At(t) == s.At(t)
    ensures s.worker.Asleep? ==> After(s, step).worker == s.worker
  {
    if WorkerSignals(s.worker) {
      step := OnWorker(Signals);
    } else {
      var t :| ThreadSignals(s.At(t));
      step := OnCall(t, Signal);
    }
  }

  /** If a call to wait or finish sleeps on the current generation although it could return,
      because what it waits for holds or an object it names is gone, then somebody is about to
      signal, and that signal wakes it; the one exception is a wait with a missing event. */
  lemma NoCallSleepsOn(s: State, t: nat) returns (step: Step)
    requires Reachable(s) && s.At(t).Blocked? && s.At(t).seen == s.generation
    requires Holds(s.world, s.At(t).goal) || Lost(s.world, s.At(t).goal)
    requires !(s.At(t).goal.WaitFor? && Lost(s.world, s.At(t).goal))
    ensures IsSignal(step) && Enabled(s, step) && CallEnabled(After(s, step), t, Wake)
  {
    ReachableWakeful(s);
    assert Heard(s, s.At(t));
    step := OwedSignal(s);
  }

  /** The same for the worker, when a head is ready or it is told to shut down. */
  lemma WorkerNeverSleepsOn(s: State) returns (step: Step)
    requires Reachable(s) && s.worker.Asleep? && s.worker.seen == s.generation
    requires s.shutdown || !NothingReady(s.world)
    ensures IsSignal(step) && Enabled(s, step) && WorkerEnabled(After(s, step), Wakes)
  {
    ReachableWakeful(s);
    step := OwedSignal(s);
  }

  lemma RunOn(s: State, step: Step, rest: seq<Step>, end: State)
    requires Enabled(s, step) && Run(After(s, step), rest) == Some(end)
    ensures Run(s, [step] + rest) == Some(end)
  {
    assert ([step] + rest)[1..] == rest;
  }

  /** A fresh state with one user event. */
  ghost predicate OneEvent(made: State) {
    && made.generation == 0 && made.worker == Absent && made.threads == map[]
    && 1 in made.world.events && made.world.events[1] == Event(1, true, Submitted) && made.world.users[1] > 0
  }

  function Unsignalled(made: State): State {
    made.Moved(0, Blocked(WaitFor([1]), 0)).(world := EventWorld(made.world, Release(1)))
  }

  lemma WaitsAndLoses(made: State) returns (steps: seq<Step>)
    requires OneEvent(made)
    ensures Run(made, steps) == Some(Unsignalled(made))
  {
    var calling := made.Moved(0, Reading(WaitFor([1])));
    var looking := made.Moved(0, Checking(WaitFor([1]), 0));
    var asleep := made.Moved(0, Blocked(WaitFor([1]), 0));
    var s := Unsignalled(made);
    RunOn(asleep, OnEvent(1, Release(1)), [], s);
    LooksAndSleeps(made, looking, asleep);
    steps := [OnEvent(1, Release(1))];
    RunOn(looking, OnCall(0, Check), steps, s);
    steps := [OnCall(0, Check)] + steps;
    assert calling.threads[0 := Checking(WaitFor([1]), 0)] == looking.threads;
    RunOn(calling, OnCall(0, ReadGeneration), steps, s);
    steps := [OnCall(0, ReadGeneration)] + steps;
    RunOn(made, OnCall(0, StartWait([1])), steps, s);
    steps := [OnCall(0, StartWait([1]))] + steps;
  }

  lemma SleepsUnsignalled(made: State)
    requires OneEvent(made)
    ensures var s := Unsignalled(made);
            s.At(0).Blocked? && s.At(0).seen == s.generation && Lost(s.world, s.At(0).goal) && !Signaller(s)
  {
    assert Unsignalled(made).At(0) == Blocked(WaitFor([1]), 0) && 1 in [1];
  }

  /** A wait whose event is released under it by another thread is not signalled: it sleeps on
      although the event it would report invalid is gone. */
  lemma LostEventIsNotSignalled() returns (s: State)
    ensures Reachable(s) && s.At(0).Blocked? && s.At(0).seen == s.generation && Lost(s.world, s.At(0).goal)
    ensures !Signaller(s)
  {
    var made := After(START, OnEvent(0, Create));
    assert OneEvent(made);
    var steps := WaitsAndLoses(made);
    s := Unsignalled(made);
    RunOn(START, OnEvent(0, Create), steps, s);
    SleepsUnsignalled(made);
  }

  lemma LooksAndSleeps(made: State, looking: State, asleep: State)
    requires 1 in made.world.events && made.world.events[1].status == Submitted
    requires looking == made.Moved(0, Checking(WaitFor([1]), 0)) && asleep == made.Moved(0, Blocked(WaitFor([1]), 0))
    ensures CallAfter(looking, 0, Check) == asleep
  {
    assert 1 in [1];
    assert looking.threads[0 := Blocked(WaitFor([1]), 0)] == asleep.threads;
  }
}
