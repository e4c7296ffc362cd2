/** The promises of command queues and events, on every state any interleaving can reach. */
module CommandOrder {
  import opened Wrappers
  import opened Commands
  import opened EventCounts
  import opened CommandSafety
  import opened CommandSteps

  ghost predicate Reachable(s: State) { exists steps :: Run(START, steps) == Some(s) }

  lemma ReachableSafe(s: State)
    requires Reachable(s)
    ensures Safe(s)
  {
    var steps :| Run(START, steps) == Some(s);
    StartSafe();
    RunSafe(START, steps);
  }

  /** Every command taken so far has its final status. */
  ghost predicate TakenAllSettled(w: World) {
    forall p, e :: e in Listed(w.taken, p) ==> e in w.fate && w.fate[e].Settled()
  }

  lemma HeadIsNext(w: World, q: nat)
    requires q in w.queues && w.queues[q].commands != [] && QueueFine(w, q)
    ensures |Listed(w.taken, q)| < |Listed(w.issued, q)|
    ensures w.queues[q].commands[0].event == Listed(w.issued, q)[|Listed(w.taken, q)|]
    ensures Listed(w.taken, q) == Listed(w.issued, q)[..|Listed(w.taken, q)|]
  {
    assert EventsOf(w.queues[q].commands)[0] == w.queues[q].commands[0].event;
  }

  lemma TakenIsSettled(w: World, worker: Worker, p: nat, e: nat)
    requires ListFine(w, p) && e in Listed(w.taken, p) && Carried(worker).None?
    requires e in w.origin ==> CommandFine(w, worker, e)
    ensures e in w.fate && w.fate[e].Settled()
  {
    assert e in Listed(w.issued, p);
  }

  /** Commands of one queue start in the order they were enqueued, and each only once every
      command taken before it, of whatever queue, has its final status. */
  lemma StartsInOrder(s: State, q: nat)
    requires Reachable(s) && WorkerEnabled(s, Takes(q))
    ensures |Listed(s.world.taken, q)| < |Listed(s.world.issued, q)|
    ensures s.world.queues[q].commands[0].event == Listed(s.world.issued, q)[|Listed(s.world.taken, q)|]
    ensures Listed(s.world.taken, q) == Listed(s.world.issued, q)[..|Listed(s.world.taken, q)|]
    ensures TakenAllSettled(s.world)
  {
    ReachableSafe(s);
    assert HeadReady(s.world, q);
    HeadIsNext(s.world, q);
    AllTakenSettled(s.world, s.worker);
  }

  lemma AllTakenSettled(w: World, worker: Worker)
    requires IssuedFine(w) && Carried(worker).None? && forall e :: e in w.origin ==> CommandFine(w, worker, e)
    ensures TakenAllSettled(w)
  {
    forall p, e | e in Listed(w.taken, p) ensures e in w.fate && w.fate[e].Settled() {
      assert ListFine(w, p);
      TakenIsSettled(w, worker, p, e);
    }
  }

  /** No command executes before every event in its wait list is complete. */
  lemma RunsAfterItsEvents(s: State, e: nat)
    requires Reachable(s) && e in s.world.executed && e in s.world.origin
    ensures forall x :: x in s.world.origin[e].wait ==> x in s.world.fate && s.world.fate[x] == Complete
  {
    ReachableSafe(s);
    assert CommandFine(s.world, s.worker, e);
  }

  /** The same when the worker is about to execute: the events still awaited exist and are complete. */
  lemma ExecutesAfterItsEvents(s: State, result: Status)
    requires Reachable(s) && WorkerEnabled(s, Executes(result))
    ensures var c := s.worker.job.command;
            && c.event !in s.world.executed
            && forall x :: x in c.wait ==> x in s.world.events && s.world.events[x].status == Complete
  {
    ReachableSafe(s);
    var c := s.worker.job.command;
    forall x | x in c.wait ensures x in s.world.events {
      assert multiset(c.wait)[x] > 0;
      HeldExists(s.world, s.worker, x);
    }
  }

  /** Each event of the path but the last belongs to a command that awaits the next one. */
  ghost predicate Waits(w: World, path: seq<nat>) {
    forall i :: 0 <= i < |path| - 1 ==> path[i] in w.origin && path[i + 1] in w.origin[path[i]].wait
  }

  /** A command that waits, through however many commands, on a terminated event never
      executes, and its final status is a failure copied from an event it waits on. */
  lemma {:induction false} FailureSpreads(s: State, path: seq<nat>)
    requires Reachable(s) && |path| >= 2 && Waits(s.world, path)
    requires path[|path| - 1] in s.world.fate && s.world.fate[path[|path| - 1]].IsTerminated()
    ensures path[0] !in s.world.executed
    ensures path[0] in s.world.fate && s.world.fate[path[0]] != Complete
    ensures s.world.fate[path[0]].Settled() ==> Copied(s.world, s.world.origin[path[0]].wait, s.world.fate[path[0]])
    decreases |path|
  {
    ReachableSafe(s);
    assert CommandFine(s.world, s.worker, path[0]);
    if |path| > 2 {
      forall i | 0 <= i < |path[1..]| - 1
        ensures path[1..][i] in s.world.origin && path[1..][i + 1] in s.world.origin[path[1..][i]].wait
      {
        assert path[1..][i] == path[i + 1];
      }
      FailureSpreads(s, path[1..]);
    }
    assert path[1] in s.world.origin[path[0]].wait;
  }

  /** When `finish` reports a queue drained, every command ever enqueued there has its final status. */
  lemma FinishMeansSettled(s: State, t: nat, e: nat)
    requires Reachable(s) && CallEnabled(s, t, Check) && s.At(t).goal.Drain? && Holds(s.world, s.At(t).goal)
    requires e in Listed(s.world.issued, s.At(t).goal.queue)
    ensures e in s.world.fate && s.world.fate[e].Settled()
  {
    ReachableSafe(s);
    var q := s.At(t).goal.queue;
    assert ListFine(s.world, q) && QueueFine(s.world, q) && CommandFine(s.world, s.worker, e);
    DrainedSettled(s.world, s.worker, q, e);
  }

  /** A pending command keeps alive its own event and every event it awaits. */
  lemma PendingKeepsItsEvents(s: State, q: nat, i: nat, e: nat)
    requires Reachable(s) && q in s.world.queues && i < |s.world.queues[q].commands|
    requires var c := s.world.queues[q].commands[i]; e == c.event || e in c.wait
    ensures e in s.world.events
  {
    ReachableSafe(s);
    QueuesHoldSplit(s.world.queues, q, e);
    CommandHeld(s.world.queues[q].commands, i, e);
    HeldExists(s.world, s.worker, e);
  }

  // ----- the worker is never stuck on commands alone

  /** The command is enqueued somewhere and has no final status. */
  ghost predicate Unsettled(w: World, e: nat) { e in w.origin && e in w.fate && !w.fate[e].Settled() }

  lemma {:induction false} LeastUnsettled(w: World, e: nat) returns (least: nat)
    requires Unsettled(w, e)
    ensures Unsettled(w, least) && forall x: nat :: x < least ==> !Unsettled(w, x)
  {
    if x: nat :| x < e && Unsettled(w, x) {
      least := LeastUnsettled(w, x);
    } else {
      least := e;
    }
  }

  /** The oldest command without a final status heads its queue. */
  lemma OldestIsHead(w: World, worker: Worker, q: nat, e: nat)
    requires Unsettled(w, e) && w.origin[e].queue == q && q in w.queues && e !in Listed(w.taken, q)
    requires CommandFine(w, worker, e) && QueueFine(w, q) && ListFine(w, q)
    requires forall x: nat :: x < e ==> !Unsettled(w, x)
    ensures w.queues[q].commands != [] && w.queues[q].commands[0] == Command(e, w.origin[e].wait)
  {
    var (taken, pending) := (Listed(w.taken, q), EventsOf(w.queues[q].commands));
    assert e in taken + pending;
    var i :| 0 <= i < |pending| && pending[i] == e;
    if i > 0 {
      var head := w.queues[q].commands[0].event;
      assert (taken + pending)[|taken|] == head && (taken + pending)[|taken| + i] == e;
      assert Unsettled(w, head);
    }
  }

  lemma {:induction false} NotReadyAwaits(events: map<nat, Event>, wait: seq<nat>) returns (x: nat)
    requires forall y :: y in wait ==> y in events
    requires FirstTerminated(Statuses(events, wait)).None? && !AllComplete(Statuses(events, wait))
    ensures x in wait && !events[x].status.Settled()
  {
    var (rest, statuses) := (Statuses(events, wait[1..]), Statuses(events, wait));
    assert statuses[0] == events[wait[0]].status && statuses[1..] == rest;
    if statuses[0].Settled() {
      var i :| 0 <= i < |statuses| && statuses[i] != Complete;
      assert rest[i - 1] == statuses[i];
      x := NotReadyAwaits(events, wait[1..]);
    } else {
      x := wait[0];
    }
  }

  /** Whenever the worker looks, finds nothing ready, and some command is not done, then the
      head of some queue awaits an event made by a user who has not set its status yet. */
  lemma WaitsOnlyForUsers(s: State, e: nat) returns (q: nat, x: nat)
    requires Reachable(s) && WorkerEnabled(s, Sleeps) && Unsettled(s.world, e)
    ensures q in s.world.queues && s.world.queues[q].commands != [] && x in s.world.queues[q].commands[0].wait
    ensures x in s.world.events && s.world.events[x].user && s.world.events[x].status == Submitted
  {
    ReachableSafe(s);
    var w := s.world;
    var least := LeastUnsettled(w, e);
    q := w.origin[least].queue;
    assert CommandFine(w, s.worker, least) && QueueFine(w, q) && ListFine(w, q);
    OldestIsHead(w, s.worker, q, least);
    var wait := w.queues[q].commands[0].wait;
    assert !HeadReady(w, q);
    forall y | y in wait ensures y in w.events {
      AwaitedExists(w, s.worker, q, 0, y);
    }
    x := NotReadyAwaits(w.events, wait);
    assert !Unsettled(w, x);
  }

  // ----- history only grows

  ghost predicate Later(w: World, after: World) {
    && Grows(w, after) && (forall e :: e in w.executed ==> e in after.executed && after.executed[e] == w.executed[e])
    && (forall e :: e in w.origin ==> e in after.origin && after.origin[e] == w.origin[e])
    && forall q :: Listed(w.issued, q) <= Listed(after.issued, q) && Listed(w.taken, q) <= Listed(after.taken, q)
  }

  lemma StepLater(s: State, step: Step)
    requires Known(s.world) && WorkerFine(s.world, s.worker) && Enabled(s, step)
    ensures Later(s.world, After(s, step).world)
  {
    match step
    case OnEvent(t, act) => EventLater(s, t, act);
    case OnQueue(t, act) => QueueLater(s, t, act);
    case OnCall(t, act) => CallLater(s, t, act);
    case OnWorker(act) => WorkerLater(s, act);
  }

  lemma CallLater(s: State, t: nat, act: CallAct)
    requires CallEnabled(s, t, act)
    ensures CallAfter(s, t, act).world == s.world && Later(s.world, CallAfter(s, t, act).world)
  {
  }

  lemma EventLater(s: State, t: nat, act: EventAct)
    requires Known(s.world) && EventEnabled(s, t, act)
    ensures Later(s.world, EventAfter(s, t, act).world)
  {
  }

  lemma SameHistoryLater(w: World, after: World)
    requires after.executed == w.executed && after.origin == w.origin && after.issued == w.issued && after.taken == w.taken
    requires Grows(w, after)
    ensures Later(w, after)
  {
  }

  lemma QueueLater(s: State, t: nat, act: QueueAct)
    requires Known(s.world) && QueueEnabled(s, t, act)
    ensures Later(s.world, QueueAfter(s, t, act).world)
  {
    if act.Enqueue? {
      EnqueueLater(s.world, act.q, act.wait);
    } else {
      SameHistoryLater(s.world, QueueAfter(s, t, act).world);
    }
  }

  lemma EnqueueLater(w: World, q: nat, wait: seq<nat>)
    requires Known(w) && q in w.queues
    ensures Later(w, Enqueued(w, q, wait))
  {
  }

  lemma WorkerLater(s: State, act: WorkerAct)
    requires WorkerEnabled(s, act) && Known(s.world) && WorkerFine(s.world, s.worker)
    ensures Later(s.world, WorkerAfter(s, act).world)
  {
    match act
    case Takes(q) => TakeLater(s.world, q);
    case Executes(result) => ExecuteLater(s.world, s.worker.job.command.event, result);
    case Begins => MarkLater(s.world, s.worker.job.command.event, Running);
    case Settles => MarkLater(s.world, s.worker.job.command.event, s.worker.status);
    case _ => WorkerMoveLater(s, act);
  }

  lemma MarkLater(w: World, e: nat, status: Status)
    requires e in w.fate && !w.fate[e].Settled()
    ensures Later(w, Marked(w, e, status))
  {
  }

  lemma ExecuteLater(w: World, e: nat, result: Status)
    requires e !in w.executed
    ensures Later(w, w.(executed := w.executed[e := result]))
  {
  }

  lemma WorkerMoveLater(s: State, act: WorkerAct)
    requires WorkerEnabled(s, act) && !act.Takes? && !act.Begins? && !act.Settles? && !act.Executes?
    ensures Later(s.world, WorkerAfter(s, act).world)
  {
    SameHistoryLater(s.world, WorkerAfter(s, act).world);
  }

  lemma TakeLater(w: World, q: nat)
    requires q in w.queues && w.queues[q].commands != []
    ensures Later(w, TookWorld(w, q))
  {
  }

  /** Along any run commands are only appended to what was issued and taken, no final status
      is revised, and nothing executed is undone. */
  lemma {:induction false} HistoryOnlyGrows(s: State, steps: seq<Step>)
    requires Safe(s) && Run(s, steps).Some?
    ensures Later(s.world, Run(s, steps).value.world)
    decreases |steps|
  {
    if steps != [] {
      StepSafe(s, steps[0]);
      StepLater(s, steps[0]);
      HistoryOnlyGrows(After(s, steps[0]), steps[1..]);
    }
  }

  // ----- what users asked for is what happens

  lemma {:induction false} RunJoins(s: State, first: seq<Step>, rest: seq<Step>)
    requires Run(s, first).Some?
    ensures Run(s, first + rest) == Run(Run(s, first).value, rest)
    decreases |first|
  {
    if first == [] {
      assert first + rest == rest;
    } else {
      assert (first + rest)[1..] == first[1..] + rest;
      RunJoins(After(s, first[0]), first[1..], rest);
    }
  }

  lemma StaysReachable(s: State, step: Step, rest: seq<Step>)
    requires Reachable(s) && Enabled(s, step) && Run(After(s, step), rest).Some?
    ensures Reachable(After(s, step)) && Reachable(Run(After(s, step), rest).value)
    ensures Later(After(s, step).world, Run(After(s, step), rest).value.world)
  {
    var steps :| Run(START, steps) == Some(s);
    RunJoins(START, steps, [step] + rest);
    RunJoins(START, steps, [step]);
    assert ([step] + rest)[1..] == rest && [step][1..] == [];
    assert Run(START, steps + [step]) == Some(After(s, step));
    assert Run(START, steps + ([step] + rest)) == Run(After(s, step), rest);
    ReachableSafe(After(s, step));
    HistoryOnlyGrows(After(s, step), rest);
  }

  /** An executed command ends with what its execution reported, a failure as much as success. */
  lemma ExecutedAsReported(s: State, e: nat)
    requires Reachable(s) && e in s.world.executed && e in s.world.origin
    ensures e in s.world.fate && (s.world.fate[e].Settled() ==> s.world.fate[e] == s.world.executed[e])
  {
    ReachableSafe(s);
    assert CommandFine(s.world, s.worker, e);
  }

  /** So whatever execution reports decides the status, however the run goes on. */
  lemma ExecutionDecides(s: State, result: Status, rest: seq<Step>)
    requires Reachable(s) && WorkerEnabled(s, Executes(result)) && Run(WorkerAfter(s, Executes(result)), rest).Some?
    ensures var (e, w) := (s.worker.job.command.event, Run(WorkerAfter(s, Executes(result)), rest).value.world);
            && e in w.executed && w.executed[e] == result
            && e in w.fate && (w.fate[e].Settled() ==> w.fate[e] == result)
  {
    StaysReachable(s, OnWorker(Executes(result)), rest);
    ReachableSafe(s);
    ExecutedAsReported(Run(WorkerAfter(s, Executes(result)), rest).value, s.worker.job.command.event);
  }

  /** A command that waits, through however many commands, on one whose execution failed never
      executes, also before that failure has become its status. */
  lemma {:induction false} FailedExecutionSpreads(s: State, path: seq<nat>)
    requires Reachable(s) && |path| >= 2 && Waits(s.world, path) && path[|path| - 1] in s.world.origin
    requires path[|path| - 1] in s.world.executed && s.world.executed[path[|path| - 1]] != Complete
    ensures path[0] !in s.world.executed && path[0] in s.world.fate && s.world.fate[path[0]] != Complete
    decreases |path|
  {
    ReachableSafe(s);
    assert CommandFine(s.world, s.worker, path[0]) && path[1] in s.world.origin[path[0]].wait;
    if |path| == 2 {
      ExecutedAsReported(s, path[1]);
    } else {
      forall i | 0 <= i < |path[1..]| - 1
        ensures path[1..][i] in s.world.origin && path[1..][i + 1] in s.world.origin[path[1..][i]].wait
      {
        assert path[1..][i] == path[i + 1];
      }
      FailedExecutionSpreads(s, path[1..]);
    }
  }

  /** The status a user gives an event is the one it has ever after. */
  lemma UserStatusStands(s: State, t: nat, e: nat, status: Status, rest: seq<Step>)
    requires Reachable(s) && EventEnabled(s, t, SetStatus(e, status))
    requires Run(EventAfter(s, t, SetStatus(e, status)), rest).Some?
    ensures var w := Run(EventAfter(s, t, SetStatus(e, status)), rest).value.world; e in w.fate && w.fate[e] == status
  {
    StaysReachable(s, OnEvent(t, SetStatus(e, status)), rest);
    assert EventAfter(s, t, SetStatus(e, status)).world.fate[e] == status;
  }

  lemma EnqueueRecorded(s: State, t: nat, q: nat, wait: seq<nat>)
    requires QueueEnabled(s, t, Enqueue(q, wait))
    ensures var w := QueueAfter(s, t, Enqueue(q, wait)).world;
            s.world.next in w.origin && w.origin[s.world.next] == Origin(q, wait)
  {
  }

  lemma AwaitsAsRecorded(s: State, e: nat, x: nat)
    requires Reachable(s) && e in s.world.origin && x in s.world.origin[e].wait
    ensures e in s.world.fate && x in s.world.fate && (e in s.world.executed ==> s.world.fate[x] == Complete)
    ensures s.world.fate[x].IsTerminated() ==> s.world.fate[e] != Complete
  {
    ReachableSafe(s);
    assert CommandFine(s.world, s.worker, e);
  }

  /** An enqueued command runs only when all it was given to wait for is complete, and once
      some of it is terminated it can end only in failure. */
  lemma RunsAfterWhatItWasGiven(s: State, t: nat, q: nat, wait: seq<nat>, rest: seq<Step>, x: nat)
    requires Reachable(s) && QueueEnabled(s, t, Enqueue(q, wait)) && x in wait
    requires Run(QueueAfter(s, t, Enqueue(q, wait)), rest).Some?
    ensures var (e, w) := (s.world.next, Run(QueueAfter(s, t, Enqueue(q, wait)), rest).value.world);
            && e in w.origin && w.origin[e] == Origin(q, wait) && e in w.fate && x in w.fate
            && (e in w.executed ==> w.fate[x] == Complete)
            && (w.fate[x].IsTerminated() ==> w.fate[e] != Complete)
  {
    StaysReachable(s, OnQueue(t, Enqueue(q, wait)), rest);
    EnqueueRecorded(s, t, q, wait);
    AwaitsAsRecorded(Run(QueueAfter(s, t, Enqueue(q, wait)), rest).value, s.world.next, x);
  }

  lemma EarlierIsTaken(issued: seq<nat>, taken: seq<nat>, first: nat, second: nat)
    requires Ascending(issued) && |taken| < |issued| && taken == issued[..|taken|] && issued[|taken|] == second
    requires first in issued && first < second
    ensures first in taken
  {
    var i :| 0 <= i < |issued| && issued[i] == first;
    assert i < |taken|;
    assert taken[i] == first;
  }

  /** Of two commands of a queue the one enqueued first has its final status before the other
      is taken. */
  lemma EarlierSettlesFirst(s: State, q: nat, first: nat)
    requires Reachable(s) && WorkerEnabled(s, Takes(q)) && first < s.world.queues[q].commands[0].event
    requires first in s.world.origin && s.world.origin[first].queue == q
    ensures first in s.world.fate && s.world.fate[first].Settled()
  {
    StartsInOrder(s, q);
    IssuedAscends(s, q, first);
    EarlierIsTaken(Listed(s.world.issued, q), Listed(s.world.taken, q), first, s.world.queues[q].commands[0].event);
  }

  lemma IssuedAscends(s: State, q: nat, e: nat)
    requires Reachable(s) && e in s.world.origin && s.world.origin[e].queue == q
    ensures Ascending(Listed(s.world.issued, q)) && e in Listed(s.world.issued, q)
  {
    ReachableSafe(s);
    assert CommandFine(s.world, s.worker, e) && ListFine(s.world, q);
  }
}
