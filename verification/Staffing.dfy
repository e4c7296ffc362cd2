/** The worker comes while there are queues and goes when there are none: whenever it is not
    there to serve a queue, some thread is on its way to see to it. */
module Staffing {
  import opened Wrappers
  import opened Commands
  import opened CommandOrder

  /** The call holds the worker lock until the worker has ended. */
  predicate Closing(thread: Thread) { thread.Stopping? || thread.StopSignalling? || thread.Joining? }

  ghost predicate SomeoneUpdates(s: State) { exists t :: s.At(t).Updating? }

  ghost predicate SomeoneCloses(s: State) { exists t :: Closing(s.At(t)) }

  /** One call at a time ends the worker, under the lock; the worker ends only then; and queues
      without a worker, or a worker without queues, are known to a call about to take the lock. */
  ghost predicate Staffed(s: State) {
    && (forall a, b :: Closing(s.At(a)) && Closing(s.At(b)) ==> a == b)
    && (s.locked <==> SomeoneCloses(s)) && (s.locked ==> !s.worker.Absent?)
    && (s.worker.Exited? || (s.shutdown && !s.worker.Absent?) ==> s.locked)
    && (s.world.queues != map[] && (s.worker.Absent? || s.locked) ==> SomeoneUpdates(s))
    && (s.world.queues == map[] && !s.worker.Absent? && !s.locked ==> SomeoneUpdates(s))
  }

  /** No thread but one moves. */
  predicate OnlyMoves(s: State, after: State, t: nat) { after.threads == s.threads || after.threads == s.threads[t := after.At(t)] }

  /** A step that leaves the worker, the lock and who holds it alone. */
  lemma AsideStaffed(s: State, after: State, t: nat)
    requires Staffed(s) && OnlyMoves(s, after, t)
    requires after.locked == s.locked && after.shutdown == s.shutdown
    requires after.worker.Absent? == s.worker.Absent? && (after.worker.Exited? ==> s.worker.Exited? || s.shutdown)
    requires Closing(after.At(t)) == Closing(s.At(t))
    requires after.At(t).Updating? || (s.At(t).Updating? == after.At(t).Updating?
                                       && (after.world.queues == map[] <==> s.world.queues == map[]))
    ensures Staffed(after)
  {
    forall u ensures u != t ==> after.At(u) == s.At(u) {
    }
    if SomeoneUpdates(s) {
      var u :| s.At(u).Updating?;
      assert after.At(u).Updating? || after.At(t).Updating?;
    }
    if SomeoneCloses(s) {
      var u :| Closing(s.At(u));
      assert Closing(after.At(u));
    }
    if SomeoneCloses(after) {
      var u :| Closing(after.At(u));
      assert Closing(s.At(u));
    }
    assert after.At(t).Updating? ==> SomeoneUpdates(after);
  }

  lemma QueueStaffed(s: State, t: nat, act: QueueAct)
    requires Staffed(s) && QueueEnabled(s, t, act)
    ensures Staffed(QueueAfter(s, t, act))
  {
    var after := QueueAfter(s, t, act);
    if !after.At(t).Updating? {
      assert after.world.queues.Keys == s.world.queues.Keys;
      assert after.world.queues == map[] <==> after.world.queues.Keys == {};
      assert s.world.queues == map[] <==> s.world.queues.Keys == {};
    }
    AsideStaffed(s, after, t);
  }

  lemma EventStaffed(s: State, t: nat, act: EventAct)
    requires Staffed(s) && EventEnabled(s, t, act)
    ensures Staffed(EventAfter(s, t, act))
  {
    assert EventAfter(s, t, act).world.queues == s.world.queues;
    AsideStaffed(s, EventAfter(s, t, act), t);
  }

  lemma WorkerStaffed(s: State, act: WorkerAct)
    requires Staffed(s) && WorkerEnabled(s, act)
    ensures Staffed(WorkerAfter(s, act))
  {
    var after := WorkerAfter(s, act);
    assert after.world.queues.Keys == s.world.queues.Keys;
    assert after.world.queues == map[] <==> after.world.queues.Keys == {};
    assert s.world.queues == map[] <==> s.world.queues.Keys == {};
    AsideStaffed(s, after, 0);
  }

  lemma LockStaffed(s: State, t: nat)
    requires Staffed(s) && CallEnabled(s, t, LockWorker)
    ensures Staffed(CallAfter(s, t, LockWorker))
  {
    var after := CallAfter(s, t, LockWorker);
    forall u ensures u != t ==> after.At(u) == s.At(u) {
    }
    assert !SomeoneCloses(s);
    if after.At(t).Stopping? {
      assert Closing(after.At(t));
    }
  }

  lemma JoinStaffed(s: State, t: nat)
    requires Staffed(s) && CallEnabled(s, t, JoinWorker)
    ensures Staffed(CallAfter(s, t, JoinWorker))
  {
    var after := CallAfter(s, t, JoinWorker);
    forall u ensures u != t ==> after.At(u) == s.At(u) {
    }
    assert Closing(s.At(t)) && s.locked;
    if SomeoneUpdates(s) {
      var u :| s.At(u).Updating?;
      assert after.At(u).Updating?;
    }
  }

  lemma StopStaffed(s: State, t: nat)
    requires Staffed(s) && CallEnabled(s, t, StopWorker)
    ensures Staffed(CallAfter(s, t, StopWorker))
  {
    var after := CallAfter(s, t, StopWorker);
    assert Closing(s.At(t)) && s.locked && Closing(after.At(t));
    forall u ensures u != t ==> after.At(u) == s.At(u) {
    }
    if SomeoneUpdates(s) {
      var u :| s.At(u).Updating?;
      assert after.At(u).Updating?;
    }
  }

  lemma StepStaffed(s: State, step: Step)
    requires Staffed(s) && Enabled(s, step)
    ensures Staffed(After(s, step))
  {
    match step
    case OnEvent(t, act) => EventStaffed(s, t, act);
    case OnQueue(t, act) => QueueStaffed(s, t, act);
    case OnWorker(act) => WorkerStaffed(s, act);
    case OnCall(t, act) =>
      if act.LockWorker? {
        LockStaffed(s, t);
      } else if act.JoinWorker? {
        JoinStaffed(s, t);
      } else if act.StopWorker? {
        StopStaffed(s, t);
      } else {
        AsideStaffed(s, CallAfter(s, t, act), t);
      }
  }

  lemma {:induction false} RunStaffed(s: State, steps: seq<Step>)
    requires Staffed(s) && Run(s, steps).Some?
    ensures Staffed(Run(s, steps).value)
    decreases |steps|
  {
    if steps != [] {
      StepStaffed(s, steps[0]);
      RunStaffed(After(s, steps[0]), steps[1..]);
    }
  }

  /** Queues are never stranded: while one exists and the worker is absent, has ended, or is
      told to end, some thread is about to start it again or is still ending it. */
  lemma NeverStranded(s: State)
    requires Reachable(s) && s.world.queues != map[]
    requires s.worker.Absent? || s.worker.Exited? || s.shutdown
    ensures SomeoneUpdates(s)
    ensures s.worker.Absent? || SomeoneCloses(s)
  {
    var steps :| Run(START, steps) == Some(s);
    assert Staffed(START);
    RunStaffed(START, steps);
  }

  /** And where nobody is ending it, that thread starts the worker in its next step. */
  lemma StartsTheWorker(s: State) returns (t: nat)
    requires Reachable(s) && s.world.queues != map[] && s.worker.Absent?
    ensures CallEnabled(s, t, LockWorker)
    ensures CallAfter(s, t, LockWorker).worker == Top && !CallAfter(s, t, LockWorker).shutdown
  {
    NeverStranded(s);
    var steps :| Run(START, steps) == Some(s);
    assert Staffed(START);
    RunStaffed(START, steps);
    t :| s.At(t).Updating?;
  }
}
