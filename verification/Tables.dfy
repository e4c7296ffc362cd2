/** The critical sections on the event and queue tables, in place, each proved to do the step
    the command protocol takes. */
module Tables {
  import opened Wrappers
  import opened Commands
  import opened EventCounts

  datatype EnqueueError = NoQueue | NoEvent

  /** Every awaited event exists once the command's own event has been made. */
  predicate Present(w: World, wait: seq<nat>) { forall e :: e in wait ==> e in w.events || e == w.next }

  /** What an enqueue that gives up leaves: an event with two references, and what it retained. */
  function Abandoned(w: World, retained: seq<nat>): World {
    w.(events := RetainedAll(w.events[w.next := Event(2, false, Queued)], retained),
       next := w.next + 1, fate := w.fate[w.next := Queued])
  }

  lemma {:induction false} RetainedAllExists(events: map<nat, Event>, wait: seq<nat>)
    ensures forall e :: e in RetainedAll(events, wait) <==> e in events
  {
    if wait != [] {
      RetainedAllExists(events, wait[..|wait| - 1]);
    }
  }

  lemma {:induction false} RetainedAllRaises(events: map<nat, Event>, wait: seq<nat>, e: nat)
    requires e in events
    ensures e in RetainedAll(events, wait) && RetainedAll(events, wait)[e].count >= events[e].count
  {
    if wait != [] {
      RetainedAllRaises(events, wait[..|wait| - 1], e);
    }
  }

  /** An enqueue keeps reference counts exact if and only if it does not give up: what it
      leaves then is held by nobody and is never removed. */
  lemma EnqueueLeaksExactly(w: World, worker: Worker, q: nat, wait: seq<nat>, retained: seq<nat>)
    requires Conserved(w, worker) && q in w.queues
    ensures Conserved(if Present(w, wait) then Enqueued(w, q, wait) else Abandoned(w, retained), worker) <==> Present(w, wait)
  {
    if Present(w, wait) {
      EnqueueConserves(w, worker, q, wait);
    } else {
      var (e, after) := (w.next, Abandoned(w, retained));
      assert CountedAt(w, worker, e);
      RetainedAllRaises(w.events[e := Event(2, false, Queued)], retained, e);
      assert !CountedAt(after, worker, e);
    }
  }

  // ----- how the worker leaves a command

  function ReleasedAll(events: map<nat, Event>, wait: seq<nat>): map<nat, Event> {
    if wait == [] then events else ReleasedAll(Released(events, wait[0]), wait[1..])
  }

  /** What the worker leaves of its command when nobody comes in between: the awaited events are
      released, the status is set, the command's own event is released, the queue may go on. */
  function Finished(w: World, job: Job, status: Status, left: seq<nat>): World {
    var marked := Marked(w.(events := ReleasedAll(w.events, left)), job.command.event, status);
    var dropped := marked.(events := Released(marked.events, job.command.event));
    if job.queue in dropped.queues
    then dropped.(queues := dropped.queues[job.queue := dropped.queues[job.queue].(running := false)]) else dropped
  }

  function ReleaseSteps(left: seq<nat>): seq<Step> {
    if left == [] then [OnWorker(Releases)] + [OnWorker(Settles), OnWorker(Signals), OnWorker(Drops), OnWorker(Rests)]
    else [OnWorker(Releases)] + ReleaseSteps(left[1..])
  }

  /** That is what the worker's steps come to. */
  lemma {:induction false} FinishIsRun(s: State, job: Job, status: Status, left: seq<nat>)
    requires s.worker == Unwait(job, status, left)
    ensures Run(s, ReleaseSteps(left))
         == Some(s.(world := Finished(s.world, job, status, left), worker := RestSignal, generation := s.generation + 1))
    decreases |left|
  {
    var first := WorkerAfter(s, Releases);
    RunsOn(s, Releases, ReleaseSteps(left)[1..]);
    if left == [] {
      LastSteps(first, job, status);
    } else {
      assert ReleaseSteps(left)[1..] == ReleaseSteps(left[1..]);
      FinishIsRun(first, job, status, left[1..]);
    }
  }

  lemma RunsOn(s: State, act: WorkerAct, rest: seq<Step>)
    requires WorkerEnabled(s, act)
    ensures Run(s, [OnWorker(act)] + rest) == Run(WorkerAfter(s, act), rest)
  {
    assert ([OnWorker(act)] + rest)[1..] == rest;
  }

  lemma LastSteps(s: State, job: Job, status: Status)
    requires s.worker == Settle(job, status)
    ensures Run(s, [OnWorker(Settles), OnWorker(Signals), OnWorker(Drops), OnWorker(Rests)])
         == Some(s.(world := Finished(s.world, job, status, []), worker := RestSignal, generation := s.generation + 1))
  {
    var settled := WorkerAfter(s, Settles);
    var signalled := WorkerAfter(settled, Signals);
    var dropped := WorkerAfter(signalled, Drops);
    RunsOn(s, Settles, [OnWorker(Signals), OnWorker(Drops), OnWorker(Rests)]);
    RunsOn(settled, Signals, [OnWorker(Drops), OnWorker(Rests)]);
    RunsOn(signalled, Drops, [OnWorker(Rests)]);
    RunsOn(dropped, Rests, []);
    FourSteps();
  }

  lemma FourSteps()
    ensures [OnWorker(Settles), OnWorker(Signals), OnWorker(Drops), OnWorker(Rests)]
         == [OnWorker(Settles)] + [OnWorker(Signals), OnWorker(Drops), OnWorker(Rests)]
    ensures [OnWorker(Signals), OnWorker(Drops), OnWorker(Rests)] == [OnWorker(Signals)] + [OnWorker(Drops), OnWorker(Rests)]
    ensures [OnWorker(Drops), OnWorker(Rests)] == [OnWorker(Drops)] + [OnWorker(Rests)]
    ensures [OnWorker(Rests)] == [OnWorker(Rests)] + []
  {
  }

  class Tables {
    var world: World

    constructor ()
      ensures world == START.world
    {
      world := START.world;
    }

    method RetainEvent(e: nat) returns (found: bool)
      modifies this
      ensures found == (e in old(world).events)
      ensures world == old(world).(events := Retained(old(world).events, e))
    {
      found := e in world.events;
      if found {
        world := world.(events := world.events[e := world.events[e].(count := world.events[e].count + 1)]);
      }
    }

    method ReleaseEvent(e: nat) returns (found: bool)
      modifies this
      ensures found == (e in old(world).events)
      ensures world == old(world).(events := Released(old(world).events, e))
    {
      found := e in world.events;
      if found {
        if world.events[e].count > 1 {
          world := world.(events := world.events[e := world.events[e].(count := world.events[e].count - 1)]);
        } else {
          world := world.(events := world.events - {e});
        }
      }
    }

    /** An event that is gone is passed over, without a signal. */
    method SetStatus(e: nat, status: Status) returns (found: bool)
      modifies this
      ensures found == (e in old(world).events) && world == Marked(old(world), e, status)
    {
      found := e in world.events;
      if found {
        world := world.(events := world.events[e := world.events[e].(status := status)], fate := world.fate[e := status]);
      }
    }

    /** What follows the execution of a command, or its being passed over: releases that find
        no event are passed over too. */
    method Finish(job: Job, status: Status)
      modifies this
      ensures world == Finished(old(world), job, status, job.command.wait)
    {
      ghost var wait := job.command.wait;
      for i := 0 to |job.command.wait|
        invariant world == old(world).(events := world.events)
        invariant ReleasedAll(world.events, wait[i..]) == ReleasedAll(old(world).events, wait)
      {
        assert wait[i..][1..] == wait[i + 1..];
        var _ := ReleaseEvent(job.command.wait[i]);
      }
      var _ := SetStatus(job.command.event, status);
      var _ := ReleaseEvent(job.command.event);
      if job.queue in world.queues {
        world := world.(queues := world.queues[job.queue := world.queues[job.queue].(running := false)]);
      }
    }

    /** Makes the event, retains it for the queue, retains every awaited event, and appends; at
        an awaited event that is gone it gives up, and keeps what it has made and retained. */
    method Enqueue(q: nat, wait: seq<nat>) returns (result: Result<nat, EnqueueError>)
      modifies this
      ensures q !in old(world).queues ==> result == Failure(NoQueue) && world == old(world)
      ensures q in old(world).queues && Present(old(world), wait) ==>
                result == Success(old(world).next) && world == Enqueued(old(world), q, wait)
      ensures q in old(world).queues && !Present(old(world), wait) ==>
                && result == Failure(NoEvent)
                && exists i :: 0 <= i < |wait| && Present(old(world), wait[..i]) && !Present(old(world), wait[..i + 1])
                               && world == Abandoned(old(world), wait[..i])
    {
      if q !in world.queues {
        return Failure(NoQueue);
      }
      ghost var before := world;
      var e := world.next;
      world := world.(events := world.events[e := Event(1, false, Queued)], next := e + 1, fate := world.fate[e := Queued]);
      var _ := RetainEvent(e);
      ghost var made := world;
      assert made.events == before.events[e := Event(2, false, Queued)];
      for i := 0 to |wait|
        invariant Present(before, wait[..i]) && world == made.(events := RetainedAll(made.events, wait[..i]))
      {
        assert wait[..i + 1][..i] == wait[..i] && wait[..i + 1][i] == wait[i];
        RetainedAllExists(made.events, wait[..i]);
        var found := RetainEvent(wait[i]);
        if !found {
          assert wait[i] in wait && wait[i] in wait[..i + 1];
          return Failure(NoEvent);
        }
      }
      assert wait[..|wait|] == wait;
      world := world.(queues := world.queues[q := world.queues[q].(commands := world.queues[q].commands + [Command(e, wait)])],
                      users := world.users + multiset{e}, origin := world.origin[e := Origin(q, wait)],
                      issued := world.issued[q := Listed(world.issued, q) + [e]]);
      result := Success(e);
    }

    /** Looks at the queues in order of id and takes the first head that can go: to run, or to
        end with the status of a terminated event it awaits. */
    method TakeReady() returns (taken: Option<Job>, terminated: Option<Status>)
      modifies this
      ensures taken.None? ==> world == old(world) && NothingReady(old(world))
      ensures taken.Some? ==>
                && TakenFirst(old(world), taken.value.queue) && world == TookWorld(old(world), taken.value.queue)
                && TookWorker(old(world), taken.value.queue)
                   == if terminated.Some? then Unwait(taken.value, terminated.value, taken.value.command.wait) else Begin(taken.value)
    {
      taken, terminated := None, None;
      var left := world.queues.Keys;
      while left != {}
        invariant left <= world.queues.Keys && world == old(world)
        invariant forall q, p :: q in world.queues && q !in left && p in left ==> q < p
        invariant forall q :: q in world.queues && q !in left ==> !HeadReady(world, q)
        decreases |left|
      {
        var q := Least(left);
        left := left - {q};
        if world.queues[q].commands != [] {
          var head := world.queues[q].commands[0];
          var statuses := Statuses(world.events, head.wait);
          terminated := FirstTerminated(statuses);
          if terminated.Some? || AllComplete(statuses) {
            var queue := world.queues[q];
            world := world.(queues := world.queues[q := queue.(commands := queue.commands[1..], running := true)],
                            taken := world.taken[q := Listed(world.taken, q) + [head.event]]);
            return Some(Job(q, head)), terminated;
          }
        }
      }
    }
  }

  method Least(ids: set<nat>) returns (least: nat)
    requires ids != {}
    ensures least in ids && forall id :: id in ids ==> least <= id
  {
    least :| least in ids;
    var left := ids - {least};
    while left != {}
      invariant left <= ids && least in ids && forall id :: id in ids && id !in left ==> least <= id
      decreases |left|
    {
      var id :| id in left;
      left := left - {id};
      if id < least {
        least := id;
      }
    }
  }
}
