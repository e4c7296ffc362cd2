/** Command queues, events and the worker thread, as atomic steps between lock releases.

    User threads and the one worker take turns in any order. `fate`, `origin`, `issued`,
    `taken` and `executed`, which says what executing a command reported, are history: no step
    looks at them. */
module Commands {
  import opened Wrappers

  datatype Status = Queued | Submitted | Running | Complete | Terminated(code: int) | Failed(code: int) {
    predicate IsTerminated() { Terminated? || Failed? }

    predicate Settled() { Complete? || IsTerminated() }
  }

  datatype Event = Event(count: nat, user: bool, status: Status)

  datatype Command = Command(event: nat, wait: seq<nat>)

  /** A queue's references are all held by users. */
  datatype Queue = Queue(commands: seq<Command>, running: bool, count: nat)

  datatype Origin = Origin(queue: nat, wait: seq<nat>)

  /** The tables behind the locks. */
  datatype World = World(
    events: map<nat, Event>,
    queues: map<nat, Queue>,
    users: multiset<nat>,
    next: nat,
    // history
    fate: map<nat, Status>,
    origin: map<nat, Origin>,
    issued: map<nat, seq<nat>>,
    taken: map<nat, seq<nat>>,
    executed: map<nat, Status>)

  /** What a blocked call waits for. */
  datatype Goal = WaitFor(events: seq<nat>) | Drain(queue: nat, dropping: bool)

  datatype Thread =
    | Idle
    | Signalling                              // changed something, will signal progress
    | Reading(goal: Goal)                     // about to read the generation
    | Checking(goal: Goal, seen: nat)         // has read it, about to look
    | Blocked(goal: Goal, seen: nat)          // asleep until the generation moves
    | Removing(queue: nat)                    // dropped the last reference, queue seen idle
    | Updating                                // wants the worker lock
    | Stopping                                // holds it, will set the shutdown flag
    | StopSignalling                          // has set it, will signal progress
    | Joining                                 // waits for the worker to end

  datatype Job = Job(queue: nat, command: Command)

  datatype Worker =
    | Absent
    | Top
    | Read(seen: nat)
    | Looking(seen: nat)
    | Asleep(seen: nat)
    | Exited
    | Begin(job: Job)
    | BeginSignal(job: Job)
    | Execute(job: Job)
    | Unwait(job: Job, status: Status, left: seq<nat>)
    | Settle(job: Job, status: Status)
    | SettleSignal(job: Job)
    | Drop(job: Job)
    | Rest(queue: nat)
    | RestSignal

  datatype State = State(
    world: World,
    generation: nat,
    shutdown: bool,
    locked: bool,
    worker: Worker,
    threads: map<nat, Thread>)
  {
    function At(t: nat): Thread { if t in threads then threads[t] else Idle }

    function Moved(t: nat, to: Thread): State { this.(threads := threads[t := to]) }
  }

  const START := State(World(map[], map[], multiset{}, 1, map[], map[], map[], map[], map[]), 0, false, false, Absent, map[])

  // ----- reference counts and statuses of events

  function Retained(events: map<nat, Event>, e: nat): map<nat, Event> {
    if e in events then events[e := events[e].(count := events[e].count + 1)] else events
  }

  function Released(events: map<nat, Event>, e: nat): map<nat, Event> {
    if e !in events then events
    else if events[e].count <= 1 then events - {e}
    else events[e := events[e].(count := events[e].count - 1)]
  }

  function RetainedAll(events: map<nat, Event>, wait: seq<nat>): map<nat, Event> {
    if wait == [] then events else Retained(RetainedAll(events, wait[..|wait| - 1]), wait[|wait| - 1])
  }

  /** Writes a status; an event that is gone is left alone. */
  function Marked(w: World, e: nat, status: Status): World {
    if e in w.events
    then w.(events := w.events[e := w.events[e].(status := status)], fate := w.fate[e := status])
    else w
  }

  // ----- what the worker takes next

  /** The statuses of the events of a wait list that still exist. */
  function Statuses(events: map<nat, Event>, wait: seq<nat>): seq<Status> {
    if wait == [] then []
    else (if wait[0] in events then [events[wait[0]].status] else []) + Statuses(events, wait[1..])
  }

  /** The status a head would end with unexecuted, if one of its events was terminated. */
  function FirstTerminated(statuses: seq<Status>): Option<Status> {
    if statuses == [] then None
    else if statuses[0].IsTerminated() then Some(statuses[0])
    else FirstTerminated(statuses[1..])
  }

  predicate AllComplete(statuses: seq<Status>) { forall i :: 0 <= i < |statuses| ==> statuses[i] == Complete }

  predicate HeadReady(w: World, q: nat)
    requires q in w.queues
  {
    && w.queues[q].commands != []
    && var statuses := Statuses(w.events, w.queues[q].commands[0].wait);
       FirstTerminated(statuses).Some? || AllComplete(statuses)
  }

  /** The worker looks at the queues in order of id. */
  predicate TakenFirst(w: World, q: nat) {
    q in w.queues && HeadReady(w, q) && forall other :: other in w.queues && other < q ==> !HeadReady(w, other)
  }

  predicate NothingReady(w: World) { forall q :: q in w.queues ==> !HeadReady(w, q) }

  // ----- what a blocked call waits for

  predicate Idling(queue: Queue) { queue.commands == [] && !queue.running }

  predicate AllSettled(w: World, events: seq<nat>) {
    forall e :: e in events ==> e in w.events && w.events[e].status.Settled()
  }

  /** What was waited for has come about, and can still be seen. */
  predicate Holds(w: World, goal: Goal) {
    match goal
    case WaitFor(events) => AllSettled(w, events)
    case Drain(q, _) => q in w.queues && Idling(w.queues[q])
  }

  /** An object the call names is gone. */
  predicate Lost(w: World, goal: Goal) {
    match goal
    case WaitFor(events) => exists e :: e in events && e !in w.events
    case Drain(q, _) => q !in w.queues
  }

  // ----- the steps

  datatype EventAct = Create | Retain(e: nat) | Release(e: nat) | SetStatus(e: nat, status: Status)

  datatype QueueAct = CreateQueue | RetainQueue(q: nat) | ReleaseQueue(q: nat) | Enqueue(q: nat, wait: seq<nat>) | Remove

  datatype CallAct =
    | Signal
    | StartWait(ids: seq<nat>)
    | StartFinish(q: nat)
    | ReadGeneration
    | Check
    | Wake
    | LockWorker
    | StopWorker
    | JoinWorker

  datatype WorkerAct =
    | Reads
    | Looks
    | Takes(q: nat)
    | Sleeps
    | Wakes
    | Begins
    | Signals
    | Executes(result: Status)
    | Releases
    | Settles
    | Drops
    | Rests

  datatype Step = OnEvent(t: nat, event: EventAct) | OnQueue(t: nat, queue: QueueAct) | OnCall(t: nat, call: CallAct)
                | OnWorker(worker: WorkerAct)

  predicate EventEnabled(s: State, t: nat, act: EventAct) {
    s.At(t).Idle? &&
    match act
    case Create => true
    case Retain(e) => e in s.world.events
    case Release(e) => s.world.users[e] > 0
    case SetStatus(e, status) =>
      && (status.Complete? || status.Terminated?)
      && e in s.world.events && s.world.events[e].user && s.world.events[e].status.Submitted?
  }

  function EventWorld(w: World, act: EventAct): World {
    match act
    case Create =>
      w.(events := w.events[w.next := Event(1, true, Submitted)], fate := w.fate[w.next := Submitted],
         users := w.users + multiset{w.next}, next := w.next + 1)
    case Retain(e) => w.(events := Retained(w.events, e), users := w.users + multiset{e})
    case Release(e) => w.(events := Released(w.events, e), users := w.users - multiset{e})
    case SetStatus(e, status) => Marked(w, e, status)
  }

  function EventAfter(s: State, t: nat, act: EventAct): State
    requires EventEnabled(s, t, act)
  {
    var after := s.(world := EventWorld(s.world, act));
    if act.SetStatus? then after.Moved(t, Signalling) else after
  }

  predicate QueueEnabled(s: State, t: nat, act: QueueAct) {
    match act
    case CreateQueue => s.At(t).Idle?
    case RetainQueue(q) => s.At(t).Idle? && q in s.world.queues && s.world.queues[q].count > 0
    case ReleaseQueue(q) => s.At(t).Idle? && q in s.world.queues && s.world.queues[q].count > 0
    case Enqueue(q, wait) =>
      && s.At(t).Idle? && q in s.world.queues && s.world.queues[q].count > 0
      && forall e :: e in wait ==> s.world.users[e] > 0
    case Remove => s.At(t).Removing?
  }

  /** One step under the queue lock: the event is made with one reference for the caller and
      one for the queue, and every awaited event is retained. */
  function Enqueued(w: World, q: nat, wait: seq<nat>): World
    requires q in w.queues
  {
    var e := w.next;
    w.(events := RetainedAll(w.events[e := Event(2, false, Queued)], wait),
       queues := w.queues[q := w.queues[q].(commands := w.queues[q].commands + [Command(e, wait)])],
       users := w.users + multiset{e}, next := e + 1,
       fate := w.fate[e := Queued], origin := w.origin[e := Origin(q, wait)],
       issued := w.issued[q := Listed(w.issued, q) + [e]])
  }

  function Listed(lists: map<nat, seq<nat>>, q: nat): seq<nat> { if q in lists then lists[q] else [] }

  function Counted(w: World, q: nat, count: nat): World
    requires q in w.queues
  {
    w.(queues := w.queues[q := w.queues[q].(count := count)])
  }

  function QueueAfter(s: State, t: nat, act: QueueAct): State
    requires QueueEnabled(s, t, act)
  {
    var w := s.world;
    match act
    case CreateQueue =>
      s.(world := w.(queues := w.queues[w.next := Queue([], false, 1)], next := w.next + 1)).Moved(t, Updating)
    case RetainQueue(q) => s.(world := Counted(w, q, w.queues[q].count + 1))
    case ReleaseQueue(q) =>
      var after := s.(world := Counted(w, q, w.queues[q].count - 1));
      if w.queues[q].count == 1 then after.Moved(t, Reading(Drain(q, true))) else after
    case Enqueue(q, wait) => s.(world := Enqueued(w, q, wait)).Moved(t, Signalling)
    case Remove => s.(world := w.(queues := w.queues - {s.At(t).queue})).Moved(t, Updating)
  }

  predicate CallEnabled(s: State, t: nat, act: CallAct) {
    match act
    case Signal => s.At(t).Signalling? || s.At(t).StopSignalling?
    case StartWait(ids) => s.At(t).Idle? && ids != []
    case StartFinish(_) => s.At(t).Idle?
    case ReadGeneration => s.At(t).Reading?
    case Check => s.At(t).Checking?
    case Wake => s.At(t).Blocked? && s.At(t).seen != s.generation
    case LockWorker => s.At(t).Updating? && !s.locked
    case StopWorker => s.At(t).Stopping?
    case JoinWorker => s.At(t).Joining? && s.worker.Exited?
  }

  /** Where a call goes once it has looked: back to the user, on to removing the queue it
      drained, or to sleep. */
  function Looked(w: World, goal: Goal, seen: nat): Thread {
    if !Holds(w, goal) && !Lost(w, goal) then Blocked(goal, seen)
    else if goal.Drain? && goal.dropping && goal.queue in w.queues then Removing(goal.queue)
    else Idle
  }

  function CallAfter(s: State, t: nat, act: CallAct): State
    requires CallEnabled(s, t, act)
  {
    match act
    case Signal => s.(generation := s.generation + 1).Moved(t, if s.At(t).Signalling? then Idle else Joining)
    case StartWait(ids) => s.Moved(t, Reading(WaitFor(ids)))
    case StartFinish(q) => s.Moved(t, Reading(Drain(q, false)))
    case ReadGeneration => s.Moved(t, Checking(s.At(t).goal, s.generation))
    case Check => s.Moved(t, Looked(s.world, s.At(t).goal, s.At(t).seen))
    case Wake => s.Moved(t, Reading(s.At(t).goal))
    case LockWorker =>
      if s.world.queues != map[] && s.worker.Absent? then s.(shutdown := false, worker := Top).Moved(t, Idle)
      else if s.world.queues == map[] && !s.worker.Absent? then s.(locked := true).Moved(t, Stopping)
      else s.Moved(t, Idle)
    case StopWorker => s.(shutdown := true).Moved(t, StopSignalling)
    case JoinWorker => s.(worker := Absent, locked := false).Moved(t, Idle)
  }

  predicate WorkerEnabled(s: State, act: WorkerAct) {
    match act
    case Reads => s.worker.Top?
    case Looks => s.worker.Read?
    case Takes(q) => s.worker.Looking? && TakenFirst(s.world, q)
    case Sleeps => s.worker.Looking? && NothingReady(s.world)
    case Wakes => s.worker.Asleep? && s.worker.seen != s.generation
    case Begins => s.worker.Begin?
    case Signals => s.worker.BeginSignal? || s.worker.SettleSignal? || s.worker.RestSignal?
    case Executes(result) => s.worker.Execute? && (result.Complete? || result.Failed?)
    case Releases => s.worker.Unwait?
    case Settles => s.worker.Settle?
    case Drops => s.worker.Drop?
    case Rests => s.worker.Rest?
  }

  function TookWorld(w: World, q: nat): World
    requires q in w.queues && w.queues[q].commands != []
  {
    var queue := w.queues[q];
    w.(queues := w.queues[q := queue.(commands := queue.commands[1..], running := true)],
       taken := w.taken[q := Listed(w.taken, q) + [queue.commands[0].event]])
  }

  /** A head with a terminated event is carried straight to its end, with that status. */
  function TookWorker(w: World, q: nat): Worker
    requires q in w.queues && w.queues[q].commands != []
  {
    var head := w.queues[q].commands[0];
    var terminated := FirstTerminated(Statuses(w.events, head.wait));
    if terminated.Some? then Unwait(Job(q, head), terminated.value, head.wait) else Begin(Job(q, head))
  }

  function WorkerWorld(s: State, act: WorkerAct): World
    requires WorkerEnabled(s, act)
  {
    var w := s.world;
    match act
    case Takes(q) => TookWorld(w, q)
    case Begins => Marked(w, s.worker.job.command.event, Running)
    case Executes(result) => w.(executed := w.executed[s.worker.job.command.event := result])
    case Releases => if s.worker.left == [] then w else w.(events := Released(w.events, s.worker.left[0]))
    case Settles => Marked(w, s.worker.job.command.event, s.worker.status)
    case Drops => w.(events := Released(w.events, s.worker.job.command.event))
    case Rests =>
      if s.worker.queue in w.queues
      then w.(queues := w.queues[s.worker.queue := w.queues[s.worker.queue].(running := false)]) else w
    case _ => w
  }

  function WorkerNext(s: State, act: WorkerAct): Worker
    requires WorkerEnabled(s, act)
  {
    match act
    case Reads => Read(s.generation)
    case Looks => if s.shutdown then Exited else Looking(s.worker.seen)
    case Takes(q) => TookWorker(s.world, q)
    case Sleeps => Asleep(s.worker.seen)
    case Wakes => Top
    case Begins => BeginSignal(s.worker.job)
    case Signals =>
      (match s.worker
       case BeginSignal(job) => Execute(job)
       case SettleSignal(job) => Drop(job)
       case _ => Top)
    case Executes(result) => Unwait(s.worker.job, result, s.worker.job.command.wait)
    case Releases =>
      if s.worker.left == [] then Settle(s.worker.job, s.worker.status)
      else Unwait(s.worker.job, s.worker.status, s.worker.left[1..])
    case Settles => SettleSignal(s.worker.job)
    case Drops => Rest(s.worker.job.queue)
    case Rests => RestSignal
  }

  function WorkerAfter(s: State, act: WorkerAct): State
    requires WorkerEnabled(s, act)
  {
    s.(world := WorkerWorld(s, act), worker := WorkerNext(s, act),
       generation := if act.Signals? then s.generation + 1 else s.generation)
  }

  predicate Enabled(s: State, step: Step) {
    match step
    case OnEvent(t, act) => EventEnabled(s, t, act)
    case OnQueue(t, act) => QueueEnabled(s, t, act)
    case OnCall(t, act) => CallEnabled(s, t, act)
    case OnWorker(act) => WorkerEnabled(s, act)
  }

  function After(s: State, step: Step): State
    requires Enabled(s, step)
  {
    match step
    case OnEvent(t, act) => EventAfter(s, t, act)
    case OnQueue(t, act) => QueueAfter(s, t, act)
    case OnCall(t, act) => CallAfter(s, t, act)
    case OnWorker(act) => WorkerAfter(s, act)
  }

  /** Every state some interleaving of steps can reach. */
  function Run(s: State, steps: seq<Step>): Option<State>
    decreases |steps|
  {
    if steps == [] then Some(s)
    else if Enabled(s, steps[0]) then Run(After(s, steps[0]), steps[1..])
    else None
  }
}
