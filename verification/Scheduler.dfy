/** The loop that drives the work items of one group from barrier to barrier. */
module Scheduler {
  import opened Wrappers
  import opened Interpreter

  datatype Progress = Fresh | Ready | Parked | Done {
    function Resume(): Option<Reply> {
      match this
      case Fresh => Some(Start)
      case Ready => Some(Ack)
      case _ => None
    }

    predicate IsReady() { Resume().Some? }
  }

  /** Memory, counters and ids as the work items see them: any function of the moment, the
      lane and the request, so that every interleaving of the lanes is some host. */
  datatype Host = Host(
    load: (nat, nat, Yield) -> Option<seq<nat>>,
    store: (nat, nat, Yield) -> bool,
    atomic: (nat, nat, Yield) -> Option<nat>,
    builtin: (nat, nat, Yield) -> Reply)

  datatype Serviced = Park(semantics: nat) | Answered(reply: Reply) | Fault

  /** What the platform does with a yield; a refused access faults the launch. */
  function Service(host: Host, clock: nat, lane: nat, reason: Yield): Serviced {
    match reason
    case Read(_, _) => Loaded(host.load(clock, lane, reason))
    case ReadLocal(_, _) => Loaded(host.load(clock, lane, reason))
    case Write(_, _) => if host.store(clock, lane, reason) then Answered(Ack) else Fault
    case WriteLocal(_, _) => if host.store(clock, lane, reason) then Answered(Ack) else Fault
    case Atomic(_, _, _, _, _) =>
      var previous := host.atomic(clock, lane, reason);
      if previous.Some? then Answered(Scalar(previous.value)) else Fault
    case Builtin(_) =>
      var id := host.builtin(clock, lane, reason);
      Answered(if id.Triple? then id else Triple(0, 0, 0))
    case ControlBarrier(_, semantics) => Park(semantics)
    case Diagnostic(_) => Answered(Ack)
    case MemoryBarrier(_) => Answered(Ack)
    case Break => Answered(Ack)
  }

  function Loaded(bytes: Option<seq<nat>>): Serviced {
    if bytes.Some? then Answered(Bytes(bytes.value)) else Fault
  }

  /** The host gave this reply to what a lane asked, at some moment; a break and a barrier are
      just acknowledged. */
  predicate Given(host: Host, clock: nat, lane: nat, asked: Yield, reply: Reply) {
    match asked
    case Read(_, _) => host.load(clock, lane, asked).Some? && reply == Bytes(host.load(clock, lane, asked).value)
    case ReadLocal(_, _) => host.load(clock, lane, asked).Some? && reply == Bytes(host.load(clock, lane, asked).value)
    case Write(_, _) => host.store(clock, lane, asked) && reply == Ack
    case WriteLocal(_, _) => host.store(clock, lane, asked) && reply == Ack
    case Atomic(_, _, _, _, _) =>
      host.atomic(clock, lane, asked).Some? && reply == Scalar(host.atomic(clock, lane, asked).value)
    case Builtin(_) => reply.Triple? && (host.builtin(clock, lane, asked).Triple? ==> reply == host.builtin(clock, lane, asked))
    case _ => reply == Ack
  }

  /** Every answer is one the waiting instruction accepts, and the platform refuses exactly the
      accesses that memory refuses. */
  lemma ServiceFits(host: Host, clock: nat, lane: nat, reason: Yield)
    ensures var served := Service(host, clock, lane, reason);
            && (served.Answered? ==> reason.Accepts(served.reply) && Given(host, clock, lane, reason, served.reply))
            && (served.Park? <==> reason.ControlBarrier?) && (served.Park? ==> served.semantics == reason.semantics)
            && (served.Fault? <==>
                  || ((reason.Read? || reason.ReadLocal?) && host.load(clock, lane, reason).None?)
                  || ((reason.Write? || reason.WriteLocal?) && !host.store(clock, lane, reason))
                  || (reason.Atomic? && host.atomic(clock, lane, reason).None?))
  {
  }

  /** What can be relied on of a kernel: which replies it takes where, `None` being the start
      of an instruction, what it may ask for, and which errors its instructions may end in. */
  datatype Promise<!S> = Promise(takes: (S, Option<Reply>) -> bool, asks: Yield -> bool, trap: Error -> bool)

  /** After its last yield the item takes every reply that will be let in. */
  ghost predicate Takes<S(!new)>(p: Promise<S>, item: Item<S>) {
    forall reply :: Admit(item.pending, reply).Success? ==> p.takes(item.state, Admit(item.pending, reply).value)
  }

  /** What a step that was promised may do: trap as allowed, go on to an instruction it can
      start, or yield with a frame to come back to and take any fitting reply there. */
  ghost predicate Fine<S(!new)>(m: Machine<S>, p: Promise<S>, outcome: Outcome<S>) {
    match outcome
    case Failed(_, error) => p.trap(error)
    case Went(state) => p.takes(state, None)
    case Yielded(state, reason) =>
      && p.asks(reason) && m.live(state)
      && forall reply :: Admit(Some(reason), reply).Success? ==> p.takes(state, Admit(Some(reason), reply).value)
  }

  /** The kernel keeps its promise, and only the debugger and the fuel gauge do what is theirs. */
  ghost predicate Keeps<S(!new)>(m: Machine<S>, p: Promise<S>) {
    && m.Sane()
    && (forall s, r :: m.live(s) && p.takes(s, r) ==> Fine(m, p, m.step(s, r)))
    && (forall s :: m.line(s).Failure? ==> p.trap(m.line(s).error))
  }

  /** No access that the kernel may ask for is refused. */
  ghost predicate Serves<S>(p: Promise<S>, host: Host) {
    forall clock, lane, reason :: p.asks(reason) ==> !Service(host, clock, lane, reason).Fault?
  }

  /** A lane can be resumed with this reply. */
  ghost predicate Resumable<S(!new)>(m: Machine<S>, p: Promise<S>, item: Item<S>, reply: Reply) {
    m.live(item.state) && Takes(p, item) && Admit(item.pending, reply).Success?
  }

  /** What a resumption leaves: less fuel and, after a yield, a lane that can come back; or
      the end of the fuel, or an error the kernel may end in. */
  ghost predicate Spent<S(!new)>(m: Machine<S>, p: Promise<S>, fuel: nat, next: Item<S>, answer: Answer) {
    match answer
    case Success(None) => next.fuel < fuel && !m.live(next.state)
    case Success(Some(reason)) =>
      && next.fuel < fuel && next.pending == Some(reason) && m.live(next.state) && Takes(p, next)
      && (reason.Break? || p.asks(reason))
    case Failure(error) => if error == OutOfFuel then next.fuel == 0 else p.trap(error)
  }

  lemma {:induction false} AdvanceSpends<S(!new)>(m: Machine<S>, p: Promise<S>, item: Item<S>, reply: Option<Reply>)
    requires Keeps(m, p) && m.live(item.state) && p.takes(item.state, reply)
    ensures Spent(m, p, item.fuel, Advance(m, item, reply).0, Advance(m, item, reply).1)
    decreases item.fuel
  {
    if item.fuel > 0 && m.line(item.state).Success? {
      var line := m.line(item.state).value;
      var ready := item.(fuel := item.fuel - 1, location := line);
      if !Stops(ready, line, reply.Some?) {
        assert Fine(m, p, m.step(item.state, reply));
        if m.step(item.state, reply).Went? {
          var after := ready.(stepped := false, state := m.step(item.state, reply).state);
          if m.live(after.state) {
            AdvanceSpends(m, p, after, None);
          }
        }
      }
    }
  }

  /** A lane that can be resumed spends fuel, and if it yields can come back. */
  lemma ResumeSpends<S(!new)>(m: Machine<S>, p: Promise<S>, item: Item<S>, reply: Reply)
    requires Keeps(m, p) && Resumable(m, p, item, reply)
    ensures Spent(m, p, item.fuel, Resume(m, item, reply).0, Resume(m, item, reply).1)
  {
    var taken := item.(pending := None);
    AdvanceSpends(m, p, if item.pending == Some(Break) then taken.(stepped := true) else taken,
                  Admit(item.pending, reply).value);
  }

  // ----- kernels that keep a promise

  /** Instructions that yield leave a frame to come back to. */
  ghost predicate YieldsLive<S(!new)>(m: Machine<S>) {
    forall s, r :: m.live(s) && m.step(s, r).Yielded? ==> m.live(m.step(s, r).state)
  }

  function Anything<S>(): Promise<S> { Promise((_, _) => true, _ => true, _ => true) }

  /** Every kernel keeps the promise that asks nothing, so that its groups end. */
  lemma EveryKernelKeeps<S(!new)>(m: Machine<S>)
    requires m.Sane() && YieldsLive(m)
    ensures Keeps(m, Anything()) && forall s: S :: Anything().takes(s, None)
  {
    forall s, r | m.live(s) ensures Fine(m, Anything(), m.step(s, r)) {
    }
  }

  /** Whether the instruction turns this reply down. */
  predicate Refuses<S(!new)>(m: Machine<S>, s: S, r: Option<Reply>) {
    m.live(s) && m.step(s, r).Failed? && m.step(s, r).error == UnexpectedResume
  }

  /** Replies that an instruction gets to see: those that fit, of yields that are not just
      acknowledged. */
  predicate Handed(reason: Yield, reply: Reply) { reason.Accepts(reply) && !reason.Break? && !reason.Diagnostic? }

  /** The typing of instructions: none turns down its own start, nor, where it has yielded, a
      reply that fits the yield. Others it may turn down, and does. */
  ghost predicate Typed<S(!new)>(m: Machine<S>) {
    && m.Sane() && YieldsLive(m)
    && (forall s :: !Refuses(m, s, None))
    && (forall s, r, reply :: m.live(s) && m.step(s, r).Yielded? && Handed(m.step(s, r).reason, reply) ==>
          !Refuses(m, m.step(s, r).state, Some(reply)))
    && (forall s :: m.line(s).Failure? ==> m.line(s).error != UnexpectedResume)
  }

  function NoRefusal<S(!new)>(m: Machine<S>): Promise<S> {
    Promise((s, r) => !Refuses(m, s, r), _ => true, e => e != UnexpectedResume)
  }

  /** Typed instructions are enough for no reply to be turned down, ever. */
  lemma TypedKeeps<S(!new)>(m: Machine<S>)
    requires Typed(m)
    ensures Keeps(m, NoRefusal(m)) && forall s: S :: NoRefusal(m).takes(s, None)
  {
    var p := NoRefusal(m);
    forall s, r | m.live(s) && p.takes(s, r) ensures Fine(m, p, m.step(s, r)) {
      var outcome := m.step(s, r);
      if outcome.Yielded? {
        forall reply | Admit(Some(outcome.reason), reply).Success?
          ensures p.takes(outcome.state, Admit(Some(outcome.reason), reply).value)
        {
          assert !Refuses(m, outcome.state, None);
        }
      }
    }
  }

  /** A kernel that makes these requests one after the other and returns. Like the
      interpreter's, each instruction yields first and turns down a reply of the wrong kind. */
  function Script(requests: seq<Yield>): Machine<nat> {
    Machine(at => at <= |requests|, _ => Success(None), (at, reply) => Request(requests, at, reply))
  }

  function Request(requests: seq<Yield>, at: nat, reply: Option<Reply>): Outcome<nat> {
    if at >= |requests| then Went(at + 1)
    else if requests[at].Diagnostic? then Yielded(at + 1, requests[at])
    else if reply.None? then Yielded(at, requests[at])
    else if requests[at].Accepts(reply.value) then Went(at + 1)
    else Failed(at, UnexpectedResume)
  }

  predicate Fits(requests: seq<Yield>, at: nat, reply: Option<Reply>) {
    reply.Some? && at < |requests| && !requests[at].Diagnostic? ==> requests[at].Accepts(reply.value)
  }

  /** Such kernels are typed whatever they request, though each instruction that waits turns
      some reply down. */
  lemma ScriptsAreTyped(requests: seq<Yield>)
    requires forall i :: 0 <= i < |requests| ==> !requests[i].Break?
    ensures Typed(Script(requests))
    ensures forall i: nat :: i < |requests| && !requests[i].Diagnostic? ==> Refuses(Script(requests), i, Some(Start))
  {
    var m := Script(requests);
    forall s: nat, r, reply | m.live(s) && m.step(s, r).Yielded? && Handed(m.step(s, r).reason, reply)
      ensures !Refuses(m, m.step(s, r).state, Some(reply))
    {
      assert m.step(s, r) == Request(requests, s, r);
    }
  }

  function ScriptPromise(requests: seq<Yield>): Promise<nat> {
    Promise((at, r) => Fits(requests, at, r), reason => reason in requests, _ => false)
  }

  /** And they never trap: only fuel, or the refusal of something they request, ends their
      groups early. */
  lemma ScriptsKeep(requests: seq<Yield>)
    requires forall i :: 0 <= i < |requests| ==> !requests[i].Break?
    ensures Keeps(Script(requests), ScriptPromise(requests)) && ScriptPromise(requests).takes(0, None)
  {
    var (m, p) := (Script(requests), ScriptPromise(requests));
    forall s: nat, r | m.live(s) && p.takes(s, r) ensures Fine(m, p, m.step(s, r)) {
      assert m.step(s, r) == Request(requests, s, r);
    }
  }

  // ----- what became of one lane

  /** The replies that have brought a lane from its start to where it is: each is the host's
      answer to what was asked before it. */
  ghost predicate Story<S(!new)>(m: Machine<S>, host: Host, lane: nat, origin: Item<S>, replies: seq<Reply>, item: Item<S>) {
    var (last, answers) := PlainRun(m, origin, replies);
    && last == item && |answers| == |replies|
    && (replies == [] || (replies[0] == Start && answers[|replies| - 1] == Success(item.pending)))
    && forall k :: 0 < k < |replies| ==> Follows(host, lane, answers[k - 1], replies[k])
  }

  ghost predicate Follows(host: Host, lane: nat, answer: Answer, reply: Reply) {
    answer.Success? && answer.value.Some? && exists clock :: Given(host, clock, lane, answer.value.value, reply)
  }

  ghost predicate Reached<S(!new)>(m: Machine<S>, host: Host, lane: nat, origin: Item<S>, item: Item<S>) {
    exists replies :: Story(m, host, lane, origin, replies, item)
  }

  /** What may be handed to a lane next. */
  ghost predicate Due<S>(host: Host, lane: nat, origin: Item<S>, item: Item<S>, reply: Reply) {
    if item.pending.None? then item == origin && reply == Start
    else exists clock :: Given(host, clock, lane, item.pending.value, reply)
  }

  lemma StoryGoesOn<S(!new)>(m: Machine<S>, host: Host, lane: nat, origin: Item<S>, item: Item<S>, reply: Reply)
    requires Reached(m, host, lane, origin, item) && Due(host, lane, origin, item, reply) && origin.pending.None?
    requires Resume(m, item, reply).1.Success?
    ensures Reached(m, host, lane, origin, Resume(m, item, reply).0)
  {
    var replies :| Story(m, host, lane, origin, replies, item);
    var (next, answer) := Resume(m, item, reply);
    ResumePending(m, item, reply);
    if item.pending.None? {
      StoryBegins(m, host, lane, item, reply);
    } else {
      StoryGrows(m, host, lane, origin, replies, item, reply);
    }
  }

  lemma StoryBegins<S(!new)>(m: Machine<S>, host: Host, lane: nat, origin: Item<S>, reply: Reply)
    requires reply == Start && Resume(m, origin, reply).1 == Success(Resume(m, origin, reply).0.pending)
    ensures Story(m, host, lane, origin, [reply], Resume(m, origin, reply).0)
  {
    assert PlainRun(m, origin, []) == (origin, []);
    RunGoesOn(m, origin, [], reply);
    assert [] + [reply] == [reply];
  }

  lemma StoryGrows<S(!new)>(m: Machine<S>, host: Host, lane: nat, origin: Item<S>, replies: seq<Reply>, item: Item<S>,
                            reply: Reply)
    requires Story(m, host, lane, origin, replies, item) && origin.pending.None? && item.pending.Some?
    requires exists clock :: Given(host, clock, lane, item.pending.value, reply)
    requires Resume(m, item, reply).1 == Success(Resume(m, item, reply).0.pending)
    ensures Story(m, host, lane, origin, replies + [reply], Resume(m, item, reply).0)
  {
    var answers := PlainRun(m, origin, replies).1;
    forall k | 0 <= k < |answers| ensures answers[k].Success? && answers[k].value.Some? {
      if k < |answers| - 1 {
        assert Follows(host, lane, answers[k + 1 - 1], replies[k + 1]);
      }
    }
    RunGoesOn(m, origin, replies, reply);
    var more := answers + [Resume(m, item, reply).1];
    forall k | 0 < k < |replies + [reply]| ensures Follows(host, lane, more[k - 1], (replies + [reply])[k]) {
      if k < |replies| {
        assert Follows(host, lane, answers[k - 1], replies[k]);
      }
    }
  }

  datatype Stop = Trapped(error: Error) | Faulted

  /** Why a group stops early: its fuel, a trap the kernel may end in, or a refused access. */
  ghost predicate Allowed<S>(p: Promise<S>, host: Host, stop: Stop) {
    match stop
    case Trapped(error) => error == OutOfFuel || p.trap(error)
    case Faulted => !Serves(p, host)
  }

  /** What a lane was doing when it stopped the launch: it was handed what was due and answered with
      the error, or it asked for an access that the host refuses. */
  ghost predicate Stopped<S(!new)>(m: Machine<S>, host: Host, lane: nat, origin: Item<S>, item: Item<S>, stop: Stop) {
    match stop
    case Trapped(error) => exists before, reply :: Traps(m, host, lane, origin, before, reply, item, error)
    case Faulted => Reached(m, host, lane, origin, item) && item.pending.Some? && Refused(host, lane, item.pending.value)
  }

  ghost predicate Traps<S(!new)>(m: Machine<S>, host: Host, lane: nat, origin: Item<S>, before: Item<S>, reply: Reply,
                                 item: Item<S>, error: Error)
  {
    && Reached(m, host, lane, origin, before) && Due(host, lane, origin, before, reply)
    && Resume(m, before, reply) == (item, Failure(error)) && (error == OutOfFuel ==> item.fuel == 0)
  }

  ghost predicate Refused(host: Host, lane: nat, reason: Yield) { exists clock :: Service(host, clock, lane, reason).Fault? }

  /** Some lane is to blame, for something that is allowed. */
  ghost predicate Blames<S(!new)>(m: Machine<S>, p: Promise<S>, host: Host, origin: Item<S>, lanes: nat, stop: Stop) {
    Allowed(p, host, stop) && exists lane, item :: 0 <= lane < lanes && Stopped(m, host, lane, origin, item, stop)
  }

  /** Runs one lane until it ends, breaks, parks at a barrier, or stops the launch. */
  method RunItem<S(!new)>(m: Machine<S>, ghost p: Promise<S>, host: Host, ghost origin: Item<S>, item: Item<S>, lane: nat,
                          first: Reply, clock: nat)
    returns (after: Item<S>, outcome: Result<Progress, Stop>, clock': nat)
    requires Keeps(m, p) && Resumable(m, p, item, first) && origin.pending.None?
    requires Reached(m, host, lane, origin, item) && Due(host, lane, origin, item, first)
    ensures outcome.Success? ==> after.fuel < item.fuel && Standing(m, p, after, outcome.value)
    ensures outcome.Success? ==> Reached(m, host, lane, origin, after)
    ensures outcome.Success? ==>
              match outcome.value
              case Done => after.pending == None && !m.live(after.state)
              case Ready => after.pending == Some(Break)
              case Parked => after.pending.Some? && after.pending.value.ControlBarrier?
              case Fresh => false
    ensures outcome.Failure? ==> Allowed(p, host, outcome.error) && Stopped(m, host, lane, origin, after, outcome.error)
  {
    after, clock' := item, clock;
    var reply := first;
    while true
      invariant Resumable(m, p, after, reply) && after.fuel <= item.fuel
      invariant Reached(m, host, lane, origin, after) && Due(host, lane, origin, after, reply)
      decreases after.fuel
    {
      ResumeSpends(m, p, after, reply);
      ResumePending(m, after, reply);
      var (next, answer) := Resume(m, after, reply);
      if answer.Success? {
        StoryGoesOn(m, host, lane, origin, after, reply);
      }
      ghost var before := after;
      after := next;
      if answer.Failure? {
        assert Traps(m, host, lane, origin, before, reply, after, answer.error);
        return after, Failure(Trapped(answer.error)), clock';
      }
      if answer.value.None? {
        return after, Success(Done), clock';
      }
      var reason := answer.value.value;
      if reason.Break? {
        return after, Success(Ready), clock';
      }
      ServiceFits(host, clock', lane, reason);
      var serviced := Service(host, clock', lane, reason);
      match serviced {
        case Fault =>
          assert Refused(host, lane, reason);
          return after, Failure(Faulted), clock' + 1;
        case Park(_) => return after, Success(Parked), clock' + 1;
        case Answered(fitting) =>
          reply := fitting;
          assert Given(host, clock', lane, reason, reply);
      }
      clock' := clock' + 1;
    }
  }

  /** What a lane's progress says about its coroutine. */
  ghost predicate Standing<S(!new)>(m: Machine<S>, p: Promise<S>, item: Item<S>, progress: Progress) {
    if progress == Done then !m.live(item.state)
    else m.live(item.state) && Takes(p, item) && Waits(item.pending, progress)
  }

  predicate Waits(pending: Option<Yield>, progress: Progress) {
    match progress
    case Fresh => pending.None?
    case Ready => pending.Some? && (pending.value.Break? || pending.value.ControlBarrier?)
    case Parked => pending.Some? && pending.value.ControlBarrier?
    case Done => true
  }

  /** The flags of the barrier: which lanes wait, and how often each has arrived. */
  class BarrierDetector {
    const parked: array<bool>
    ghost var arrivals: seq<nat>

    constructor (lanes: nat)
      ensures fresh(parked) && parked.Length == lanes && arrivals == seq(lanes, _ => 0)
      ensures forall l :: 0 <= l < lanes ==> !parked[l]
    {
      parked := new bool[lanes](_ => false);
      arrivals := seq(lanes, _ => 0);
    }

    method Waiting() returns (count: nat)
      ensures count == multiset(parked[..])[true]
    {
      count := 0;
      for l := 0 to parked.Length
        invariant count == multiset(parked[..l])[true]
      {
        assert parked[..l + 1] == parked[..l] + [parked[l]];
        if parked[l] {
          count := count + 1;
        }
      }
      assert parked[..parked.Length] == parked[..];
    }

    method Arrived(lane: nat)
      requires lane < parked.Length == |arrivals|
      modifies this`arrivals, parked
      ensures parked[..] == old(parked[..])[lane := true]
      ensures arrivals == old(arrivals)[lane := old(arrivals)[lane] + 1]
    {
      parked[lane] := true;
      arrivals := arrivals[lane := arrivals[lane] + 1];
    }
  }

  /** Lanes move in step: in round r every runnable lane has passed r barriers, every parked
      one waits at barrier r + 1 with its flag set, and no lane is ahead of that. */
  ghost predicate InStep<S(!new)>(m: Machine<S>, p: Promise<S>, host: Host, origin: Item<S>, items: seq<Item<S>>,
                            progress: seq<Progress>, parked: seq<bool>,
                            arrivals: seq<nat>, round: nat) {
    && |items| == |progress| == |parked| == |arrivals|
    && forall l :: 0 <= l < |items| ==> LaneInStep(m, p, host, origin, l, items[l], progress[l], parked[l], arrivals[l], round)
  }

  ghost predicate LaneInStep<S(!new)>(m: Machine<S>, p: Promise<S>, host: Host, origin: Item<S>, lane: nat, item: Item<S>,
                                      progress: Progress, parked: bool, arrivals: nat, round: nat) {
    && Standing(m, p, item, progress) && Reached(m, host, lane, origin, item)
    && (progress == Fresh ==> item == origin) && (progress == Done ==> item.pending.None?)
    && (parked <==> progress == Parked)
    && (match progress
        case Parked => arrivals == round + 1
        case Done => arrivals <= round
        case _ => arrivals == round)
  }

  /** No lane is left to run before the barrier. */
  ghost predicate Settled(progress: seq<Progress>) {
    forall l :: 0 <= l < |progress| ==> !progress[l].IsReady()
  }

  /** When a barrier opens, all lanes that are still alive wait at the same one. */
  lemma LiveLanesWaitTogether<S(!new)>(m: Machine<S>, p: Promise<S>, host: Host, origin: Item<S>, items: seq<Item<S>>,
                            progress: seq<Progress>, parked: seq<bool>,
                                 arrivals: seq<nat>, round: nat, a: nat, b: nat)
    requires InStep(m, p, host, origin, items, progress, parked, arrivals, round) && Settled(progress)
    requires a < |items| && b < |items| && progress[a] != Done && progress[b] != Done
    ensures progress[a] == progress[b] == Parked && parked[a] && parked[b]
    ensures arrivals[a] == arrivals[b] == round + 1
  {
    assert LaneInStep(m, p, host, origin, a, items[a], progress[a], parked[a], arrivals[a], round);
    assert LaneInStep(m, p, host, origin, b, items[b], progress[b], parked[b], arrivals[b], round);
  }

  /** With nobody left to run and nobody waiting, every lane is done. */
  lemma EveryLaneDone<S(!new)>(m: Machine<S>, p: Promise<S>, host: Host, origin: Item<S>, items: seq<Item<S>>,
                            progress: seq<Progress>, parked: seq<bool>,
                               arrivals: seq<nat>, round: nat)
    requires InStep(m, p, host, origin, items, progress, parked, arrivals, round) && Settled(progress)
    requires forall l :: 0 <= l < |parked| ==> !parked[l]
    ensures progress == seq(|items|, _ => Done)
    ensures forall l :: 0 <= l < |items| ==> arrivals[l] <= round && RanToEnd(m, host, l, origin, items[l])
  {
    forall l | 0 <= l < |items| ensures progress[l] == Done && arrivals[l] <= round && RanToEnd(m, host, l, origin, items[l]) {
      assert LaneInStep(m, p, host, origin, l, items[l], progress[l], parked[l], arrivals[l], round);
    }
  }

  function TotalFuel<S>(items: seq<Item<S>>): nat {
    if items == [] then 0 else items[0].fuel + TotalFuel(items[1..])
  }

  lemma {:induction false} FuelFalls<S>(items: seq<Item<S>>, lane: nat, item: Item<S>)
    requires lane < |items| && item.fuel <= items[lane].fuel
    ensures TotalFuel(items[lane := item]) == TotalFuel(items) - (items[lane].fuel - item.fuel)
  {
    if lane == 0 {
      assert items[lane := item][1..] == items[1..];
    } else {
      assert items[lane := item][1..] == items[1..][lane - 1 := item];
      FuelFalls(items[1..], lane - 1, item);
    }
  }

  /** One lane of an advance. */
  method AdvanceLane<S(!new)>(m: Machine<S>, ghost p: Promise<S>, host: Host, ghost origin: Item<S>, items: array<Item<S>>,
                               progress: array<Progress>,
                              barriers: BarrierDetector, lane: nat, clock: nat, ghost round: nat)
    returns (stop: Option<Stop>, clock': nat)
    requires Keeps(m, p) && origin.pending.None?
    requires lane < items.Length == progress.Length == barriers.parked.Length && progress[lane].IsReady()
    requires InStep(m, p, host, origin, items[..], progress[..], barriers.parked[..], barriers.arrivals, round)
    modifies items, progress, barriers`arrivals, barriers.parked
    ensures stop.Some? ==> Blames(m, p, host, origin, items.Length, stop.value)
    ensures stop.None? ==> InStep(m, p, host, origin, items[..], progress[..], barriers.parked[..], barriers.arrivals, round)
    ensures stop.None? ==> TotalFuel(items[..]) < old(TotalFuel(items[..]))
    ensures forall l :: 0 <= l < progress.Length && l != lane ==> progress[l] == old(progress[l])
  {
    stop, clock' := None, clock;
    ghost var (before, stages, flags, passed) := (items[..], progress[..], barriers.parked[..], barriers.arrivals);
    var reply := progress[lane].Resume();
    NextIsDue(m, p, host, origin, before, stages, flags, passed, round, lane, clock);
    var outcome, item;
    item, outcome, clock' := RunItem(m, p, host, origin, items[lane], lane, reply.value, clock');
    if outcome.Failure? {
      return Some(outcome.error), clock';
    }
    FuelFalls(before, lane, item);
    Moved(items, progress, barriers, lane, item, outcome.value);
    LaneMoves(m, p, host, origin, before, stages, flags, passed, lane, item, outcome.value, round);
  }

  /** Notes where a lane has come to. */
  method Moved<S(!new)>(items: array<Item<S>>, progress: array<Progress>, barriers: BarrierDetector, lane: nat,
                        item: Item<S>, next: Progress)
    requires lane < items.Length == progress.Length == barriers.parked.Length == |barriers.arrivals|
    modifies items, progress, barriers`arrivals, barriers.parked
    ensures items[..] == old(items[..])[lane := item] && progress[..] == old(progress[..])[lane := next]
    ensures barriers.parked[..] == if next == Parked then old(barriers.parked[..])[lane := true] else old(barriers.parked[..])
    ensures var was := old(barriers.arrivals);
            barriers.arrivals == if next == Parked then was[lane := was[lane] + 1] else was
  {
    items[lane] := item;
    if next == Parked {
      barriers.Arrived(lane);
    }
    progress[lane] := next;
  }

  /** A fresh lane is started, one that broke or was released is acknowledged. */
  lemma NextIsDue<S(!new)>(m: Machine<S>, p: Promise<S>, host: Host, origin: Item<S>, items: seq<Item<S>>,
                           progress: seq<Progress>, parked: seq<bool>, arrivals: seq<nat>, round: nat, lane: nat, clock: nat)
    requires InStep(m, p, host, origin, items, progress, parked, arrivals, round)
    requires lane < |items| && progress[lane].IsReady()
    ensures Resumable(m, p, items[lane], progress[lane].Resume().value) && Reached(m, host, lane, origin, items[lane])
    ensures Due(host, lane, origin, items[lane], progress[lane].Resume().value)
  {
    assert LaneInStep(m, p, host, origin, lane, items[lane], progress[lane], parked[lane], arrivals[lane], round);
    if progress[lane] == Ready {
      assert Given(host, clock, lane, items[lane].pending.value, Ack);
    }
  }

  /** The lanes stay in step when one of them has run to its next stop. */
  lemma LaneMoves<S(!new)>(m: Machine<S>, p: Promise<S>, host: Host, origin: Item<S>, items: seq<Item<S>>,
                            progress: seq<Progress>, parked: seq<bool>,
                           arrivals: seq<nat>, lane: nat, item: Item<S>, next: Progress, round: nat)
    requires InStep(m, p, host, origin, items, progress, parked, arrivals, round) && lane < |items| && progress[lane].IsReady()
    requires Standing(m, p, item, next) && next != Fresh && (next == Done ==> item.pending.None?)
    requires Reached(m, host, lane, origin, item)
    ensures InStep(m, p, host, origin, items[lane := item], progress[lane := next],
                   if next == Parked then parked[lane := true] else parked,
                   if next == Parked then arrivals[lane := arrivals[lane] + 1] else arrivals, round)
  {
    assert LaneInStep(m, p, host, origin, lane, items[lane], progress[lane], parked[lane], arrivals[lane], round);
  }

  /** Resumes every runnable lane once, in some order; stops at the first lane that traps. */
  method AdvanceLanes<S(!new)>(m: Machine<S>, ghost p: Promise<S>, host: Host, ghost origin: Item<S>, items: array<Item<S>>,
                               progress: array<Progress>,
                               barriers: BarrierDetector, clock: nat, ghost round: nat)
    returns (stop: Option<Stop>, clock': nat)
    requires Keeps(m, p) && origin.pending.None?
    requires items.Length == progress.Length == barriers.parked.Length
    requires InStep(m, p, host, origin, items[..], progress[..], barriers.parked[..], barriers.arrivals, round)
    modifies items, progress, barriers`arrivals, barriers.parked
    ensures stop.Some? ==> Blames(m, p, host, origin, items.Length, stop.value)
    ensures stop.None? ==> InStep(m, p, host, origin, items[..], progress[..], barriers.parked[..], barriers.arrivals, round)
    ensures stop.None? ==> TotalFuel(items[..]) <= old(TotalFuel(items[..]))
    ensures stop.None? && !old(Settled(progress[..])) ==> TotalFuel(items[..]) < old(TotalFuel(items[..]))
  {
    stop, clock' := None, clock;
    var todo := set l | 0 <= l < progress.Length && progress[l].IsReady();
    ghost var all := todo;
    while todo != {}
      invariant stop.None? && todo <= all
      invariant forall l :: l in todo ==> 0 <= l < progress.Length && progress[l].IsReady()
      invariant InStep(m, p, host, origin, items[..], progress[..], barriers.parked[..], barriers.arrivals, round)
      invariant TotalFuel(items[..]) <= old(TotalFuel(items[..]))
      invariant todo != all ==> TotalFuel(items[..]) < old(TotalFuel(items[..]))
      decreases todo
    {
      var lane :| lane in todo;
      todo := todo - {lane};
      stop, clock' := AdvanceLane(m, p, host, origin, items, progress, barriers, lane, clock', round);
      if stop.Some? {
        return;
      }
    }
    if !old(Settled(progress[..])) {
      ghost var l :| 0 <= l < progress.Length && old(progress[..])[l].IsReady();
      assert l in all;
    }
  }

  /** Opens the barrier: every waiting lane becomes runnable. */
  method Release<S(!new)>(ghost m: Machine<S>, ghost p: Promise<S>, ghost host: Host, ghost origin: Item<S>,
                          ghost items: seq<Item<S>>, progress: array<Progress>,
                          barriers: BarrierDetector, ghost round: nat)
    returns (freed: bool)
    requires progress.Length == barriers.parked.Length
    requires InStep(m, p, host, origin, items, progress[..], barriers.parked[..], barriers.arrivals, round)
    requires Settled(progress[..])
    modifies progress, barriers.parked
    ensures InStep(m, p, host, origin, items, progress[..], barriers.parked[..], barriers.arrivals, round + 1)
    ensures freed <==> exists l :: 0 <= l < progress.Length && old(progress[..])[l] == Parked
    ensures forall l :: 0 <= l < progress.Length ==>
              progress[l] == if old(progress[..])[l] == Parked then Ready else Done
  {
    ghost var (stages, flags) := (progress[..], barriers.parked[..]);
    FlagsTell(m, p, host, origin, items, stages, flags, barriers.arrivals, round);
    freed := Unpark(progress, barriers);
    BarrierOpens(m, p, host, origin, items, stages, flags, barriers.arrivals, round, progress[..], barriers.parked[..]);
  }

  method Unpark(progress: array<Progress>, barriers: BarrierDetector) returns (freed: bool)
    requires progress.Length == barriers.parked.Length
    modifies progress, barriers.parked
    ensures freed <==> exists l :: 0 <= l < progress.Length && old(barriers.parked[..])[l]
    ensures forall l :: 0 <= l < progress.Length ==> !barriers.parked[l]
    ensures forall l :: 0 <= l < progress.Length ==>
              progress[l] == if old(barriers.parked[..])[l] then Ready else old(progress[..])[l]
  {
    freed := false;
    for lane := 0 to progress.Length
      invariant freed <==> exists l :: 0 <= l < lane && old(barriers.parked[..])[l]
      invariant forall l :: 0 <= l < lane ==>
                  !barriers.parked[l] && progress[l] == if old(barriers.parked[..])[l] then Ready else old(progress[..])[l]
      invariant forall l :: lane <= l < progress.Length ==>
                  progress[l] == old(progress[..])[l] && barriers.parked[l] == old(barriers.parked[..])[l]
    {
      if barriers.parked[lane] {
        barriers.parked[lane] := false;
        progress[lane] := Ready;
        freed := true;
      }
    }
  }

  /** With nobody left to run, the flags say who is parked, and the others are done. */
  lemma FlagsTell<S(!new)>(m: Machine<S>, p: Promise<S>, host: Host, origin: Item<S>, items: seq<Item<S>>,
                           progress: seq<Progress>, parked: seq<bool>, arrivals: seq<nat>, round: nat)
    requires InStep(m, p, host, origin, items, progress, parked, arrivals, round) && Settled(progress)
    ensures forall l :: 0 <= l < |items| ==> progress[l] == if parked[l] then Parked else Done
  {
    forall l | 0 <= l < |items| ensures progress[l] == if parked[l] then Parked else Done {
      assert LaneInStep(m, p, host, origin, l, items[l], progress[l], parked[l], arrivals[l], round);
    }
  }

  lemma BarrierOpens<S(!new)>(m: Machine<S>, p: Promise<S>, host: Host, origin: Item<S>, items: seq<Item<S>>,
                              was: seq<Progress>, flags: seq<bool>, arrivals: seq<nat>, round: nat,
                              progress: seq<Progress>, parked: seq<bool>)
    requires InStep(m, p, host, origin, items, was, flags, arrivals, round) && |progress| == |parked| == |items|
    requires forall l :: 0 <= l < |items| ==> was[l] in {Parked, Done} && !parked[l]
    requires forall l :: 0 <= l < |items| ==> progress[l] == if was[l] == Parked then Ready else Done
    ensures InStep(m, p, host, origin, items, progress, parked, arrivals, round + 1)
  {
    forall l | 0 <= l < |items|
      ensures LaneInStep(m, p, host, origin, l, items[l], progress[l], parked[l], arrivals[l], round + 1)
    {
      assert LaneInStep(m, p, host, origin, l, items[l], was[l], flags[l], arrivals[l], round);
    }
  }

  /** A lane that has run to the end of its kernel, from its start. */
  ghost predicate RanToEnd<S(!new)>(m: Machine<S>, host: Host, lane: nat, origin: Item<S>, item: Item<S>) {
    !m.live(item.state) && item.pending.None? && Reached(m, host, lane, origin, item)
  }

  /** Runs a work group. It ends for every kernel, because each pass spends lane fuel; when it
      ends well every lane has run to the end of the kernel, and otherwise the fuel is spent, an
      access was refused, or an instruction trapped as its kernel may. */
  method RunGroup<S(!new)>(m: Machine<S>, ghost p: Promise<S>, host: Host, start: S, lanes: nat, fuel: nat, debug: bool)
    returns (result: Result<seq<Progress>, Stop>, ghost ends: seq<Item<S>>, ghost arrivals: seq<nat>, ghost rounds: nat)
    requires Keeps(m, p) && m.live(start) && p.takes(start, None)
    ensures result.Success? ==> result.value == seq(lanes, _ => Done) && |ends| == lanes
    ensures result.Success? ==>
              forall l :: 0 <= l < lanes ==> RanToEnd(m, host, l, Item(start, fuel, debug, None, false, None, None), ends[l])
    ensures result.Success? ==> |arrivals| == lanes && forall l :: 0 <= l < lanes ==> arrivals[l] <= rounds
    ensures result.Failure? ==> Blames(m, p, host, Item(start, fuel, debug, None, false, None, None), lanes, result.error)
  {
    ghost var origin := Item(start, fuel, debug, None, false, None, None);
    var items := new Item<S>[lanes](_ => Item(start, fuel, debug, None, false, None, None));
    var progress := new Progress[lanes](_ => Fresh);
    var barriers := new BarrierDetector(lanes);
    var clock := 0;
    rounds := 0;
    GroupBegins(m, p, host, origin, items[..], progress[..], barriers.parked[..], barriers.arrivals);
    while true
      invariant items.Length == progress.Length == barriers.parked.Length == lanes
      invariant fresh(items) && fresh(progress) && fresh(barriers) && fresh(barriers.parked)
      invariant InStep(m, p, host, origin, items[..], progress[..], barriers.parked[..], barriers.arrivals, rounds)
      invariant lanes > 0 ==> !Settled(progress[..])
      decreases TotalFuel(items[..])
    {
      var stop, over;
      stop, over, clock, rounds := Pass(m, p, host, origin, items, progress, barriers, clock, rounds);
      arrivals, ends := barriers.arrivals, items[..];
      if stop.Some? {
        return Failure(stop.value), ends, arrivals, rounds;
      }
      if over {
        break;
      }
    }
    EveryLaneDone(m, p, host, origin, items[..], progress[..], barriers.parked[..], barriers.arrivals, rounds);
    result, ends, arrivals := Success(progress[..]), items[..], barriers.arrivals;
  }

  lemma GroupBegins<S(!new)>(m: Machine<S>, p: Promise<S>, host: Host, origin: Item<S>, items: seq<Item<S>>,
                             progress: seq<Progress>, parked: seq<bool>, arrivals: seq<nat>)
    requires Keeps(m, p) && m.live(origin.state) && p.takes(origin.state, None) && origin.pending.None?
    requires |items| == |progress| == |parked| == |arrivals|
    requires forall l :: 0 <= l < |items| ==> items[l] == origin && progress[l] == Fresh && !parked[l] && arrivals[l] == 0
    ensures InStep(m, p, host, origin, items, progress, parked, arrivals, 0)
  {
    forall l | 0 <= l < |items| ensures LaneInStep(m, p, host, origin, l, items[l], progress[l], parked[l], arrivals[l], 0) {
      assert PlainRun(m, origin, []) == (origin, []);
      assert Story(m, host, l, origin, [], origin);
    }
  }

  /** One pass of the loop: advances the runnable lanes, and when none is left to run opens
      the barrier, or finds that nobody waits at it. */
  method Pass<S(!new)>(m: Machine<S>, ghost p: Promise<S>, host: Host, ghost origin: Item<S>, items: array<Item<S>>,
                               progress: array<Progress>,
                       barriers: BarrierDetector, clock: nat, ghost round: nat)
    returns (stop: Option<Stop>, over: bool, clock': nat, ghost round': nat)
    requires Keeps(m, p) && origin.pending.None?
    requires items.Length == progress.Length == barriers.parked.Length
    requires InStep(m, p, host, origin, items[..], progress[..], barriers.parked[..], barriers.arrivals, round)
    requires items.Length > 0 ==> !Settled(progress[..])
    modifies items, progress, barriers`arrivals, barriers.parked
    ensures stop.Some? ==> Blames(m, p, host, origin, items.Length, stop.value)
    ensures stop.None? ==> InStep(m, p, host, origin, items[..], progress[..], barriers.parked[..], barriers.arrivals, round')
    ensures stop.None? && !over ==> !Settled(progress[..]) && TotalFuel(items[..]) < old(TotalFuel(items[..]))
    ensures stop.None? && over ==> Settled(progress[..]) && forall l :: 0 <= l < barriers.parked.Length ==> !barriers.parked[l]
  {
    over, round' := false, round;
    stop, clock' := AdvanceLanes(m, p, host, origin, items, progress, barriers, clock, round);
    if stop.Some? {
      return;
    }
    var ready := AnyReady(progress);
    if ready {
      return;
    }
    var waiting := barriers.Waiting();
    if waiting == 0 {
      over := true;
      return;
    }
    ghost var (lanes, stages) := (items[..], progress[..]);
    var freed := Release(m, p, host, origin, lanes, progress, barriers, round);
    assert items[..] == lanes;
    round' := round + 1;
    over := !freed;
    ReleaseOpens(m, p, host, origin, lanes, stages, progress[..], barriers.parked[..], barriers.arrivals, round', freed);
  }

  /** After a barrier has opened somebody can run, unless nobody waited. */
  lemma ReleaseOpens<S(!new)>(m: Machine<S>, p: Promise<S>, host: Host, origin: Item<S>, items: seq<Item<S>>,
                              was: seq<Progress>, progress: seq<Progress>,
                              parked: seq<bool>, arrivals: seq<nat>, round: nat, freed: bool)
    requires InStep(m, p, host, origin, items, progress, parked, arrivals, round) && |was| == |progress|
    requires forall l :: 0 <= l < |progress| ==> progress[l] == if was[l] == Parked then Ready else Done
    requires freed <==> exists l :: 0 <= l < |was| && was[l] == Parked
    ensures if freed then !Settled(progress) else Settled(progress) && forall l :: 0 <= l < |parked| ==> !parked[l]
  {
    if freed {
      var l :| 0 <= l < |was| && was[l] == Parked;
      assert progress[l].IsReady();
    } else {
      forall l | 0 <= l < |progress| ensures !progress[l].IsReady() && !parked[l] {
        assert LaneInStep(m, p, host, origin, l, items[l], progress[l], parked[l], arrivals[l], round);
      }
    }
  }

  method AnyReady(progress: array<Progress>) returns (ready: bool)
    ensures ready <==> !Settled(progress[..])
  {
    ready := false;
    for l := 0 to progress.Length
      invariant ready <==> exists k :: 0 <= k < l && progress[k].IsReady()
    {
      if progress[l].IsReady() {
        ready := true;
      }
    }
  }
}
