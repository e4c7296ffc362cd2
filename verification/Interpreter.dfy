/** The coroutine that runs one work item.

    What an instruction does is left to a step function; how the coroutine yields, is
    answered, spends fuel and stops at debugger breaks is modelled in full. */
module Interpreter {
  import opened Wrappers

  datatype Error = OutOfFuel | UnexpectedResume | Trap(code: nat)

  datatype Yield =
    | Read(address: nat, size: nat)
    | ReadLocal(address: nat, size: nat)
    | Write(address: nat, bytes: seq<nat>)
    | WriteLocal(address: nat, bytes: seq<nat>)
    | Atomic(address: nat, width: nat, operation: nat, operand: nat, comparator: nat)
    | Builtin(kind: nat)
    | MemoryBarrier(semantics: nat)
    | ControlBarrier(scope: nat, semantics: nat)
    | Break
    | Diagnostic(count: nat)
  {
    /** The replies that fit a yield. */
    predicate Accepts(reply: Reply) {
      match this
      case Read(_, _) => reply.Bytes?
      case ReadLocal(_, _) => reply.Bytes?
      case Write(_, _) => reply.Ack?
      case WriteLocal(_, _) => reply.Ack?
      case MemoryBarrier(_) => reply.Ack?
      case ControlBarrier(_, _) => reply.Ack?
      case Break => reply.Ack?
      case Diagnostic(_) => reply.Ack?
      case Atomic(_, _, _, _, _) => reply.Scalar?
      case Builtin(_) => reply.Triple?
    }
  }

  datatype Reply = Start | Bytes(bytes: seq<nat>) | Scalar(bits: nat) | Triple(x: nat, y: nat, z: nat) | Ack

  datatype Line = Line(file: nat, line: nat, column: nat, prologue: bool)

  /** What one instruction does to the private state. A step that yields keeps the
      instruction pending or has already moved past it; that is up to the step. */
  datatype Outcome<+S> =
    | Went(state: S)
    | Yielded(state: S, reason: Yield)
    | Failed(state: S, error: Error)

  /** The kernel: whether frames remain, where the next instruction comes from in the source,
      and what the next instruction does with the reply it may have waited for. */
  datatype Machine<!S(!new)> = Machine(
    live: S -> bool,
    line: S -> Result<Option<Line>, Error>,
    step: (S, Option<Reply>) -> Outcome<S>)
  {
    /** Only the debugger yields breaks, and only the fuel gauge runs out of fuel. */
    ghost predicate Sane() {
      && (forall s, r :: step(s, r).Yielded? ==> !step(s, r).reason.Break?)
      && (forall s, r :: step(s, r).Failed? ==> step(s, r).error != OutOfFuel)
      && (forall s :: line(s).Failure? ==> line(s).error != OutOfFuel)
    }
  }

  /** The fields of an interpreter that its methods update. */
  datatype Item<+S> = Item(
    state: S,
    fuel: nat,
    debug: bool,
    pending: Option<Yield>,
    stepped: bool,
    brokeAt: Option<(nat, nat)>,
    location: Option<Line>)

  type Answer = Result<Option<Yield>, Error>

  function Arrived(line: Option<Line>): Option<(nat, nat)> {
    if line.Some? then Some((line.value.file, line.value.line)) else None
  }

  /** Whether an instruction is on a line of its own, when the last stop was at `brokeAt`. */
  predicate NewLine(line: Option<Line>, brokeAt: Option<(nat, nat)>) {
    line.Some? && !line.value.prologue && Arrived(line) != brokeAt
  }

  /** Whether the debugger stops before the instruction at this line. */
  predicate Stops<S>(item: Item<S>, line: Option<Line>, replying: bool) {
    item.debug && !item.stepped && !replying && NewLine(line, item.brokeAt)
  }

  /** The loop of a resumption. */
  function Advance<S(!new)>(m: Machine<S>, item: Item<S>, reply: Option<Reply>): (r: (Item<S>, Answer))
    ensures r.0.fuel <= item.fuel && r.0.debug == item.debug
    decreases item.fuel
  {
    if !m.live(item.state) then (item, Success(None))
    else if item.fuel == 0 then (item, Failure(OutOfFuel))
    else
      var paid := item.(fuel := item.fuel - 1);
      match m.line(item.state)
      case Failure(error) => (paid, Failure(error))
      case Success(line) =>
        var at := paid.(location := line);
        if Stops(at, line, reply.Some?)
        then (at.(brokeAt := Arrived(line), pending := Some(Break)), Success(Some(Break)))
        else
          var ready := at.(stepped := false);
          match m.step(item.state, reply)
          case Failed(state, error) => (ready.(state := state), Failure(error))
          case Yielded(state, reason) => (ready.(state := state, pending := Some(reason)), Success(Some(reason)))
          case Went(state) => Advance(m, ready.(state := state), None)
  }

  /** What a resumption is let in with: the reply to hand to the instruction, or a refusal. */
  function Admit(pending: Option<Yield>, reply: Reply): Result<Option<Reply>, Error> {
    if pending.None? && reply.Start? then Success(None)
    else if pending.Some? && (pending.value.Break? || pending.value.Diagnostic?) && reply.Ack? then Success(None)
    else if pending.Some? && pending.value.Accepts(reply) then Success(Some(reply))
    else Failure(UnexpectedResume)
  }

  function Resume<S(!new)>(m: Machine<S>, item: Item<S>, reply: Reply): (r: (Item<S>, Answer))
    ensures r.0.fuel <= item.fuel && r.0.debug == item.debug
  {
    var taken := item.(pending := None);
    match Admit(item.pending, reply)
    case Failure(error) => (taken, Failure(error))
    case Success(next) =>
      Advance(m, if item.pending == Some(Break) then taken.(stepped := true) else taken, next)
  }

  // ----- what a resumption does, instruction by instruction

  /** Instructions executed one after the other, the first with the reply it waited for. */
  ghost predicate Walks<S(!new)>(m: Machine<S>, states: seq<S>, reply: Option<Reply>) {
    && states != []
    && forall i {:trigger states[i]} :: 0 <= i < |states| - 1 ==>
         && m.live(states[i]) && m.line(states[i]).Success?
         && m.step(states[i], if i == 0 then reply else None) == Went(states[i + 1])
  }

  /** How such a walk ends: without a frame, without fuel, in an error, or in a yield; each
      instruction has cost one unit. */
  ghost predicate Ends<S(!new)>(m: Machine<S>, item: Item<S>, states: seq<S>, reply: Option<Reply>, next: Item<S>, answer: Answer)
    requires states != []
  {
    var (n, last) := (|states| - 1, states[|states| - 1]);
    var outcome := m.step(last, if n == 0 then reply else None);
    match answer
    case Success(None) => !m.live(last) && next.state == last && item.fuel == next.fuel + n && next.pending == item.pending
    case Success(Some(reason)) =>
      m.live(last) && outcome == Yielded(next.state, reason) && item.fuel == next.fuel + n + 1 && next.pending == Some(reason)
    case Failure(error) =>
      m.live(last) && if error == OutOfFuel then next.state == last && next.fuel == 0 && item.fuel == n
                      else if m.line(last).Failure? then m.line(last).error == error && next.state == last
                      else outcome == Failed(next.state, error)
  }

  /** The loop of a plain item is such a walk. */
  lemma {:induction false} AdvanceWalks<S(!new)>(m: Machine<S>, item: Item<S>, reply: Option<Reply>) returns (states: seq<S>)
    requires m.Sane() && !item.debug
    ensures Walks(m, states, reply) && states[0] == item.state
    ensures Ends(m, item, states, reply, Advance(m, item, reply).0, Advance(m, item, reply).1)
    decreases item.fuel
  {
    states := [item.state];
    if m.live(item.state) && item.fuel > 0 && m.line(item.state).Success? && m.step(item.state, reply).Went? {
      var after := item.(fuel := item.fuel - 1, location := m.line(item.state).value, stepped := false,
                         state := m.step(item.state, reply).state);
      StepsOn(m, item, after, reply);
      var rest := AdvanceWalks(m, after, None);
      states := [item.state] + rest;
    }
  }

  /** The reply goes to the instruction that waits for it, as it came; one of the wrong kind is
      refused, and nothing executes. */
  lemma ReplyIsHanded<S(!new)>(m: Machine<S>, item: Item<S>, reply: Reply)
    requires item.pending.Some? && !item.pending.value.Break? && !item.pending.value.Diagnostic?
    ensures var (asked, taken) := (item.pending.value, item.(pending := None));
            var fits := match reply
              case Bytes(_) => asked.Read? || asked.ReadLocal?
              case Ack => asked.Write? || asked.WriteLocal? || asked.MemoryBarrier? || asked.ControlBarrier?
              case Scalar(_) => asked.Atomic?
              case Triple(_, _, _) => asked.Builtin?
              case Start => false;
            if !fits then Resume(m, item, reply) == (taken, Failure(UnexpectedResume))
            else if !m.live(item.state) then Resume(m, item, reply) == (taken, Success(None))
            else if item.fuel == 0 then Resume(m, item, reply) == (taken, Failure(OutOfFuel))
            else if m.line(item.state).Failure?
            then Resume(m, item, reply) == (taken.(fuel := item.fuel - 1), Failure(m.line(item.state).error))
            else
              var at := taken.(fuel := item.fuel - 1, location := m.line(item.state).value, stepped := false);
              Resume(m, item, reply) == match m.step(item.state, Some(reply))
                case Failed(state, error) => (at.(state := state), Failure(error))
                case Yielded(state, reason) => (at.(state := state, pending := Some(reason)), Success(Some(reason)))
                case Went(state) => Advance(m, at.(state := state), None)
  {
  }

  /** Nothing is handed to the first instruction, nor after a break or a diagnostic, and only a
      start, or an acknowledgement, is let in there. */
  lemma NothingIsHanded<S(!new)>(m: Machine<S>, item: Item<S>, reply: Reply)
    requires item.pending.Some? ==> item.pending.value.Break? || item.pending.value.Diagnostic?
    ensures var taken := item.(pending := None);
            Resume(m, item, reply) ==
              if reply != (if item.pending.None? then Start else Ack) then (taken, Failure(UnexpectedResume))
              else Advance(m, if item.pending == Some(Break) then taken.(stepped := true) else taken, None)
  {
  }

  /** The debugger stops before an instruction exactly when it follows the item, is not told to
      step over the instruction, no reply waits, and the instruction is on a line outside the
      prologue other than the one it last stopped at. */
  lemma DebuggerStops<S(!new)>(m: Machine<S>, item: Item<S>, reply: Option<Reply>)
    requires m.live(item.state) && item.fuel > 0 && m.line(item.state).Success? && m.Sane()
    ensures var line := m.line(item.state).value;
            var at := item.(fuel := item.fuel - 1, location := line);
            if item.debug && !item.stepped && reply == None && line.Some? && !line.value.prologue
               && item.brokeAt != Some((line.value.file, line.value.line))
            then Advance(m, item, reply)
                 == (at.(brokeAt := Some((line.value.file, line.value.line)), pending := Some(Break)), Success(Some(Break)))
            else Advance(m, item, reply) == match m.step(item.state, reply)
              case Failed(state, error) => (at.(stepped := false, state := state), Failure(error))
              case Yielded(state, reason) => (at.(stepped := false, state := state, pending := Some(reason)), Success(Some(reason)))
              case Went(state) => Advance(m, at.(stepped := false, state := state), None)
  {
  }

  /** What a resumption answers is what the item then waits for. */
  lemma {:induction false} AdvancePending<S(!new)>(m: Machine<S>, item: Item<S>, reply: Option<Reply>)
    requires item.pending.None?
    ensures Advance(m, item, reply).1.Success? ==> Advance(m, item, reply).0.pending == Advance(m, item, reply).1.value
    decreases item.fuel
  {
    if m.live(item.state) && item.fuel > 0 && m.line(item.state).Success? && m.step(item.state, reply).Went? {
      var line := m.line(item.state).value;
      var at := item.(fuel := item.fuel - 1, location := line);
      if !Stops(at, line, reply.Some?) {
        AdvancePending(m, at.(stepped := false, state := m.step(item.state, reply).state), None);
      }
    }
  }

  lemma ResumePending<S(!new)>(m: Machine<S>, item: Item<S>, reply: Reply)
    ensures Resume(m, item, reply).1.Success? ==> Resume(m, item, reply).0.pending == Resume(m, item, reply).1.value
  {
    var taken := item.(pending := None);
    if Admit(item.pending, reply).Success? {
      AdvancePending(m, if item.pending == Some(Break) then taken.(stepped := true) else taken, Admit(item.pending, reply).value);
    }
  }

  /** The coroutine object: a method on mutable fields, proved to do what `Resume` says. */
  class Coroutine<S(!new)> {
    const machine: Machine<S>
    var item: Item<S>

    constructor (machine: Machine<S>, state: S, fuel: nat, debug: bool)
      ensures this.machine == machine
      ensures item == Item(state, fuel, debug, None, false, None, None)
    {
      this.machine := machine;
      item := Item(state, fuel, debug, None, false, None, None);
    }

    method Run(reply: Reply) returns (answer: Answer)
      modifies this
      ensures (item, answer) == Resume(machine, old(item), reply)
    {
      var pending := item.pending;
      item := item.(pending := None);
      var admitted := Admit(pending, reply);
      if admitted.Failure? {
        return Failure(admitted.error);
      }
      var resume := admitted.value;
      if pending == Some(Break) {
        item := item.(stepped := true);
      }
      ghost var start := Advance(machine, item, resume);
      while machine.live(item.state)
        invariant Advance(machine, item, resume) == start
        decreases item.fuel
      {
        if item.fuel == 0 {
          return Failure(OutOfFuel);
        }
        var line := machine.line(item.state);
        item := item.(fuel := item.fuel - 1);
        if line.Failure? {
          return Failure(line.error);
        }
        item := item.(location := line.value);
        if Stops(item, line.value, resume.Some?) {
          item := item.(brokeAt := Arrived(line.value), pending := Some(Break));
          return Success(Some(Break));
        }
        item := item.(stepped := false);
        var outcome := machine.step(item.state, resume);
        item := item.(state := outcome.state);
        match outcome {
          case Failed(_, error) =>
            return Failure(error);
          case Yielded(_, reason) =>
            item := item.(pending := Some(reason));
            return Success(Some(reason));
          case Went(_) =>
            resume := None;
        }
      }
      answer := Success(None);
    }
  }

  // ----- debugging does not change meaning

  /** Resuming a debugged item as the scheduler does: every break is acknowledged at once, so
      what is left is the first answer that is not a break, and how many breaks it took. */
  function ResumePastBreaks<S(!new)>(m: Machine<S>, item: Item<S>, reply: Reply): (r: (Item<S>, Answer, nat))
    decreases item.fuel
  {
    var (next, answer) := Resume(m, item, reply);
    if answer == Success(Some(Break)) && next.fuel < item.fuel then
      var (last, final, breaks) := ResumePastBreaks(m, next, Ack);
      (last, final, breaks + 1)
    else (next, answer, 0)
  }

  /** The two items agree on everything but the debugger's own fields and the fuel. */
  ghost predicate SameButDebug<S>(plain: Item<S>, debugged: Item<S>) {
    && plain.state == debugged.state && plain.pending == debugged.pending
    && plain.location == debugged.location
  }

  /** A plain item, and its debugged twin, between two yields. */
  ghost predicate Twins<S>(plain: Item<S>, debugged: Item<S>) {
    && SameButDebug(plain, debugged)
    && !plain.debug && !plain.stepped && debugged.debug && !debugged.stepped
    && plain.pending != Some(Break)
  }

  /** The same for the loop of a resumption, started with or without a break behind it. */
  function AdvancePastBreaks<S(!new)>(m: Machine<S>, item: Item<S>, reply: Option<Reply>): (Item<S>, Answer, nat) {
    var (next, answer) := Advance(m, item, reply);
    if answer == Success(Some(Break)) && next.fuel < item.fuel then
      var (last, final, breaks) := ResumePastBreaks(m, next, Ack);
      (last, final, breaks + 1)
    else (next, answer, 0)
  }

  /** How often the plain loop comes to a new line before an instruction that waits for no
      reply, and the last such line. No debugger is involved. */
  function NewLines<S(!new)>(m: Machine<S>, state: S, fuel: nat, reply: Option<Reply>, last: Option<(nat, nat)>)
    : (nat, Option<(nat, nat)>)
    decreases fuel
  {
    if !m.live(state) || fuel == 0 || m.line(state).Failure? then (0, last)
    else
      var line := m.line(state).value;
      var (here, now) := if reply.None? && NewLine(line, last) then (1, Arrived(line)) else (0, last);
      var outcome := m.step(state, reply);
      if outcome.Went? then
        var (more, end) := NewLines(m, outcome.state, fuel - 1, None, now);
        (here + more, end)
      else (here, now)
  }

  lemma {:induction false} NewLinesFit<S(!new)>(m: Machine<S>, item: Item<S>, reply: Option<Reply>, last: Option<(nat, nat)>)
    requires !item.debug
    ensures NewLines(m, item.state, item.fuel, reply, last).0 <= item.fuel - Advance(m, item, reply).0.fuel
    decreases item.fuel
  {
    if m.live(item.state) && item.fuel > 0 && m.line(item.state).Success? && m.step(item.state, reply).Went? {
      var line := m.line(item.state).value;
      var after := item.(fuel := item.fuel - 1, location := line, stepped := false, state := m.step(item.state, reply).state);
      NewLinesFit(m, after, None, if reply.None? && NewLine(line, last) then Arrived(line) else last);
    }
  }

  /** What debugging shows of a plain resumption that spends `spent` and comes to `stops` new
      lines. With fuel for both it shows the same, one break a new line. Otherwise it ends for
      lack of fuel. */
  ghost predicate Erases<S>(plain: Item<S>, answer: Answer, spent: nat, stops: (nat, Option<(nat, nat)>),
                            fuel: nat, shown: (Item<S>, Answer, nat)) {
    var (debugged, final, breaks) := shown;
    if fuel < spent + stops.0 then final == Failure(OutOfFuel)
    else
      && final == answer && SameButDebug(plain, debugged)
      && (breaks, debugged.brokeAt) == stops && debugged.fuel == fuel - spent - breaks
      && (answer.Success? ==> Twins(plain, debugged) && answer.value != Some(Break))
  }

  /** Right after a break the debugged item stands at the line it broke at. */
  ghost predicate AtBreak<S(!new)>(m: Machine<S>, item: Item<S>) {
    m.live(item.state) && m.line(item.state).Success? && Arrived(m.line(item.state).value) == item.brokeAt
  }

  lemma {:induction false} AdvanceErases<S(!new)>(m: Machine<S>, plain: Item<S>, debugged: Item<S>, reply: Option<Reply>)
    requires m.Sane() && SameButDebug(plain, debugged)
    requires !plain.debug && !plain.stepped && plain.pending.None? && debugged.debug
    requires debugged.stepped ==> AtBreak(m, debugged)
    requires Advance(m, plain, reply).1 != Failure(OutOfFuel)
    ensures var (p, answer) := Advance(m, plain, reply);
            Erases(p, answer, plain.fuel - p.fuel, NewLines(m, plain.state, plain.fuel, reply, debugged.brokeAt),
                   debugged.fuel, AdvancePastBreaks(m, debugged, reply))
    decreases plain.fuel, if debugged.stepped then 1 else 3
  {
    if m.live(plain.state) && m.line(plain.state).Success? && debugged.fuel > 0 {
      var line := m.line(plain.state).value;
      if Stops(debugged, line, reply.Some?) {
        BreakErases(m, plain, debugged);
      } else if m.step(plain.state, reply).Went? {
        StepErases(m, plain, debugged, reply);
      }
    }
  }

  /** The same where an instruction executes and goes on. */
  lemma {:induction false} StepErases<S(!new)>(m: Machine<S>, plain: Item<S>, debugged: Item<S>, reply: Option<Reply>)
    requires m.Sane() && SameButDebug(plain, debugged)
    requires !plain.debug && !plain.stepped && plain.pending.None? && debugged.debug && debugged.fuel > 0
    requires debugged.stepped ==> AtBreak(m, debugged)
    requires Advance(m, plain, reply).1 != Failure(OutOfFuel)
    requires m.live(plain.state) && m.line(plain.state).Success? && m.step(plain.state, reply).Went?
    requires !Stops(debugged, m.line(plain.state).value, reply.Some?)
    ensures var (p, answer) := Advance(m, plain, reply);
            Erases(p, answer, plain.fuel - p.fuel, NewLines(m, plain.state, plain.fuel, reply, debugged.brokeAt),
                   debugged.fuel, AdvancePastBreaks(m, debugged, reply))
    decreases plain.fuel, 0
  {
    var (line, state) := (m.line(plain.state).value, m.step(plain.state, reply).state);
    var after := plain.(fuel := plain.fuel - 1, location := line, stepped := false, state := state);
    var twin := debugged.(fuel := debugged.fuel - 1, location := line, stepped := false, state := state);
    StepsOn(m, plain, after, reply);
    StepsOn(m, debugged, twin, reply);
    AdvanceErases(m, after, twin, None);
    PastBreaksOfTail(m, debugged, twin, reply);
    NoNewLine(m, plain.state, plain.fuel, reply, debugged.brokeAt);
  }

  lemma NoNewLine<S(!new)>(m: Machine<S>, state: S, fuel: nat, reply: Option<Reply>, last: Option<(nat, nat)>)
    requires m.live(state) && fuel > 0 && m.line(state).Success? && m.step(state, reply).Went?
    requires reply.Some? || !NewLine(m.line(state).value, last)
    ensures NewLines(m, state, fuel, reply, last) == NewLines(m, m.step(state, reply).state, fuel - 1, None, last)
  {
  }

  lemma StepsOn<S(!new)>(m: Machine<S>, item: Item<S>, after: Item<S>, reply: Option<Reply>)
    requires m.live(item.state) && item.fuel > 0 && m.line(item.state).Success? && m.step(item.state, reply).Went?
    requires !Stops(item, m.line(item.state).value, reply.Some?)
    requires after == item.(fuel := item.fuel - 1, location := m.line(item.state).value, stepped := false,
                            state := m.step(item.state, reply).state)
    ensures Advance(m, item, reply) == Advance(m, after, None)
  {
  }

  /** The same where the debugged loop stops: it goes on as if it had not, one unit poorer. */
  lemma {:induction false} BreakErases<S(!new)>(m: Machine<S>, plain: Item<S>, debugged: Item<S>)
    requires m.Sane() && SameButDebug(plain, debugged)
    requires !plain.debug && !plain.stepped && plain.pending.None? && debugged.debug && !debugged.stepped
    requires Advance(m, plain, None).1 != Failure(OutOfFuel) && debugged.fuel > 0
    requires m.live(plain.state) && m.line(plain.state).Success?
    requires Stops(debugged, m.line(plain.state).value, false)
    ensures var (p, answer) := Advance(m, plain, None);
            Erases(p, answer, plain.fuel - p.fuel, NewLines(m, plain.state, plain.fuel, None, debugged.brokeAt),
                   debugged.fuel, AdvancePastBreaks(m, debugged, None))
    decreases plain.fuel, 2
  {
    var line := m.line(plain.state).value;
    var (broken, answer) := Advance(m, debugged, None);
    assert answer == Success(Some(Break)) && broken.fuel == debugged.fuel - 1 && broken.brokeAt == Arrived(line);
    var stepping := broken.(pending := None, stepped := true);
    var before := plain.(location := line);
    assert Advance(m, before, None) == Advance(m, plain, None);
    AdvanceErases(m, before, stepping, None);
    assert ResumePastBreaks(m, broken, Ack) == AdvancePastBreaks(m, stepping, None);
  }

  /** An instruction that goes on leaves the rest of the loop to decide about breaks. */
  lemma PastBreaksOfTail<S(!new)>(m: Machine<S>, item: Item<S>, tail: Item<S>, reply: Option<Reply>)
    requires Advance(m, item, reply) == Advance(m, tail, None)
    requires tail.fuel + 1 == item.fuel && tail.pending != Some(Break)
    requires Advance(m, tail, None).1 == Success(Some(Break)) ==> Advance(m, tail, None).0.fuel < tail.fuel
    ensures AdvancePastBreaks(m, item, reply) == AdvancePastBreaks(m, tail, None)
  {
  }

  /** The new lines a plain resumption comes to. */
  function ResumeNewLines<S(!new)>(m: Machine<S>, item: Item<S>, reply: Reply, last: Option<(nat, nat)>)
    : (nat, Option<(nat, nat)>)
  {
    match Admit(item.pending, reply)
    case Failure(_) => (0, last)
    case Success(next) => NewLines(m, item.state, item.fuel, next, last)
  }

  /** One resumption: with fuel for what the plain item spends and for one break a new line,
      the debugged item answers as the plain one does; with less it runs out. */
  lemma ResumeErases<S(!new)>(m: Machine<S>, plain: Item<S>, debugged: Item<S>, reply: Reply)
    requires m.Sane() && Twins(plain, debugged)
    requires Resume(m, plain, reply).1 != Failure(OutOfFuel)
    ensures var (p, answer) := Resume(m, plain, reply);
            Erases(p, answer, plain.fuel - p.fuel, ResumeNewLines(m, plain, reply, debugged.brokeAt),
                   debugged.fuel, ResumePastBreaks(m, debugged, reply))
    ensures ResumeNewLines(m, plain, reply, debugged.brokeAt).0 <= plain.fuel - Resume(m, plain, reply).0.fuel
  {
    match Admit(plain.pending, reply)
    case Failure(_) =>
    case Success(next) =>
      AdvanceErases(m, plain.(pending := None), debugged.(pending := None), next);
      NewLinesFit(m, plain.(pending := None), next, debugged.brokeAt);
  }

  /** Every answer of a run, up to the first error or the end of the kernel. */
  function PlainRun<S(!new)>(m: Machine<S>, item: Item<S>, replies: seq<Reply>): (r: (Item<S>, seq<Answer>))
    ensures r.0.fuel <= item.fuel
    decreases |replies|
  {
    if replies == [] then (item, [])
    else
      var (next, answer) := Resume(m, item, replies[0]);
      if answer.Failure? || answer.value.None? then (next, [answer])
      else
        var (last, answers) := PlainRun(m, next, replies[1..]);
        (last, [answer] + answers)
  }

  /** A run goes on from where it stands with one more reply. */
  lemma {:induction false} RunGoesOn<S(!new)>(m: Machine<S>, item: Item<S>, replies: seq<Reply>, reply: Reply)
    requires forall k :: 0 <= k < |PlainRun(m, item, replies).1| ==>
               PlainRun(m, item, replies).1[k].Success? && PlainRun(m, item, replies).1[k].value.Some?
    ensures var (last, answers) := PlainRun(m, item, replies);
            var (next, answer) := Resume(m, last, reply);
            |answers| == |replies| && PlainRun(m, item, replies + [reply]) == (next, answers + [answer])
    decreases |replies|
  {
    if replies == [] {
      var (next, answer) := Resume(m, item, reply);
      assert replies + [reply] == [reply] && [reply][1..] == [] && PlainRun(m, next, []) == (next, []);
      assert [answer] + [] == [answer] == [] + [answer];
    } else {
      var (next, answer) := Resume(m, item, replies[0]);
      var rest := PlainRun(m, next, replies[1..]).1;
      assert PlainRun(m, item, replies).1[0] == answer;
      assert PlainRun(m, item, replies).1 == [answer] + rest;
      forall k | 0 <= k < |rest| ensures rest[k].Success? && rest[k].value.Some? {
        assert rest[k] == PlainRun(m, item, replies).1[k + 1];
      }
      RunGoesOn(m, next, replies[1..], reply);
      assert (replies + [reply])[1..] == replies[1..] + [reply];
      var (last, answers) := PlainRun(m, next, replies[1..]);
      var end := Resume(m, last, reply);
      assert PlainRun(m, next, replies[1..] + [reply]) == (end.0, answers + [end.1]);
      assert [answer] + (answers + [end.1]) == ([answer] + answers) + [end.1];
    }
  }

  /** The same replies given to a debugged item; breaks are acknowledged, counted and left out. */
  function DebugRun<S(!new)>(m: Machine<S>, item: Item<S>, replies: seq<Reply>): (Item<S>, seq<Answer>, nat)
    decreases |replies|
  {
    if replies == [] then (item, [], 0)
    else
      var (next, answer, breaks) := ResumePastBreaks(m, item, replies[0]);
      if answer.Failure? || answer.value.None? then (next, [answer], breaks)
      else
        var (last, answers, more) := DebugRun(m, next, replies[1..]);
        (last, [answer] + answers, breaks + more)
  }

  /** The new lines of a whole plain run. */
  function RunNewLines<S(!new)>(m: Machine<S>, item: Item<S>, replies: seq<Reply>, last: Option<(nat, nat)>): nat
    decreases |replies|
  {
    if replies == [] then 0
    else
      var (next, answer) := Resume(m, item, replies[0]);
      var (lines, now) := ResumeNewLines(m, item, replies[0], last);
      lines + if answer.Failure? || answer.value.None? then 0 else RunNewLines(m, next, replies[1..], now)
  }

  /** Whole runs of a plain item that does not run out of fuel. The debugged run, its breaks
      erased, gives the same answers exactly when its fuel covers what the plain run spends and
      one unit a new line; then it ends in the same state, having broken once a new line. No
      run has more new lines than it spends. */
  lemma {:induction false} DebuggingIsTransparent<S(!new)>(m: Machine<S>, plain: Item<S>, debugged: Item<S>, replies: seq<Reply>)
    requires m.Sane() && Twins(plain, debugged)
    requires Failure(OutOfFuel) !in PlainRun(m, plain, replies).1
    ensures var (p, answers) := PlainRun(m, plain, replies);
            var (d, erased, breaks) := DebugRun(m, debugged, replies);
            var (spent, lines) := (plain.fuel - p.fuel, RunNewLines(m, plain, replies, debugged.brokeAt));
            && lines <= spent
            && (erased == answers <==> debugged.fuel >= spent + lines)
            && (erased == answers ==> SameButDebug(p, d) && breaks == lines && d.fuel == debugged.fuel - spent - lines)
            && (erased != answers ==> erased != [] && erased[|erased| - 1] == Failure(OutOfFuel))
    decreases |replies|
  {
    if replies != [] {
      var (next, answer) := Resume(m, plain, replies[0]);
      var (twin, final, _) := ResumePastBreaks(m, debugged, replies[0]);
      var (rest, erased) := (PlainRun(m, next, replies[1..]).1, DebugRun(m, twin, replies[1..]).1);
      assert answer in PlainRun(m, plain, replies).1;
      ResumeErases(m, plain, debugged, replies[0]);
      if answer.Success? && answer.value.Some? {
        assert PlainRun(m, plain, replies).1 == [answer] + rest;
        if final == answer {
          DebuggingIsTransparent(m, next, twin, replies[1..]);
          assert ([answer] + erased)[1..] == erased && ([answer] + rest)[1..] == rest;
        } else {
          RunLinesFit(m, next, replies[1..], ResumeNewLines(m, plain, replies[0], debugged.brokeAt).1);
        }
      }
    }
  }

  /** With no more fuel than a plain loop that runs out, the debugged one runs out too. */
  lemma {:induction false} AdvanceOut<S(!new)>(m: Machine<S>, plain: Item<S>, debugged: Item<S>, reply: Option<Reply>)
    requires m.Sane() && plain.state == debugged.state && !plain.debug && debugged.fuel <= plain.fuel
    requires Advance(m, plain, reply).1 == Failure(OutOfFuel)
    ensures AdvancePastBreaks(m, debugged, reply).1 == Failure(OutOfFuel)
    decreases debugged.fuel
  {
    if debugged.fuel > 0 {
      var line := m.line(plain.state).value;
      if Stops(debugged, line, reply.Some?) {
        var (broken, _) := Advance(m, debugged, reply);
        var stepping := broken.(pending := None, stepped := true);
        AdvanceOut(m, plain, stepping, None);
        assert ResumePastBreaks(m, broken, Ack) == AdvancePastBreaks(m, stepping, None);
      } else {
        var after := plain.(fuel := plain.fuel - 1, location := line, stepped := false, state := m.step(plain.state, reply).state);
        var twin := debugged.(fuel := debugged.fuel - 1, location := line, stepped := false, state := after.state);
        StepsOn(m, plain, after, reply);
        StepsOn(m, debugged, twin, reply);
        AdvanceOut(m, after, twin, None);
      }
    }
  }

  lemma ResumeOut<S(!new)>(m: Machine<S>, plain: Item<S>, debugged: Item<S>, reply: Reply)
    requires m.Sane() && Twins(plain, debugged) && debugged.fuel <= plain.fuel
    requires Resume(m, plain, reply).1 == Failure(OutOfFuel)
    ensures ResumePastBreaks(m, debugged, reply).1 == Failure(OutOfFuel)
  {
    AdvanceOut(m, plain.(pending := None), debugged.(pending := None), Admit(plain.pending, reply).value);
  }

  /** Runs that end out of fuel, also under the debugger: what it shows before that is the
      beginning of what the plain run shows. */
  lemma {:induction false} DebuggingRunsOut<S(!new)>(m: Machine<S>, plain: Item<S>, debugged: Item<S>, replies: seq<Reply>)
    requires m.Sane() && Twins(plain, debugged) && debugged.fuel <= plain.fuel
    requires Failure(OutOfFuel) in PlainRun(m, plain, replies).1
    ensures var erased := DebugRun(m, debugged, replies).1;
            && erased != [] && erased[|erased| - 1] == Failure(OutOfFuel)
            && erased[..|erased| - 1] <= PlainRun(m, plain, replies).1
    decreases |replies|
  {
    var (next, answer) := Resume(m, plain, replies[0]);
    var (twin, final, _) := ResumePastBreaks(m, debugged, replies[0]);
    if answer == Failure(OutOfFuel) {
      ResumeOut(m, plain, debugged, replies[0]);
    } else {
      ResumeErases(m, plain, debugged, replies[0]);
      if final == answer {
        var (rest, erased) := (PlainRun(m, next, replies[1..]).1, DebugRun(m, twin, replies[1..]).1);
        assert PlainRun(m, plain, replies).1 == [answer] + rest;
        DebuggingRunsOut(m, next, twin, replies[1..]);
        assert DebugRun(m, debugged, replies).1 == [answer] + erased;
        assert ([answer] + erased)[..|erased|] == [answer] + erased[..|erased| - 1];
      }
    }
  }

  lemma {:induction false} RunLinesFit<S(!new)>(m: Machine<S>, item: Item<S>, replies: seq<Reply>, last: Option<(nat, nat)>)
    requires !item.debug
    ensures RunNewLines(m, item, replies, last) <= item.fuel - PlainRun(m, item, replies).0.fuel
    decreases |replies|
  {
    if replies != [] {
      var (next, answer) := Resume(m, item, replies[0]);
      var admitted := Admit(item.pending, replies[0]);
      if admitted.Success? {
        var taken := item.(pending := None);
        NewLinesFit(m, if item.pending == Some(Break) then taken.(stepped := true) else taken, admitted.value, last);
      }
      RunLinesFit(m, next, replies[1..], ResumeNewLines(m, item, replies[0], last).1);
    }
  }

  /** With the one allowance that both are given: debugging changes nothing exactly when the
      plain run leaves at least a unit of fuel for each new line it comes to; and if the plain
      run ends out of fuel so does the debugged one, with no other answers before that. */
  lemma SameAllowance<S(!new)>(m: Machine<S>, start: S, fuel: nat, replies: seq<Reply>)
    requires m.Sane()
    ensures var plain := Item(start, fuel, false, None, false, None, None);
            var debugged := plain.(debug := true);
            Failure(OutOfFuel) !in PlainRun(m, plain, replies).1 ==>
              (DebugRun(m, debugged, replies).1 == PlainRun(m, plain, replies).1 <==>
                 RunNewLines(m, plain, replies, None) <= PlainRun(m, plain, replies).0.fuel)
    ensures var plain := Item(start, fuel, false, None, false, None, None);
            var debugged := plain.(debug := true);
            Failure(OutOfFuel) in PlainRun(m, plain, replies).1 ==>
              var erased := DebugRun(m, debugged, replies).1;
              && erased != [] && erased[|erased| - 1] == Failure(OutOfFuel)
              && erased[..|erased| - 1] <= PlainRun(m, plain, replies).1
  {
    var plain := Item(start, fuel, false, None, false, None, None);
    if Failure(OutOfFuel) !in PlainRun(m, plain, replies).1 {
      DebuggingIsTransparent(m, plain, plain.(debug := true), replies);
    } else {
      DebuggingRunsOut(m, plain, plain.(debug := true), replies);
    }
  }

  // ----- where a debugged run stops

  /** The items and answers of a run, its breaks among them. */
  function Trace<S(!new)>(m: Machine<S>, item: Item<S>, replies: seq<Reply>): seq<(Item<S>, Answer)>
    decreases |replies|
  {
    if replies == [] then []
    else
      var (next, answer) := Resume(m, item, replies[0]);
      [(next, answer)] + if answer.Failure? || answer.value.None? then [] else Trace(m, next, replies[1..])
  }

  /** A stop at another line, with fuel spent on it and on the instruction after a break. */
  ghost predicate Moved<S(!new)>(m: Machine<S>, item: Item<S>, next: Item<S>, broken: bool) {
    && next.pending == Some(Break) && AtBreak(m, next)
    && next.brokeAt != item.brokeAt && next.fuel + (if broken then 2 else 1) <= item.fuel
  }

  /** A break moves the stop to another line, and nothing else moves it. */
  lemma {:induction false} AdvanceMovesStop<S(!new)>(m: Machine<S>, item: Item<S>, reply: Option<Reply>)
    requires m.Sane()
    ensures var (next, answer) := Advance(m, item, reply);
            if answer == Success(Some(Break))
            then Moved(m, item, next, item.stepped)
            else next.brokeAt == item.brokeAt && (answer.Success? && answer.value.Some? ==> next.fuel < item.fuel)
    decreases item.fuel
  {
    if m.live(item.state) && item.fuel > 0 && m.line(item.state).Success? {
      var line := m.line(item.state).value;
      var ready := item.(fuel := item.fuel - 1, location := line);
      if !Stops(ready, line, reply.Some?) && m.step(item.state, reply).Went? {
        AdvanceMovesStop(m, ready.(stepped := false, state := m.step(item.state, reply).state), None);
      }
    }
  }

  lemma ResumeMovesStop<S(!new)>(m: Machine<S>, item: Item<S>, reply: Reply)
    requires m.Sane()
    ensures var (next, answer) := Resume(m, item, reply);
            if answer == Success(Some(Break))
            then Moved(m, item, next, item.pending == Some(Break))
            else next.brokeAt == item.brokeAt && (answer.Success? && answer.value.Some? ==> next.fuel < item.fuel)
  {
    var taken := item.(pending := None);
    if Admit(item.pending, reply).Success? {
      AdvanceMovesStop(m, if item.pending == Some(Break) then taken.(stepped := true) else taken, Admit(item.pending, reply).value);
    }
  }

  predicate Breaks<S>(trace: seq<(Item<S>, Answer)>, k: nat)
    requires k < |trace|
  {
    trace[k].1 == Success(Some(Break))
  }

  lemma {:induction false} FirstStop<S(!new)>(m: Machine<S>, item: Item<S>, replies: seq<Reply>, j: nat)
    requires m.Sane() && j < |Trace(m, item, replies)| && Breaks(Trace(m, item, replies), j)
    requires forall k :: 0 <= k < j ==> !Breaks(Trace(m, item, replies), k)
    ensures Moved(m, item, Trace(m, item, replies)[j].0, item.pending == Some(Break))
    decreases |replies|
  {
    ResumeMovesStop(m, item, replies[0]);
    if j > 0 {
      var trace := Trace(m, item, replies);
      assert !Breaks(trace, 0);
      var (next, answer) := Resume(m, item, replies[0]);
      var rest := Trace(m, next, replies[1..]);
      assert trace == [(next, answer)] + rest;
      forall k | 0 <= k < j - 1 ensures !Breaks(rest, k) {
        assert !Breaks(trace, k + 1);
      }
      FirstStop(m, next, replies[1..], j - 1);
    }
  }

  /** In any run, whatever it is answered: two stops with no other between them are at different
      lines, and the fuel for the second and for at least one instruction lies between them. */
  lemma {:induction false} StopsMoveOn<S(!new)>(m: Machine<S>, item: Item<S>, replies: seq<Reply>, i: nat, j: nat)
    requires m.Sane() && i < j < |Trace(m, item, replies)|
    requires Breaks(Trace(m, item, replies), i) && Breaks(Trace(m, item, replies), j)
    requires forall k :: i < k < j ==> !Breaks(Trace(m, item, replies), k)
    ensures var trace := Trace(m, item, replies);
            && trace[i].0.brokeAt != trace[j].0.brokeAt && AtBreak(m, trace[j].0)
            && trace[j].0.fuel + 2 <= trace[i].0.fuel
    decreases |replies|
  {
    var trace := Trace(m, item, replies);
    var (next, answer) := Resume(m, item, replies[0]);
    var rest := Trace(m, next, replies[1..]);
    assert trace == [(next, answer)] + rest;
    forall k | i <= k < j - 1 && k >= 0 ensures k + 1 == i || !Breaks(rest, k) {
      assert k + 1 == i || !Breaks(trace, k + 1);
    }
    if i == 0 {
      ResumeMovesStop(m, item, replies[0]);
      FirstStop(m, next, replies[1..], j - 1);
    } else {
      StopsMoveOn(m, next, replies[1..], i - 1, j - 1);
    }
  }

  /** And it can change something: one instruction, on a line, with fuel for one. */
  lemma AllowanceCanFallShort() returns (m: Machine<bool>)
    ensures m.Sane()
    ensures PlainRun(m, Item(true, 1, false, None, false, None, None), [Start]).1 == [Success(None)]
    ensures DebugRun(m, Item(true, 1, true, None, false, None, None), [Start]).1 == [Failure(OutOfFuel)]
  {
    m := Machine(s => s, _ => Success(Some(Line(0, 1, 1, false))), (_, _) => Went(false));
    var item := Item(true, 1, true, None, false, None, None);
    var broken := item.(fuel := 0, location := Some(Line(0, 1, 1, false)), brokeAt := Some((0, 1)), pending := Some(Break));
    assert Resume(m, item, Start) == (broken, Success(Some(Break)));
    assert Resume(m, broken, Ack).1 == Failure(OutOfFuel);
    assert ResumePastBreaks(m, broken, Ack).1 == Failure(OutOfFuel);
  }
}
