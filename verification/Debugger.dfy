/** The debugger's reducer, as far as replies to waiting kernels depend on it. */
module Debugger {
  import opened Wrappers

  datatype Status = Ready | Running | Paused | Faulted | Finished

  datatype Next = Carry | Locals

  /** The controls of a tab, and what decides them. */
  datatype Keys = Keys(resume: bool, step: bool)

  datatype Tab = Tab(status: Status, running: Option<nat>, focus: nat, breaks: set<nat>, keys: Keys)

  datatype Depth = Brief | Detailed | Ended

  /** Of a group's lanes only the source lines they stand on matter here. */
  datatype Update = Started | Group(index: nat, lines: set<nat>, depth: Depth) | Reported | Trapped | Done | Aborted

  datatype Pick = PickGroup(group: nat) | PickOther

  datatype Change =
    | Open(id: nat)
    | Linger(reply: nat)
    | Inform(id: nat, update: Update)
    | Wait(id: nat, news: Option<Update>, reply: nat)
    | Close(id: nat)
    | Press(at: nat, step: bool)
    | Select(at: nat, pick: Pick)
    | Breakpoint(at: nat, line: nat)

  datatype Sent = Flow(reply: nat, next: Next) | Over(reply: nat)

  datatype State = State(
    tabs: seq<Tab>,
    tabOf: map<nat, nat>,
    stepping: map<nat, bool>,
    parked: map<nat, seq<nat>>,
    lingering: seq<nat>,
    releasing: bool,
    outbox: seq<Sent>)
  {
    function Seat(id: nat): Option<nat> {
      if id in tabOf && tabOf[id] < |tabs| then Some(tabOf[id]) else None
    }

    predicate Watching(at: nat)
      requires at < |tabs|
    {
      tabs[at].running == Some(tabs[at].focus)
    }

    predicate Stepping(id: nat) { id in stepping && stepping[id] }

    function With(at: nat, tab: Tab): State
      requires at < |tabs|
    {
      this.(tabs := tabs[at := tab])
    }

    function Steps(id: nat, step: bool): State { this.(stepping := stepping[id := step]) }

    function Send(sent: Sent): State { this.(outbox := outbox + [sent]) }

    function Park(id: nat, reply: nat): State {
      this.(parked := parked[id := RepliesOf(parked, id) + [reply]])
    }

    function Release(id: nat): State {
      if id in parked then this.(parked := parked - {id}, outbox := outbox + Flows(parked[id])) else this
    }

    function StopLingering(): State { this.(lingering := [], outbox := outbox + Overs(lingering)) }
  }

  const START := State([], map[], map[], map[], [], false, [])

  function Flows(replies: seq<nat>): (r: seq<Sent>)
    ensures |r| == |replies| && forall i :: 0 <= i < |r| ==> r[i] == Flow(replies[i], Carry)
  {
    seq(|replies|, i requires 0 <= i < |replies| => Flow(replies[i], Carry))
  }

  function Overs(replies: seq<nat>): (r: seq<Sent>)
    ensures |r| == |replies| && forall i :: 0 <= i < |r| ==> r[i] == Over(replies[i])
  {
    seq(|replies|, i requires 0 <= i < |replies| => Over(replies[i]))
  }

  /** Every launch has a tab of its own, and only launches with a tab are parked. */
  ghost predicate Seated(s: State) {
    && (forall id :: id in s.tabOf ==> s.tabOf[id] < |s.tabs|)
    && (forall a, b :: a in s.tabOf && b in s.tabOf && s.tabOf[a] == s.tabOf[b] ==> a == b)
    && (forall id :: id in s.parked ==> id in s.tabOf)
  }

  /** The launch that owns a tab. */
  function Holder(s: State, at: nat): (r: Option<nat>)
    requires Seated(s)
    ensures r.Some? ==> r.value in s.tabOf && s.tabOf[r.value] == at
    ensures r.None? ==> forall id :: id in s.tabOf ==> s.tabOf[id] != at
  {
    if exists id :: id in s.tabOf && s.tabOf[id] == at then
      var id :| id in s.tabOf && s.tabOf[id] == at;
      Some(id)
    else None
  }

  function KeysFor(status: Status, watching: bool): Keys {
    var stopped := status.Paused? || status.Faulted?;
    Keys((stopped && watching) || status.Finished?, stopped && watching)
  }

  function Settle(s: State, at: nat): State
    requires at < |s.tabs|
  {
    s.With(at, s.tabs[at].(keys := KeysFor(s.tabs[at].status, s.Watching(at))))
  }

  // ----- the changes

  function Opened(s: State, id: nat): State {
    s.(tabs := s.tabs + [Tab(Paused, None, 0, {}, KeysFor(Paused, false))],
       tabOf := s.tabOf[id := |s.tabs|], stepping := s.stepping[id := false])
  }

  function Closed(s: State, id: nat): State {
    var released := s.Release(id);
    var forgot := released.(stepping := released.stepping - {id}, tabOf := released.tabOf - {id});
    match s.Seat(id)
    case None => forgot
    case Some(at) =>
      var was := s.tabs[at].status;
      var status := if was.Running? || was.Paused? || was.Ready? then Finished else was;
      forgot.With(at, s.tabs[at].(status := status, running := None, keys := KeysFor(status, false)))
  }

  function Pressed(s: State, at: nat, step: bool): State
    requires Seated(s)
  {
    match Holder(s, at)
    case None => s
    case Some(id) =>
      if s.tabs[at].status.Finished? then s.(releasing := true).StopLingering().Release(id)
      else
        var going := s.Steps(id, step).With(at, s.tabs[at].(status := Running));
        Settle(going, at).Release(id)
  }

  function Selected(s: State, at: nat, pick: Pick): State {
    if at >= |s.tabs| || pick.PickOther? then s
    else Settle(s.With(at, s.tabs[at].(focus := pick.group)), at)
  }

  function Toggled(s: State, at: nat, line: nat): State {
    if at >= |s.tabs| then s
    else
      var breaks := s.tabs[at].breaks;
      s.With(at, s.tabs[at].(breaks := if line in breaks then breaks - {line} else breaks + {line}))
  }

  function Informed(s: State, id: nat, update: Update): State {
    match s.Seat(id)
    case None => s
    case Some(at) =>
      match update
      case Started => s
      case Reported => s
      case Trapped => Settle(s.With(at, s.tabs[at].(status := Faulted)), at)
      case Done => Settle(s.Steps(id, false).With(at, s.tabs[at].(status := Finished, running := None)), at)
      case Aborted => Settle(s.Steps(id, false).With(at, s.tabs[at].(status := Finished, running := None)), at)
      case Group(index, _, depth) =>
        Settle(s.With(at, s.tabs[at].(running := if depth.Ended? then None else Some(index))), at)
  }

  /** The update's lanes stand on a line with a breakpoint. */
  predicate Strikes(s: State, id: nat, update: Update) {
    s.Seat(id).Some? && update.Group? && update.lines * s.tabs[s.Seat(id).value].breaks != {}
  }

  predicate IsDetailed(news: Option<Update>) {
    match news
    case None => true
    case Some(update) => update.Group? && !update.depth.Brief?
  }

  /** The focus goes to the group that is running. */
  function Followed(s: State, at: nat): State
    requires at < |s.tabs|
  {
    if s.tabs[at].running.None? then s else s.With(at, s.tabs[at].(focus := s.tabs[at].running.value))
  }

  /** A launch at another group than the focused one goes on, and its tab says so. */
  function Passed(s: State, at: nat, reply: nat): State
    requires at < |s.tabs|
  {
    var going := if s.tabs[at].status.Running? then s else Settle(s.With(at, s.tabs[at].(status := Running)), at);
    going.Send(Flow(reply, Carry))
  }

  function Stopped(s: State, id: nat, at: nat, struck: bool, detailed: bool, reply: nat): State
    requires at < |s.tabs|
  {
    var arriving := !s.tabs[at].status.Finished? && (struck || s.Stepping(id));
    if arriving && !detailed then s.Send(Flow(reply, Locals))
    else
      var here := if arriving then Settle(s.Steps(id, false).With(at, s.tabs[at].(status := Paused)), at) else s;
      var holding := here.tabs[at].status.Paused? || here.tabs[at].status.Finished?;
      if !holding then here.Send(Flow(reply, Carry))
      else if !detailed then here.Send(Flow(reply, Locals))
      else here.Park(id, reply)
  }

  function Hold(s: State, id: nat, struck: bool, detailed: bool, reply: nat): State {
    match s.Seat(id)
    case None => s.Send(Flow(reply, Carry))
    case Some(at) =>
      var near := if struck && !s.Watching(at) then Followed(s, at) else s;
      if !s.tabs[at].status.Finished? && !near.Watching(at) then Passed(near, at, reply)
      else Stopped(near, id, at, struck, detailed, reply)
  }

  function Waited(s: State, id: nat, news: Option<Update>, reply: nat): State {
    var struck := news.Some? && Strikes(s, id, news.value);
    var told := if news.Some? then Informed(s, id, news.value) else s;
    Hold(told, id, struck, IsDetailed(news), reply)
  }

  function Reduce(s: State, change: Change): State
    requires Seated(s)
  {
    match change
    case Open(id) => Opened(s, id)
    case Linger(reply) => if s.releasing then s.Send(Over(reply)) else s.(lingering := s.lingering + [reply])
    case Inform(id, update) => Informed(s, id, update)
    case Wait(id, news, reply) => Waited(s, id, news, reply)
    case Close(id) => Closed(s, id)
    case Press(at, step) => Pressed(s, at, step)
    case Select(at, pick) => Selected(s, at, pick)
    case Breakpoint(at, line) => Toggled(s, at, line)
  }

  // ----- what each change does with replies

  /** Nothing but tabs and stepping is touched. */
  ghost predicate TabsOnly(s: State, after: State) {
    && after.tabOf == s.tabOf && |after.tabs| == |s.tabs| && after.parked == s.parked && after.lingering == s.lingering
    && after.releasing == s.releasing && after.outbox == s.outbox
  }

  lemma InformedTabsOnly(s: State, id: nat, update: Update)
    ensures TabsOnly(s, Informed(s, id, update))
  {
  }

  /** How a wait is answered: at once, or by being parked until somebody frees it. */
  ghost predicate Answered(s: State, after: State, next: Next, reply: nat) {
    && after.parked == s.parked && after.outbox == s.outbox + [Flow(reply, next)]
    && after.tabOf == s.tabOf && |after.tabs| == |s.tabs| && after.lingering == s.lingering && after.releasing == s.releasing
  }

  ghost predicate Parked(s: State, after: State, id: nat, reply: nat) {
    && s.Seat(id).Some? && after.parked == s.Park(id, reply).parked && after.outbox == s.outbox
    && after.tabOf == s.tabOf && |after.tabs| == |s.tabs| && after.lingering == s.lingering && after.releasing == s.releasing
    && var tab := after.tabs[s.Seat(id).value];
       tab.status.Finished? || (tab.status.Paused? && after.Watching(s.Seat(id).value))
  }

  lemma HoldAnswers(s: State, id: nat, struck: bool, detailed: bool, reply: nat)
    ensures var after := Hold(s, id, struck, detailed, reply);
            Answered(s, after, Carry, reply) || (!detailed && Answered(s, after, Locals, reply))
            || (detailed && Parked(s, after, id, reply))
  {
    if s.Seat(id).Some? {
      var at := s.Seat(id).value;
      var near := if struck && !s.Watching(at) then Followed(s, at) else s;
      assert TabsOnly(s, near) && near.tabs[at].status == s.tabs[at].status;
      if s.tabs[at].status.Finished? || near.Watching(at) {
        StoppedAnswers(near, id, at, struck, detailed, reply);
      }
    }
  }

  /** The part of a hold that may park. */
  lemma StoppedAnswers(s: State, id: nat, at: nat, struck: bool, detailed: bool, reply: nat)
    requires s.Seat(id) == Some(at) && (s.tabs[at].status.Finished? || s.Watching(at))
    ensures var after := Stopped(s, id, at, struck, detailed, reply);
            Answered(s, after, Carry, reply) || (!detailed && Answered(s, after, Locals, reply))
            || (detailed && Parked(s, after, id, reply))
  {
    var arriving := !s.tabs[at].status.Finished? && (struck || s.Stepping(id));
    var here := if arriving then Settle(s.Steps(id, false).With(at, s.tabs[at].(status := Paused)), at) else s;
    assert TabsOnly(s, here);
  }

  /** A wait is carried on, told to send locals if it was brief, or parked if it was detailed;
      it is parked only while its launch has a tab that is finished, or paused and watched. */
  lemma WaitAnswers(s: State, id: nat, news: Option<Update>, reply: nat)
    ensures var after := Waited(s, id, news, reply);
            Answered(s, after, Carry, reply) || (!IsDetailed(news) && Answered(s, after, Locals, reply))
            || (IsDetailed(news) && Parked(s, after, id, reply))
  {
    var told := if news.Some? then Informed(s, id, news.value) else s;
    if news.Some? {
      InformedTabsOnly(s, id, news.value);
    }
    HoldAnswers(told, id, news.Some? && Strikes(s, id, news.value), IsDetailed(news), reply);
  }

  /** The controls shown are those the tab's state calls for. */
  predicate Settled(s: State, at: nat)
    requires at < |s.tabs|
  {
    s.tabs[at].keys == KeysFor(s.tabs[at].status, s.Watching(at))
  }

  lemma HoldShowsResume(s: State, id: nat, struck: bool, reply: nat)
    requires s.Seat(id).Some? && Settled(s, s.Seat(id).value)
    ensures var (at, after) := (s.Seat(id).value, Hold(s, id, struck, true, reply));
            after.parked != s.parked ==> after.tabs[at].keys.resume
  {
    var at := s.Seat(id).value;
    var near := if struck && !s.Watching(at) then Followed(s, at) else s;
    assert near.tabs[at].keys == s.tabs[at].keys && near.tabs[at].status == s.tabs[at].status;
  }

  /** While a kernel is parked at its detailed group, the control that frees it is enabled. */
  lemma ParkedShowsResume(s: State, id: nat, update: Update, reply: nat)
    requires s.Seat(id).Some? && update.Group? && !update.depth.Brief?
    ensures |Waited(s, id, Some(update), reply).tabs| == |s.tabs|
    ensures var (at, after) := (s.Seat(id).value, Waited(s, id, Some(update), reply));
            after.parked != s.parked ==> after.tabs[at].keys.resume
  {
    InformedTabsOnly(s, id, update);
    WaitAnswers(s, id, Some(update), reply);
    HoldShowsResume(Informed(s, id, update), id, Strikes(s, id, update), reply);
  }

  /** Pressing a finished tab frees its launch and all who linger, pressing another frees its
      launch, and pressing a tab no launch owns any more does nothing. */
  lemma PressFrees(s: State, at: nat, step: bool)
    requires Seated(s)
    ensures var after := Pressed(s, at, step);
            match Holder(s, at)
            case None => after == s
            case Some(id) =>
              && id !in after.parked && after.parked == s.parked - {id}
              && (if s.tabs[at].status.Finished? then after.releasing && after.lingering == []
                  else && after.releasing == s.releasing && after.lingering == s.lingering
                       && after.tabs[at].status.Running? && after.Stepping(id) == step)
              && var first := if s.tabs[at].status.Finished? then Overs(s.lingering) else [];
                 after.outbox == s.outbox + first + (if id in s.parked then Flows(s.parked[id]) else [])
  {
    var first := if Holder(s, at).Some? && s.tabs[at].status.Finished? then Overs(s.lingering) else [];
    assert s.outbox + first + [] == s.outbox + first && s.outbox + [] == s.outbox;
  }

  /** Whoever is parked can be freed: pressing the tab of its launch answers it. */
  lemma ParkedCanBeFreed(s: State, id: nat)
    requires Seated(s) && id in s.parked
    ensures s.Seat(id).Some? && Holder(s, s.Seat(id).value) == Some(id)
    ensures id !in Pressed(s, s.Seat(id).value, false).parked
  {
    PressFrees(s, s.Seat(id).value, false);
  }

  lemma CloseFrees(s: State, id: nat)
    ensures var after := Closed(s, id);
            && after.parked == s.parked - {id} && after.tabOf == s.tabOf - {id} && |after.tabs| == |s.tabs|
            && after.lingering == s.lingering && after.releasing == s.releasing
            && after.outbox == s.outbox + (if id in s.parked then Flows(s.parked[id]) else [])
  {
  }

  lemma SeatedStays(s: State, after: State)
    requires Seated(s) && (forall id :: id in after.tabOf ==> id in s.tabOf && after.tabOf[id] == s.tabOf[id])
    requires |after.tabs| >= |s.tabs| && forall id :: id in after.parked ==> id in after.tabOf
    ensures Seated(after)
  {
  }

  lemma ReduceSeated(s: State, change: Change)
    requires Seated(s)
    ensures Seated(Reduce(s, change))
  {
    var after := Reduce(s, change);
    match change
    case Wait(id, news, reply) =>
      WaitAnswers(s, id, news, reply);
      SeatedStays(s, after);
    case Close(id) =>
      CloseFrees(s, id);
      SeatedStays(s, after);
    case Press(at, step) =>
      PressFrees(s, at, step);
      PressTabs(s, at, step);
      SeatedStays(s, after);
    case Inform(id, update) =>
      InformedTabsOnly(s, id, update);
      SeatedStays(s, after);
    case Open(_) =>
    case _ => SeatedStays(s, after);
  }

  lemma PressTabs(s: State, at: nat, step: bool)
    requires Seated(s)
    ensures Pressed(s, at, step).tabOf == s.tabOf && |Pressed(s, at, step).tabs| == |s.tabs|
  {
  }

  // ----- when a wait is held

  /** What of a tab no wait but its launch's touches, and what no wait touches at all. */
  ghost predicate OneTab(s: State, after: State, at: nat) {
    && at < |s.tabs| == |after.tabs| && after.tabs[at].breaks == s.tabs[at].breaks
    && forall i :: 0 <= i < |s.tabs| && i != at ==> after.tabs[i] == s.tabs[i]
  }

  /** A launch is held at the group that runs: once its tab is finished, at a breakpoint, and in
      the group it focuses on while it steps or is paused. */
  predicate Held(tab: Tab, running: Option<nat>, struck: bool, stepping: bool) {
    || tab.status.Finished?
    || (running.Some? && (struck || (running.value == tab.focus && (stepping || tab.status.Paused?))))
  }

  /** What a hold leaves of the tab and of stepping. */
  ghost predicate Leaves(s: State, after: State, id: nat, at: nat, running: Option<nat>, struck: bool, detailed: bool)
    requires at < |s.tabs|
  {
    var (tab, held) := (s.tabs[at], Held(s.tabs[at], running, struck, s.Stepping(id)));
    && OneTab(s, after, at)
    && after.tabs[at].running == running
    && after.tabs[at].focus == (if struck && running.Some? then running.value else tab.focus)
    && after.tabs[at].status ==
         (if tab.status.Finished? then Finished
          else if held then (if detailed then Paused else tab.status)
          else if running == Some(tab.focus) then tab.status
          else Running)
    && after.Stepping(id) == (s.Stepping(id) && !(held && detailed && !tab.status.Finished?))
  }

  /** How a hold answers. */
  ghost predicate IsAnswered(s: State, after: State, id: nat, held: bool, detailed: bool, reply: nat) {
    if !held then Answered(s, after, Carry, reply)
    else if !detailed then Answered(s, after, Locals, reply)
    else Parked(s, after, id, reply)
  }

  ghost predicate Holds(s: State, after: State, id: nat, at: nat, running: Option<nat>, struck: bool, detailed: bool, reply: nat)
    requires at < |s.tabs|
  {
    && Leaves(s, after, id, at, running, struck, detailed)
    && IsAnswered(s, after, id, Held(s.tabs[at], running, struck, s.Stepping(id)), detailed, reply)
  }

  lemma HoldLeaves(s: State, id: nat, struck: bool, detailed: bool, reply: nat)
    requires s.Seat(id).Some?
    ensures var at := s.Seat(id).value;
            Leaves(s, Hold(s, id, struck, detailed, reply), id, at, s.tabs[at].running, struck, detailed)
  {
    var at := s.Seat(id).value;
    var near := if struck && !s.Watching(at) then Followed(s, at) else s;
    if s.tabs[at].status.Finished? || near.Watching(at) {
      StoppedLeaves(near, id, at, struck, detailed, reply);
    } else {
      PassedLeaves(near, at, reply);
    }
  }

  lemma PassedLeaves(s: State, at: nat, reply: nat)
    requires at < |s.tabs|
    ensures var (tab, after) := (s.tabs[at], Passed(s, at, reply));
            && OneTab(s, after, at) && after.stepping == s.stepping
            && after.tabs[at].running == tab.running && after.tabs[at].focus == tab.focus && after.tabs[at].status.Running?
  {
  }

  lemma StoppedLeaves(s: State, id: nat, at: nat, struck: bool, detailed: bool, reply: nat)
    requires at < |s.tabs|
    ensures var (tab, after) := (s.tabs[at], Stopped(s, id, at, struck, detailed, reply));
            var arriving := !tab.status.Finished? && (struck || s.Stepping(id)) && detailed;
            && OneTab(s, after, at) && after.Stepping(id) == (s.Stepping(id) && !arriving)
            && after.tabs[at].running == tab.running && after.tabs[at].focus == tab.focus
            && after.tabs[at].status == (if arriving then Paused else tab.status)
  {
  }

  lemma HoldIsAnswered(s: State, id: nat, struck: bool, detailed: bool, reply: nat)
    requires s.Seat(id).Some?
    ensures var at := s.Seat(id).value;
            IsAnswered(s, Hold(s, id, struck, detailed, reply), id,
                    Held(s.tabs[at], s.tabs[at].running, struck, s.Stepping(id)), detailed, reply)
  {
    HoldAnswers(s, id, struck, detailed, reply);
  }

  /** A launch that tells of a group before it ends waits if the group has a lane on a line with a
      breakpoint, or is the focused one while the launch steps or is paused; else it goes on. */
  lemma GroupIsHeld(s: State, id: nat, index: nat, lines: set<nat>, depth: Depth, reply: nat)
    requires s.Seat(id).Some?
    ensures var (at, after) := (s.Seat(id).value, Waited(s, id, Some(Group(index, lines, depth)), reply));
            Holds(s, after, id, at, if depth.Ended? then None else Some(index),
                  exists line :: line in lines && line in s.tabs[at].breaks, !depth.Brief?, reply)
  {
    var update := Group(index, lines, depth);
    var (told, struck) := (Informed(s, id, update), Strikes(s, id, update));
    GroupTold(s, id, index, lines, depth);
    HoldLeaves(told, id, struck, !depth.Brief?, reply);
    HoldIsAnswered(told, id, struck, !depth.Brief?, reply);
    StrikesAtBreakpoint(s, id, index, lines, depth);
    ToldThenHeld(s, told, Waited(s, id, Some(update), reply), id, s.Seat(id).value, struck, !depth.Brief?, reply);
  }

  lemma GroupTold(s: State, id: nat, index: nat, lines: set<nat>, depth: Depth)
    requires s.Seat(id).Some?
    ensures var (at, told) := (s.Seat(id).value, Informed(s, id, Group(index, lines, depth)));
            && TabsOnly(s, told) && OneTab(s, told, at) && told.stepping == s.stepping && told.Seat(id) == Some(at)
            && told.tabs[at].status == s.tabs[at].status && told.tabs[at].focus == s.tabs[at].focus
            && told.tabs[at].running == if depth.Ended? then None else Some(index)
  {
  }

  lemma StrikesAtBreakpoint(s: State, id: nat, index: nat, lines: set<nat>, depth: Depth)
    requires s.Seat(id).Some?
    ensures Strikes(s, id, Group(index, lines, depth))
            <==> exists line :: line in lines && line in s.tabs[s.Seat(id).value].breaks
  {
    var breaks := s.tabs[s.Seat(id).value].breaks;
    assert forall line :: line in lines && line in breaks <==> line in lines * breaks;
  }

  lemma ToldThenHeld(s: State, told: State, after: State, id: nat, at: nat, struck: bool, detailed: bool, reply: nat)
    requires s.Seat(id) == Some(at) && TabsOnly(s, told) && OneTab(s, told, at) && told.stepping == s.stepping
    requires told.tabs[at].status == s.tabs[at].status && told.tabs[at].focus == s.tabs[at].focus
    requires Leaves(told, after, id, at, told.tabs[at].running, struck, detailed)
    requires IsAnswered(told, after, id, Held(told.tabs[at], told.tabs[at].running, struck, told.Stepping(id)), detailed, reply)
    ensures Holds(s, after, id, at, told.tabs[at].running, struck, detailed, reply)
  {
  }

  /** One that waits with nothing to tell is held as one at no breakpoint. */
  lemma SilentIsHeld(s: State, id: nat, reply: nat)
    requires s.Seat(id).Some?
    ensures var (at, after) := (s.Seat(id).value, Waited(s, id, None, reply));
            Holds(s, after, id, at, s.tabs[at].running, false, true, reply)
  {
    HoldLeaves(s, id, false, true, reply);
    HoldIsAnswered(s, id, false, true, reply);
  }

  /** A breakpoint set holds every launch of its tab in whatever group comes to its line. */
  lemma BreakpointHolds(s: State, id: nat, line: nat, index: nat, lines: set<nat>, reply: nat)
    requires s.Seat(id).Some? && line !in s.tabs[s.Seat(id).value].breaks && line in lines
    ensures var at := s.Seat(id).value;
            var broken := Toggled(s, at, line);
            && Toggled(broken, at, line) == s
            && broken.Seat(id) == Some(at)
            && Parked(broken, Waited(broken, id, Some(Group(index, lines, Detailed)), reply), id, reply)
            && Answered(broken, Waited(broken, id, Some(Group(index, lines, Brief)), reply), Locals, reply)
  {
    var at := s.Seat(id).value;
    var broken := Toggled(s, at, line);
    assert line in lines && line in broken.tabs[at].breaks;
    GroupIsHeld(broken, id, index, lines, Detailed, reply);
    GroupIsHeld(broken, id, index, lines, Brief, reply);
    assert s.tabs[at].breaks + {line} - {line} == s.tabs[at].breaks;
    assert s.tabs[at := broken.tabs[at]][at := s.tabs[at]] == s.tabs;
  }

  /** After a press a launch is held where it stops at a breakpoint, and in the focused group if
      it was told to step. */
  lemma PressThenHeld(s: State, id: nat, step: bool, index: nat, lines: set<nat>, reply: nat)
    requires Seated(s) && id in s.tabOf && !s.tabs[s.tabOf[id]].status.Finished?
    ensures var at := s.tabOf[id];
            var pressed := Pressed(s, at, step);
            && pressed.Seat(id) == Some(at) && pressed.tabs[at].keys == Keys(false, false)
            && var after := Waited(pressed, id, Some(Group(index, lines, Detailed)), reply);
               if (exists line :: line in lines && line in s.tabs[at].breaks) || (step && index == s.tabs[at].focus)
               then Parked(pressed, after, id, reply) else Answered(pressed, after, Carry, reply)
  {
    PressFrees(s, s.tabOf[id], step);
    PressTabs(s, s.tabOf[id], step);
    GroupIsHeld(Pressed(s, s.tabOf[id], step), id, index, lines, Detailed, reply);
  }

  /** A launch that has just opened is held in its first group, which its tab starts at. */
  lemma OpensHeld(s: State, id: nat, index: nat, lines: set<nat>, reply: nat)
    requires Seated(s)
    ensures var opening := Opened(s, id);
            var after := Waited(opening, id, Some(Group(index, lines, Detailed)), reply);
            && opening.Seat(id) == Some(|s.tabs|) && opening.tabs[..|s.tabs|] == s.tabs
            && if index == 0 then Parked(opening, after, id, reply) else Answered(opening, after, Carry, reply)
  {
    GroupIsHeld(Opened(s, id), id, index, lines, Detailed, reply);
  }

  /** What a tab shows of the news: a fault or a paused group can be resumed where it is focused,
      and the end of a kernel anywhere, without stepping. */
  lemma NewsShows(s: State, id: nat, update: Update)
    requires s.Seat(id).Some?
    ensures var (at, after) := (s.Seat(id).value, Informed(s, id, update));
            var (tab, now) := (s.tabs[at], after.tabs[at]);
            && OneTab(s, after, at) && now.focus == tab.focus
            && (update.Started? || update.Reported? ==> after == s)
            && (update.Trapped? ==>
                  && now.status.Faulted? && now.running == tab.running && after.stepping == s.stepping
                  && now.keys.resume == now.keys.step == (tab.running == Some(tab.focus)))
            && (update.Done? || update.Aborted? ==>
                  && now.status.Finished? && now.running.None? && !after.Stepping(id) && now.keys.resume && !now.keys.step)
            && (update.Group? && !update.depth.Ended? && tab.status.Paused? ==>
                  now.keys.resume == now.keys.step == (update.index == tab.focus))
  {
  }

  /** Looking at another group moves the focus, and with it where the launch can be resumed. */
  lemma PickShows(s: State, at: nat, group: nat)
    requires at < |s.tabs|
    ensures var (tab, after) := (s.tabs[at], Selected(s, at, PickGroup(group)));
            && OneTab(s, after, at) && after.stepping == s.stepping
            && after.tabs[at].focus == group && after.tabs[at].status == tab.status && after.tabs[at].running == tab.running
            && after.tabs[at].keys.step == ((tab.status.Paused? || tab.status.Faulted?) && tab.running == Some(group))
  {
  }

  // ----- no reply is lost or given twice

  ghost function ParkedReplies(parked: map<nat, seq<nat>>): multiset<nat>
    decreases |parked|
  {
    if parked == map[] then multiset{}
    else
      var id :| id in parked;
      multiset(parked[id]) + ParkedReplies(parked - {id})
  }

  function SentReplies(sent: seq<Sent>): multiset<nat> {
    if sent == [] then multiset{} else SentReplies(sent[..|sent| - 1]) + multiset{sent[|sent| - 1].reply}
  }

  lemma {:induction false} ParkedSplit(parked: map<nat, seq<nat>>, id: nat)
    requires id in parked
    ensures ParkedReplies(parked) == multiset(parked[id]) + ParkedReplies(parked - {id})
    decreases |parked|
  {
    var p :| p in parked && ParkedReplies(parked) == multiset(parked[p]) + ParkedReplies(parked - {p});
    if p != id {
      ParkedSplit(parked - {p}, id);
      ParkedSplit(parked - {id}, p);
      assert parked - {p} - {id} == parked - {id} - {p};
    }
  }

  function RepliesOf(parked: map<nat, seq<nat>>, id: nat): seq<nat> { if id in parked then parked[id] else [] }

  lemma ParkedWithout(parked: map<nat, seq<nat>>, id: nat)
    ensures ParkedReplies(parked) == multiset(RepliesOf(parked, id)) + ParkedReplies(parked - {id})
  {
    if id in parked {
      ParkedSplit(parked, id);
    } else {
      assert parked - {id} == parked;
    }
  }

  lemma ParkedAdds(parked: map<nat, seq<nat>>, id: nat, reply: nat)
    ensures ParkedReplies(parked[id := RepliesOf(parked, id) + [reply]]) == ParkedReplies(parked) + multiset{reply}
  {
    var after := parked[id := RepliesOf(parked, id) + [reply]];
    ParkedWithout(parked, id);
    ParkedWithout(after, id);
    assert after - {id} == parked - {id};
  }

  lemma {:induction false} SentAppends(first: seq<Sent>, rest: seq<Sent>)
    ensures SentReplies(first + rest) == SentReplies(first) + SentReplies(rest)
  {
    if rest == [] {
      assert first + rest == first;
    } else {
      assert (first + rest)[..|first + rest| - 1] == first + rest[..|rest| - 1];
      SentAppends(first, rest[..|rest| - 1]);
    }
  }

  lemma {:induction false} SentOf(sent: seq<Sent>, replies: seq<nat>)
    requires |sent| == |replies| && forall i :: 0 <= i < |sent| ==> sent[i].reply == replies[i]
    ensures SentReplies(sent) == multiset(replies)
  {
    if sent != [] {
      var last := |replies| - 1;
      SentOf(sent[..last], replies[..last]);
      assert replies == replies[..last] + [replies[last]];
    }
  }

  /** Everywhere a reply can be. */
  ghost function Replies(s: State): multiset<nat> {
    ParkedReplies(s.parked) + multiset(s.lingering) + SentReplies(s.outbox)
  }

  function Given(change: Change): multiset<nat> {
    match change
    case Linger(reply) => multiset{reply}
    case Wait(_, _, reply) => multiset{reply}
    case _ => multiset{}
  }

  lemma ReleaseKeeps(parked: map<nat, seq<nat>>, id: nat)
    ensures ParkedReplies(parked - {id}) + SentReplies(if id in parked then Flows(parked[id]) else []) == ParkedReplies(parked)
  {
    if id in parked {
      ParkedSplit(parked, id);
      SentOf(Flows(parked[id]), parked[id]);
    } else {
      assert parked - {id} == parked;
    }
  }

  /** Freeing one launch, and perhaps those who linger, moves replies to the outbox. */
  lemma FreeingKeeps(s: State, after: State, id: nat, first: seq<Sent>)
    requires after.parked == s.parked - {id}
    requires after.outbox == s.outbox + first + (if id in s.parked then Flows(s.parked[id]) else [])
    requires multiset(after.lingering) + SentReplies(first) == multiset(s.lingering)
    ensures Replies(after) == Replies(s)
  {
    ReleaseKeeps(s.parked, id);
    SentAppends(s.outbox + first, if id in s.parked then Flows(s.parked[id]) else []);
    SentAppends(s.outbox, first);
  }

  lemma PressKeeps(s: State, at: nat, step: bool)
    requires Seated(s)
    ensures Replies(Pressed(s, at, step)) == Replies(s)
  {
    PressFrees(s, at, step);
    var after := Pressed(s, at, step);
    if Holder(s, at).Some? {
      if s.tabs[at].status.Finished? {
        SentOf(Overs(s.lingering), s.lingering);
        FreeingKeeps(s, after, Holder(s, at).value, Overs(s.lingering));
      } else {
        FreeingKeeps(s, after, Holder(s, at).value, []);
      }
    }
  }

  lemma SendKeeps(outbox: seq<Sent>, sent: Sent)
    ensures SentReplies(outbox + [sent]) == SentReplies(outbox) + multiset{sent.reply}
  {
    assert (outbox + [sent])[..|outbox|] == outbox;
  }

  lemma WaitKeeps(s: State, id: nat, news: Option<Update>, reply: nat)
    ensures Replies(Waited(s, id, news, reply)) == Replies(s) + multiset{reply}
  {
    WaitAnswers(s, id, news, reply);
    ParkedAdds(s.parked, id, reply);
    SendKeeps(s.outbox, Flow(reply, Carry));
    SendKeeps(s.outbox, Flow(reply, Locals));
  }

  lemma LingerKeeps(s: State, reply: nat)
    requires Seated(s)
    ensures Replies(Reduce(s, Linger(reply))) == Replies(s) + multiset{reply}
  {
    SendKeeps(s.outbox, Over(reply));
  }

  lemma CloseKeeps(s: State, id: nat)
    ensures Replies(Closed(s, id)) == Replies(s)
  {
    CloseFrees(s, id);
    assert s.outbox + [] == s.outbox;
    FreeingKeeps(s, Closed(s, id), id, []);
  }

  /** Each change keeps every reply it finds, once, and takes in the one it brings. */
  lemma ReduceKeepsReplies(s: State, change: Change)
    requires Seated(s)
    ensures Replies(Reduce(s, change)) == Replies(s) + Given(change)
  {
    match change
    case Wait(id, news, reply) => WaitKeeps(s, id, news, reply);
    case Close(id) => CloseKeeps(s, id);
    case Press(at, step) => PressKeeps(s, at, step);
    case Linger(reply) => LingerKeeps(s, reply);
    case _ => QuietKeeps(s, change);
  }

  /** Opening, selecting, breakpoints and news by themselves touch no reply. */
  lemma QuietKeeps(s: State, change: Change)
    requires Seated(s) && (change.Inform? || change.Open? || change.Select? || change.Breakpoint?)
    ensures Replies(Reduce(s, change)) == Replies(s)
  {
    if change.Inform? {
      InformedTabsOnly(s, change.id, change.update);
    }
    var after := Reduce(s, change);
    assert after.parked == s.parked && after.lingering == s.lingering && after.outbox == s.outbox;
  }

  // ----- over any sequence of changes

  /** The reducer's state, and what has left its outbox. */
  datatype Desk = Desk(state: State, delivered: seq<Sent>)

  /** After each change the outbox is emptied and its replies are sent. */
  function Turn(d: Desk, change: Change): Desk
    requires Seated(d.state)
  {
    var reduced := Reduce(d.state, change);
    Desk(reduced.(outbox := []), d.delivered + reduced.outbox)
  }

  ghost function Turns(changes: seq<Change>): (d: Desk)
    ensures Seated(d.state) && d.state.outbox == []
  {
    if changes == [] then Desk(START, [])
    else
      var before := Turns(changes[..|changes| - 1]);
      ReduceSeated(before.state, changes[|changes| - 1]);
      Turn(before, changes[|changes| - 1])
  }

  function AllGiven(changes: seq<Change>): multiset<nat> {
    if changes == [] then multiset{} else AllGiven(changes[..|changes| - 1]) + Given(changes[|changes| - 1])
  }

  /** Everywhere a reply can be, once outboxes have been emptied. */
  ghost function Total(d: Desk): multiset<nat> {
    ParkedReplies(d.state.parked) + multiset(d.state.lingering) + SentReplies(d.delivered)
  }

  lemma DeliveryKeeps(d: Desk, reduced: State, given: multiset<nat>)
    requires d.state.outbox == [] && Replies(reduced) == Replies(d.state) + given
    ensures Total(Desk(reduced.(outbox := []), d.delivered + reduced.outbox)) == Total(d) + given
  {
    SentAppends(d.delivered, reduced.outbox);
    assert SentReplies(d.state.outbox) == multiset{};
    calc {
      Total(Desk(reduced.(outbox := []), d.delivered + reduced.outbox));
      Replies(reduced) + SentReplies(d.delivered);
      Replies(d.state) + given + SentReplies(d.delivered);
      Total(d) + given;
    }
  }

  lemma TurnKeeps(d: Desk, change: Change)
    requires Seated(d.state) && d.state.outbox == []
    ensures Total(Turn(d, change)) == Total(d) + Given(change)
  {
    ReduceKeepsReplies(d.state, change);
    DeliveryKeeps(d, Reduce(d.state, change), Given(change));
  }

  /** Over any sequence of changes, the replies parked, lingering and sent are together exactly
      those that were brought in: none is lost, none is answered or kept twice. */
  lemma {:induction false} RepliesConserved(changes: seq<Change>)
    ensures var d := Turns(changes);
            ParkedReplies(d.state.parked) + multiset(d.state.lingering) + SentReplies(d.delivered) == AllGiven(changes)
  {
    if changes != [] {
      var (rest, change) := (changes[..|changes| - 1], changes[|changes| - 1]);
      RepliesConserved(rest);
      TurnKeeps(Turns(rest), change);
      assert Turns(changes) == Turn(Turns(rest), change);
    }
  }

  // ----- who is told what

  function BriefOf(change: Change): multiset<nat> {
    if change.Wait? && !IsDetailed(change.news) then multiset{change.reply} else multiset{}
  }

  function DetailedOf(change: Change): multiset<nat> {
    if change.Wait? && IsDetailed(change.news) then multiset{change.reply} else multiset{}
  }

  /** The replies that waits without detail brought in, each as often as it was. */
  function BriefReplies(changes: seq<Change>): multiset<nat> {
    if changes == [] then multiset{} else BriefReplies(changes[..|changes| - 1]) + BriefOf(changes[|changes| - 1])
  }

  function DetailedReplies(changes: seq<Change>): multiset<nat> {
    if changes == [] then multiset{} else DetailedReplies(changes[..|changes| - 1]) + DetailedOf(changes[|changes| - 1])
  }

  predicate TellsLocals(sent: Sent) { sent.Flow? && sent.next.Locals? }

  /** The replies told to send locals. */
  function LocalsReplies(sent: seq<Sent>): multiset<nat> {
    if sent == [] then multiset{}
    else
      var last := sent[|sent| - 1];
      LocalsReplies(sent[..|sent| - 1]) + if TellsLocals(last) then multiset{last.reply} else multiset{}
  }

  lemma {:induction false} LocalsAppend(first: seq<Sent>, rest: seq<Sent>)
    ensures LocalsReplies(first + rest) == LocalsReplies(first) + LocalsReplies(rest)
  {
    if rest == [] {
      assert first + rest == first;
    } else {
      assert (first + rest)[..|first + rest| - 1] == first + rest[..|rest| - 1];
      LocalsAppend(first, rest[..|rest| - 1]);
    }
  }

  lemma {:induction false} NoLocals(sent: seq<Sent>)
    requires forall i :: 0 <= i < |sent| ==> !TellsLocals(sent[i])
    ensures LocalsReplies(sent) == multiset{}
  {
    if sent != [] {
      NoLocals(sent[..|sent| - 1]);
    }
  }

  /** At most these are told to send locals, and at most these join the parked. */
  ghost predicate Tells(s: State, after: State, brief: multiset<nat>, detailed: multiset<nat>) {
    LocalsReplies(after.outbox) <= brief && ParkedReplies(after.parked) <= ParkedReplies(s.parked) + detailed
  }

  lemma ReduceTells(s: State, change: Change)
    requires Seated(s) && s.outbox == []
    ensures Tells(s, Reduce(s, change), BriefOf(change), DetailedOf(change))
  {
    match change
    case Wait(id, news, reply) => WaitTells(s, id, news, reply);
    case Close(id) => CloseTells(s, id);
    case Press(at, step) => PressTells(s, at, step);
    case _ => OtherTells(s, change);
  }

  lemma OtherTells(s: State, change: Change)
    requires Seated(s) && s.outbox == [] && !change.Wait? && !change.Close? && !change.Press?
    ensures Tells(s, Reduce(s, change), multiset{}, multiset{})
  {
    if change.Inform? {
      InformedTabsOnly(s, change.id, change.update);
    }
    var after := Reduce(s, change);
    assert after.parked == s.parked;
    NoLocals(after.outbox);
  }

  lemma CloseTells(s: State, id: nat)
    requires s.outbox == []
    ensures Tells(s, Closed(s, id), multiset{}, multiset{})
  {
    CloseFrees(s, id);
    ReleaseKeeps(s.parked, id);
    NoLocals(Closed(s, id).outbox);
  }

  lemma PressTells(s: State, at: nat, step: bool)
    requires Seated(s) && s.outbox == []
    ensures Tells(s, Pressed(s, at, step), multiset{}, multiset{})
  {
    PressTellsNobody(s, at, step);
    PressParksNobody(s, at, step);
  }

  lemma PressTellsNobody(s: State, at: nat, step: bool)
    requires Seated(s) && s.outbox == []
    ensures LocalsReplies(Pressed(s, at, step).outbox) == multiset{}
  {
    PressFrees(s, at, step);
    var outbox := Pressed(s, at, step).outbox;
    forall i | 0 <= i < |outbox| ensures !TellsLocals(outbox[i]) {
    }
    NoLocals(outbox);
  }

  lemma PressParksNobody(s: State, at: nat, step: bool)
    requires Seated(s)
    ensures ParkedReplies(Pressed(s, at, step).parked) <= ParkedReplies(s.parked)
  {
    PressFrees(s, at, step);
    if Holder(s, at).Some? {
      ReleaseKeeps(s.parked, Holder(s, at).value);
    }
  }

  lemma WaitTells(s: State, id: nat, news: Option<Update>, reply: nat)
    requires s.outbox == []
    ensures Tells(s, Waited(s, id, news, reply), if IsDetailed(news) then multiset{} else multiset{reply},
                  if IsDetailed(news) then multiset{reply} else multiset{})
  {
    WaitAnswers(s, id, news, reply);
    ParkedAdds(s.parked, id, reply);
    var sent := Waited(s, id, news, reply).outbox;
    if sent != [] {
      assert sent[..0] == [] && LocalsReplies([]) == multiset{};
    }
  }

  /** Counted with their occurrences, only brief waits are told to send locals, and only detailed
      waits are parked, so an exchange that answers locals with details is over after two. */
  lemma {:induction false} LocalsOnlyForBrief(changes: seq<Change>)
    ensures LocalsReplies(Turns(changes).delivered) <= BriefReplies(changes)
    ensures ParkedReplies(Turns(changes).state.parked) <= DetailedReplies(changes)
  {
    if changes != [] {
      var (rest, change) := (changes[..|changes| - 1], changes[|changes| - 1]);
      LocalsOnlyForBrief(rest);
      var before := Turns(rest);
      ReduceTells(before.state, change);
      LocalsAppend(before.delivered, Reduce(before.state, change).outbox);
      assert Turns(changes) == Turn(before, change);
    }
  }

  // ----- those who linger

  function LingerOf(change: Change): multiset<nat> { if change.Linger? then multiset{change.reply} else multiset{} }

  /** The replies that programs at their end brought in. */
  function LingerReplies(changes: seq<Change>): multiset<nat> {
    if changes == [] then multiset{} else LingerReplies(changes[..|changes| - 1]) + LingerOf(changes[|changes| - 1])
  }

  /** The replies told that all is over. */
  function OverReplies(sent: seq<Sent>): multiset<nat> {
    if sent == [] then multiset{}
    else
      var last := sent[|sent| - 1];
      OverReplies(sent[..|sent| - 1]) + if last.Over? then multiset{last.reply} else multiset{}
  }

  lemma {:induction false} OverAppend(first: seq<Sent>, rest: seq<Sent>)
    ensures OverReplies(first + rest) == OverReplies(first) + OverReplies(rest)
  {
    if rest == [] {
      assert first + rest == first;
    } else {
      assert (first + rest)[..|first + rest| - 1] == first + rest[..|rest| - 1];
      OverAppend(first, rest[..|rest| - 1]);
    }
  }

  lemma {:induction false} NoneOver(sent: seq<Sent>)
    requires forall i :: 0 <= i < |sent| ==> sent[i].Flow?
    ensures OverReplies(sent) == multiset{}
  {
    if sent != [] {
      NoneOver(sent[..|sent| - 1]);
    }
  }

  lemma {:induction false} AllOver(replies: seq<nat>)
    ensures OverReplies(Overs(replies)) == multiset(replies)
  {
    if replies != [] {
      var last := |replies| - 1;
      assert Overs(replies)[..last] == Overs(replies[..last]);
      AllOver(replies[..last]);
      assert replies == replies[..last] + [replies[last]];
    }
  }

  lemma ReduceOvers(s: State, change: Change)
    requires Seated(s) && s.outbox == []
    ensures OverReplies(Reduce(s, change).outbox) + multiset(Reduce(s, change).lingering)
         == multiset(s.lingering) + LingerOf(change)
  {
    match change
    case Press(at, step) => PressOvers(s, at, step);
    case Linger(reply) => LingerOvers(s, reply);
    case _ => OtherOvers(s, change);
  }

  lemma LingerOvers(s: State, reply: nat)
    requires Seated(s) && s.outbox == []
    ensures var after := Reduce(s, Linger(reply));
            OverReplies(after.outbox) + multiset(after.lingering) == multiset(s.lingering) + multiset{reply}
  {
    AllOver([reply]);
    assert Overs([reply]) == [Over(reply)];
  }

  lemma PressOvers(s: State, at: nat, step: bool)
    requires Seated(s) && s.outbox == []
    ensures var after := Pressed(s, at, step);
            OverReplies(after.outbox) + multiset(after.lingering) == multiset(s.lingering)
  {
    PressFrees(s, at, step);
    if Holder(s, at).Some? {
      var first := if s.tabs[at].status.Finished? then Overs(s.lingering) else [];
      var rest := if Holder(s, at).value in s.parked then Flows(s.parked[Holder(s, at).value]) else [];
      assert Pressed(s, at, step).outbox == first + rest;
      OverAppend(first, rest);
      NoneOver(rest);
      AllOver(s.lingering);
    }
  }

  lemma OtherOvers(s: State, change: Change)
    requires Seated(s) && s.outbox == [] && !change.Press? && !change.Linger?
    ensures OverReplies(Reduce(s, change).outbox) == multiset{} && Reduce(s, change).lingering == s.lingering
  {
    if change.Wait? {
      WaitAnswers(s, change.id, change.news, change.reply);
    } else if change.Close? {
      CloseFrees(s, change.id);
    } else if change.Inform? {
      InformedTabsOnly(s, change.id, change.update);
    }
    NoneOver(Reduce(s, change).outbox);
  }

  /** Who lingers is told that all is over, and nobody else is: over any sequence of changes those
      told so and those still lingering are together those who came to linger. */
  lemma {:induction false} OverOnlyForLingerers(changes: seq<Change>)
    ensures var d := Turns(changes); OverReplies(d.delivered) + multiset(d.state.lingering) == LingerReplies(changes)
  {
    if changes != [] {
      var (rest, change) := (changes[..|changes| - 1], changes[|changes| - 1]);
      OverOnlyForLingerers(rest);
      TurnOvers(Turns(rest), change);
      assert Turns(changes) == Turn(Turns(rest), change);
    }
  }

  lemma TurnOvers(d: Desk, change: Change)
    requires Seated(d.state) && d.state.outbox == []
    ensures var after := Turn(d, change);
            OverReplies(after.delivered) + multiset(after.state.lingering)
            == OverReplies(d.delivered) + multiset(d.state.lingering) + LingerOf(change)
  {
    ReduceOvers(d.state, change);
    OversDelivered(d, Reduce(d.state, change), LingerOf(change));
  }

  lemma OversDelivered(d: Desk, reduced: State, given: multiset<nat>)
    requires OverReplies(reduced.outbox) + multiset(reduced.lingering) == multiset(d.state.lingering) + given
    ensures OverReplies(d.delivered + reduced.outbox) + multiset(reduced.lingering)
         == OverReplies(d.delivered) + multiset(d.state.lingering) + given
  {
    OverAppend(d.delivered, reduced.outbox);
    SumsJoin(OverReplies(d.delivered), OverReplies(reduced.outbox), multiset(reduced.lingering), multiset(d.state.lingering), given);
  }

  lemma SumsJoin(a: multiset<nat>, b: multiset<nat>, c: multiset<nat>, d: multiset<nat>, e: multiset<nat>)
    requires b + c == d + e
    ensures a + b + c == a + d + e
  {
    assert a + b + c == a + (b + c) && a + d + e == a + (d + e);
  }

  predicate FinishedTab(s: State, at: nat) { at < |s.tabs| && s.tabs[at].status.Finished? }

  /** Who lingers is freed by pressing a finished tab that a launch still owns, and by nothing
      else. */
  lemma LingerersFreedBy(s: State, change: Change)
    requires Seated(s) && s.lingering != []
    ensures if change.Press? && Holder(s, change.at).Some? && FinishedTab(s, change.at)
            then Reduce(s, change).lingering == [] else s.lingering <= Reduce(s, change).lingering
  {
    match change
    case Wait(id, news, reply) => WaitAnswers(s, id, news, reply);
    case Close(id) => CloseFrees(s, id);
    case Press(at, step) => PressFrees(s, at, step);
    case Inform(id, update) => InformedTabsOnly(s, id, update);
    case _ =>
  }

  /** They can be freed exactly while some launch owns a finished tab. */
  lemma LingerersCanBeFreed(s: State)
    requires Seated(s) && s.lingering != []
    ensures (exists change :: Reduce(s, change).lingering == []) <==> exists id :: id in s.tabOf && FinishedTab(s, s.tabOf[id])
  {
    if change :| Reduce(s, change).lingering == [] {
      LingerersFreedBy(s, change);
      assert Holder(s, change.at).value in s.tabOf;
    }
    if id :| id in s.tabOf && FinishedTab(s, s.tabOf[id]) {
      LingerersFreedBy(s, Press(s.tabOf[id], false));
      assert Reduce(s, Press(s.tabOf[id], false)).lingering == [];
    }
  }

  /** Once they have been freed nobody lingers again. */
  lemma {:induction false} NobodyLingersAfter(changes: seq<Change>)
    ensures Turns(changes).state.releasing ==> Turns(changes).state.lingering == []
  {
    if changes != [] {
      var (rest, change) := (changes[..|changes| - 1], changes[|changes| - 1]);
      NobodyLingersAfter(rest);
      ReleasingReduce(Turns(rest).state, change);
      assert Turns(changes) == Turn(Turns(rest), change);
    }
  }

  lemma ReleasingReduce(s: State, change: Change)
    requires Seated(s) && (s.releasing ==> s.lingering == [])
    ensures Reduce(s, change).releasing ==> Reduce(s, change).lingering == []
  {
    match change
    case Wait(id, news, reply) => WaitAnswers(s, id, news, reply);
    case Close(id) => CloseFrees(s, id);
    case Press(at, step) => PressFrees(s, at, step);
    case Inform(id, update) => InformedTabsOnly(s, id, update);
    case _ =>
  }

  /** Closing leaves the launch's tab to nobody. Its resume control is enabled all the same,
      unless it had faulted, and pressing it does nothing. */
  lemma ClosedTabIsDead(s: State, id: nat, step: bool)
    requires Seated(s) && id in s.tabOf
    ensures var (at, after) := (s.tabOf[id], Closed(s, id));
            && Seated(after) && Holder(after, at) == None && at < |after.tabs|
            && after.tabs[at].keys.resume == !s.tabs[at].status.Faulted?
            && Reduce(after, Press(at, step)) == after
  {
    ReduceSeated(s, Close(id));
  }

  /** And nobody owns it ever after: launches that open get tabs of their own. */
  lemma DeadTabStaysDead(s: State, change: Change, at: nat)
    requires Seated(s) && at < |s.tabs| && Holder(s, at) == None
    ensures Seated(Reduce(s, change)) && at < |Reduce(s, change).tabs| && Holder(Reduce(s, change), at) == None
  {
    ReduceSeated(s, change);
    SeatsKept(s, change);
  }

  /** Every launch keeps its tab, or has one that was not there before. */
  lemma SeatsKept(s: State, change: Change)
    requires Seated(s)
    ensures |Reduce(s, change).tabs| >= |s.tabs|
    ensures forall id :: id in Reduce(s, change).tabOf ==>
              (id in s.tabOf && Reduce(s, change).tabOf[id] == s.tabOf[id]) || Reduce(s, change).tabOf[id] == |s.tabs|
  {
    match change
    case Wait(id, news, reply) => WaitAnswers(s, id, news, reply);
    case Close(id) => CloseFrees(s, id);
    case Press(p, step) => PressTabs(s, p, step);
    case Inform(id, update) => InformedTabsOnly(s, id, update);
    case _ =>
  }

  /** When all launches have closed, nothing frees those who linger unless another one opens. */
  lemma {:induction false} StrandedWhenAllClosed(d: Desk, changes: seq<Change>) returns (after: Desk)
    requires Seated(d.state) && d.state.tabOf == map[] && d.state.lingering != []
    requires forall i :: 0 <= i < |changes| ==> !changes[i].Open?
    ensures after == TurnAll(d, changes)
    ensures after.state.tabOf == map[] && d.state.lingering <= after.state.lingering
    decreases |changes|
  {
    after := d;
    if changes != [] {
      var (s, change) := (d.state, changes[0]);
      LingerersFreedBy(s, change);
      assert change.Press? ==> Holder(s, change.at) == None;
      NoLaunchStays(s, change);
      ReduceSeated(s, change);
      after := StrandedWhenAllClosed(Turn(d, change), changes[1..]);
    }
  }

  function TurnAll(d: Desk, changes: seq<Change>): Desk
    requires Seated(d.state)
    decreases |changes|
  {
    if changes == [] then d
    else
      ReduceSeated(d.state, changes[0]);
      TurnAll(Turn(d, changes[0]), changes[1..])
  }

  lemma NoLaunchStays(s: State, change: Change)
    requires Seated(s) && s.tabOf == map[] && !change.Open?
    ensures Reduce(s, change).tabOf == map[]
  {
    match change
    case Wait(id, news, reply) => WaitAnswers(s, id, news, reply);
    case Close(id) => CloseFrees(s, id);
    case Press(at, step) => PressTabs(s, at, step);
    case Inform(id, update) => InformedTabsOnly(s, id, update);
    case _ =>
  }

  /** The loop that owns the state: it reduces each change and posts what has become due. */
  class Server {
    var state: State
    var delivered: seq<Sent>

    constructor ()
      ensures state == START && delivered == []
    {
      state := START;
      delivered := [];
    }

    method Posted() returns (sent: seq<Sent>)
      modifies this`state
      ensures sent == old(state).outbox && state == old(state).(outbox := [])
    {
      sent := state.outbox;
      state := state.(outbox := []);
    }

    method Handle(change: Change)
      requires Seated(state)
      modifies this
      ensures Seated(state) && Desk(state, delivered) == Turn(Desk(old(state), old(delivered)), change)
    {
      ReduceSeated(state, change);
      state := Reduce(state, change);
      var sent := Posted();
      delivered := delivered + sent;
    }
  }
}
