/**
 The match-window monitor: it polls once a second and moves the stored match to its
 effective state. A poll takes the store's lock for each of its reads and writes and calls
 the access service in between, so organiser commands may fall between any two of its steps.
 */
module MatchMonitor {
  import opened Common
  import opened MatchWindow
  import G = GameStore

  // What a call to the access service would do on this poll; NoClient: none is configured.
  datatype Access = NoClient | Succeeds | Fails

  datatype System = System(
    stored: Match,
    pending: Option<MatchState>,
    reconciled: Option<MatchState>,
    applied: set<MatchState>)    // states for which access has been applied, or had nothing to apply

  const BOOT := System(FRESH, None, None, {})

  predicate WindowConfigured(m: Match) { m.configured || m.scheduledStart.Some? || m.scheduledEnd.Some? }

  predicate ShouldReconcile(m: Match) { WindowConfigured(m) && (m.state == Running || m.state == Finished) }

  function ReconcilePending(s: System, state: MatchState, access: Access): System {
    if s.pending != Some(state) || access == Fails then s
    else s.(pending := None, reconciled := Some(state), applied := s.applied + {state})
  }

  // ---------------------------------------------------------------- one poll, step by step

  // What the poll read and wants, and the organiser's commands before and after its last write.
  datatype Plan = Plan(read: Match, desired: Match, before: seq<Op>, since: seq<Op>)

  // Where the poll stands: about to start the match, to stop it, or to call the access service.
  datatype Stage =
    | Idle
    | ToStart(plan: Plan, at: int, stop: Option<int>)
    | ToStop(plan: Plan, at: int)
    | ToAccess(plan: Plan)

  datatype State = State(sys: System, stage: Stage)

  datatype Action =
    | Organizer(op: Op)
    | PollRead(now: int)
    | PollStart
    | PollStop
    | PollAccess(access: Access)

  function Noted(plan: Plan, op: Op): Plan { plan.(since := plan.since + [op]) }

  function NotedStage(stage: Stage, op: Op): Stage {
    match stage
    case Idle => Idle
    case ToStart(plan, at, stop) => ToStart(Noted(plan, op), at, stop)
    case ToStop(plan, at) => ToStop(Noted(plan, op), at)
    case ToAccess(plan) => ToAccess(Noted(plan, op))
  }

  function Wrote(plan: Plan): Plan { plan.(before := plan.before + plan.since, since := []) }

  function Read(s: System, w: Window, now: int): State {
    var desired := ApplyWindow(s.stored, w, now);
    var plan, endAt := Plan(s.stored, desired, [], []), desired.endedAt.GetOr(now);
    if s.stored.state == desired.state then
      var due := ShouldReconcile(desired) && s.reconciled != Some(desired.state);
      State(if due then s.(pending := Some(desired.state)) else s, ToAccess(plan))
    else if desired.state == Running then State(s, ToStart(plan, desired.startedAt.GetOr(now), None))
    else if desired.state != Finished then State(s, Idle)
    else if s.stored.state == NotStarted && desired.startedAt.Some?
    then State(s, ToStart(plan, desired.startedAt.value, Some(endAt)))
    else State(s, ToStop(plan, endAt))
  }

  function Step(w: Window, x: State, a: Action): State {
    match (a, x.stage)
    case (Organizer(op), stage) =>
      State(x.sys.(stored := Apply(x.sys.stored, op).0), NotedStage(stage, op))
    case (PollRead(now), Idle) => Read(x.sys, w, now)
    case (PollStart, ToStart(plan, at, stop)) =>
      // a match that is over refuses to start, and the poll ignores that
      var started := x.sys.(stored := Apply(x.sys.stored, StartMatch(at)).0);
      if stop.Some? then State(started, ToStop(Wrote(plan), stop.value))
      else State(started.(pending := Some(plan.desired.state)), ToAccess(Wrote(plan)))
    case (PollStop, ToStop(plan, at)) =>
      var stopped := x.sys.(stored := Apply(x.sys.stored, StopMatch(at)).0);
      State(stopped.(pending := Some(plan.desired.state)), ToAccess(Wrote(plan)))
    case (PollAccess(access), ToAccess(plan)) => State(ReconcilePending(x.sys, plan.desired.state, access), Idle)
    case _ => x
  }

  function Run(w: Window, x: State, actions: seq<Action>): State
    decreases |actions|
  {
    if actions == [] then x else Run(w, Step(w, x, actions[0]), actions[1..])
  }

  const START := State(BOOT, Idle)

  // ---------------------------------------------------------------- what organiser commands do to the state

  function NextState(state: MatchState, op: Op): MatchState {
    match op
    case StartMatch(_) => if state == Finished then Finished else Running
    case PauseMatch => if state == Running || state == Paused then Paused else state
    case ResumeMatch => if state == Paused then Running else state
    case StopMatch(_) => Finished
    case UpdateSchedule(_, _) => state
  }

  function StateAfter(state: MatchState, ops: seq<Op>): MatchState {
    if ops == [] then state else NextState(StateAfter(state, ops[..|ops| - 1]), ops[|ops| - 1])
  }

  lemma ApplyMovesState(m: Match, op: Op)
    ensures Apply(m, op).0.state == NextState(m.state, op)
  {
  }

  lemma StateAfterNext(state: MatchState, ops: seq<Op>, op: Op)
    ensures StateAfter(state, ops + [op]) == NextState(StateAfter(state, ops), op)
  {
    assert (ops + [op])[..|ops|] == ops;
  }

  lemma {:induction false} FinishedStays(ops: seq<Op>)
    ensures StateAfter(Finished, ops) == Finished
  {
    if ops != [] {
      FinishedStays(ops[..|ops| - 1]);
    }
  }

  predicate Stops(ops: seq<Op>) { exists i :: 0 <= i < |ops| && ops[i].StopMatch? }

  // Only a stop command finishes a match.
  lemma {:induction false} FinishedIffStopped(state: MatchState, ops: seq<Op>)
    requires state != Finished
    ensures StateAfter(state, ops) == Finished <==> Stops(ops)
  {
    if ops != [] {
      var front := ops[..|ops| - 1];
      FinishedIffStopped(state, front);
      assert Stops(ops) <==> Stops(front) || ops[|ops| - 1].StopMatch?;
    }
  }

  predicate Revived(ops: seq<Op>, i: nat) {
    exists j :: i < j < |ops| && (ops[j].StartMatch? || ops[j].ResumeMatch?)
  }

  predicate PausesRevived(ops: seq<Op>) {
    forall i :: 0 <= i < |ops| && ops[i].PauseMatch? ==> Revived(ops, i)
  }

  lemma {:induction false} RevivedByLast(ops: seq<Op>)
    requires ops != []
    ensures var last, front := ops[|ops| - 1], ops[..|ops| - 1];
            PausesRevived(ops) <==>
              !last.PauseMatch? && (last.StartMatch? || last.ResumeMatch? || PausesRevived(front))
  {
    var last, front := |ops| - 1, ops[..|ops| - 1];
    if ops[last].StartMatch? || ops[last].ResumeMatch? {
      assert forall i :: 0 <= i < last ==> Revived(ops, i);
    } else {
      assert forall i: nat :: i < last ==> (Revived(ops, i) <==> Revived(front, i));
    }
  }

  // A running match is left running exactly by commands that never stop it and undo every pause.
  lemma {:induction false} StaysRunningIff(ops: seq<Op>)
    ensures StateAfter(Running, ops) == Running <==> !Stops(ops) && PausesRevived(ops)
  {
    if ops != [] {
      var front := ops[..|ops| - 1];
      StaysRunningIff(front);
      FinishedIffStopped(Running, front);
      FinishedIffStopped(Running, ops);
      RevivedByLast(ops);
      NeverUnstarted(front);
    }
  }

  lemma {:induction false} NeverUnstarted(ops: seq<Op>)
    ensures StateAfter(Running, ops) != NotStarted
  {
    if ops != [] {
      NeverUnstarted(ops[..|ops| - 1]);
    }
  }

  // ---------------------------------------------------------------- what every step keeps

  // The state the poll's own writes leave behind, given the commands that fell before the last of them.
  function Written(plan: Plan): MatchState {
    if plan.read.state == plan.desired.state then plan.read.state
    else if plan.desired.state == Finished || Stops(plan.before) then Finished
    else Running
  }

  function EndState(plan: Plan): MatchState { StateAfter(Written(plan), plan.since) }

  // Nothing is settled for a finished match before the match is finished.
  predicate Fair(s: System) {
    && (s.pending.Some? ==> s.pending.value == Running || s.pending.value == Finished)
    && (s.pending == Some(Finished) || s.reconciled == Some(Finished) ==> s.stored.state == Finished)
  }

  ghost predicate Consistent(s: System) {
    && (s.stored.accepting <==> s.stored.state == Running)
    && (s.reconciled.Some? ==> s.reconciled.value in s.applied)
    && Fair(s)
  }

  predicate AccessSettled(s: System, state: MatchState) {
    s.pending == Some(state) || (s.reconciled == Some(state) && state in s.applied)
  }

  // Wanting the match to run, the poll has read one that was not finished.
  predicate WantsRunning(s: System, plan: Plan) {
    plan.desired.state == Running ==> s.pending != Some(Finished) && s.reconciled != Some(Finished)
  }

  ghost predicate StageSound(s: System, stage: Stage) {
    match stage
    case Idle => true
    case ToStart(plan, _, stop) =>
      && plan.read.state == NotStarted && plan.before == [] && WantsRunning(s, plan)
      && plan.desired.state == (if stop.Some? then Finished else Running)
      && s.stored.state == StateAfter(NotStarted, plan.since)
    case ToStop(plan, _) => plan.desired.state == Finished && plan.read.state != Finished
    case ToAccess(plan) =>
      && s.stored.state == EndState(plan) && WantsRunning(s, plan)
      && (plan.read.state != plan.desired.state || ShouldReconcile(plan.desired) ==>
            AccessSettled(s, plan.desired.state))
      && (plan.read.state != plan.desired.state ==> plan.desired.state == Running || plan.desired.state == Finished)
  }

  ghost predicate Sound(x: State) { Consistent(x.sys) && StageSound(x.sys, x.stage) }

  lemma OrganizerKeepsConsistent(s: System, op: Op)
    requires Consistent(s)
    ensures Consistent(s.(stored := Apply(s.stored, op).0))
  {
  }

  lemma OrganizerKeepsStage(s: System, stage: Stage, op: Op)
    requires StageSound(s, stage)
    ensures StageSound(s.(stored := Apply(s.stored, op).0), NotedStage(stage, op))
  {
    ApplyMovesState(s.stored, op);
    match stage
    case Idle =>
    case ToStart(plan, _, _) => StateAfterNext(NotStarted, plan.since, op);
    case ToStop(_, _) =>
    case ToAccess(plan) => StateAfterNext(Written(plan), plan.since, op);
  }

  lemma OrganizerKeepsSound(w: Window, x: State, op: Op)
    requires Sound(x)
    ensures Sound(Step(w, x, Organizer(op)))
  {
    OrganizerKeepsConsistent(x.sys, op);
    OrganizerKeepsStage(x.sys, x.stage, op);
  }

  lemma ReadKeepsSound(w: Window, s: System, now: int)
    requires Consistent(s)
    ensures Sound(Read(s, w, now))
  {
  }

  // The poll's start leaves the match running, unless a command has stopped it since the read.
  lemma StartedState(m: Match, since: seq<Op>, at: int)
    requires m.state == StateAfter(NotStarted, since)
    ensures Apply(m, StartMatch(at)).0.state == if Stops(since) then Finished else Running
  {
    FinishedIffStopped(NotStarted, since);
  }

  lemma WrittenAfterStart(plan: Plan)
    requires plan.before == [] && plan.read.state == NotStarted && plan.desired.state == Running
    ensures EndState(Wrote(plan)) == if Stops(plan.since) then Finished else Running
  {
    assert plan.before + plan.since == plan.since;
  }

  lemma StartKeepsConsistent(s: System, at: int)
    requires Consistent(s)
    ensures Consistent(s.(stored := Apply(s.stored, StartMatch(at)).0))
  {
  }

  lemma StartKeepsSound(w: Window, x: State)
    requires Sound(x) && x.stage.ToStart?
    ensures Sound(Step(w, x, PollStart))
  {
    var plan, at := x.stage.plan, x.stage.at;
    StartKeepsConsistent(x.sys, at);
    StartedState(x.sys.stored, plan.since, at);
    if x.stage.stop.None? {
      WrittenAfterStart(plan);
    }
  }

  lemma StopKeepsSound(w: Window, x: State)
    requires Sound(x) && x.stage.ToStop?
    ensures Sound(Step(w, x, PollStop))
  {
  }

  lemma StepKeepsSound(w: Window, x: State, a: Action)
    requires Sound(x)
    ensures Sound(Step(w, x, a))
  {
    match a
    case Organizer(op) => OrganizerKeepsSound(w, x, op);
    case PollRead(now) => ReadKeepsSound(w, x.sys, now);
    case PollStart =>
      if x.stage.ToStart? {
        StartKeepsSound(w, x);
      }
    case PollStop =>
      if x.stage.ToStop? {
        StopKeepsSound(w, x);
      }
    case PollAccess(access) => AccessKeepsSound(w, x, access);
  }

  lemma AccessKeepsSound(w: Window, x: State, access: Access)
    requires Sound(x)
    ensures Sound(Step(w, x, PollAccess(access)))
  {
    if x.stage.ToAccess? {
      FinishedStays(x.stage.plan.since);
    }
  }

  // Over every interleaving: the stored match accepts submissions exactly when it is running, and the poll's
  // bookkeeping is as described.
  lemma {:induction false} EveryRunIsSound(w: Window, x: State, actions: seq<Action>)
    requires Sound(x)
    ensures Sound(Run(w, x, actions))
    decreases |actions|
  {
    if actions != [] {
      StepKeepsSound(w, x, actions[0]);
      EveryRunIsSound(w, Step(w, x, actions[0]), actions[1..]);
    }
  }

  lemma AcceptingIffRunning(w: Window, actions: seq<Action>)
    ensures var stored := Run(w, START, actions).sys.stored; stored.accepting <==> stored.state == Running
  {
    EveryRunIsSound(w, START, actions);
  }

  // Finished is absorbing, under organiser commands and the steps of polls alike, whenever they began.
  lemma {:induction false} FinishedForever(w: Window, x: State, actions: seq<Action>)
    requires x.sys.stored.state == Finished
    ensures Run(w, x, actions).sys.stored.state == Finished
    ensures Run(w, x, actions).sys.stored.endedAt == x.sys.stored.endedAt
    decreases |actions|
  {
    if actions != [] {
      FinishedForever(w, Step(w, x, actions[0]), actions[1..]);
    }
  }

  lemma StepKeepsFinishedAccess(w: Window, x: State, a: Action)
    requires Sound(x) && x.sys.stored.state == Finished && AccessSettled(x.sys, Finished)
    ensures AccessSettled(Step(w, x, a).sys, Finished)
  {
  }

  // Once access is settled for a finished match it stays settled.
  lemma {:induction false} FinishedAccessSettles(w: Window, x: State, actions: seq<Action>)
    requires Sound(x) && x.sys.stored.state == Finished && AccessSettled(x.sys, Finished)
    ensures AccessSettled(Run(w, x, actions).sys, Finished)
    decreases |actions|
  {
    if actions != [] {
      StepKeepsSound(w, x, actions[0]);
      StepKeepsFinishedAccess(w, x, actions[0]);
      FinishedForever(w, x, [actions[0]]);
      assert Run(w, x, [actions[0]]) == Run(w, Step(w, x, actions[0]), []);
      FinishedAccessSettles(w, Step(w, x, actions[0]), actions[1..]);
    }
  }

  // ---------------------------------------------------------------- how a poll ends

  // The commands that fell into the poll left its target state alone: none stopped the match before it was
  // started, and those after the last write lead back to the target.
  predicate Undisturbed(plan: Plan) {
    && (plan.desired.state == Running && plan.read.state != Running ==> !Stops(plan.before))
    && StateAfter(plan.desired.state, plan.since) == plan.desired.state
  }

  lemma ReachesTargetIff(plan: Plan)
    requires plan.read.state != plan.desired.state ==> plan.desired.state == Running || plan.desired.state == Finished
    ensures EndState(plan) == plan.desired.state <==> Undisturbed(plan)
  {
    FinishedStays(plan.since);
  }

  // In every run, the poll whose last step is due ends in the state it set out for exactly if no command
  // disturbed it; access for that state is then applied or pending; and a match left running or finished has
  // its access settled exactly if that is the state the poll set out for.
  lemma PollEnds(w: Window, actions: seq<Action>, access: Access)
    requires Run(w, START, actions).stage.ToAccess?
    ensures var x := Run(w, START, actions);
            var plan, after := x.stage.plan, Step(w, x, PollAccess(access)).sys;
            && (after.stored.state == plan.desired.state <==> Undisturbed(plan))
            && (ShouldReconcile(plan.desired) ==>
                  && AccessSettled(after, plan.desired.state)
                  && (after.stored.state == Running || after.stored.state == Finished ==>
                        (AccessSettled(after, after.stored.state) <==> Undisturbed(plan))))
  {
    EveryRunIsSound(w, START, actions);
    var x := Run(w, START, actions);
    var plan := x.stage.plan;
    assert x.stage == ToAccess(plan);
    ReachesTargetIff(plan);
    if ShouldReconcile(plan.desired) {
      SettledIff(x.sys, plan, access);
    }
  }

  lemma SettledIff(s: System, plan: Plan, access: Access)
    requires Consistent(s) && StageSound(s, ToAccess(plan)) && ShouldReconcile(plan.desired)
    ensures var after := ReconcilePending(s, plan.desired.state, access);
            && AccessSettled(after, plan.desired.state)
            && (after.stored.state == Running || after.stored.state == Finished ==>
                  (AccessSettled(after, after.stored.state) <==> after.stored.state == plan.desired.state))
  {
    FinishedStays(plan.since);
  }

  // ---------------------------------------------------------------- the plan's record of commands

  function Commands(actions: seq<Action>): seq<Op> {
    if actions == [] then []
    else (if actions[0].Organizer? then [actions[0].op] else []) + Commands(actions[1..])
  }

  function PlanOf(stage: Stage): Plan
    requires !stage.Idle?
  {
    stage.plan
  }

  function Heard(plan: Plan): seq<Op> { plan.before + plan.since }

  lemma StepRecords(w: Window, x: State, a: Action)
    requires !x.stage.Idle? && !a.PollAccess?
    ensures var y := Step(w, x, a);
            && !y.stage.Idle?
            && PlanOf(y.stage).read == PlanOf(x.stage).read && PlanOf(y.stage).desired == PlanOf(x.stage).desired
            && Heard(PlanOf(y.stage)) == Heard(PlanOf(x.stage)) + if a.Organizer? then [a.op] else []
  {
    var plan := PlanOf(x.stage);
    if a.Organizer? {
      assert plan.before + (plan.since + [a.op]) == Heard(plan) + [a.op];
    } else {
      assert Heard(Wrote(plan)) == Heard(plan) && Heard(plan) + [] == Heard(plan);
    }
  }

  lemma HeardMore(heard: seq<Op>, first: seq<Op>, rest: seq<Op>)
    ensures heard + first + rest == heard + (first + rest)
  {
  }

  // Until it ends, a poll's plan holds what it read and every command since.
  lemma {:induction false} PlanRecords(w: Window, x: State, actions: seq<Action>)
    requires !x.stage.Idle? && forall i :: 0 <= i < |actions| ==> !actions[i].PollAccess?
    ensures var y := Run(w, x, actions);
            && !y.stage.Idle?
            && PlanOf(y.stage).read == PlanOf(x.stage).read && PlanOf(y.stage).desired == PlanOf(x.stage).desired
            && Heard(PlanOf(y.stage)) == Heard(PlanOf(x.stage)) + Commands(actions)
    decreases |actions|
  {
    if actions == [] {
      assert Heard(PlanOf(x.stage)) + [] == Heard(PlanOf(x.stage));
    } else {
      var first := if actions[0].Organizer? then [actions[0].op] else [];
      StepRecords(w, x, actions[0]);
      PlanRecords(w, Step(w, x, actions[0]), actions[1..]);
      HeardMore(Heard(PlanOf(x.stage)), first, Commands(actions[1..]));
    }
  }

  // ---------------------------------------------------------------- effective at the end

  function Replay(m: Match, ops: seq<Op>): Match {
    if ops == [] then m else Apply(Replay(m, ops[..|ops| - 1]), ops[|ops| - 1]).0
  }

  predicate SameSchedule(a: Match, b: Match) {
    a.scheduledStart == b.scheduledStart && a.scheduledEnd == b.scheduledEnd && a.configured == b.configured
  }

  lemma ReplayNext(m: Match, ops: seq<Op>, op: Op)
    ensures Replay(m, ops + [op]) == Apply(Replay(m, ops), op).0
  {
    assert (ops + [op])[..|ops|] == ops;
  }

  lemma ApplyMovesSchedule(a: Match, b: Match, op: Op)
    requires SameSchedule(a, b)
    ensures SameSchedule(Apply(a, op).0, Apply(b, op).0)
    ensures !op.UpdateSchedule? ==> SameSchedule(Apply(a, op).0, a)
  {
  }

  // The stored schedule is the one the poll read, with the commands heard since.
  ghost predicate ScheduleHeard(x: State) {
    !x.stage.Idle? ==> SameSchedule(x.sys.stored, Replay(PlanOf(x.stage).read, Heard(PlanOf(x.stage))))
  }

  lemma StepKeepsSchedule(w: Window, x: State, a: Action)
    requires ScheduleHeard(x)
    ensures ScheduleHeard(Step(w, x, a))
  {
    if !x.stage.Idle? && !a.PollAccess? {
      StepRecords(w, x, a);
      var plan := PlanOf(x.stage);
      if a.Organizer? {
        ReplayNext(plan.read, Heard(plan), a.op);
        ApplyMovesSchedule(x.sys.stored, Replay(plan.read, Heard(plan)), a.op);
      } else {
        assert Heard(plan) + [] == Heard(plan);
      }
    }
  }

  lemma {:induction false} EveryRunHearsSchedule(w: Window, x: State, actions: seq<Action>)
    requires ScheduleHeard(x)
    ensures ScheduleHeard(Run(w, x, actions))
    decreases |actions|
  {
    if actions != [] {
      StepKeepsSchedule(w, x, actions[0]);
      EveryRunHearsSchedule(w, Step(w, x, actions[0]), actions[1..]);
    }
  }

  // In every run, the match a poll leaves behind is in its effective state at a given time exactly if the
  // commands heard, and nothing else, put it at rest in the schedule they left.
  lemma EffectiveAtEndIff(w: Window, actions: seq<Action>, access: Access, now: int)
    requires Run(w, START, actions).stage.ToAccess?
    ensures var x := Run(w, START, actions);
            var plan, after := x.stage.plan, Step(w, x, PollAccess(access)).sys.stored;
            var heard := Replay(plan.read, Heard(plan));
            && after.state == EndState(plan)
            && (ApplyWindow(after, w, now).state == after.state <==>
                  AtRest(EndState(plan), StartOf(heard, w), EndOf(heard, w), now))
  {
    EveryRunIsSound(w, START, actions);
    EveryRunHearsSchedule(w, START, actions);
    var x := Run(w, START, actions);
    var plan := x.stage.plan;
    assert x.stage == ToAccess(plan);
    EffectiveIff(Step(w, x, PollAccess(access)).sys.stored, w, now);
  }

  // ---------------------------------------------------------------- commands that do disturb a poll

  // Stopped after the read, the match ends finished, with access applied for a running match only.
  lemma StopDuringPoll(w: Window)
    ensures var actions := [Organizer(UpdateSchedule(Some(10), None)), PollRead(20), Organizer(StopMatch(21)),
                            PollStart, PollAccess(Succeeds)];
            var s := Run(w, START, actions).sys;
            s.stored.state == Finished && s.reconciled == Some(Running) && !AccessSettled(s, Finished)
  {
    var a, b, c, d, e := Organizer(UpdateSchedule(Some(10), None)), PollRead(20), Organizer(StopMatch(21)),
                         PollStart, PollAccess(Succeeds);
    FiveSteps(w, START, a, b, c, d, e);
  }

  // Started and paused after the read, the match is set running again by the poll.
  lemma PauseDuringPoll(w: Window)
    ensures var x := Run(w, START, [Organizer(UpdateSchedule(Some(10), None)), PollRead(20), Organizer(StartMatch(21)),
                                    Organizer(PauseMatch), PollStart]);
            x.sys.stored.state == Running && x.sys.stored.accepting
  {
    FiveSteps(w, START, Organizer(UpdateSchedule(Some(10), None)), PollRead(20), Organizer(StartMatch(21)),
              Organizer(PauseMatch), PollStart);
  }

  lemma FiveSteps(w: Window, x: State, a: Action, b: Action, c: Action, d: Action, e: Action)
    ensures Run(w, x, [a, b, c, d, e]) == Step(w, Step(w, Step(w, Step(w, Step(w, x, a), b), c), d), e)
  {
    assert [a, b, c, d, e][1..] == [b, c, d, e];
    FourSteps(w, Step(w, x, a), b, c, d, e);
  }

  lemma FourSteps(w: Window, x: State, a: Action, b: Action, c: Action, d: Action)
    ensures Run(w, x, [a, b, c, d]) == Step(w, Step(w, Step(w, Step(w, x, a), b), c), d)
  {
    assert [a, b, c, d][1..] == [b, c, d] && [b, c, d][1..] == [c, d] && [c, d][1..] == [d] && [d][1..] == [];
    var x2 := Step(w, Step(w, x, a), b);
    assert Run(w, x2, [c, d]) == Run(w, Step(w, x2, c), [d]);
  }

  // ---------------------------------------------------------------- a poll left to itself

  function Transition(stored: Match, desired: Match, now: int): Match {
    if desired.state == Running then Apply(stored, StartMatch(desired.startedAt.GetOr(now))).0
    else
      var started := if stored.state == NotStarted && desired.startedAt.Some?
                     then Apply(stored, StartMatch(desired.startedAt.value)).0 else stored;
      Apply(started, StopMatch(desired.endedAt.GetOr(now))).0
  }

  function Poll(s: System, w: Window, now: int, access: Access): System {
    var desired := ApplyWindow(s.stored, w, now);
    if s.stored.state == desired.state then
      var due := ShouldReconcile(desired) && s.reconciled != Some(desired.state);
      ReconcilePending(if due then s.(pending := Some(desired.state)) else s, desired.state, access)
    else if desired.state == Running || desired.state == Finished then
      var moved := s.(stored := Transition(s.stored, desired, now), pending := Some(desired.state));
      ReconcilePending(moved, desired.state, access)
    else s
  }

  // The steps of a poll, of which those that do not apply do nothing.
  function PollScript(now: int, access: Access): seq<Action> { [PollRead(now), PollStart, PollStop,
                      PollAccess(access)] }

  // With no command in between, the steps add up to the whole poll.
  lemma PollIsRun(w: Window, s: System, now: int, access: Access)
    ensures Run(w, State(s, Idle), PollScript(now, access)) == State(Poll(s, w, now, access), Idle)
  {
    FourSteps(w, State(s, Idle), PollRead(now), PollStart, PollStop, PollAccess(access));
  }

  lemma PollStores(s: System, w: Window, now: int, access: Access)
    ensures var desired := ApplyWindow(s.stored, w, now);
            Poll(s, w, now, access).stored
              == if s.stored.state != desired.state && (desired.state == Running || desired.state == Finished)
                 then Transition(s.stored, desired, now) else s.stored
  {
  }

  // Left to itself, a poll brings the stored match to its effective state, whatever the access service does.
  lemma PollReachesEffectiveState(s: System, w: Window, now: int, access: Access)
    ensures var desired, after := ApplyWindow(s.stored, w, now), Poll(s, w, now, access).stored;
            && after.state == desired.state
            && ApplyWindow(after, w, now).state == after.state
            && SameSchedule(after, s.stored)
            && (after.state != s.stored.state ==>
                  && after.startedAt == (if desired.state == Running then Some(desired.startedAt.GetOr(now))
                                         else if s.stored.state == NotStarted then desired.startedAt
                                         else s.stored.startedAt)
                  && (desired.state == Finished ==> after.endedAt == desired.endedAt))
  {
    PollStores(s, w, now, access);
    TransitionReaches(s.stored, w, now);
  }

  lemma TransitionReaches(m: Match, w: Window, now: int)
    ensures var desired := ApplyWindow(m, w, now);
            var after := Transition(m, desired, now);
            m.state != desired.state ==>
              && (desired.state == Running || desired.state == Finished)
              && after.state == desired.state && ApplyWindow(after, w, now).state == after.state
              && SameSchedule(after, m)
              && after.startedAt == (if desired.state == Running then Some(desired.startedAt.GetOr(now))
                                     else if m.state == NotStarted then desired.startedAt else m.startedAt)
              && (desired.state == Finished ==> after.endedAt == desired.endedAt)
  {
  }

  lemma PollSettlesAccess(s: System, w: Window, now: int, access: Access)
    requires Consistent(s)
    ensures var after := Poll(s, w, now, access);
            ShouldReconcile(ApplyWindow(s.stored, w, now)) ==> AccessSettled(after, after.stored.state)
    ensures var after := Poll(s, w, now, access);
            ShouldReconcile(ApplyWindow(s.stored, w, now)) && access != Fails ==>
              after.reconciled == Some(after.stored.state) && after.stored.state in after.applied
  {
  }

  // After any run that leaves the monitor between polls, one poll left to itself puts everything right.
  lemma NextPollSettles(w: Window, actions: seq<Action>, now: int, access: Access)
    requires Run(w, START, actions).stage == Idle
    ensures var x := Run(w, START, actions);
            var y := Run(w, x, PollScript(now, access));
            && y.stage == Idle
            && y.sys.stored.state == ApplyWindow(x.sys.stored, w, now).state
            && ApplyWindow(y.sys.stored, w, now).state == y.sys.stored.state
            && (ShouldReconcile(ApplyWindow(x.sys.stored, w, now)) ==> AccessSettled(y.sys, y.sys.stored.state))
  {
    EveryRunIsSound(w, START, actions);
    var s := Run(w, START, actions).sys;
    assert Run(w, START, actions) == State(s, Idle);
    PollIsRun(w, s, now, access);
    PollReachesEffectiveState(s, w, now, access);
    PollSettlesAccess(s, w, now, access);
  }

  // ---------------------------------------------------------------- the monitor itself

  class MatchWindowMonitor {
    const store: G.MemoryGameStore
    var pending: Option<MatchState>
    var reconciled: Option<MatchState>
    ghost var applied: set<MatchState>

    ghost function Model(): System
      reads this, store
    {
      System(store.stored, pending, reconciled, applied)
    }

    constructor (store: G.MemoryGameStore)
      ensures this.store == store && pending == None && reconciled == None && applied == {}
    {
      this.store := store;
      pending, reconciled, applied := None, None, {};
    }

    method ReconcilePendingAccess(state: MatchState, access: Access) returns (failed: bool)
      modifies this
      ensures Model() == ReconcilePending(old(Model()), state, access)
      ensures failed <==> old(pending) == Some(state) && access == Fails
    {
      if pending != Some(state) {
        return false;
      }
      if access == Fails {
        return true;
      }
      pending := None;
      reconciled := Some(state);
      applied := applied + {state};
      failed := false;
    }

    // The poll with nothing else going on.
    method ReconcileMatchWindowState(w: Window, now: int, access: Access) returns (failed: bool)
      modifies this, store`stored
      ensures Model() == Poll(old(Model()), w, now, access)
      ensures failed <==> access == Fails && pending == Some(ApplyWindow(old(store.stored), w, now).state)
    {
      failed := false;
      var current := store.stored;
      var desired := ApplyWindow(current, w, now);
      if current.state == desired.state {
        if ShouldReconcile(desired) && reconciled != Some(desired.state) {
          pending := Some(desired.state);
        }
        failed := ReconcilePendingAccess(desired.state, access);
      } else if desired.state == Running {
        var _ := store.Perform(StartMatch(desired.startedAt.GetOr(now)));
        pending := Some(desired.state);
        failed := ReconcilePendingAccess(desired.state, access);
      } else if desired.state == Finished {
        if current.state == NotStarted && desired.startedAt.Some? {
          var _ := store.Perform(StartMatch(desired.startedAt.value));
        }
        var _ := store.Perform(StopMatch(desired.endedAt.GetOr(now)));
        pending := Some(desired.state);
        failed := ReconcilePendingAccess(desired.state, access);
      }
    }
  }
}
