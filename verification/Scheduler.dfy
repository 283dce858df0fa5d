/**
 The interval scheduler: one background loop per start or update, each with its own
 cancellable context, all sharing the scheduler's fields under a mutex. A loop that was
 cancelled may still be inside a tick, and may still see its timer fire.
 */
module Scheduler {
  import opened Common

  datatype RunState = Running | Stopped

  datatype Status = Status(
    state: RunState,
    intervalSeconds: int,
    nextRunAt: Option<int>,
    lastRunAt: Option<int>,
    lastTickId: int,
    lastError: string)

  datatype TickResult = TickOk(id: int) | TickError(message: string)

  // A loop waits for its timer, is inside a tick, or has the tick's result and its next wait in hand.
  datatype LoopStage = Sleeping | Ticking | Returned(now: int, elapsed: int, wait: int, result: TickResult)

  datatype Loop = Loop(cancelled: bool, stage: LoopStage)

  datatype State = State(
    status: Status,
    interval: int,
    cancel: Option<nat>,     // the loop whose cancel function is stored
    loops: map<nat, Loop>,   // loops that have not returned
    next: nat)

  // The match lookup that guards a start.
  datatype Gate = NoGate | LookupFailed | NotStarted | MatchRunning | MatchPaused | MatchFinished

  predicate Opens(gate: Gate) { gate == NoGate || gate == MatchRunning }

  function Launch(s: State): State {
    s.(cancel := Some(s.next), loops := s.loops[s.next := Loop(false, Sleeping)], next := s.next + 1)
  }

  function CancelCurrent(s: State): State {
    if s.cancel.Some? && s.cancel.value in s.loops
    then s.(loops := s.loops[s.cancel.value := s.loops[s.cancel.value].(cancelled := true)])
    else s
  }

  function Start(s: State, gate: Gate, now: int): State {
    if s.status.state == Running && s.cancel.Some? then s
    else if !Opens(gate) then s
    else
      Launch(s.(status := s.status.(state := Running, intervalSeconds := s.interval,
                                    nextRunAt := Some(now + s.interval), lastError := "")))
  }

  function Stop(s: State): State {
    CancelCurrent(s).(cancel := None,
                      status := s.status.(state := Stopped, intervalSeconds := s.interval, nextRunAt := None))
  }

  function Update(s: State, interval: int, now: int): State {
    if interval < 1 then s
    else
      var updated := s.(interval := interval, status := s.status.(intervalSeconds := interval));
      if s.status.state == Running
      then Launch(CancelCurrent(updated).(status := updated.status.(nextRunAt := Some(now + interval))))
      else updated
  }

  function Close(s: State): State { CancelCurrent(s).(cancel := None) }

  // The timer case of the loop's select; it may be chosen even after cancellation.
  function TimerFires(s: State, id: nat): State {
    if id in s.loops && s.loops[id].stage == Sleeping
    then s.(loops := s.loops[id := s.loops[id].(stage := Ticking)]) else s
  }

  // The done case of the loop's select.
  function ContextDone(s: State, id: nat): State {
    if id in s.loops && s.loops[id].cancelled && s.loops[id].stage == Sleeping then s.(loops := s.loops - {id}) else s
  }

  function NextWait(interval: int, elapsed: int): int { if interval - elapsed < 0 then 0 else interval - elapsed }

  // The tick returns; the loop works out its next wait from the interval before it takes the mutex.
  function TickReturns(s: State, id: nat, now: int, elapsed: int, result: TickResult): State {
    if id !in s.loops || s.loops[id].stage != Ticking then s
    else
      var returned := Returned(now, elapsed, NextWait(s.interval, elapsed), result);
      s.(loops := s.loops[id := s.loops[id].(stage := returned)])
  }

  // The critical section after a tick.
  function TickDone(s: State, id: nat): State {
    if id !in s.loops || !s.loops[id].stage.Returned? then s
    else if s.loops[id].cancelled || s.status.state != Running then s.(loops := s.loops - {id})
    else
      var r := s.loops[id].stage;
      var ran := s.status.(lastRunAt := Some(r.now), nextRunAt := Some(r.now + r.wait), intervalSeconds := s.interval);
      s.(status := match r.result
                   case TickOk(tick) => ran.(lastTickId := tick, lastError := "")
                   case TickError(message) => ran.(lastError := message),
         loops := s.loops[id := s.loops[id].(stage := Sleeping)])
  }

  datatype Action =
    | DoStart(gate: Gate, now: int)
    | DoStop
    | DoUpdate(interval: int, now: int)
    | DoClose
    | DoTimer(id: nat)
    | DoContextDone(id: nat)
    | DoReturn(id: nat, now: int, elapsed: int, result: TickResult)
    | DoTick(id: nat)

  function Step(s: State, a: Action): State {
    match a
    case DoStart(gate, now) => Start(s, gate, now)
    case DoStop => Stop(s)
    case DoUpdate(interval, now) => Update(s, interval, now)
    case DoClose => Close(s)
    case DoTimer(id) => TimerFires(s, id)
    case DoContextDone(id) => ContextDone(s, id)
    case DoReturn(id, now, elapsed, result) => TickReturns(s, id, now, elapsed, result)
    case DoTick(id) => TickDone(s, id)
  }

  function Run(s: State, actions: seq<Action>): State
    decreases |actions|
  {
    if actions == [] then s else Run(Step(s, actions[0]), actions[1..])
  }

  // A scheduler restored from a persisted status, before any start.
  function Restored(status: Status, interval: int): State { State(status, interval, None, map[], 0) }

  // ---------------------------------------------------------------- the scheduler's fields

  class IntervalScheduler {
    var status: Status
    var interval: int
    var cancel: Option<nat>
    var loops: map<nat, Loop>
    var next: nat

    ghost function Model(): State
      reads this
    {
      State(status, interval, cancel, loops, next)
    }

    constructor (persisted: Status, interval: int, autoStart: bool, gate: Gate, now: int)
      ensures Model() == if persisted.state == Running || autoStart
                         then Start(Restored(persisted, interval), gate, now)
                         else Restored(persisted, interval)
    {
      status, this.interval, cancel, loops, next := persisted, interval, None, map[], 0;
      new;
      if status.state == Running || autoStart {
        StartLocked(gate, now);
      }
    }

    method Spawn()
      modifies this
      ensures Model() == Launch(old(Model()))
    {
      cancel := Some(next);
      loops := loops[next := Loop(false, Sleeping)];
      next := next + 1;
    }

    method CancelLoop()
      modifies this
      ensures Model() == CancelCurrent(old(Model()))
    {
      if cancel.Some? && cancel.value in loops {
        loops := loops[cancel.value := loops[cancel.value].(cancelled := true)];
      }
    }

    method StartLocked(gate: Gate, now: int)
      modifies this
      ensures Model() == Start(old(Model()), gate, now)
    {
      if status.state == Running && cancel.Some? {
        return;
      }
      if !Opens(gate) {
        return;
      }
      status := status.(state := Running, intervalSeconds := interval, nextRunAt := Some(now + interval),
                        lastError := "");
      Spawn();
    }

    method StopLocked()
      modifies this
      ensures Model() == Stop(old(Model()))
    {
      CancelLoop();
      cancel := None;
      status := status.(state := Stopped, intervalSeconds := interval, nextRunAt := None);
    }

    method UpdateInterval(interval: int, now: int)
      modifies this
      ensures Model() == Update(old(Model()), interval, now)
    {
      if interval < 1 {
        return;
      }
      this.interval := interval;
      status := status.(intervalSeconds := interval);
      if status.state == Running {
        CancelLoop();
        status := status.(nextRunAt := Some(now + interval));
        Spawn();
      }
    }

    method CloseScheduler()
      modifies this
      ensures Model() == Close(old(Model()))
    {
      CancelLoop();
      cancel := None;
    }

    // What a loop does once its tick returns, before it takes the mutex.
    method WorkOutWait(id: nat, now: int, elapsed: int, result: TickResult)
      requires id in loops && loops[id].stage == Ticking
      modifies `loops
      ensures Model() == TickReturns(old(Model()), id, now, elapsed, result)
    {
      var nextWait := interval - elapsed;
      if nextWait < 0 {
        nextWait := 0;
      }
      loops := loops[id := loops[id].(stage := Returned(now, elapsed, nextWait, result))];
    }

    // What it does under the mutex; `exits` tells it to return.
    method FinishTick(id: nat) returns (exits: bool)
      requires id in loops && loops[id].stage.Returned?
      modifies this
      ensures Model() == TickDone(old(Model()), id)
      ensures exits <==> old(loops)[id].cancelled || old(status).state != Running
    {
      if loops[id].cancelled || status.state != Running {
        loops := loops - {id};
        return true;
      }
      var r := loops[id].stage;
      status := status.(lastRunAt := Some(r.now), nextRunAt := Some(r.now + r.wait), intervalSeconds := interval);
      match r.result {
        case TickOk(tick) => status := status.(lastTickId := tick, lastError := "");
        case TickError(message) => status := status.(lastError := message);
      }
      loops := loops[id := loops[id].(stage := Sleeping)];
      exits := false;
    }
  }

  // ---------------------------------------------------------------- safety over every run

  predicate Live(s: State, id: nat) { id in s.loops && !s.loops[id].cancelled }

  ghost predicate Safe(s: State) {
    // a stored cancel function belongs to a live loop of a running scheduler
    && (s.cancel.Some? ==> s.status.state == Running && Live(s, s.cancel.value))
    // and no other loop is live
    && (forall id: nat :: Live(s, id) ==> s.cancel == Some(id))
    && (forall id :: id in s.loops ==> id < s.next)
    // a wait worked out by a live loop is still the one its interval asks for
    && (forall id: nat :: Live(s, id) && s.loops[id].stage.Returned? ==>
          s.loops[id].stage.wait == NextWait(s.interval, s.loops[id].stage.elapsed))
  }

  lemma StepKeepsSafe(s: State, a: Action)
    requires Safe(s)
    ensures Safe(Step(s, a))
  {
    var t := Step(s, a);
    assert forall id: nat :: Live(t, id) && id < s.next ==> Live(s, id);
  }

  lemma {:induction false} EveryRunIsSafe(s: State, actions: seq<Action>)
    requires Safe(s)
    ensures Safe(Run(s, actions))
    decreases |actions|
  {
    if actions != [] {
      StepKeepsSafe(s, actions[0]);
      EveryRunIsSafe(Step(s, actions[0]), actions[1..]);
    }
  }

  function LiveLoops(s: State): set<nat> { set id | id in s.loops && !s.loops[id].cancelled }

  // In every interleaving: one live loop when a cancel function is stored, none otherwise.
  lemma OneLiveLoop(persisted: Status, interval: int, actions: seq<Action>)
    ensures var s := Run(Restored(persisted, interval), actions);
            && LiveLoops(s) == (if s.cancel.Some? then {s.cancel.value} else {})
            && (s.cancel.Some? ==> s.status.state == Running)
  {
    EveryRunIsSafe(Restored(persisted, interval), actions);
    var s := Run(Restored(persisted, interval), actions);
    assert forall id: nat :: id in LiveLoops(s) <==> Live(s, id);
  }

  // A loop that was cancelled, or has returned, stays that way.
  predicate Retired(s: State, id: nat) { id < s.next && !Live(s, id) }

  lemma {:induction false} RetiredForever(s: State, id: nat, actions: seq<Action>)
    requires Retired(s, id)
    ensures Retired(Run(s, actions), id)
    decreases |actions|
  {
    if actions != [] {
      RetiredForever(Step(s, actions[0]), id, actions[1..]);
    }
  }

  // Once cancelled, a loop's tick may finish at any later time but never writes status again.
  lemma CancelledLoopIsSilent(s: State, id: nat, actions: seq<Action>, a: Action)
    requires Retired(s, id) && LoopAction(a) && a.id == id
    ensures var later := Run(s, actions);
            Step(later, a) == later.(loops := Step(later, a).loops)
  {
    RetiredForever(s, id, actions);
  }

  // The interval is read outside the mutex, yet every status a loop writes announces the wait that the
  // interval in force at the write asks for: an update in between has cancelled the loop.
  lemma WrittenWaitIsCurrent(persisted: Status, interval: int, actions: seq<Action>, id: nat)
    ensures var s := Run(Restored(persisted, interval), actions);
            Live(s, id) && s.loops[id].stage.Returned? ==>
              var r := s.loops[id].stage;
              TickDone(s, id).status.nextRunAt
                == Some(if s.interval > r.elapsed then r.now + s.interval - r.elapsed else r.now)
  {
    EveryRunIsSafe(Restored(persisted, interval), actions);
  }

  // Stop, close and update retire the loop that was live.
  lemma LiveLoopIsRetired(s: State, a: Action)
    requires Safe(s) && s.cancel.Some?
    requires a == DoStop || a == DoClose || (a.DoUpdate? && a.interval >= 1)
    ensures Retired(Step(s, a), s.cancel.value)
  {
  }

  predicate LoopAction(a: Action) { a.DoTimer? || a.DoContextDone? || a.DoReturn? || a.DoTick? }

  // With no cancel function stored, nothing the leftover loops do changes the scheduler.
  lemma {:induction false} QuietWithoutCancel(s: State, actions: seq<Action>)
    requires Safe(s) && s.cancel.None? && forall i :: 0 <= i < |actions| ==> LoopAction(actions[i])
    ensures Run(s, actions) == s.(loops := Run(s, actions).loops)
    decreases |actions|
  {
    if actions != [] {
      assert LoopAction(actions[0]);
      if actions[0].DoTick? {
        assert !Live(s, actions[0].id);
      }
      var t := Step(s, actions[0]);
      assert t == s.(loops := t.loops);
      StepKeepsSafe(s, actions[0]);
      QuietWithoutCancel(t, actions[1..]);
    }
  }

  lemma StoppedStaysStopped(s: State, actions: seq<Action>)
    requires Safe(s) && forall i :: 0 <= i < |actions| ==> LoopAction(actions[i])
    ensures var later := Run(Stop(s), actions);
            later.status == Stop(s).status && later.status.state == Stopped && later.status.nextRunAt == None
  {
    StepKeepsSafe(s, DoStop);
    QuietWithoutCancel(Stop(s), actions);
  }

  // ---------------------------------------------------------------- what the operations do

  // A start is refused unless no match is consulted or the match is running; a scheduler whose loop is live is left
  // alone; any other start puts one new loop in charge and announces its first run.
  lemma StartReads(s: State, gate: Gate, now: int)
    requires Safe(s)
    ensures var t := Start(s, gate, now);
            if s.cancel.Some? || (gate != NoGate && gate != MatchRunning) then t == s
            else
              && LiveLoops(t) == {s.next} && t.cancel == Some(s.next)
              && t.status == s.status.(state := Running, intervalSeconds := s.interval,
                                       nextRunAt := Some(now + s.interval), lastError := "")
  {
    if !(s.cancel.Some? || (gate != NoGate && gate != MatchRunning)) {
      NoneLive(s);
      var t := s.(status := s.status.(state := Running, intervalSeconds := s.interval,
                                      nextRunAt := Some(now + s.interval), lastError := ""));
      assert t.loops == CancelCurrent(s).loops;
      OnlyLaunched(t);
    }
  }

  // Stopping leaves no live loop; an update is refused below a second, replaces the live loop of a running
  // scheduler and otherwise only sets the interval; closing leaves the status as it was.
  lemma OtherOperationsRead(s: State, interval: int, now: int)
    requires Safe(s)
    ensures LiveLoops(Stop(s)) == {} && Stop(s).cancel == None
    ensures Stop(s).status == s.status.(state := Stopped, intervalSeconds := s.interval, nextRunAt := None)
    ensures interval < 1 ==> Update(s, interval, now) == s
    ensures interval >= 1 ==>
              && Update(s, interval, now).interval == interval
              && Update(s, interval, now).status.intervalSeconds == interval
    ensures interval >= 1 && s.status.state == Running ==>
              && LiveLoops(Update(s, interval, now)) == {s.next}
              && Update(s, interval, now).status.nextRunAt == Some(now + interval)
    ensures interval >= 1 && s.status.state != Running ==> LiveLoops(Update(s, interval, now)) == LiveLoops(s)
    ensures LiveLoops(Close(s)) == {} && Close(s).status == s.status
  {
    NoneLive(s);
    if interval >= 1 && s.status.state == Running {
      var updated := s.(interval := interval, status := s.status.(intervalSeconds := interval));
      var t := CancelCurrent(updated).(status := updated.status.(nextRunAt := Some(now + interval)));
      assert t.loops == CancelCurrent(s).loops;
      OnlyLaunched(t);
    }
  }

  lemma NoneLive(s: State)
    requires Safe(s)
    ensures forall id: nat :: id in CancelCurrent(s).loops ==> CancelCurrent(s).loops[id].cancelled
  {
    forall id: nat | id in CancelCurrent(s).loops ensures CancelCurrent(s).loops[id].cancelled {
      assert Live(s, id) ==> s.cancel == Some(id);
    }
  }

  // A loop launched where none is live is the only live one.
  lemma OnlyLaunched(s: State)
    requires forall id: nat :: id in s.loops ==> s.loops[id].cancelled
    ensures LiveLoops(Launch(s)) == {s.next}
  {
    forall id: nat ensures id in LiveLoops(Launch(s)) <==> id == s.next {
    }
  }

  // The live loop waits, ticks, and then writes down when it ran, when it runs next and how the tick went, and
  // waits again. A cancelled loop that waits or has ticked can only return.
  lemma LoopRound(s: State, id: nat, now: int, elapsed: int, result: TickResult)
    requires Safe(s) && id in s.loops && s.loops[id].stage == Sleeping
    ensures var t := Run(s, [DoTimer(id), DoReturn(id, now, elapsed, result), DoTick(id)]);
            if s.loops[id].cancelled then t == s.(loops := s.loops - {id})
            else
              && t.loops == s.loops && t.cancel == s.cancel && t.interval == s.interval && t.next == s.next
              && t.status == Status(Running, s.interval,
                                    Some(if s.interval > elapsed then now + s.interval - elapsed else now), Some(now),
                                    if result.TickOk? then result.id else s.status.lastTickId,
                                    if result.TickOk? then "" else result.message)
    ensures ContextDone(s, id) == if s.loops[id].cancelled then s.(loops := s.loops - {id}) else s
  {
    var actions := [DoTimer(id), DoReturn(id, now, elapsed, result), DoTick(id)];
    var ticking := TimerFires(s, id);
    var returned := TickReturns(ticking, id, now, elapsed, result);
    var later, last := [DoReturn(id, now, elapsed, result), DoTick(id)], [DoTick(id)];
    assert actions[1..] == later && later[1..] == last && last[1..] == [];
    assert Run(returned, last) == TickDone(returned, id) by {
      assert Run(TickDone(returned, id), []) == TickDone(returned, id);
    }
    assert Run(ticking, later) == Run(returned, last);
    assert !s.loops[id].cancelled ==> Live(s, id);
    assert returned.loops == s.loops[id := returned.loops[id]];
  }
}
