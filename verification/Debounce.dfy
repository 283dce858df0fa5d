/**
 The debounced scoreboard recompute. Every critical section under the scoring mutex is
 one atomic step; stopping a timer may fail, in which case its callback still runs.
 */
module Debounce {
  import opened Common

  datatype State = State(
    pending: bool,
    inFlight: bool,
    timer: Option<nat>,
    outstanding: set<nat>,        // timers whose callback may still run
    running: map<nat, set<nat>>,  // recomputes in progress, each with the requests made before it started
    uncovered: set<nat>,          // requests not covered by a successful recompute that started after them
    next: nat)                    // source of fresh identities

  const INITIAL := State(false, false, None, {}, map[], {}, 0)

  // Stop the current timer, if any; then arm a new one.
  function Rearm(s: State, stopped: bool): State {
    var outstanding := if s.timer.Some? && stopped then s.outstanding - {s.timer.value} else s.outstanding;
    s.(timer := Some(s.next), outstanding := outstanding + {s.next}, next := s.next + 1)
  }

  function Schedule(s: State, stopped: bool): State {
    var requested := s.(pending := true, uncovered := s.uncovered + {s.next}, next := s.next + 1);
    if s.inFlight then requested else Rearm(requested, stopped)
  }

  function Begin(s: State, id: nat): State {
    if id !in s.outstanding then s
    else
      var fired := s.(outstanding := s.outstanding - {id});
      if s.inFlight then fired.(pending := true)
      else fired.(pending := false, inFlight := true, timer := None,
                  running := s.running[s.next := s.uncovered], next := s.next + 1)
  }

  function Finish(s: State, run: nat, ok: bool, stopped: bool): State {
    if run !in s.running then s
    else
      var done := s.(inFlight := false, running := s.running - {run});
      if !ok then Rearm(done.(pending := true), stopped)
      else
        var credited := done.(uncovered := s.uncovered - s.running[run]);
        if s.pending then Rearm(credited, stopped) else credited
  }

  datatype Action =
    | Request(stopped: bool)
    | Fire(id: nat)
    | Complete(run: nat, ok: bool, stopped: bool)

  function Step(s: State, a: Action): State {
    match a
    case Request(stopped) => Schedule(s, stopped)
    case Fire(id) => Begin(s, id)
    case Complete(run, ok, stopped) => Finish(s, run, ok, stopped)
  }

  function Run(s: State, actions: seq<Action>): State
    decreases |actions|
  {
    if actions == [] then s else Run(Step(s, actions[0]), actions[1..])
  }

  // ---------------------------------------------------------------- the server's fields

  class ScoringRecompute {
    var pending: bool
    var inFlight: bool
    var timer: Option<nat>
    var next: nat
    ghost var outstanding: set<nat>
    ghost var running: map<nat, set<nat>>
    ghost var uncovered: set<nat>

    ghost function Model(): State
      reads this
    {
      State(pending, inFlight, timer, outstanding, running, uncovered, next)
    }

    constructor ()
      ensures Model() == INITIAL
    {
      pending, inFlight, timer, next := false, false, None, 0;
      outstanding, running, uncovered := {}, map[], {};
    }

    method AfterFunc(stopped: bool)
      modifies this
      ensures Model() == Rearm(old(Model()), stopped)
    {
      if timer.Some? && stopped {
        outstanding := outstanding - {timer.value};
      }
      timer := Some(next);
      outstanding := outstanding + {next};
      next := next + 1;
    }

    method ScheduleScoreboardRecompute(stopped: bool)
      modifies this
      ensures Model() == Schedule(old(Model()), stopped)
    {
      pending := true;
      uncovered := uncovered + {next};
      next := next + 1;
      if inFlight {
        return;
      }
      AfterFunc(stopped);
    }

    // The callback's first critical section; `proceed` says that it goes on to recompute.
    method BeginScheduledRecompute(id: nat) returns (proceed: bool, run: nat)
      requires id in outstanding
      modifies this
      ensures Model() == Begin(old(Model()), id)
      ensures proceed == !old(inFlight) && run == old(next)
    {
      run := next;
      outstanding := outstanding - {id};
      if inFlight {
        pending := true;
        return false, run;
      }
      pending := false;
      inFlight := true;
      timer := None;
      running := running[next := uncovered];
      next := next + 1;
      proceed := true;
    }

    // The callback's last critical section.
    method EndScheduledRecompute(run: nat, ok: bool, stopped: bool)
      requires run in running
      modifies this
      ensures Model() == Finish(old(Model()), run, ok, stopped)
    {
      ghost var covered := running[run];
      inFlight := false;
      running := running - {run};
      if !ok {
        pending := true;
        AfterFunc(stopped);
        return;
      }
      uncovered := uncovered - covered;
      if pending {
        AfterFunc(stopped);
      }
    }
  }

  // ---------------------------------------------------------------- safety over every run

  ghost predicate Held(s: State, request: nat) {
    s.pending || exists run :: run in s.running && request in s.running[run]
  }

  ghost predicate Safe(s: State) {
    // at most one recompute runs, and the flag says whether one does
    && |s.running| == (if s.inFlight then 1 else 0)
    // a pending request is waiting for a recompute in flight or for a callback to come
    && (s.pending ==> s.inFlight || s.outstanding != {})
    // no request is lost
    && (forall request :: request in s.uncovered ==> Held(s, request))
  }

  lemma RearmKeepsSafe(s: State, stopped: bool)
    requires |s.running| == (if s.inFlight then 1 else 0)
    requires forall request :: request in s.uncovered ==> Held(s, request)
    ensures Safe(Rearm(s, stopped))
  {
    var t := Rearm(s, stopped);
    assert s.next in t.outstanding;
    assert forall request :: Held(s, request) ==> Held(t, request);
  }

  lemma StepKeepsSafe(s: State, a: Action)
    requires Safe(s)
    ensures Safe(Step(s, a))
  {
    match a
    case Request(stopped) =>
      if !s.inFlight {
        RearmKeepsSafe(s.(pending := true, uncovered := s.uncovered + {s.next}, next := s.next + 1), stopped);
      }
    case Fire(id) =>
      if id in s.outstanding && !s.inFlight {
        var t := Begin(s, id);
        assert s.running == map[] && t.running.Keys == {s.next} && t.running[s.next] == s.uncovered;
      }
    case Complete(run, ok, stopped) =>
      if run in s.running {
        OnlyRun(s, run);
        var done := s.(inFlight := false, running := s.running - {run});
        assert done.running.Keys == {};
        if !ok {
          RearmKeepsSafe(done.(pending := true), stopped);
        } else {
          var credited := done.(uncovered := s.uncovered - s.running[run]);
          assert forall request :: request in credited.uncovered ==> Held(s, request);
          if s.pending {
            RearmKeepsSafe(credited, stopped);
          }
        }
      }
  }

  lemma OnlyRun(s: State, run: nat)
    requires Safe(s) && run in s.running
    ensures s.inFlight && s.running.Keys == {run}
  {
    var others := s.running.Keys - {run};
    assert |s.running.Keys| == |s.running|;
    assert s.running.Keys == others + {run};
    assert |others| == 0;
  }

  // In every interleaving of requests, callbacks and recomputes, with every timer that fires despite being stopped.
  lemma {:induction false} EveryRunIsSafe(s: State, actions: seq<Action>)
    requires Safe(s)
    ensures Safe(Run(s, actions))
    decreases |actions|
  {
    if actions != [] {
      StepKeepsSafe(s, actions[0]);
      EveryRunIsSafe(Step(s, actions[0]), actions[1..]);
    }
  }

  lemma ReachableIsSafe(actions: seq<Action>)
    ensures Safe(Run(INITIAL, actions))
  {
    EveryRunIsSafe(INITIAL, actions);
  }

  // Nothing pending and nothing in flight means every request has been covered.
  lemma QuietMeansCovered(actions: seq<Action>)
    ensures var s := Run(INITIAL, actions); !s.pending && !s.inFlight ==> s.uncovered == {}
  {
    ReachableIsSafe(actions);
    var s := Run(INITIAL, actions);
    assert !s.inFlight ==> s.running == map[];
    assert !s.pending && !s.inFlight ==> forall request :: !Held(s, request);
  }

  lemma RunCons(s: State, a: Action, rest: seq<Action>)
    ensures Run(s, [a] + rest) == Run(Step(s, a), rest)
  {
    assert ([a] + rest)[1..] == rest;
  }

  lemma DrainIdle(s: State) returns (rest: seq<Action>)
    requires Safe(s) && !s.inFlight
    ensures |rest| <= 2 && forall a :: a in rest ==> !a.Request?
    ensures var t := Run(s, rest); t.uncovered == {} && !t.pending && !t.inFlight
  {
    if s.pending {
      var id :| id in s.outstanding;
      rest := [Fire(id)] + [Complete(s.next, true, true)];
      var t := Begin(s, id);
      assert s.next in t.running && t.running[s.next] == s.uncovered == t.uncovered;
      RunCons(s, Fire(id), [Complete(s.next, true, true)]);
      RunCons(t, Complete(s.next, true, true), []);
    } else {
      rest := [];
      assert s.running == map[];
      assert forall request :: !Held(s, request);
    }
  }

  // From any reachable state at most three steps, and no new request, cover everything asked for so far and go quiet.
  lemma Drain(s: State) returns (rest: seq<Action>)
    requires Safe(s)
    ensures |rest| <= 3 && forall a :: a in rest ==> !a.Request?
    ensures var t := Run(s, rest); t.uncovered == {} && !t.pending && !t.inFlight
  {
    if s.inFlight {
      var run :| run in s.running;
      OnlyRun(s, run);
      var finish := Complete(run, true, true);
      StepKeepsSafe(s, finish);
      var tail := DrainIdle(Step(s, finish));
      RunCons(s, finish, tail);
      rest := [finish] + tail;
    } else {
      rest := DrainIdle(s);
    }
  }

  // ---------------------------------------------------------------- what it means to be covered

  // Identities are handed out in order, so a recompute started after the requests it is credited with.
  ghost predicate InTime(s: State) {
    && (forall r :: r in s.uncovered ==> r < s.next)
    && (forall run :: run in s.running ==> run < s.next)
    && (forall run, r :: run in s.running && r in s.running[run] ==> r < run)
  }

  lemma {:induction false} EveryRunIsInTime(s: State, actions: seq<Action>)
    requires InTime(s)
    ensures InTime(Run(s, actions))
    decreases |actions|
  {
    if actions != [] {
      StepIsInTime(s, actions[0]);
      EveryRunIsInTime(Step(s, actions[0]), actions[1..]);
    }
  }

  lemma StepIsInTime(s: State, a: Action)
    requires InTime(s)
    ensures InTime(Step(s, a))
  {
  }

  // Every request is recorded as uncovered, and leaves the record only when a recompute that began after it succeeds.
  lemma CoveredOnlyBySuccess(s: State, a: Action, request: nat)
    requires InTime(s)
    ensures a.Request? ==> s.next in Step(s, a).uncovered
    ensures request in s.uncovered && request !in Step(s, a).uncovered ==>
              a.Complete? && a.ok && a.run in s.running && request < a.run
  {
  }
}
