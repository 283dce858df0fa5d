/**
 The match lifecycle: the stored match, its operations, and the window that is laid over it
 at read time. Times are whole seconds.
 */
module MatchWindow {
  import opened Common

  datatype MatchState = NotStarted | Running | Paused | Finished

  datatype Match = Match(
    state: MatchState,
    startedAt: Option<int>,
    endedAt: Option<int>,
    scheduledStart: Option<int>,
    scheduledEnd: Option<int>,
    configured: bool,
    accepting: bool)

  // The window from the environment, used while no schedule has been configured.
  datatype Window = Window(start: Option<int>, end: Option<int>)

  const FRESH := Match(NotStarted, None, None, None, None, false, false)

  predicate Reached(at: Option<int>, now: int) { at.Some? && at.value <= now }

  function Or(a: Option<int>, b: Option<int>): Option<int> { if a.Some? then a else b }

  function StartOf(m: Match, w: Window): Option<int> {
    Or(m.scheduledStart, if m.configured then None else w.start)
  }

  function EndOf(m: Match, w: Window): Option<int> {
    Or(m.scheduledEnd, if m.configured then None else w.end)
  }

  function ApplyWindow(m: Match, w: Window, now: int): Match {
    var start, end := StartOf(m, w), EndOf(m, w);
    var s := m.(scheduledStart := start, scheduledEnd := end);
    if m.state == Finished then
      s.(accepting := false,
         endedAt := if m.endedAt.None? && Reached(end, now) then end else m.endedAt,
         startedAt := if m.startedAt.None? && Reached(start, now) then start else m.startedAt)
    else if m.state == Paused then s.(accepting := false)
    else if Reached(end, now) then
      s.(state := Finished, accepting := false,
         endedAt := Or(m.endedAt, end),
         startedAt := if m.startedAt.None? && start.Some? && start.value <= end.value then start else m.startedAt)
    else if m.state == Running then s.(accepting := true)
    else if Reached(start, now) then
      s.(state := Running, accepting := true, startedAt := Or(m.startedAt, start))
    else s.(state := NotStarted, accepting := false)
  }

  // ---------------------------------------------------------------- stored operations

  datatype Failure = ContestOver | ContestNotStarted

  datatype Op =
    | StartMatch(now: int)
    | PauseMatch
    | ResumeMatch
    | StopMatch(now: int)
    | UpdateSchedule(start: Option<int>, end: Option<int>)

  function Apply(m: Match, op: Op): (Match, Option<Failure>) {
    match op
    case StartMatch(now) =>
      if m.state == Running then (m, None)
      else if m.state == Finished then (m, Some(ContestOver))
      else (Match(Running, Some(now), None, m.scheduledStart, m.scheduledEnd, m.configured, true), None)
    case PauseMatch =>
      if m.state == Finished then (m, Some(ContestOver))
      else if m.state == NotStarted then (m, Some(ContestNotStarted))
      else (m.(state := Paused, accepting := false), None)
    case ResumeMatch =>
      if m.state == Finished then (m, Some(ContestOver))
      else if m.state != Paused then (m, None)
      else (m.(state := Running, accepting := true), None)
    case StopMatch(now) =>
      if m.state == Finished then (m, None)
      else (m.(state := Finished, endedAt := Some(now), accepting := false), None)
    case UpdateSchedule(start, end) =>
      (m.(scheduledStart := start, scheduledEnd := end, configured := true), None)
  }

  // ---------------------------------------------------------------- the effective state

  lemma AcceptsExactlyWhenRunning(m: Match, w: Window, now: int)
    ensures ApplyWindow(m, w, now).accepting <==> ApplyWindow(m, w, now).state == Running
  {
  }

  function Rank(state: MatchState): nat {
    match state
    case NotStarted => 0
    case Running => 1
    case Paused => 1
    case Finished => 2
  }

  // As time advances over a fixed stored match, its effective state never moves backwards.
  lemma NeverBackwards(m: Match, w: Window, t1: int, t2: int)
    requires t1 <= t2
    ensures Rank(ApplyWindow(m, w, t1).state) <= Rank(ApplyWindow(m, w, t2).state)
    ensures ApplyWindow(m, w, t1).state == Paused <==> ApplyWindow(m, w, t2).state == Paused
    ensures ApplyWindow(m, w, t1).state == Finished ==> ApplyWindow(m, w, t2).state == Finished
  {
  }

  // A window that closes before it opens: the start is filled in only on a second reading.
  predicate LateStart(m: Match, w: Window, now: int) {
    var start, end := StartOf(m, w), EndOf(m, w);
    && (m.state == NotStarted || m.state == Running) && m.startedAt.None?
    && Reached(start, now) && Reached(end, now) && end.value < start.value
  }

  lemma IdempotentIff(m: Match, w: Window, now: int)
    ensures var once := ApplyWindow(m, w, now);
            ApplyWindow(once, w, now) == once <==> !LateStart(m, w, now)
  {
  }

  lemma IdempotentForOrderedWindow(m: Match, w: Window, now: int)
    requires var start, end := StartOf(m, w), EndOf(m, w); start.Some? && end.Some? ==> start.value <= end.value
    ensures var once := ApplyWindow(m, w, now); ApplyWindow(once, w, now) == once
  {
    IdempotentIff(m, w, now);
  }

  lemma BackwardsWindowIsNotIdempotent()
    ensures var w := Window(Some(20), Some(10));
            var once := ApplyWindow(FRESH, w, 30);
            once.startedAt == None && ApplyWindow(once, w, 30).startedAt == Some(20)
  {
  }

  // The stored state is already the effective one exactly when no window edge it reacts to has been reached.
  predicate AtRest(state: MatchState, start: Option<int>, end: Option<int>, now: int) {
    match state
    case NotStarted => !Reached(start, now) && !Reached(end, now)
    case Running => !Reached(end, now)
    case _ => true
  }

  lemma EffectiveIff(m: Match, w: Window, now: int)
    ensures ApplyWindow(m, w, now).state == m.state <==> AtRest(m.state, StartOf(m, w), EndOf(m, w), now)
  {
  }

  // The effective state in the fields themselves: the stored schedule counts, or the configured window while none
  // has been stored; an edge counts from its own second on.
  lemma EffectiveReads(m: Match, w: Window, now: int)
    ensures var start := if m.scheduledStart.Some? || m.configured then m.scheduledStart else w.start;
            var end := if m.scheduledEnd.Some? || m.configured then m.scheduledEnd else w.end;
            var begun, ended := start.Some? && start.value <= now, end.Some? && end.value <= now;
            var e := ApplyWindow(m, w, now);
            && e.state == (if m.state == Finished || m.state == Paused then m.state
                           else if ended then Finished
                           else if m.state == Running || begun then Running
                           else NotStarted)
            && e.scheduledStart == start && e.scheduledEnd == end && e.configured == m.configured
            && e.endedAt == (if m.endedAt.None? && ended && m.state != Paused then end else m.endedAt)
            && (m.startedAt.Some? ==> e.startedAt == m.startedAt)
            && (m.startedAt.None? && m.state == NotStarted && begun && !ended ==> e.startedAt == start)
  {
  }

  // Which commands are refused, and what a command that is not refused does to the times and the schedule.
  lemma ApplyReads(m: Match, op: Op)
    ensures var after := Apply(m, op);
            && (after.1 == Some(ContestOver) <==>
                  m.state == Finished && (op.StartMatch? || op.PauseMatch? || op.ResumeMatch?))
            && (after.1 == Some(ContestNotStarted) <==> m.state == NotStarted && op.PauseMatch?)
            && (after.1.Some? ==> after.0 == m)
            && (op.UpdateSchedule? ==>
                  after.0 == m.(scheduledStart := op.start, scheduledEnd := op.end, configured := true))
            && (!op.UpdateSchedule? ==>
                  after.0.scheduledStart == m.scheduledStart && after.0.scheduledEnd == m.scheduledEnd
                  && after.0.configured == m.configured)
            && (op.StartMatch? && (m.state == NotStarted || m.state == Paused) ==>
                  after.0.startedAt == Some(op.now) && after.0.endedAt == None)
            && (op.StopMatch? && m.state != Finished ==> after.0.endedAt == Some(op.now))
            && (!(op.StartMatch? && (m.state == NotStarted || m.state == Paused)) ==> after.0.startedAt == m.startedAt)
            && (!(op.StartMatch? || op.StopMatch?) ==> after.0.endedAt == m.endedAt)
  {
  }
}
