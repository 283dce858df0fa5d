/**
 The per-tick service state of a (tick, team, challenge): how it is summarised from
 checker runs, and how the in-memory store and the Postgres store keep it up to date
 with every recorded run.
 */
module ServiceState {
  import opened Common
  import opened Text
  import opened CheckerBatch

  datatype RunStatus = Success | Failed | Skipped | OtherStatus

  datatype ServiceStatus = Ok | Recovering | FlagNotFound | Faulty | Down | Unknown

  // A reported state as the normaliser reads it.
  datatype Report = Blank | Unrecognized | Reported(state: ServiceStatus)

  datatype Key = Key(tick: int, team: int, challenge: int)

  datatype Run = Run(key: Key, phase: Phase, status: RunStatus, message: string)

  datatype Record = Record(run: Run, report: Report, reportMessage: string)

  datatype Summary = Summary(status: ServiceStatus, phase: Option<Phase>, tick: int, message: string)

  // ---------------------------------------------------------------- summarising a group of runs

  datatype PhaseState = PhaseState(run: Option<Run>, success: bool, failed: bool)

  const NO_RUN := PhaseState(None, false, false)

  function StatusRank(status: RunStatus): nat {
    match status
    case Failed => 3
    case Skipped => 2
    case Success => 1
    case OtherStatus => 0
  }

  function Note(state: PhaseState, run: Run): PhaseState {
    var replace := state.run.None? || StatusRank(run.status) > StatusRank(state.run.value.status);
    PhaseState(if replace then Some(run) else state.run,
               state.success || run.status == Success,
               state.failed || run.status == Failed)
  }

  // What one pass over the runs leaves behind for one phase.
  function PhaseOf(runs: seq<Run>, phase: Phase): PhaseState {
    if runs == [] then NO_RUN
    else
      var before, last := PhaseOf(runs[..|runs| - 1], phase), runs[|runs| - 1];
      if last.phase == phase then Note(before, last) else before
  }

  lemma {:induction false} PhaseAbsent(runs: seq<Run>, phase: Phase)
    requires forall i :: 0 <= i < |runs| ==> runs[i].phase != phase
    ensures PhaseOf(runs, phase) == NO_RUN
  {
    if runs != [] {
      PhaseAbsent(runs[..|runs| - 1], phase);
    }
  }

  method CollectTickPhaseStates(runs: seq<Run>) returns (phases: map<Phase, PhaseState>)
    ensures forall phase :: (if phase in phases then phases[phase] else NO_RUN) == PhaseOf(runs, phase)
  {
    phases := map[];
    for i := 0 to |runs|
      invariant forall phase :: (if phase in phases then phases[phase] else NO_RUN) == PhaseOf(runs[..i], phase)
    {
      var run := runs[i];
      assert runs[..i + 1][..i] == runs[..i];
      var state := if run.phase in phases then phases[run.phase] else NO_RUN;
      if state.run.None? || StatusRank(run.status) > StatusRank(state.run.value.status) {
        state := state.(run := Some(run));
      }
      match run.status {
        case Success => state := state.(success := true);
        case Failed => state := state.(failed := true);
        case _ =>
      }
      phases := phases[run.phase := state];
    }
    assert runs[..|runs|] == runs;
  }

  predicate Broke(s: PhaseState) { s.failed || (s.run.Some? && !s.success) }

  // Phases in order; the cycle is still running if a phase is missing before any has broken.
  predicate StillRunning(put: PhaseState, get: PhaseState, check: PhaseState) {
    !Broke(put) && (put.run.None? || (!Broke(get) && (get.run.None? || (!Broke(check) && check.run.None?))))
  }

  function NextMissing(put: PhaseState, get: PhaseState, check: PhaseState): Option<Phase> {
    if put.run.None? then Some(Put)
    else if get.run.None? then Some(Get)
    else if check.run.None? then Some(Check)
    else None
  }

  function FirstBroken(put: PhaseState, get: PhaseState, check: PhaseState): Option<(Phase, PhaseState)> {
    if Broke(put) then Some((Put, put))
    else if Broke(get) then Some((Get, get))
    else if Broke(check) then Some((Check, check))
    else None
  }

  function DominantPhase(put: PhaseState, get: PhaseState, check: PhaseState): Option<Phase> {
    match FirstBroken(put, get, check)
    case Some(broken) => Some(broken.0)
    case None =>
      if put.run.Some? then Some(Put) else if get.run.Some? then Some(Get)
      else if check.run.Some? then Some(Check) else None
  }

  function PhaseMessage(state: PhaseState, fallback: string): string {
    if state.run.Some? && Trim(GoSpace, state.run.value.message) != "" then Trim(GoSpace, state.run.value.message)
    else fallback
  }

  const INCOMPLETE := "service did not complete the latest checker cycle"

  function Summarize(runs: seq<Run>, tick: int): Summary {
    if runs == [] then Summary(Unknown, None, tick, "awaiting first checker run")
    else SummarizePhases(PhaseOf(runs, Put), PhaseOf(runs, Get), PhaseOf(runs, Check), tick)
  }

  function SummarizePhases(put: PhaseState, get: PhaseState, check: PhaseState, tick: int): Summary {
    if StillRunning(put, get, check) then
      Summary(Unknown, NextMissing(put, get, check), tick, "checker cycle is still running")
    else if put.success && get.success && check.success then
      Summary(Ok, Some(Check), tick, "service passed storage, retrieval, and functionality checks")
    else if !put.success && get.success && check.success then
      Summary(Recovering, Some(Put), tick,
              PhaseMessage(put, "flag storage failed but retrieval and functionality still passed"))
    else if put.success && !get.success then
      Summary(FlagNotFound, Some(Get), tick, PhaseMessage(get, "checker could not retrieve the stored flag"))
    else if put.success && get.success && !check.success then
      Summary(Faulty, Some(Check), tick, PhaseMessage(check, "service functionality check failed"))
    else
      Summary(Down, DominantPhase(put, get, check), tick,
              match FirstBroken(put, get, check)
              case Some(broken) => PhaseMessage(broken.1, INCOMPLETE)
              case None => INCOMPLETE)
  }

  // ---------------------------------------------------------------- the two refresh rules

  function InferredPhase(status: ServiceStatus): Option<Phase> {
    match status
    case Recovering => Some(Put)
    case FlagNotFound => Some(Get)
    case Unknown => None
    case _ => Some(Check)
  }

  function ReportedMessage(status: ServiceStatus, message: string): string {
    if Trim(GoSpace, message) != "" then Trim(GoSpace, message)
    else
      match status
      case Ok => "checker reported the service healthy."
      case Recovering => "checker reported a recovering service state."
      case FlagNotFound => "checker reported the stored flag missing."
      case Faulty => "checker reported the service functionality degraded."
      case Down => "checker reported the service unavailable."
      case Unknown => "checker reported the latest service state."
  }

  function FromReport(r: Record, status: ServiceStatus): Summary {
    Summary(status, InferredPhase(status), r.run.key.tick, ReportedMessage(status, r.reportMessage))
  }

  // Both stores list a group's runs newest first.
  function Group(runs: seq<Run>, key: Key): seq<Run> {
    if runs == [] then []
    else (if runs[0].key == key then [runs[0]] else []) + Group(runs[1..], key)
  }

  lemma GroupCons(r: Run, runs: seq<Run>)
    ensures Group([r] + runs, r.key) == [r] + Group(runs, r.key)
    ensures forall key :: key != r.key ==> Group([r] + runs, key) == Group(runs, key)
  {
    assert ([r] + runs)[1..] == runs;
  }

  datatype Store = Store(runs: seq<Run>, states: map<Key, Summary>)

  const EMPTY := Store([], map[])

  function Regrouped(s: Store, key: Key): map<Key, Summary> {
    s.states[key := Summarize(Group(s.runs, key), key.tick)]
  }

  function RefreshMemory(s: Store, r: Record): map<Key, Summary> {
    var key := r.run.key;
    if key in s.states && r.run.status == Skipped && r.report == Blank then s.states
    else
      match r.report
      case Reported(status) => s.states[key := FromReport(r, status)]
      case _ => Regrouped(s, key)
  }

  function RefreshPostgres(s: Store, r: Record): map<Key, Summary> {
    var key := r.run.key;
    match r.report
    case Reported(status) => s.states[key := FromReport(r, status)]
    case _ => if r.run.status == Skipped && key in s.states then s.states else Regrouped(s, key)
  }

  function WithRun(s: Store, r: Record): Store { s.(runs := [r.run] + s.runs) }

  function RecordMemory(s: Store, r: Record): Store {
    WithRun(s, r).(states := RefreshMemory(WithRun(s, r), r))
  }

  function RecordPostgres(s: Store, r: Record): Store {
    WithRun(s, r).(states := RefreshPostgres(WithRun(s, r), r))
  }

  // The rules differ on one kind of record only: skipped, with a report nobody recognises, over an existing state.
  lemma RefreshAgreesIff(s: Store, r: Record)
    ensures RefreshMemory(s, r) == RefreshPostgres(s, r) <==>
            !(&& r.run.status == Skipped && r.report == Unrecognized && r.run.key in s.states
              && Summarize(Group(s.runs, r.run.key), r.run.key.tick) != s.states[r.run.key])
  {
    var key := r.run.key;
    assert key in s.states ==> (Regrouped(s, key) == s.states <==> Regrouped(s, key)[key] == s.states[key]);
  }

  // A recognised report, then a skipped run whose report nobody recognises.
  lemma UnrecognizedReportSeparates() returns (first: Record, second: Record)
    ensures RecordMemory(RecordMemory(EMPTY, first), second) != RecordPostgres(RecordPostgres(EMPTY, first), second)
  {
    var key := Key(1, 1, 1);
    first := Record(Run(key, Put, Skipped, ""), Reported(Ok), "");
    second := Record(Run(key, Put, Skipped, ""), Unrecognized, "");
    var s := RecordMemory(EMPTY, first);
    assert s == RecordPostgres(EMPTY, first) && s.runs == [first.run] && s.states[key].status == Ok;
    OnlySkipped(first.run, second.run, key);
  }

  lemma OnlySkipped(a: Run, b: Run, key: Key)
    requires a.key == key && b.key == key && a.phase == Put && b.phase == Put
    requires a.status == Skipped && b.status == Skipped
    ensures Summarize(Group([b] + [a], key), key.tick).status != Ok
  {
    var runs := [b] + [a];
    GroupCons(a, []);
    assert [a] + [] == [a];
    GroupCons(b, [a]);
    PhaseAbsent(runs, Get);
    PhaseAbsent(runs, Check);
  }

  function AllMemory(s: Store, records: seq<Record>): Store
    decreases |records|
  {
    if records == [] then s else AllMemory(RecordMemory(s, records[0]), records[1..])
  }

  function AllPostgres(s: Store, records: seq<Record>): Store
    decreases |records|
  {
    if records == [] then s else AllPostgres(RecordPostgres(s, records[0]), records[1..])
  }

  // Both stores keep the same runs and the same states over every sequence of records with recognised reports.
  lemma {:induction false} StoresAgree(s: Store, records: seq<Record>)
    requires forall r :: r in records ==> r.report != Unrecognized
    ensures AllMemory(s, records) == AllPostgres(s, records)
    decreases |records|
  {
    if records != [] {
      RefreshAgreesIff(WithRun(s, records[0]), records[0]);
      StoresAgree(RecordMemory(s, records[0]), records[1..]);
    }
  }

  // ---------------------------------------------------------------- what a summary says

  predicate Occurs(runs: seq<Run>, phase: Phase, status: RunStatus) {
    exists i :: 0 <= i < |runs| && runs[i].phase == phase && runs[i].status == status
  }

  predicate HasRun(runs: seq<Run>, phase: Phase) { exists i :: 0 <= i < |runs| && runs[i].phase == phase }

  // The run kept for a phase: none ranks higher, with failed over skipped over success over anything else, and of
  // equals the first.
  ghost predicate Kept(runs: seq<Run>, phase: Phase, i: nat)
    requires i < |runs|
  {
    && runs[i].phase == phase
    && (forall j :: 0 <= j < |runs| && runs[j].phase == phase ==> Weight(runs[j].status) <= Weight(runs[i].status))
    && (forall j :: 0 <= j < i && runs[j].phase == phase ==> Weight(runs[j].status) < Weight(runs[i].status))
  }

  function Weight(status: RunStatus): nat {
    if status == Failed then 3 else if status == Skipped then 2 else if status == Success then 1 else 0
  }

  lemma {:induction false} PhaseFlags(runs: seq<Run>, phase: Phase)
    ensures var p := PhaseOf(runs, phase);
            && (p.success <==> Occurs(runs, phase, Success)) && (p.failed <==> Occurs(runs, phase, Failed))
            && (p.run.None? <==> !HasRun(runs, phase))
  {
    if runs != [] {
      PhaseFlags(runs[..|runs| - 1], phase);
      LastRun(runs, phase);
    }
  }

  lemma {:induction false} PhaseKeeps(runs: seq<Run>, phase: Phase) returns (i: nat)
    requires HasRun(runs, phase)
    ensures i < |runs| && Kept(runs, phase, i) && PhaseOf(runs, phase).run == Some(runs[i])
  {
    var front, last := runs[..|runs| - 1], |runs| - 1;
    PhaseFlags(front, phase);
    LastRun(runs, phase);
    assert forall j :: 0 <= j < |front| ==> front[j] == runs[j];
    if HasRun(front, phase) {
      i := PhaseKeeps(front, phase);
      if runs[last].phase == phase && Weight(runs[last].status) > Weight(runs[i].status) {
        i := last;
      }
    } else {
      assert forall j :: 0 <= j < |front| ==> front[j].phase != phase;
      i := last;
    }
  }

  lemma PhaseOfReads(runs: seq<Run>, phase: Phase)
    ensures var p := PhaseOf(runs, phase);
            && (p.success <==> Occurs(runs, phase, Success)) && (p.failed <==> Occurs(runs, phase, Failed))
            && (p.run.None? <==> !HasRun(runs, phase))
            && (p.run.Some? ==> exists i: nat :: i < |runs| && Kept(runs, phase, i) && runs[i] == p.run.value)
  {
    PhaseFlags(runs, phase);
    if HasRun(runs, phase) {
      var i := PhaseKeeps(runs, phase);
    }
  }

  lemma LastRun(runs: seq<Run>, phase: Phase)
    requires runs != []
    ensures var front, last := runs[..|runs| - 1], runs[|runs| - 1];
            && (HasRun(runs, phase) <==> HasRun(front, phase) || last.phase == phase)
            && forall status :: Occurs(runs, phase, status) <==>
                 Occurs(front, phase, status) || (last.phase == phase && last.status == status)
  {
    var front := runs[..|runs| - 1];
    assert forall j :: 0 <= j < |front| ==> front[j] == runs[j];
  }

  // A phase has broken when one of its runs failed, or it has runs and none succeeded.
  predicate HasBroken(runs: seq<Run>, phase: Phase) {
    Occurs(runs, phase, Failed) || (HasRun(runs, phase) && !Occurs(runs, phase, Success))
  }

  // The status of a group of runs, from which phases have runs, successes and failures.
  lemma SummaryReads(runs: seq<Run>, tick: int)
    requires runs != []
    ensures var put, get, check := Occurs(runs, Put, Success), Occurs(runs, Get, Success), Occurs(runs, Check, Success);
            var running :=
              !HasBroken(runs, Put)
              && (!HasRun(runs, Put)
                  || (!HasBroken(runs, Get)
                      && (!HasRun(runs, Get) || (!HasBroken(runs, Check) && !HasRun(runs, Check)))));
            var summary := Summarize(runs, tick);
            && summary.tick == tick
            && summary.status == (if running then Unknown
                                  else if put && get && check then Ok
                                  else if get && check then Recovering
                                  else if put && !get then FlagNotFound
                                  else if put && get then Faulty
                                  else Down)
  {
    PhaseOfReads(runs, Put);
    PhaseOfReads(runs, Get);
    PhaseOfReads(runs, Check);
  }

  // The phase a summary points at: the first one missing of a running cycle, or the one that decided a finished cycle.
  lemma SummaryPointsAt(runs: seq<Run>, tick: int)
    requires runs != []
    ensures var s := Summarize(runs, tick);
            && (s.status in {Ok, Faulty} ==> s.phase == Some(Check))
            && (s.status == Recovering ==> s.phase == Some(Put))
            && (s.status == FlagNotFound ==> s.phase == Some(Get))
            && (s.status == Unknown ==> s.phase.Some? && FirstWithoutRun(runs, s.phase.value))
  {
    PhaseIsRead(runs, Put);
    PhaseIsRead(runs, Get);
    PhaseIsRead(runs, Check);
  }

  // A service that is down has a broken phase, and its summary points at the first.
  lemma DownPointsAt(runs: seq<Run>, tick: int)
    requires runs != [] && Summarize(runs, tick).status == Down
    ensures var phase := Summarize(runs, tick).phase; phase.Some? && BrokenFirst(runs, phase.value)
  {
    PhaseIsRead(runs, Put);
    PhaseIsRead(runs, Get);
    PhaseIsRead(runs, Check);
  }

  // What a summary says: a finding comes in the words of the run kept for the phase it points at, if there are any.
  lemma SummarySays(runs: seq<Run>, tick: int, i: nat)
    requires runs != [] && i < |runs|
    requires Summarize(runs, tick).status !in {Ok, Unknown}
    requires var phase := Summarize(runs, tick).phase; phase.Some? && Kept(runs, phase.value, i)
    requires Trim(GoSpace, runs[i].message) != ""
    ensures Summarize(runs, tick).message == Trim(GoSpace, runs[i].message)
  {
    var phase := Summarize(runs, tick).phase.value;
    KeptIsRun(runs, phase, i);
    if Summarize(runs, tick).status == Down {
      DownPointsAt(runs, tick);
      PhaseIsRead(runs, phase);
    }
    FindingSays(PhaseOf(runs, Put), PhaseOf(runs, Get), PhaseOf(runs, Check), tick, PhaseOf(runs, phase), runs[i]);
  }

  lemma FindingSays(put: PhaseState, get: PhaseState, check: PhaseState, tick: int, named: PhaseState, run: Run)
    requires named.run == Some(run) && Trim(GoSpace, run.message) != ""
    requires var s := SummarizePhases(put, get, check, tick);
             && s.status !in {Ok, Unknown} && s.phase.Some?
             && named == (match s.phase.value case Put => put case Get => get case Check => check)
             && (s.status == Down ==> FirstBroken(put, get, check).Some?)
    ensures SummarizePhases(put, get, check, tick).message == Trim(GoSpace, run.message)
  {
  }

  lemma KeptIsRun(runs: seq<Run>, phase: Phase, i: nat)
    requires i < |runs| && Kept(runs, phase, i)
    ensures PhaseOf(runs, phase).run == Some(runs[i])
  {
    var k := PhaseKeeps(runs, phase);
    assert i == k;
  }

  predicate FirstWithoutRun(runs: seq<Run>, phase: Phase) {
    && !HasRun(runs, phase)
    && (phase == Get || phase == Check ==> HasRun(runs, Put)) && (phase == Check ==> HasRun(runs, Get))
  }

  predicate BrokenFirst(runs: seq<Run>, phase: Phase) {
    && HasBroken(runs, phase)
    && (phase == Get || phase == Check ==> !HasBroken(runs, Put)) && (phase == Check ==> !HasBroken(runs, Get))
  }

  lemma PhaseIsRead(runs: seq<Run>, phase: Phase)
    ensures var p := PhaseOf(runs, phase);
            && (Broke(p) <==> HasBroken(runs, phase)) && (p.run.Some? <==> HasRun(runs, phase))
            && (p.success || p.failed ==> p.run.Some?)
  {
    PhaseOfReads(runs, phase);
  }

  // A recognised report overrules the runs, in either store, for its own key alone.
  lemma ReportOverrules(s: Store, r: Record)
    requires r.report.Reported?
    ensures r.run.key in RecordMemory(s, r).states && r.run.key in RecordPostgres(s, r).states
    ensures RecordMemory(s, r).states[r.run.key].status == r.report.state
    ensures RecordPostgres(s, r).states[r.run.key].status == r.report.state
    ensures RecordMemory(s, r).states[r.run.key].tick == r.run.key.tick
    ensures var state := RecordMemory(s, r).states[r.run.key];
            && state.phase == (if r.report.state == Recovering then Some(Put)
                               else if r.report.state == FlagNotFound then Some(Get)
                               else if r.report.state == Unknown then None
                               else Some(Check))
            && (Trim(GoSpace, r.reportMessage) != "" ==> state.message == Trim(GoSpace, r.reportMessage))
            && RecordPostgres(s, r).states[r.run.key] == state
    ensures forall key :: key != r.run.key ==>
              (key in RecordMemory(s, r).states <==> key in s.states)
              && (key in s.states ==> RecordMemory(s, r).states[key] == s.states[key])
  {
  }
}
